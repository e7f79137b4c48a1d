/** The metadata projections of src/services/metadata.py and their wrapping in
    src/endpoints/metadata.py. */
module Metadata {
  import opened Schemas
  import opened Tables
  import Query
  import Builtins

  /** `all_countries`: one choice per country row, labelled by its label and valued by
      its id. */
  function AllCountries(countries: seq<Country>): (r: seq<Choice>)
    ensures |r| == |countries|
    ensures forall i :: 0 <= i < |countries| ==> r[i] == Choice(countries[i].caption, countries[i].id)
  {
    seq(|countries|, i requires 0 <= i < |countries| => Choice(countries[i].caption, countries[i].id))
  }

  /** The values offered are exactly the country keys. */
  lemma AllCountriesValues(countries: seq<Country>)
    ensures (set c | c in AllCountries(countries) :: c.value) == Keys(countries, CountryKey)
  {
    var r := AllCountries(countries);
    forall k | k in Keys(countries, CountryKey) ensures k in (set c | c in r :: c.value) {
      var i :| 0 <= i < |countries| && CountryKey(countries[i]) == k;
      assert r[i] in r;
    }
  }

  function InCountry(countryId: int): City -> bool {
    (c: City) => c.country == countryId
  }

  function CityChoice(c: City): Choice {
    Choice(c.caption, c.id)
  }

  /** `cities_of_countries(db, country_id)`: the cities of that country, in storage order,
      as label/id choices. Every city offered is of that country and every city of that
      country is offered. */
  function CitiesOfCountries(cities: seq<City>, countryId: int): (r: seq<Choice>)
    ensures forall k :: 0 <= k < |r| ==> exists i :: 0 <= i < |cities| && cities[i].country == countryId && r[k] == CityChoice(cities[i])
    ensures forall i :: 0 <= i < |cities| && cities[i].country == countryId ==> CityChoice(cities[i]) in r
  {
    var rows := Query.Where(cities, InCountry(countryId));
    var r := seq(|rows|, k requires 0 <= k < |rows| => CityChoice(rows[k]));
    assert forall k :: 0 <= k < |rows| ==> r[k] == CityChoice(rows[k]) && rows[k] in cities;
    assert forall i :: 0 <= i < |cities| && cities[i].country == countryId ==> cities[i] in rows;
    assert forall c :: c in rows ==> CityChoice(c) in r by {
      forall c | c in rows ensures CityChoice(c) in r {
        var k :| 0 <= k < |rows| && rows[k] == c;
        assert r[k] == CityChoice(c);
      }
    }
    r
  }

  /** The gender list of `user_metadata`: one entry per member name, in declaration
      order, labelled by Python `capitalize` of the name. */
  function GenderChoices(): (r: seq<GenderChoice>)
    ensures |r| == |GenderMembers|
    ensures forall i :: 0 <= i < |r| ==>
              r[i].value == GenderMembers[i].Name() && r[i].caption == Builtins.Capitalize(GenderMembers[i].Name())
  {
    seq(|GenderMembers|, i requires 0 <= i < |GenderMembers| =>
      GenderChoice(Builtins.Capitalize(GenderMembers[i].Name()), GenderMembers[i].Name()))
  }

  /** A string is the capitalisation of another when it agrees with it character by
      character. */
  lemma CapitalizeIs(s: string, t: string)
    requires |s| == |t| && |s| > 0 && t[0] == Builtins.Upper(s[0])
    requires forall i :: 0 < i < |s| ==> t[i] == Builtins.Lower(s[i])
    ensures Builtins.Capitalize(s) == t
  {
  }

  /** The four entries the frontend receives. */
  lemma GenderChoicesValues()
    ensures GenderChoices() == [GenderChoice("Male", "MALE"), GenderChoice("Female", "FEMALE"),
                                GenderChoice("Other", "OTHER"), GenderChoice("Undisclosed", "UNDISCLOSED")]
  {
    CapitalizeIs("MALE", "Male");
    CapitalizeIs("FEMALE", "Female");
    CapitalizeIs("OTHER", "Other");
    CapitalizeIs("UNDISCLOSED", "Undisclosed");
  }

  /** The `data` of `GET /metadata/user`: the gender list and the countries. */
  datatype UserMetadata = UserMetadata(gender: seq<GenderChoice>, countries: seq<Choice>)

  /** `user_metadata`: the countries pass through from the service unchanged. */
  function UserMetadataOf(countries: seq<Country>): (r: UserMetadata)
    ensures r.gender == GenderChoices()
    ensures |r.countries| == |countries| &&
            forall i :: 0 <= i < |countries| ==> r.countries[i] == Choice(countries[i].caption, countries[i].id)
  {
    UserMetadata(GenderChoices(), AllCountries(countries))
  }

  /** `GET /metadata/cities/{country_id}`: the service's cities under the one key
      "cities". */
  function CitiesResponse(cities: seq<City>, countryId: int): (r: map<string, seq<Choice>>)
    ensures r.Keys == {"cities"} && r["cities"] == CitiesOfCountries(cities, countryId)
  {
    map["cities" := CitiesOfCountries(cities, countryId)]
  }
}
