/** The database session the services run their statements on: one field per table,
    holding its rows in storage order, the serial sequences that number new rows, and a
    count of commits. `Valid` is the set of constraints the database enforces. */
module Database {
  import opened Schemas
  import opened Tables

  class Session {
    var users: seq<User>
    var googleLinks: seq<GoogleLink>
    var organizations: seq<Organization>
    var members: seq<Membership>
    var orgTags: seq<OrgTag>
    var documents: seq<Document>
    var events: seq<EventAttribute>
    var applications: seq<Application>
    var applicationDocuments: seq<ApplicationDocumentLink>
    var countries: seq<Country>
    var cities: seq<City>
    var shopItems: seq<ShopItem>
    var inventory: seq<InventoryRow>
    var pointLog: seq<PointGain>

    var nextUserId: int
    var nextOrganizationId: int
    var nextDocumentId: int
    var nextEventId: int
    var nextApplicationId: int

    /** Number of `commit()` calls so far: the marker of what a request persisted. */
    var commits: nat

    /** Primary keys, serial sequences and foreign keys of the schema. */
    ghost predicate Valid()
      reads this
    {
      && Serial(users, UserKey, nextUserId)
      && KeysUnique(googleLinks, GoogleKey)
      && References(googleLinks, LinkUser, Keys(users, UserKey))
      && Serial(organizations, OrganizationKey, nextOrganizationId)
      && KeysUnique(members, MemberKey)
      && References(members, MemberOrganization, Keys(organizations, OrganizationKey))
      && References(members, MemberUser, Keys(users, UserKey))
      && Serial(documents, DocumentKey, nextDocumentId)
      && References(documents, DocumentUploader, Keys(organizations, OrganizationKey))
      && Serial(events, EventKey, nextEventId)
      && References(events, EventOwner, Keys(organizations, OrganizationKey))
      && Serial(applications, ApplicationKey, nextApplicationId)
      && References(applications, ApplicationEvent, Keys(events, EventKey))
      && References(applications, ApplicationApplicant, Keys(organizations, OrganizationKey))
      && KeysUnique(applicationDocuments, AppDocKey)
      && References(applicationDocuments, AppDocApplication, Keys(applications, ApplicationKey))
      && References(applicationDocuments, AppDocDocument, Keys(documents, DocumentKey))
      && KeysUnique(countries, CountryKey)
      && KeysUnique(cities, CityKey)
      && References(cities, CityCountry, Keys(countries, CountryKey))
      && KeysUnique(shopItems, ShopItemKey)
      && KeysUnique(inventory, InventoryKey)
    }

    /** An empty database. */
    constructor ()
      ensures Valid() && commits == 0
      ensures users == [] && googleLinks == [] && organizations == [] && members == []
      ensures orgTags == [] && documents == [] && events == [] && applications == []
      ensures applicationDocuments == [] && countries == [] && cities == []
      ensures shopItems == [] && inventory == [] && pointLog == []
    {
      users, googleLinks, organizations, members, orgTags := [], [], [], [], [];
      documents, events, applications, applicationDocuments := [], [], [], [];
      countries, cities, shopItems, inventory, pointLog := [], [], [], [], [];
      nextUserId, nextOrganizationId, nextDocumentId, nextEventId, nextApplicationId := 1, 1, 1, 1, 1;
      commits := 0;
    }

    /** `await db_session.commit()`. */
    method Commit()
      modifies this`commits
      ensures commits == old(commits) + 1
    {
      commits := commits + 1;
    }
  }
}
