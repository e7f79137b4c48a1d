/** Request and response schemas of src/schemas/__init__.py: the enumerations, the records
    the services exchange, and the pydantic validators. Records the services read fields
    from that the schema file does not declare (a user's full name, city, country, points
    and rank; shop items; leaderboard entries; countries and cities) carry the fields as
    the services use them. */
module Schemas {
  import opened Errors
  import JoseCodec

  // ---------------------------------------------------------------- enumerations

  datatype DocumentType = ApplicationDocument | OrganizationDocument {
    function Value(): string {
      match this
      case ApplicationDocument => "APPLICATION"
      case OrganizationDocument => "ORGANIZATION"
    }
  }

  datatype ApplicationStatus = InProgress | Approve | Rejected {
    function Value(): string {
      match this
      case InProgress => "IN_PROGRESS"
      case Approve => "APPROVE"
      case Rejected => "REJECTED"
    }
  }

  datatype OrganizationRole = Admin | Staff {
    function Value(): string {
      match this
      case Admin => "ADMIN"
      case Staff => "STAFF"
    }
  }

  datatype ReviewType = EventReview | VendorReview {
    function Value(): string {
      match this
      case EventReview => "EVENT"
      case VendorReview => "VENDOR"
    }
  }

  datatype Gender = Male | Female | Other | Undisclosed {
    /** Member name; for Gender it coincides with the value. */
    function Name(): string {
      match this
      case Male => "MALE"
      case Female => "FEMALE"
      case Other => "OTHER"
      case Undisclosed => "UNDISCLOSED"
    }
  }

  datatype OrganizationType = EventOrganizer | Vendor {
    function Value(): string {
      match this
      case EventOrganizer => "ORGANIZER"
      case Vendor => "VENDOR"
    }
  }

  /** `Gender._member_names_`: the members in declaration order. */
  const GenderMembers: seq<Gender> := [Male, Female, Other, Undisclosed]

  /** `ApplicationStatus` members in declaration order. */
  const ApplicationStatusMembers: seq<ApplicationStatus> := [InProgress, Approve, Rejected]

  /** Gender has exactly four members, listed once each. */
  lemma GenderMembersComplete()
    ensures |GenderMembers| == 4
    ensures forall g: Gender :: g in GenderMembers
    ensures forall i, j :: 0 <= i < j < |GenderMembers| ==> GenderMembers[i] != GenderMembers[j]
  {
    forall g: Gender ensures g in GenderMembers {
      match g
      case Male => assert GenderMembers[0] == g;
      case Female => assert GenderMembers[1] == g;
      case Other => assert GenderMembers[2] == g;
      case Undisclosed => assert GenderMembers[3] == g;
    }
  }

  /** ApplicationStatus has exactly three members, listed once each. */
  lemma ApplicationStatusMembersComplete()
    ensures |ApplicationStatusMembers| == 3
    ensures forall s: ApplicationStatus :: s in ApplicationStatusMembers
    ensures forall i, j :: 0 <= i < j < |ApplicationStatusMembers| ==>
              ApplicationStatusMembers[i] != ApplicationStatusMembers[j]
  {
    forall s: ApplicationStatus ensures s in ApplicationStatusMembers {
      match s
      case InProgress => assert ApplicationStatusMembers[0] == s;
      case Approve => assert ApplicationStatusMembers[1] == s;
      case Rejected => assert ApplicationStatusMembers[2] == s;
    }
  }

  // ---------------------------------------------------------------- users and login

  /** The fields of a registration that `create_user_by_email` reads. The declared
      `UserRegister` and `GoogleRegister` lack `full_name`, `city` and `country`; the model
      gives a registration the fields the service inserts. */
  datatype UserBase = UserBase(email: string, fullName: string, city: string, country: string)

  datatype UserRegister = UserRegister(base: UserBase, password: string, confirmPassword: string)

  datatype GoogleRegister = GoogleRegister(base: UserBase, googleToken: string)

  datatype GoogleCredentialData = GoogleCredentialData(
    sub: string, email: string, givenName: string, familyName: string, picture: string)

  /** A user answer as the user queries fill it: the selected columns, and the declared
      default None for `organization_id`. The declared `UserResponse` requires other
      fields, which no query selects. */
  datatype UserDetail = UserDetail(
    id: int, email: string, fullName: string, points: int, totalPoints: int,
    city: string, country: string, rank: int, organizationId: Option<int>)

  datatype UserLogin = UserLogin(email: Option<string>, password: Option<string>, googleToken: Option<string>)

  /** `UserRegister.verify_password_match`: `values` holds the fields validated before
      `confirm_password`; a missing password reads as None and never matches. */
  function VerifyPasswordMatch(confirmPassword: string, values: map<string, string>): (r: Result<string>)
    ensures r.Ok? <==> "password" in values && values["password"] == confirmPassword
    ensures r.Ok? ==> r.value == confirmPassword
    ensures r.Err? ==> r.error == Validation("The two passwords did not match.")
  {
    if "password" in values && values["password"] == confirmPassword then Ok(confirmPassword)
    else Err(Validation("The two passwords did not match."))
  }

  /** `UserLogin.ensure_credentals` over the raw values dict. The in-place write of
      `values["email"]` is the returned dict. */
  function EnsureCredentials(values: map<string, Option<string>>): (r: Result<map<string, Option<string>>>)
    ensures r.Ok? ==> "email" in r.value || "google_token" in r.value
    ensures r.Ok? && "email" in r.value ==> "password" in r.value
    ensures r.Ok? && "username" in values ==> r.value == values["email" := values["username"]]
    ensures r.Ok? && "username" !in values ==> r.value == values
    ensures "username" !in values && "email" !in values && "google_token" !in values ==>
              r == Err(Validation("Either email or google_token is needed"))
    ensures ("email" in values || "username" in values) && "password" !in values ==>
              r == Err(Validation("Password is required for login with email"))
  {
    var v := if "username" in values then values["email" := values["username"]] else values;
    if "email" !in v && "google_token" !in v then Err(Validation("Either email or google_token is needed"))
    else if "email" in v && "password" !in v then Err(Validation("Password is required for login with email"))
    else Ok(v)
  }

  function Get(values: map<string, Option<string>>, key: string): Option<string> {
    if key in values then values[key] else None
  }

  /** The `UserLogin` record built from the validated values. */
  function UserLoginOf(values: map<string, Option<string>>): (u: UserLogin)
    ensures u.email == Get(values, "email") && u.password == Get(values, "password")
    ensures u.googleToken == Get(values, "google_token")
  {
    UserLogin(Get(values, "email"), Get(values, "password"), Get(values, "google_token"))
  }

  /** The values dict pydantic hands the root validator of `UserLogin`: every declared
      field is present, None when the request omitted it, and an undeclared `username`
      is dropped. */
  function LoginValues(email: Option<string>, password: Option<string>, googleToken: Option<string>): (v: map<string, Option<string>>)
    ensures v.Keys == {"email", "password", "google_token"}
    ensures v["email"] == email && v["password"] == password && v["google_token"] == googleToken
  {
    map["email" := email, "password" := password, "google_token" := googleToken]
  }

  /** As written the two refusals test key presence, so on the dict pydantic builds they
      never fire: even a request with no credential at all is accepted. */
  lemma EnsureCredentialsNeverRefuses(email: Option<string>, password: Option<string>, googleToken: Option<string>)
    ensures EnsureCredentials(LoginValues(email, password, googleToken)) == Ok(LoginValues(email, password, googleToken))
    ensures UserLoginOf(LoginValues(email, password, googleToken)) == UserLogin(email, password, googleToken)
  {
  }

  /** The counterexample: an empty login body passes the validator. */
  lemma EnsureCredentialsCounterexample()
    ensures EnsureCredentials(LoginValues(None, None, None)).Ok?
    ensures EnsureCredentialsIntended(LoginValues(None, None, None)) == Err(Validation("Either email or google_token is needed"))
  {
  }

  /** `ensure_credentals` as intended: a credential counts when its value is not None. */
  function EnsureCredentialsIntended(values: map<string, Option<string>>): (r: Result<map<string, Option<string>>>)
    ensures r.Ok? ==> Get(r.value, "email").Some? || Get(r.value, "google_token").Some?
    ensures r.Ok? && Get(r.value, "email").Some? ==> Get(r.value, "password").Some?
    ensures r.Ok? && "username" in values ==> r.value == values["email" := values["username"]]
    ensures r.Ok? && "username" !in values ==> r.value == values
    ensures "username" !in values && Get(values, "email").None? && Get(values, "google_token").None? ==>
              r == Err(Validation("Either email or google_token is needed"))
    ensures "username" !in values && Get(values, "email").Some? && Get(values, "password").None? ==>
              r == Err(Validation("Password is required for login with email"))
  {
    var v := if "username" in values then values["email" := values["username"]] else values;
    if Get(v, "email").None? && Get(v, "google_token").None? then Err(Validation("Either email or google_token is needed"))
    else if Get(v, "email").Some? && Get(v, "password").None? then Err(Validation("Password is required for login with email"))
    else Ok(v)
  }

  /** Validation of a `UserLogin` request with the intended root validator. */
  function ValidateUserLogin(email: Option<string>, password: Option<string>, googleToken: Option<string>): (r: Result<UserLogin>)
    ensures r.Ok? <==> (email.Some? || googleToken.Some?) && (email.Some? ==> password.Some?)
    ensures r.Ok? ==> r.value == UserLogin(email, password, googleToken)
  {
    match EnsureCredentialsIntended(LoginValues(email, password, googleToken))
    case Err(e) => Err(e)
    case Ok(v) => Ok(UserLoginOf(v))
  }

  // ---------------------------------------------------------------- tokens

  datatype JwtTokenSchema = JwtTokenSchema(token: JoseCodec.Token, payload: JoseCodec.Claims, expire: int)

  datatype TokenPair = TokenPair(access: JwtTokenSchema, refresh: JwtTokenSchema)

  // ---------------------------------------------------------------- organizations, documents

  datatype DocumentAttribute = DocumentAttribute(fileUrl: string, name: string, kind: DocumentType)

  datatype OrganizationAttributes = OrganizationAttributes(
    organizationName: string, contactAddress: string, contactPhone: string,
    organizationType: OrganizationType := Vendor)

  datatype OrganizationIn = OrganizationIn(
    attributes: OrganizationAttributes, documents: Option<seq<DocumentAttribute>>)

  datatype Organization = Organization(id: int, attributes: OrganizationAttributes)

  datatype Membership = Membership(userId: int, organizationId: int, role: OrganizationRole)

  /** An organization's type defaults to VENDOR. */
  lemma OrganizationTypeDefaultsToVendor(name: string, address: string, phone: string)
    ensures OrganizationAttributes(name, address, phone).organizationType == Vendor
  {
  }

  // ---------------------------------------------------------------- pagination

  datatype PaginationRequest = PaginationRequest(currentPage: int, pageSize: int)

  const DEFAULT_PAGE_SIZE := 6
  const MAX_PAGE_SIZE := 100

  /** `PositiveInt`; None is a missing field. */
  function PositiveInt(v: Option<int>): (r: Result<int>)
    ensures r.Ok? <==> v.Some? && v.value > 0
    ensures r.Ok? ==> r.value == v.value
  {
    match v
    case None => Err(Validation("field required"))
    case Some(n) => if n > 0 then Ok(n) else Err(Validation("ensure this value is greater than 0"))
  }

  /** `verify_page_size` as written: it compares `values.get("pageSize")`, not `v`, so
      when the key is absent it evaluates `None > 100`, a TypeError. */
  function VerifyPageSize(v: int, values: map<string, int>): (r: Result<int>)
    ensures "pageSize" !in values ==> r.Err? && r.error.TypeError?
    ensures "pageSize" in values ==> (r.Ok? <==> values["pageSize"] <= MAX_PAGE_SIZE)
    ensures r.Ok? ==> r.value == v
  {
    if "pageSize" !in values then Err(TypeError("'>' not supported between instances of 'NoneType' and 'int'"))
    else if values["pageSize"] > MAX_PAGE_SIZE then Err(Validation("Page size to large"))
    else Ok(v)
  }

  /** The evidently intended check on the page size itself. */
  function VerifyPageSizeIntended(v: int): (r: Result<int>)
    ensures r.Ok? <==> v <= MAX_PAGE_SIZE
    ensures r.Ok? ==> r.value == v
    ensures r.Err? ==> r.error == Validation("Page size to large")
  {
    if v > MAX_PAGE_SIZE then Err(Validation("Page size to large")) else Ok(v)
  }

  /** The values dict pydantic hands to the pageSize validator: the fields declared
      before it that validated. */
  function PriorValues(currentPage: Result<int>): map<string, int> {
    if currentPage.Ok? then map["currentPage" := currentPage.value] else map[]
  }

  /** Validation of a `PaginationRequest` as written. A TypeError inside a validator becomes
      a validation error, and any failing field refuses the request. Pydantic lists
      every failing field; the model carries the first one's error. */
  function Pagination(currentPage: Option<int>, pageSize: Option<int>): (r: Result<PaginationRequest>)
    ensures pageSize.Some? ==> r.Err?
    ensures r.Ok? <==> pageSize.None? && currentPage.Some? && currentPage.value > 0
    ensures r.Ok? ==> r.value == PaginationRequest(currentPage.value, DEFAULT_PAGE_SIZE)
  {
    var page := PositiveInt(currentPage);
    var size :=
      if pageSize.None? then Ok(DEFAULT_PAGE_SIZE)
      else match PositiveInt(pageSize)
        case Err(e) => Err(e)
        case Ok(n) =>
          match VerifyPageSize(n, PriorValues(page))
          case Err(TypeError(m)) => Err(Validation(m))
          case other => other;
    if page.Err? then Err(page.error)
    else if size.Err? then Err(size.error)
    else Ok(PaginationRequest(page.value, size.value))
  }

  /** As written, an omitted page size defaults to 6 and every explicit page size is
      refused, however small. */
  lemma PaginationAsWrittenRefusesExplicitSize(currentPage: Option<int>, pageSize: int)
    ensures Pagination(currentPage, None) ==
              if currentPage.Some? && currentPage.value > 0
              then Ok(PaginationRequest(currentPage.value, DEFAULT_PAGE_SIZE))
              else Err(PositiveInt(currentPage).error)
    ensures Pagination(currentPage, Some(pageSize)).Err?
  {
  }

  /** The counterexample: page 1 with page size 10. */
  lemma PaginationAsWrittenCounterexample()
    ensures Pagination(Some(1), Some(10)).Err?
    ensures PaginationIntended(Some(1), Some(10)) == Ok(PaginationRequest(1, 10))
  {
  }

  /** Validation of a `PaginationRequest` with the page size check on `v`. */
  function PaginationIntended(currentPage: Option<int>, pageSize: Option<int>): (r: Result<PaginationRequest>)
    ensures r.Ok? <==> currentPage.Some? && currentPage.value > 0 &&
                       (pageSize.None? || 0 < pageSize.value <= MAX_PAGE_SIZE)
    ensures r.Ok? ==> r.value.currentPage == currentPage.value
    ensures r.Ok? ==> r.value.pageSize == if pageSize.None? then DEFAULT_PAGE_SIZE else pageSize.value
  {
    var page := PositiveInt(currentPage);
    var size :=
      if pageSize.None? then Ok(DEFAULT_PAGE_SIZE)
      else match PositiveInt(pageSize)
        case Err(e) => Err(e)
        case Ok(n) => VerifyPageSizeIntended(n);
    if page.Err? then Err(page.error)
    else if size.Err? then Err(size.error)
    else Ok(PaginationRequest(page.value, size.value))
  }

  // ---------------------------------------------------------------- events

  /** `EventAttributeIn`; `pictures` and `details` stand for their JSON documents, and the
      start date is an instant in seconds. */
  datatype EventIn = EventIn(
    eventName: string, location: string, description: string, phoneContact: string,
    pictures: string, details: string, startDate: int, duration: int)

  /** `EventAttributeMid`. */
  datatype EventMid = EventMid(organizerId: int, attributes: EventIn)

  /** `EventAttribute`, also the shape of an `events` row. */
  datatype EventAttribute = EventAttribute(id: int, organizerId: int, attributes: EventIn)

  // ---------------------------------------------------------------- records the schema file lacks

  datatype ShopItem = ShopItem(id: int, price: int, rankToUnlock: int)

  datatype LeaderboardEntry = LeaderboardEntry(fullName: string, totalPoints: int, rank: int, id: int)

  /** `Country` and `City` answers: the JSON `label` (a Dafny keyword, hence `caption`)
      and the row id as `value`. */
  datatype Choice = Choice(caption: string, value: int)

  /** One entry of the gender list of the user metadata: `label` and `value`. */
  datatype GenderChoice = GenderChoice(caption: string, value: string)
}
