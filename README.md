# Session, login and table rules of the hackthefuture backend, in Dafny

This project models the core of a FastAPI/SQLAlchemy backend. It covers two parts.

- **The session and authentication flow.** Tokens are minted as an access/refresh cookie pair and refreshed.
  - Tokens are decoded, and the current user is resolved from the `sub` claim.
  - Registration, e-mail login, Google login and the OAuth2 `/token` route are modelled.
  - The request validators that guard them are modelled too.
- **The table-level business rules**:
  - shop purchases and the inventory upsert;
  - point accrual and the country leaderboard;
  - organizations and memberships;
  - event applications;
  - event create/update;
  - document rows;
  - metadata projections;
  - the MinIO bucket choice.

The database is the class `Database.Session`:
- It has one field per table, each a sequence of rows in storage order, since order decides what `.first()` answers.
- It holds the serial sequences that number new rows.
- `commits` counts `commit()` calls, the marker of what a request persisted.
- `Session.Valid()` collects the constraints the schema declares:
  - the primary keys, including `(organization_id, user_id)` of `organization_members` and `(application_id, document_id)` of `application_document`;
  - the serial id counters;
  - every foreign key: links to users; memberships, documents, events and applications to organizations; applications to events; cities to countries.
- Every state-changing operation takes `requires db.Valid()` and `ensures db.Valid()`.
- A statement the database would refuse for a foreign key or a primary key is an `Err(Integrity(<constraint name>))` value that leaves the table as it was.

The services and handlers are methods on a `Session` with field-granular `modifies` frames. Each such method states its whole new state and its answer. The answer is tied to a query function, such as `UserById`, `GetMembershipByUserId` or `GetApplicationById`. Lemmas prove what the source promises about those functions.

Inputs replace what cannot be modelled:
- The JWT codec is symbolic (`JoseCodec`): a token carries its algorithm, its claims and a MAC term over the secret.
  - `Decode` accepts exactly the authentic tokens with an allowed algorithm, well-typed registered claims and an `exp` not before `now`.
  - jose also refuses an authentic token with a future `nbf` or an unexpected `aud`. The application never writes either claim, so the codec has no such claims.
  - A token with `exp == now` is still live, because jose's leeway is 0.
- A password digest is the symbolic `Salted(salt, preimage)`. The salt is an input.
- The creation instant `now` and the session id `jti` are inputs. Instants are whole seconds, and `timedelta(minutes=m)` is `60 * m`.
- The Google profile fetch is an input: the parsed profile, or the failure it ended in.

Python behaviour the model writes out explicitly:
- `int(str(n)) == n` (`Builtins.IntOfStrOfInt`), and `str.capitalize` and `str.startswith` on ASCII.
- Python `and` between two SQLAlchemy comparisons evaluates to its first operand.
- `.one_or_none()` raises on two rows.
- The undefined name and missing-argument errors become `NameError`/`TypeError` values.

A user resolved by `get_current_user` always has `organization_id` None (the user record the model chooses is set out under "## Left out"). The lookup selects columns from a `users` table that has no `organization_id` (`Tables.DetailOf`, lemma `EventEndpoint.ResolvedCallerHasNoOrganization`). Through that dependency three things follow:
- `POST /event/` always refuses.
- `PUT /event/{event_id}` refuses every existing event.
- The `create_org` guard never fires.

The guards are still modelled over an arbitrary `UserDetail`, as the handlers are written.

## Model

| member | source | states |
|---|---|---|
| Builtins.IntOfStr | src/dependencies/user.py:28 | `int(s)` succeeds exactly on an optionally signed, non-empty decimal literal, and its sign follows the text |
| Builtins.DigitsValueOfDigits | src/core/jwt.py:98 | the decimal digits of a natural number read back to that number (the induction behind `int(str(n))`) |
| Builtins.Digits | src/core/jwt.py:98 | the decimal digits of a natural number: at least one digit, no leading zero |
| Builtins.StrOfInt | src/core/jwt.py:98 | `str(n)`: non-empty, starting with `-` iff `n` is negative, digits otherwise |
| Builtins.IntOfStrOfInt | src/dependencies/user.py:28 | `int(str(n)) == n`: the `sub` claim written at issuance parses back to the user id |
| Builtins.StrOfIntInjective | src/core/jwt.py:98 | distinct user ids give distinct `sub` claims |
| Builtins.Capitalize | src/endpoints/metadata.py:18 | `capitalize` keeps the length, upper-cases the first character and lower-cases the rest |
| Builtins.StartsWith | src/services/minio.py:6 | the prefix test holds exactly when the prefix fits and matches character by character, case-sensitively |
| Config.DefaultSettings | src/core/config.py:11-13 | without overrides the algorithm is HS256, and access and refresh lifetimes are 1440 and 21600 minutes |
| Config.DefaultAccessShorterThanRefresh | src/core/config.py:12-13 | the default access lifetime is positive and strictly shorter than the refresh lifetime |
| Hashing.GetPasswordHash | src/endpoints/auth.py:36 | the stored digest is made with the given salt (never the plaintext itself) |
| Hashing.VerifyPassword | src/endpoints/auth.py:108 | verification can succeed only when both the plaintext and the stored hash are present |
| Hashing.VerifyOwnHash | src/endpoints/auth.py:108 | a password verifies against its own hash, whatever the salt |
| Hashing.VerifyOtherFails | src/endpoints/auth.py:108 | no other password verifies against that hash |
| Hashing.SaltedHashesDiffer | src/endpoints/auth.py:36 | two hashes of the same password with different salts differ |
| JoseCodec.Encode | src/core/jwt.py:27-31 | an encoded token carries the algorithm and exactly the claims it was given |
| JoseCodec.Decode | src/core/jwt.py:40-42 | decoding succeeds iff the token is compact, its algorithm allowed, its signature the secret's, its claims well typed and `exp` not passed; it then yields the claims |
| JoseCodec.DecodeEncode | src/core/jwt.py:40-42 | decoding inverts encoding until `exp` |
| JoseCodec.DecodeRejectsExpired | src/core/jwt.py:40-44 | an authentic token whose `exp` has passed is refused as expired |
| JoseCodec.DecodeRejectsTampered | src/core/jwt.py:40-44 | changing a signed token's claims without re-signing makes it undecodable |
| JoseCodec.DecodeRejectsOtherKey | src/core/jwt.py:40-44 | a token signed with another secret is refused |
| Schemas.GenderMembersComplete | src/schemas/__init__.py:23-27 | Gender has exactly four members, each listed once, in declaration order |
| Schemas.ApplicationStatusMembersComplete | src/schemas/__init__.py:10-13 | ApplicationStatus has exactly three members, each listed once |
| Schemas.OrganizationTypeDefaultsToVendor | src/schemas/__init__.py:123 | an organization's type defaults to VENDOR |
| Schemas.VerifyPasswordMatch | src/schemas/__init__.py:57-64 | registration validates iff a password was validated and equals the confirmation; otherwise "The two passwords did not match." |
| Schemas.EnsureCredentials | src/schemas/__init__.py:74-84 | as written: `username` is copied into `email`; the two refusals fire on missing keys; an accepted dict names a credential key, with a password key beside an email key |
| Schemas.LoginValues | src/schemas/__init__.py:69-72 | the root validator receives every declared field, None when omitted |
| Schemas.UserLoginOf | src/schemas/__init__.py:69-72 | the login record carries the validated values, None for absent ones |
| Schemas.EnsureCredentialsNeverRefuses | src/schemas/__init__.py:79-82 | on the dict pydantic builds, the as-written validator accepts every request unchanged |
| Schemas.EnsureCredentialsCounterexample | src/schemas/__init__.py:79-80 | an empty login body passes as written and is refused as intended |
| Schemas.EnsureCredentialsIntended | src/schemas/__init__.py:74-84 | intended validator: an accepted request has a non-None email or Google token, and a non-None password with an email |
| Schemas.ValidateUserLogin | src/schemas/__init__.py:69-84 | with the intended validator a login validates iff it names a credential and an email comes with a password; the record is the request |
| Schemas.PositiveInt | src/schemas/__init__.py:137-138 | a positive-int field accepts exactly present values above zero |
| Schemas.VerifyPageSize | src/schemas/__init__.py:139-144 | as written, the check reads `values.get("pageSize")`: TypeError when absent, and the bound applies to that value, not to `v` |
| Schemas.VerifyPageSizeIntended | src/schemas/__init__.py:139-144 | intended: a page size passes iff it is at most 100, else "Page size to large" |
| Schemas.Pagination | src/schemas/__init__.py:136-144 | as written: any explicit page size is refused; valid iff the size is omitted and the page positive, and the size is then 6 |
| Schemas.PaginationAsWrittenRefusesExplicitSize | src/schemas/__init__.py:136-144 | as written, an omitted page size defaults to 6, and every explicit page size is refused |
| Schemas.PaginationAsWrittenCounterexample | src/schemas/__init__.py:141 | page 1 with size 10 is refused as written and accepted as intended |
| Schemas.PaginationIntended | src/schemas/__init__.py:136-144 | intended: valid iff the page is positive and the size is omitted or in 1..100; the size defaults to 6 |
| Tables.DetailOf | src/services/user.py:100-119 | a user answer copies every selected column of the row; `organization_id` is None |
| Tables.EmailNotUnique | src/db_tables.py:33 | two users may share an e-mail under every declared key |
| Query.FirstIndex | src/services/user.py:66 | `.first()` finds the earliest matching position, or none when no row matches |
| Query.First | src/services/user.py:66 | `.first()` is a matching row of the table, or None exactly when no row matches |
| Query.Where | src/services/application.py:46-55 | a filter keeps only matching rows and keeps every matching one |
| Query.WhereConcat | src/services/application.py:46-55 | a filter splits over concatenation |
| Query.WhereAll | src/services/application.py:46-55 | a filter every row passes keeps the whole table |
| Query.WhereOnly | src/services/application.py:46-55 | a filter exactly one position passes selects that row alone |
| Query.WhereAtLeastTwo | src/services/application.py:94 | a filter keeps two or more rows iff two positions pass it |
| Query.UpdateWhere | src/services/application.py:131-138 | an UPDATE replaces matching rows in place and leaves every other row unchanged |
| Jwt.Response.SetCookie | src/core/jwt.py:108-113 | setting a cookie appends exactly that cookie to the response |
| Jwt.CreateToken | src/core/jwt.py:25-34 | the token signs the payload plus `exp = expire`, which overrides any `exp`; the record keeps the payload without it and the given expiry |
| Jwt.CreateTokenDecodes | src/core/jwt.py:25-34 | a minted token decodes to its claims until `expire` and is refused as expired after it |
| Jwt.SessionPayload | src/core/jwt.py:98 | the shared payload is exactly `{sub: str(user.id), jti, iat: create_time}`, well typed, and `sub` parses back to the id |
| Jwt.CookiesOf | src/core/jwt.py:105-113 | the loop sets one cookie per detail, in order, each from the one shared payload |
| Jwt.CreateAndInjectToken | src/core/jwt.py:95-113 | the response gains exactly the session's two cookies after the ones it had |
| Jwt.SessionCookiesShape | src/core/jwt.py:98-113 | `access` then `refresh`; http-only; each expires at `create_time` plus its lifetime, equal to its token's `exp`; both carry the same `sub`, `jti` and `iat` |
| Jwt.AccessExpiresBeforeRefresh | src/core/jwt.py:100-106 | with the defaults, access expires one day and refresh fifteen days after creation, access strictly first |
| Jwt.DecodeAccessToken | src/core/jwt.py:47-55 | any decode failure becomes AuthFailedException; otherwise the payload |
| Jwt.DecodeToken | src/core/jwt.py:36-44 | as written: a None token raises NameError (`none`); a present one gives its claims or None |
| Jwt.DecodeTokenIntended | src/core/jwt.py:36-44 | intended: None for a None or undecodable token, else the claims |
| Jwt.DecodeTokenDiscrepancy | src/core/jwt.py:38 | both agree on every present token; only the None token differs |
| Jwt.RefreshedAccess | src/core/jwt.py:58-78 | a decode failure is AuthFailedException; otherwise an http-only `access` cookie expiring one access lifetime after `now`, signed over the decoded claims with `exp` replaced |
| Jwt.RefreshTokenState | src/core/jwt.py:58-78 | on failure no cookie is set; on success exactly the new access cookie is added |
| Jwt.RefreshKeepsSession | src/core/jwt.py:68-78 | refreshing a live session keeps its `sub`, `jti` and `iat` and sets `exp = now + access lifetime` |
| Jwt.RefreshRejectsExpired | src/core/jwt.py:59-67 | an expired refresh token is refused |
| Jwt.RefreshCookie | src/core/jwt.py:81-92 | the refresh cookie holds the token as given, http-only, expiring one refresh lifetime after `now` |
| Jwt.AddRefreshTokenCookie | src/core/jwt.py:81-92 | the response gains exactly that cookie |
| Jwt.RefreshCookieMatchesSession | src/core/jwt.py:81-113 | re-adding a session's refresh token at its creation instant reproduces the session's refresh cookie |
| UserService.UserExistByEmail | src/services/user.py:12-19 | true iff some user row has that e-mail |
| UserService.UserPasswordByEmail | src/services/user.py:40-47 | the first matching row's password column: None for an unknown e-mail and for a null password alike |
| UserService.UserDetailByEmail | src/services/user.py:50-71 | the first user with that e-mail, or NotFoundException iff none has it |
| UserService.PasswordImpliesDetail | src/services/user.py:40-71 | a stored password implies the e-mail exists and the detail query succeeds |
| UserService.UserById | src/services/user.py:100-119 | the row with that id, or NotFoundException iff no row has it |
| UserService.UserByIdOfRow | src/services/user.py:100-119 | under the primary key, looking up a row's id answers that row |
| UserService.GetUserByGoogleId | src/services/user.py:74-97 | the user joined to a link with that Google id, or None, never an error; None when no link has the id |
| UserService.GoogleLinkResolves | src/services/user.py:74-97 | under the link's primary and foreign keys, a link resolves to exactly the user it references |
| UserService.AppendUserValid | src/db_tables.py:29-46 | inserting a user under the next id keeps the serial key and every reference to users |
| UserService.AppendedFirstWithEmail | src/services/user.py:22-37 | a user inserted with a new e-mail is the first row with it |
| UserService.CreateUserByEmail | src/services/user.py:22-37 | one row is inserted storing exactly the given hash; the answer is the first user with the e-mail, the new row when the e-mail was new |
| UserService.CreateUserByGoogleId | src/services/user.py:122-143 | inserts a password-less user "given family" in Lahti, Finland, then the link `sub → new id`, and answers that user; an already linked `sub` violates the link key |
| CurrentUser.GetCurrentUser | src/dependencies/user.py:22-28 | a decode failure is AuthFailedException with no lookup; a missing `sub` is KeyError; an unparsable one ValueError; otherwise `user_by_id(int(sub))` |
| CurrentUser.MintedAccessResolves | src/dependencies/user.py:22-28 | a minted access token resolves, until it expires, to the user it was minted for |
| CurrentUser.RefreshedAccessResolves | src/dependencies/user.py:22-28 | so does an access token re-minted from the session's refresh token |
| CurrentUser.ExpiredAccessRefused | src/dependencies/user.py:26 | an expired access token is refused before any lookup |
| CurrentUser.UnknownSubjectNotFound | src/dependencies/user.py:28 | a live token for an id no row has gives NotFoundException |
| Auth.Register | src/endpoints/auth.py:25-46 | a known e-mail is refused with 400 "Email has already registered" before anything changes; otherwise the hash is stored, the session cookies issued for the new user and the transaction committed |
| Auth.RegisterGoogleUser | src/endpoints/auth.py:49-68 | the same refusal; otherwise a user without a password, no Google link, the cookies and a commit |
| Auth.HandleGoogleLogin | src/endpoints/auth.py:72-89 | a failed profile fetch is "Incorrect google token"; an unknown `sub` gives no account, never a new one; otherwise the linked user |
| Auth.LoginOutcome | src/endpoints/auth.py:91-117 | the `/login` decision: bad Google token, no account, the e-mail path's user when its password verifies (overriding the Google user), the uniform credential error, or the unbound `user` |
| Auth.Login | src/endpoints/auth.py:91-117 | cookies and a commit exactly for a resolved user; otherwise nothing is set or committed |
| Auth.LoginIssuesOnlyVerified | src/endpoints/auth.py:97-113 | cookies are issued only to a user whose password verified, or, without an e-mail, whose Google id is linked |
| Auth.LoginErrorIsUniform | src/endpoints/auth.py:106-109 | an unknown e-mail, a password-less account and a wrong password get the same "Incorrect email or password" |
| Auth.LoginWithOwnPassword | src/endpoints/auth.py:104-113 | a registered user logs in with their own password |
| Auth.ValidatedLoginIsBound | src/endpoints/auth.py:97-113 | with the intended validator, `/login` never reaches the unbound `user` |
| Auth.EmptyLoginUnbound | src/endpoints/auth.py:97-113 | as written, an empty body passes validation and `/login` fails on the unbound `user` |
| Auth.TokenLoginUser | src/endpoints/auth.py:126-131 | `/token` authenticates iff `verify_password` accepts the stored hash, with no None check; the user is the e-mail's first row |
| Auth.LoginToken | src/endpoints/auth.py:120-135 | cookies on success, none on failure, and no commit |
| Points.AddPointForUser | src/services/points.py:12-39 | exactly one log row `(user_id, point)`; both counters raised for that user only; the answer is `user_by_id` on the new table |
| Points.AddPointAnswer | src/services/points.py:26-39 | for a known user the answer carries both counters raised by exactly `point` |
| Points.InsertByTotal | src/services/points.py:56 | inserting into a list ordered by decreasing total points keeps it ordered and adds exactly that row |
| Points.SortByTotal | src/services/points.py:56 | the ordering is a permutation that is non-increasing in total points |
| Points.LeaderboardRows | src/services/points.py:50-57 | at most ten rows, by non-increasing total points, all of the country's users when they are fewer |
| Points.LeaderboardOfCountry | src/services/points.py:42-62 | one entry (name, total, rank, id) per selected row, in order |
| Points.LeaderboardMembers | src/services/points.py:48-58 | at most ten rows, all users of that country from the table with no user listed more often than the table holds them, by non-increasing total points |
| Points.LeaderboardOmitted | src/services/points.py:56-57 | a user of the country left off has no more points than the last entry, and the board is then full |
| Points.SmallCountryFullyListed | src/services/points.py:55-57 | a country with at most ten users is listed in full |
| ShopService.AllItems | src/services/shop.py:14-19 | every shop item, in storage order |
| ShopService.ItemDetail | src/services/shop.py:43-55 | the item with that id, or NotFoundException iff none has it |
| ShopService.UpsertInventory | src/services/shop.py:26-35 | the upsert adds the `(user, item)` key, adds at most one row and leaves every row of another pair in place |
| ShopService.Quantity | src/services/shop.py:26-35 | a non-zero holding is the quantity of a row of that `(user, item)` |
| ShopService.QuantityOfRow | src/services/shop.py:26-33 | under `inventory_pk` a holding's quantity is its row's |
| ShopService.QuantityAbsent | src/services/shop.py:26-30 | without a row the user holds none of the item |
| ShopService.UpsertInventorySpec | src/services/shop.py:26-35 | the upsert keeps one row per `(user, item)`, adds the key, and raises that holding by exactly one (a new row holds 1) |
| ShopService.UpsertInventoryFrame | src/services/shop.py:26-35 | every other holding is unchanged |
| ShopService.DeductPoints | src/services/shop.py:37 | only that user's points drop by exactly `price`; every other row is unchanged |
| ShopService.ReturnedPoints | src/services/shop.py:39-41 | `RETURNING points` yields None iff no row has the id |
| ShopService.BuyItem | src/services/shop.py:21-41 | the inventory upsert and the points deduction are the whole change; the answer is the updated points |
| ShopService.BuyItemPoints | src/services/shop.py:37-41 | for a present user the answer is the old points minus the price |
| ShopEndpoint.PurchaseCheck | src/endpoints/shop.py:32-38 | an unknown item is NotFound, then the rank check, then the points check; it passes iff all three hold |
| ShopEndpoint.BuyItemEndpoint | src/endpoints/shop.py:26-44 | a failed guard changes no inventory or points and does not commit; otherwise the purchase and one commit |
| ShopEndpoint.PurchaseLeavesPointsNonNegative | src/endpoints/shop.py:37-44 | after a successful purchase the answer is the old points minus the price, hence at least 0 |
| DocumentService.DocumentRows | src/services/document.py:18-21 | one row per document, numbered consecutively, owned by the uploader, copying `file_url`, `name` and `type` |
| DocumentService.AddDocuments | src/services/document.py:14-21 | None inserts nothing; an empty list is refused by the NOT NULL `file_url`; an unknown uploader refuses the whole insert; both refusals change nothing; otherwise exactly those rows are appended |
| OrganizationService.OrganizationById | src/services/organization.py:33-60 | the organization with that id, or NotFoundException iff none has it |
| OrganizationService.OrganizationByIdOfRow | src/services/organization.py:33-60 | under the primary key a row's id answers that row |
| OrganizationService.TagRows | src/services/organization.py:69-72 | one `(org_id, tag_id)` row per listed tag, in order |
| OrganizationService.AddTagsToOrg | src/services/organization.py:63-72 | None changes nothing; an empty list is refused for its missing tag, changing nothing; otherwise exactly those tag rows are appended |
| OrganizationService.AppendOrganizationValid | src/db_tables.py:113-129 | an organization inserted under the next id keeps every constraint |
| OrganizationService.InsertOrganization | src/services/organization.py:20-26 | exactly one organization, with the given attributes, under the next id |
| OrganizationService.NewOrganization | src/services/organization.py:17-30 | as written: the insert happens, then reading `.tags` raises AttributeError |
| OrganizationService.NewOrganizationIntended | src/services/organization.py:17-30 | intended: the organization is inserted without tags or documents and the record at the inserted id is returned |
| OrganizationService.GetMembershipByUserId | src/services/organization.py:109-123 | the user's first membership, or NotFoundException iff they have none |
| OrganizationService.OrganizationByUserData | src/services/organization.py:75-106 | the organization of one of the user's memberships, or NotFoundException iff none leads to an organization |
| OrganizationService.MemberHasOrganization | src/services/organization.py:75-106 | under the membership foreign key, any member has an organization |
| OrganizationService.UpsertMember | src/services/organization.py:132-139 | the upsert adds the `(org, user)` key, adds at most one row and leaves every row of another pair in place |
| OrganizationService.UpsertMemberSpec | src/services/organization.py:132-140 | one row per `(org, user)`; a new pair is added with the role, an existing pair only has its role replaced, other pairs unchanged |
| OrganizationService.UpsertMemberReferences | src/db_tables.py:131-138 | the upsert keeps both membership foreign keys |
| OrganizationService.AddEmployee | src/services/organization.py:126-143 | unknown organization or user is refused by the foreign key; otherwise the upsert, answering the user's first membership |
| OrganizationService.AddEmployeeFirstMembership | src/services/organization.py:126-143 | for a user without a membership the answer is the new membership |
| OrganizationEndpoint.UserOrg | src/endpoints/organization.py:19-29 | the caller's organization through one of their memberships, or NotFound |
| OrganizationEndpoint.AdminOrganization | src/endpoints/organization.py:41-50 | the organization is inserted and the caller upserted as its ADMIN |
| OrganizationEndpoint.FoundOrganization | src/endpoints/organization.py:41-52 | the organization and its ADMIN are written, then the documents are filed under the new id; an empty document list is refused |
| OrganizationEndpoint.CreateOrg | src/endpoints/organization.py:32-56 | a caller with an organization is refused with nothing changed; otherwise the new organization, the caller's ADMIN upsert and the documents filed under the new id, then one commit; an empty document list is refused without a commit |
| OrganizationEndpoint.AddEmployeeEndpoint | src/endpoints/organization.py:59-74 | as written: TypeError for any caller, before any guard |
| OrganizationEndpoint.AddEmployeeGuard | src/endpoints/organization.py:66-71 | intended guard on the caller's first membership: another organization's gives "User can only add member…", a non-ADMIN one in the target gives "Only user could add member…", no membership NotFound; it passes iff that membership is ADMIN of the target |
| OrganizationEndpoint.GuardedOrganizationExists | src/endpoints/organization.py:66-71 | under the membership foreign key, the organization the guard admits exists |
| OrganizationEndpoint.AddEmployeeGuardCases | src/endpoints/organization.py:68-71 | an admin of the target passes; staff get "Only user could add member…", members elsewhere "User can only add member…" |
| OrganizationEndpoint.AddEmployeeEndpointRefusesAdmin | src/endpoints/organization.py:66 | as written even the admin the guard admits is refused |
| OrganizationEndpoint.AddEmployeeEndpointIntended | src/endpoints/organization.py:59-74 | guard refusals change nothing; otherwise `add_employee`'s upsert; never a commit |
| ApplicationService.ApplicationQuery | src/services/application.py:46-55 | a row is selected iff it is in the table and meets every non-None filter (id, event, applicant) |
| ApplicationService.NoFilterSelectsAll | src/services/application.py:46-55 | with all filters None the query is the whole table |
| ApplicationService.IdFilterSelectsRow | src/services/application.py:46-47 | on the serial key an id filter selects exactly that row |
| ApplicationService.GetApplicationById | src/services/application.py:58-64 | the first selected row; no row is an AttributeError on `_mapping`; a None id selects the first row of the table |
| ApplicationService.OneOrNone | src/services/application.py:94-95 | no row is false, one row is true, two or more raise MultipleResults |
| ApplicationService.ExistingApplication | src/services/application.py:85-95 | as written: only the event filter applies: false iff the event has no application; several of them raise |
| ApplicationService.ExistingApplicationIntended | src/services/application.py:85-95 | intended: false iff the `(event, applicant)` pair has no application; at one row per pair, true iff it has |
| ApplicationService.PairFilter | src/services/application.py:90-92 | the two-condition filter passes nothing iff the pair is absent, and at most one row at one row per pair |
| ApplicationService.ExistingApplicationCounterexample | src/services/application.py:90-92 | as written a second organization applying to an event is refused, while intended it may apply |
| ApplicationService.AddNewApplication | src/services/application.py:98-120 | as written: any application to the event refuses the insert, two raise MultipleResults, both changing nothing; an event without applications gets one IN_PROGRESS row with applicant = updated_by = org |
| ApplicationService.AddNewApplicationIntended | src/services/application.py:98-120 | intended: only this organization's own application refuses it, changing nothing; otherwise the same insert; one row per pair is kept |
| ApplicationService.InsertApplication | src/services/application.py:108-120 | an unknown event, then an unknown applicant, is refused by its foreign key, changing nothing; otherwise exactly that row under the next id, answered back |
| ApplicationService.AppendApplicationValid | src/db_tables.py:70-91 | inserting an application for an existing event and organization keeps every constraint |
| ApplicationService.UpdatedId | src/services/application.py:137-140 | `RETURNING id` yields the id iff a row had it |
| ApplicationService.StatusUpdateValid | src/services/application.py:131-138 | the status update keeps every key and foreign key |
| ApplicationService.UpdateStatus | src/services/application.py:123-141 | as written: only that application's status changes, `event_id` is unused, and the answer is `get_application_by_id` of the returned id |
| ApplicationService.UpdateStatusAnswer | src/services/application.py:131-141 | for a present id the answer is that application with its new status |
| ApplicationService.UpdateStatusUnknownIdCounterexample | src/services/application.py:140-141 | as written an unknown id updates nothing and answers another application |
| ApplicationService.UpdateStatusIntended | src/services/application.py:123-141 | intended: the same update, NotFoundException for an unknown id |
| EventService.GetAllEvent | src/services/event.py:15-22 | every event row, in storage order |
| EventService.GetEventById | src/services/event.py:24-36 | the event with that id, or NotFoundException iff none has it |
| EventService.GetEventByIdOfRow | src/services/event.py:24-36 | under the primary key a row's id answers that row |
| EventService.GetOrganizerById | src/services/event.py:60-66 | that event's organizer; NotFoundException propagates |
| EventService.CreateNewEvent | src/services/event.py:38-46 | the answer is the input plus a fresh id, appended; an unknown organizer is refused, changing nothing (the `status` default's refusal is left out) |
| EventService.UpdatedId | src/services/event.py:53-57 | `RETURNING id` yields the id iff a row had it |
| EventService.EventUpdateValid | src/services/event.py:53-57 | replacing an event's attributes keeps its key set and the organizer foreign key |
| EventService.UpdateEventAnswer | src/services/event.py:53-57 | the read-back is the updated event with its organizer kept, or NotFound for an unknown id |
| EventService.UpdateEvent | src/services/event.py:49-57 | that event's attributes are replaced and its id and organizer kept, no other event changes; unknown id is NotFound |
| EventEndpoint.CreateEvent | src/endpoints/event.py:28-40 | no organization is refused; the new event's organizer is the caller's organization; a commit only after a successful insert |
| EventEndpoint.UpdateEventEndpoint | src/endpoints/event.py:52-68 | an unknown event is NotFound; a caller who is not the organizer is refused, changing nothing; otherwise the update and one commit |
| EventEndpoint.ResolvedCallerHasNoOrganization | src/services/user.py:100-119 | a user resolved from an access token never has an organization id |
| Database.Session.Commit | src/endpoints/organization.py:54 | a commit advances the commit count by one and changes nothing else |
| Metadata.AllCountries | src/services/metadata.py:11-16 | one entry per country row with `label = label` and `value = id`, in order |
| Metadata.AllCountriesValues | src/services/metadata.py:11-16 | the values offered are exactly the country ids |
| Metadata.CitiesOfCountries | src/services/metadata.py:18-23 | only cities of that country are offered, and every one of them is, as label/id |
| Metadata.GenderChoices | src/endpoints/metadata.py:17-20 | one entry per Gender member, in declaration order, valued by the name and labelled by its capitalisation |
| Metadata.CapitalizeIs | src/endpoints/metadata.py:18 | a string is the capitalisation of another when it agrees with it character by character |
| Metadata.GenderChoicesValues | src/endpoints/metadata.py:17-20 | the list is Male/MALE, Female/FEMALE, Other/OTHER, Undisclosed/UNDISCLOSED |
| Metadata.UserMetadataOf | src/endpoints/metadata.py:12-23 | the gender list, and the countries passed through unchanged |
| Metadata.CitiesResponse | src/endpoints/metadata.py:26-32 | the service's cities under the one key "cities" |
| Minio.FileTypeToBucket | src/services/minio.py:5-8 | always one of the two buckets; "htf-public" iff the type starts with "image" |
| Minio.CapitalisedImageIsPrivate | src/services/minio.py:6 | the test is case-sensitive: "Image/png" goes to "htf", "image/png" to "htf-public" |

## Left out

- Cryptography: HS256 signing and the password hash are symbolic terms, and `src/core/hash.py` is not part of this model. In the symbolic codec decode inverts encode until `exp` and refuses tampered tokens, tokens signed with another secret and expired tokens.
- The clock, `uuid4` and datetimes are inputs. Instants are whole seconds, and `exp.replace(...)` in `add_refresh_token_cookie` has no effect, so it is absent.
- The Google userinfo HTTP request in `handle_google_login` is an input: the parsed profile, or a failure.
- Async execution, the session generator and rollback when a session closes are not modelled. A failed request is shown by `commits` not advancing; its uncommitted writes remain in the model's fields.
- The race between the e-mail check and the insert in `register` is concurrency and is not modelled.
- Schema drift: the services use the table names `user`, `shop_item`, `user_inventory`, `user_point_gain` and `org_tags`, which `src/db_tables.py` does not declare. They are modelled with the fields the services use. `src/db_tables.py` also builds its enums from `schemas.EventStatus` and `schemas.OrganizationSize`, which `src/schemas/__init__.py` does not declare. The schema classes for shop items and leaderboard entries are missing too; the records `Schemas.ShopItem` and `Schemas.LeaderboardEntry` stand in for them with the columns the services select. So are `schemas.Country` and `schemas.City` (used in `src/services/metadata.py`) and `schemas.EventApplication` and `schemas.EventApplicationIn` (used in `src/services/application.py`). Their return annotations are evaluated when the functions are defined, so as written importing those two services raises AttributeError; the model takes the classes to exist. `Schemas.Choice` stands in for Country and City as a label and an id. `Tables.Application.applicationData` stands in for `**event_data.dict()`: the dict is assumed to hold the one column `application_data`. A dict that also held `event_id`, `applicant_id`, `updated_by` or `status` would make the `values(...)` call raise TypeError for a repeated keyword, which is not modelled.
- The user columns `full_name`, `points`, `total_points`, `rank`, `city` and `country` are not declared either. They are modelled as the services use them, with server defaults of 0 for points and rank.
- The users table keeps only the columns the services read, not `first_name`, `last_name`, `birth_date`, `avatar` or `gender`.
- The user records of `src/schemas/__init__.py` do not match the services. `UserResponse` requires `first_name`, `last_name`, `age` and `avatar`, which no lookup selects, so `UserResponse(**row._mapping)` would refuse every row. It declares no `points`, `rank`, `full_name`, `city` or `country`, which the shop endpoint and the points service read. `UserRegister` and `GoogleRegister` lack the `full_name`, `city` and `country` that `create_user_by_email` inserts. The model takes a user answer to be the selected columns (`Tables.DetailOf`), with `organization_id` at its declared default None, and gives `Schemas.UserBase` the fields the services read. The validation error every lookup would raise is not modelled.
- EventService.CreateNewEvent: the insert is taken to succeed. The declared `events.status` column has the SQL default `text("HIDDEN")`, which SQLAlchemy writes into the INSERT as the bare identifier `HIDDEN`; PostgreSQL would refuse it as an unknown column, so as written no event is ever created. The model leaves `status` out of the event row and models the insert the intended default would allow.
- EventEndpoint.CreateEvent: its success branch and commit rest on that insert, so they are reachable only under the intended `'HIDDEN'` default.
- ShopEndpoint.PurchaseCheck: `user.rank.value < item_detail.rank_to_unlock.value` compares the values of a rank enum the schemas do not declare. The model compares the integer rank columns.
- OrganizationEndpoint.CreateOrg: it goes through `NewOrganizationIntended`, as do OrganizationEndpoint.AdminOrganization and OrganizationEndpoint.FoundOrganization beneath it. The organizations columns `email`, `size` and `years_of_operation` are NOT NULL but never inserted; that refusal is not modelled.
- Python `int()` accepting blanks and underscores is not modelled: `Builtins.IntOfStr` takes an optional sign and digits only. `str.capitalize` is modelled on ASCII only.
- Points.LeaderboardOfCountry: the order among equal totals (unspecified in SQL) is fixed by insertion sort, and the contract states only non-increasing totals.
- OrganizationService.OrganizationByUserData: the tag aggregation and the group-by are dropped. The contract states only that the answer is the organization of one of the user's memberships.
- ApplicationService.ApplicationQuery: the joins to countries and cities use organization columns the tables lack, and are not modelled. Answers are the `event_applications` rows.
- The order in which the database checks two violated foreign keys is assumed: event, then applicant; organization, then user.
- `get_application_by_event_id`, `application_by_org_id`, the GET endpoints of events and applications, and `upload_file` (a foreign MinIO call) are not modelled.
- `src/schemas/responses.py` declares only `BaseResponse` and `OrganizationResponse`; the response wrappers are not modelled. The endpoints also name `LoginResponse`, `MembershipReponse`, `EventListResponse`, `EventAttributeResponse` and `GenericResponse`, which it does not declare; the model answers with its own records instead.
- EventService.UpdateEvent takes an `EventIn`, which its only caller passes, so the organizer column is never overwritten.
- Hashing.VerifyPassword: `src/core/hash.py` is not part of this model. `verify_password` is assumed to answer false, not to raise, when either argument is None. A hash library could raise TypeError on a None plaintext, which `/login` reaches for an e-mail sent without a password. The model then gives the uniform credential error.
- The `tags` table joined by `organization_by_id` and `organization_by_user_data` is not modelled. Its labels never reach an answer, because the `Organization` schema has no tag field.
- OrganizationService.AddTagsToOrg: `org_tags` is not declared, so its columns are assumed. An empty tag list executes one insert of `organization_id` alone. The model takes the tag column to be NOT NULL, as part of the link, and so refuses that insert. A nullable column would instead store one row with a NULL tag.
- An empty document list in `POST /org/` leaves the inserted organization and its ADMIN row in the model's fields while `commits` does not advance; the rollback that discards them is not modelled.
- The `print` calls in `ensure_credentals`, `refresh_token_state`, `add_point_for_user` and `update_status` write to standard output only and are left out.
- Schemas.EnsureCredentials: pydantic's own field validation (e-mail syntax, the `username` field being undeclared) is not modelled beyond the values dict it hands the root validator.

## Findings

| source | as written | input that shows it | evidently intended | confidence | as-written member | corrected member |
|---|---|---|---|---|---|---|
| src/core/jwt.py:38 | `return none` names an undefined variable | `decode_token(None)` raises NameError | return None | not executed | Jwt.DecodeToken | Jwt.DecodeTokenIntended |
| src/schemas/__init__.py:141 | the page-size check reads `values.get("pageSize")`, which is always absent | `currentPage=1, pageSize=10` is refused | compare `v` with 100 | not executed | Schemas.PaginationAsWrittenCounterexample | Schemas.PaginationIntended |
| src/schemas/__init__.py:79-82 | the credential checks test key presence, which pydantic always supplies | an empty login body validates, and `/login` then fails on the unbound `user` | test for non-None values | not executed | Auth.EmptyLoginUnbound | Auth.ValidatedLoginIsBound |
| src/services/organization.py:28 | `new_organization.tags` on a schema without `tags` | once the organization insert succeeds, every `POST /org/` raises AttributeError | add no tags | not executed | OrganizationService.NewOrganization | OrganizationService.NewOrganizationIntended |
| src/endpoints/organization.py:66 | `get_membership_by_user_id(current_user.id)` without the session | an admin adding a member gets TypeError | pass `db_session` | not executed | OrganizationEndpoint.AddEmployeeEndpointRefusesAdmin | OrganizationEndpoint.AddEmployeeEndpointIntended |
| src/services/application.py:90-92 | Python `and` between two comparisons keeps only the event filter | a second organization applying to the same event is refused | filter by event and applicant | not executed | ApplicationService.ExistingApplicationCounterexample | ApplicationService.AddNewApplicationIntended |
| src/services/application.py:140-141 | an unknown id returns None and the read-back then applies no filter | updating id 2 of a table holding only application 1 answers application 1 | NotFoundException | not executed | ApplicationService.UpdateStatusUnknownIdCounterexample | ApplicationService.UpdateStatusIntended |
