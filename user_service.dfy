/** The user queries and inserts of src/services/user.py. A query's `.first()` is the
    earliest matching row in storage order; the inserts run on the database session. */
module UserService {
  import opened Errors
  import opened Schemas
  import opened Tables
  import opened Hashing
  import Query
  import opened Database

  function HasEmail(email: string): User -> bool {
    (u: User) => u.email == email
  }

  function HasId(id: int): User -> bool {
    (u: User) => u.id == id
  }

  function HasGoogleId(googleId: string): GoogleLink -> bool {
    (l: GoogleLink) => l.googleId == googleId
  }

  /** Row `i` is the earliest user with this email. */
  predicate FirstWithEmail(users: seq<User>, email: string, i: int) {
    0 <= i < |users| && users[i].email == email && forall j :: 0 <= j < i ==> users[j].email != email
  }

  /** `user_exist_by_email`: the id of the first match is never NULL, so the answer is
      whether any row has the email. */
  function UserExistByEmail(users: seq<User>, email: string): (r: bool)
    ensures r <==> exists i :: 0 <= i < |users| && users[i].email == email
  {
    Query.First(users, HasEmail(email)).Some?
  }

  /** `user_password_by_email`: the password column of the first match. None both when no
      row has the email and when that row's password is NULL. */
  function UserPasswordByEmail(users: seq<User>, email: string): (r: Option<Digest>)
    ensures (forall i :: 0 <= i < |users| ==> users[i].email != email) ==> r.None?
    ensures forall i :: FirstWithEmail(users, email, i) ==> r == users[i].password
  {
    match Query.FirstIndex(users, HasEmail(email))
    case None => None
    case Some(k) => users[k].password
  }

  /** `user_detail_by_email`: the first match, or NotFoundException. */
  function UserDetailByEmail(users: seq<User>, email: string): (r: Result<UserDetail>)
    ensures r.Err? <==> forall i :: 0 <= i < |users| ==> users[i].email != email
    ensures r.Err? ==> r.error == NotFound
    ensures forall i :: FirstWithEmail(users, email, i) ==> r == Ok(DetailOf(users[i]))
  {
    match Query.FirstIndex(users, HasEmail(email))
    case None => Err(NotFound)
    case Some(k) => Ok(DetailOf(users[k]))
  }

  /** A stored password implies a row with that email, so the detail query then succeeds. */
  lemma PasswordImpliesDetail(users: seq<User>, email: string)
    requires UserPasswordByEmail(users, email).Some?
    ensures UserDetailByEmail(users, email).Ok?
    ensures UserExistByEmail(users, email)
  {
    var k := Query.FirstIndex(users, HasEmail(email));
    assert k.Some?;
    assert users[k.value].email == email;
  }

  /** `user_by_id`: the row with that id, or NotFoundException. */
  function UserById(users: seq<User>, id: int): (r: Result<UserDetail>)
    ensures r.Err? <==> forall i :: 0 <= i < |users| ==> users[i].id != id
    ensures r.Err? ==> r.error == NotFound
    ensures r.Ok? ==> exists i :: 0 <= i < |users| && users[i].id == id && r.value == DetailOf(users[i])
  {
    match Query.First(users, HasId(id))
    case None => Err(NotFound)
    case Some(u) => Ok(DetailOf(u))
  }

  /** With `id` the primary key, looking up a row's id gives that row. */
  lemma UserByIdOfRow(users: seq<User>, i: nat)
    requires KeysUnique(users, UserKey) && i < |users|
    ensures UserById(users, users[i].id) == Ok(DetailOf(users[i]))
  {
    var r := UserById(users, users[i].id);
    var j :| 0 <= j < |users| && users[j].id == users[i].id && r.value == DetailOf(users[j]);
    UniqueKeyRow(users, UserKey, i, j);
  }

  /** `get_user_by_google_id`: the user joined to the link with that Google id, or None;
      a missing link is not an error. */
  function GetUserByGoogleId(users: seq<User>, links: seq<GoogleLink>, googleId: string): (r: Option<UserDetail>)
    ensures (forall i :: 0 <= i < |links| ==> links[i].googleId != googleId) ==> r.None?
    ensures r.Some? ==>
              exists i, j :: (0 <= i < |links| && 0 <= j < |users| && links[i].googleId == googleId &&
                              users[j].id == links[i].userId && r.value == DetailOf(users[j]))
  {
    match Query.First(links, HasGoogleId(googleId))
    case None => None
    case Some(l) =>
      match Query.First(users, HasId(l.userId))
      case None => None
      case Some(u) => Some(DetailOf(u))
  }

  /** Under the keys and the foreign key of `user_google_id`, a link resolves to exactly
      the user it references. */
  lemma GoogleLinkResolves(users: seq<User>, links: seq<GoogleLink>, i: nat)
    requires KeysUnique(users, UserKey) && KeysUnique(links, GoogleKey)
    requires References(links, LinkUser, Keys(users, UserKey))
    requires i < |links|
    ensures exists j :: 0 <= j < |users| && users[j].id == links[i].userId &&
              GetUserByGoogleId(users, links, links[i].googleId) == Some(DetailOf(users[j]))
  {
    assert LinkUser(links[i]) in Keys(users, UserKey);
    var j :| 0 <= j < |users| && users[j].id == links[i].userId;
    Query.FirstOfOnly(links, HasGoogleId(links[i].googleId), i) by {
      forall k | 0 <= k < |links| && k != i ensures !HasGoogleId(links[i].googleId)(links[k]) {
        if k < i { assert GoogleKey(links[k]) != GoogleKey(links[i]); }
        else { assert GoogleKey(links[i]) != GoogleKey(links[k]); }
      }
    }
    Query.FirstOfOnly(users, HasId(links[i].userId), j) by {
      forall k | 0 <= k < |users| && k != j ensures !HasId(links[i].userId)(users[k]) {
        if k < j { assert UserKey(users[k]) != UserKey(users[j]); }
        else { assert UserKey(users[j]) != UserKey(users[k]); }
      }
    }
  }

  /** The row `create_user_by_email` inserts. */
  function EmailUser(id: int, data: UserBase, hashedPassword: Option<Digest>): User {
    User(id, data.email, hashedPassword, data.fullName, NEW_USER_POINTS, NEW_USER_POINTS,
         data.city, data.country, NEW_USER_RANK)
  }

  /** The row `create_user_by_google_id` inserts. */
  function GoogleUser(id: int, data: GoogleCredentialData): User {
    User(id, data.email, None, data.givenName + " " + data.familyName, NEW_USER_POINTS, NEW_USER_POINTS,
         "Lahti", "Finland", NEW_USER_RANK)
  }

  /** Appending a user with the next id keeps every constraint of the database. */
  lemma AppendUserValid(db: Session, row: User)
    requires db.Valid() && row.id == db.nextUserId
    ensures var users := db.users + [row];
      && Serial(users, UserKey, db.nextUserId + 1)
      && References(db.googleLinks, LinkUser, Keys(users, UserKey))
      && References(db.members, MemberUser, Keys(users, UserKey))
  {
    KeysAppend(db.users, row, UserKey);
    SerialAppend(db.users, row, UserKey, db.nextUserId);
  }

  /** The appended user is the first with its email when no earlier row had it. */
  lemma AppendedFirstWithEmail(users: seq<User>, row: User)
    requires !UserExistByEmail(users, row.email)
    ensures FirstWithEmail(users + [row], row.email, |users|)
  {
    var all := users + [row];
    forall j | 0 <= j < |users| ensures all[j].email != row.email {
      assert all[j] == users[j];
    }
  }

  /** `create_user_by_email(db, data, hashed_password)`: inserts a row storing exactly the
      given hash (None for a federated account) and answers the first user with the email,
      which is the new row when the email was new. */
  method CreateUserByEmail(db: Session, data: UserBase, hashedPassword: Option<Digest>) returns (r: Result<UserDetail>)
    requires db.Valid()
    modifies db`users, db`nextUserId
    ensures db.Valid()
    ensures db.users == old(db.users) + [EmailUser(old(db.nextUserId), data, hashedPassword)]
    ensures db.nextUserId == old(db.nextUserId) + 1
    ensures r == UserDetailByEmail(db.users, data.email)
    ensures !UserExistByEmail(old(db.users), data.email) ==>
              r == Ok(DetailOf(EmailUser(old(db.nextUserId), data, hashedPassword)))
  {
    var row := EmailUser(db.nextUserId, data, hashedPassword);
    AppendUserValid(db, row);
    if !UserExistByEmail(db.users, data.email) {
      AppendedFirstWithEmail(db.users, row);
    }
    db.users := db.users + [row];
    db.nextUserId := db.nextUserId + 1;
    r := UserDetailByEmail(db.users, data.email);
  }

  /** `create_user_by_google_id(db, google_data)`: inserts a password-less user named
      "given family" in Lahti, Finland, then the link from the Google id to it, and answers
      the user found through that link. A Google id already linked violates the link's
      primary key; the user row is then already written. */
  method CreateUserByGoogleId(db: Session, data: GoogleCredentialData) returns (r: Result<Option<UserDetail>>)
    requires db.Valid()
    modifies db`users, db`nextUserId, db`googleLinks
    ensures db.Valid()
    ensures db.users == old(db.users) + [GoogleUser(old(db.nextUserId), data)]
    ensures db.nextUserId == old(db.nextUserId) + 1
    ensures data.sub in Keys(old(db.googleLinks), GoogleKey) ==>
              r == Err(Integrity("user_google_id_pkey")) && db.googleLinks == old(db.googleLinks)
    ensures data.sub !in Keys(old(db.googleLinks), GoogleKey) ==>
              && db.googleLinks == old(db.googleLinks) + [GoogleLink(data.sub, old(db.nextUserId))]
              && r == Ok(Some(DetailOf(GoogleUser(old(db.nextUserId), data))))
  {
    var insertedId := db.nextUserId;
    var row := GoogleUser(insertedId, data);
    AppendUserValid(db, row);
    KeysAppend(db.users, row, UserKey);
    db.users := db.users + [row];
    db.nextUserId := db.nextUserId + 1;
    if data.sub in Keys(db.googleLinks, GoogleKey) {
      return Err(Integrity("user_google_id_pkey"));
    }
    var link := GoogleLink(data.sub, insertedId);
    UniqueAppend(db.googleLinks, link, GoogleKey);
    KeysAppend(db.googleLinks, link, GoogleKey);
    ReferencesWiden(db.googleLinks, LinkUser, Keys(db.users[..|db.users| - 1], UserKey), Keys(db.users, UserKey));
    assert db.users[..|db.users| - 1] == old(db.users);
    db.googleLinks := db.googleLinks + [link];
    assert db.users[|db.users| - 1] == row;
    GoogleLinkResolves(db.users, db.googleLinks, |db.googleLinks| - 1);
    UserByIdOfRow(db.users, |db.users| - 1);
    r := Ok(GetUserByGoogleId(db.users, db.googleLinks, data.sub));
  }
}
