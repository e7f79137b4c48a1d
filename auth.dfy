/** The handlers of src/endpoints/auth.py. Each runs its queries and inserts on the
    database session, sets the session cookies on the response and commits. The salt of a
    new password hash, the creation instant and the session id are inputs; the Google
    profile fetch is an input too, as the parsed profile or the failure it ended in. */
module Auth {
  import opened Errors
  import opened Config
  import opened Schemas
  import opened Tables
  import opened Hashing
  import opened Database
  import opened UserService
  import Jwt

  /** `LoginResponse` as the handlers fill it. */
  datatype LoginResponse = LoginResponse(hasAccount: bool, token: string, userDetail: Option<UserDetail>, avatar: string)

  const DUPLICATE_EMAIL := Http(400, "Email has already registered")
  const BAD_GOOGLE_TOKEN := BadRequest("Incorrect google token")
  const BAD_CREDENTIALS := BadRequest("Incorrect email or password")

  /** `register`: refuse a known email before hashing or inserting; otherwise store the
      hash of the password, issue the session cookies for the new user and commit. */
  method Register(db: Session, response: Jwt.Response, data: UserRegister, salt: string,
                  now: int, jti: string, settings: Settings) returns (r: Result<()>)
    requires db.Valid()
    modifies db`users, db`nextUserId, db`commits, response
    ensures db.Valid()
    ensures UserExistByEmail(old(db.users), data.base.email) ==>
              && r == Err(DUPLICATE_EMAIL)
              && db.users == old(db.users) && db.nextUserId == old(db.nextUserId)
              && db.commits == old(db.commits) && response.cookies == old(response.cookies)
    ensures !UserExistByEmail(old(db.users), data.base.email) ==>
              && r == Ok(())
              && db.users == old(db.users) + [EmailUser(old(db.nextUserId), data.base, Some(GetPasswordHash(data.password, salt)))]
              && db.nextUserId == old(db.nextUserId) + 1
              && response.cookies == old(response.cookies) + Jwt.SessionCookies(old(db.nextUserId), jti, now, settings)
              && db.commits == old(db.commits) + 1
  {
    var userExist := UserExistByEmail(db.users, data.base.email);
    if userExist {
      return Err(DUPLICATE_EMAIL);
    }
    var hashedPassword := GetPasswordHash(data.password, salt);
    var created := CreateUserByEmail(db, data.base, Some(hashedPassword));
    Jwt.CreateAndInjectToken(response, created.value, now, jti, settings);
    db.Commit();
    return Ok(());
  }

  /** `register_google_user`: the same refusal; the user is created without a password
      and no Google link is written. */
  method RegisterGoogleUser(db: Session, response: Jwt.Response, data: GoogleRegister,
                            now: int, jti: string, settings: Settings) returns (r: Result<LoginResponse>)
    requires db.Valid()
    modifies db`users, db`nextUserId, db`commits, response
    ensures db.Valid()
    ensures UserExistByEmail(old(db.users), data.base.email) ==>
              && r == Err(DUPLICATE_EMAIL)
              && db.users == old(db.users) && db.nextUserId == old(db.nextUserId)
              && db.commits == old(db.commits) && response.cookies == old(response.cookies)
    ensures !UserExistByEmail(old(db.users), data.base.email) ==>
              && db.users == old(db.users) + [EmailUser(old(db.nextUserId), data.base, None)]
              && r == Ok(LoginResponse(true, "", Some(DetailOf(EmailUser(old(db.nextUserId), data.base, None))), ""))
              && db.nextUserId == old(db.nextUserId) + 1
              && response.cookies == old(response.cookies) + Jwt.SessionCookies(old(db.nextUserId), jti, now, settings)
              && db.commits == old(db.commits) + 1
  {
    var userExist := UserExistByEmail(db.users, data.base.email);
    if userExist {
      return Err(DUPLICATE_EMAIL);
    }
    var created := CreateUserByEmail(db, data.base, None);
    Jwt.CreateAndInjectToken(response, created.value, now, jti, settings);
    db.Commit();
    return Ok(LoginResponse(true, "", Some(created.value), ""));
  }

  /** `handle_google_login` after the profile fetch: a failed fetch or parse is a bad
      token; otherwise the linked user, or None when the Google id has no account. */
  function HandleGoogleLogin(users: seq<User>, links: seq<GoogleLink>, profile: Result<GoogleCredentialData>): (r: Result<Option<UserDetail>>)
    ensures profile.Err? ==> r == Err(BAD_GOOGLE_TOKEN)
    ensures profile.Ok? ==> r.Ok?
    ensures profile.Ok? && r.value.Some? ==>
              exists i, j :: (0 <= i < |links| && 0 <= j < |users| && links[i].googleId == profile.value.sub &&
                              users[j].id == links[i].userId && r.value.value == DetailOf(users[j]))
    ensures profile.Ok? && (forall i :: 0 <= i < |links| ==> links[i].googleId != profile.value.sub) ==> r == Ok(None)
  {
    match profile
    case Err(_) => Err(BAD_GOOGLE_TOKEN)
    case Ok(info) => Ok(GetUserByGoogleId(users, links, info.sub))
  }

  /** The decision `/login` takes: an error, Ok(None) for "no account", or the user the
      session cookies are issued for. */
  function LoginOutcome(users: seq<User>, links: seq<GoogleLink>, data: UserLogin,
                        profile: Result<GoogleCredentialData>): (o: Result<Option<UserDetail>>)
    ensures data.googleToken.Some? && profile.Err? ==> o == Err(BAD_GOOGLE_TOKEN)
    ensures data.googleToken.Some? && profile.Ok? && GetUserByGoogleId(users, links, profile.value.sub).None? ==> o == Ok(None)
    ensures data.email.Some? && (data.googleToken.None? || (profile.Ok? && GetUserByGoogleId(users, links, profile.value.sub).Some?)) ==>
              if VerifyPassword(data.password, UserPasswordByEmail(users, data.email.value))
              then o == Ok(Some(UserDetailByEmail(users, data.email.value).value))
              else o == Err(BAD_CREDENTIALS)
    ensures data.email.None? && data.googleToken.Some? && profile.Ok? ==>
              o == Ok(GetUserByGoogleId(users, links, profile.value.sub))
    ensures data.email.None? && data.googleToken.None? ==> o == Err(UnboundLocal("user"))
  {
    var google: Result<Option<UserDetail>> :=
      if data.googleToken.Some? then HandleGoogleLogin(users, links, profile) else Ok(None);
    if google.Err? then Err(google.error)
    else if data.googleToken.Some? && google.value.None? then Ok(None)
    else if data.email.Some? then
      var password := UserPasswordByEmail(users, data.email.value);
      if password.None? || !VerifyPassword(data.password, password) then Err(BAD_CREDENTIALS)
      else
        PasswordImpliesDetail(users, data.email.value);
        Ok(Some(UserDetailByEmail(users, data.email.value).value))
    else if google.value.None? then Err(UnboundLocal("user"))
    else Ok(google.value)
  }

  /** `/login`. */
  method Login(db: Session, response: Jwt.Response, data: UserLogin, profile: Result<GoogleCredentialData>,
               now: int, jti: string, settings: Settings) returns (r: Result<LoginResponse>)
    modifies db`commits, response
    ensures match LoginOutcome(old(db.users), old(db.googleLinks), data, profile)
            case Err(e) =>
              r == Err(e) && db.commits == old(db.commits) && response.cookies == old(response.cookies)
            case Ok(None) =>
              && r == Ok(LoginResponse(false, "", None, ""))
              && db.commits == old(db.commits) && response.cookies == old(response.cookies)
            case Ok(Some(u)) =>
              && r == Ok(LoginResponse(true, "", Some(u), ""))
              && response.cookies == old(response.cookies) + Jwt.SessionCookies(u.id, jti, now, settings)
              && db.commits == old(db.commits) + 1
  {
    var user: Option<UserDetail> := None;
    if data.googleToken.Some? {
      var google := HandleGoogleLogin(db.users, db.googleLinks, profile);
      if google.Err? {
        return Err(google.error);
      }
      if google.value.None? {
        return Ok(LoginResponse(false, "", None, ""));
      }
      user := google.value;
    }
    if data.email.Some? {
      var password := UserPasswordByEmail(db.users, data.email.value);
      if password.None? || !VerifyPassword(data.password, password) {
        return Err(BAD_CREDENTIALS);
      }
      PasswordImpliesDetail(db.users, data.email.value);
      user := Some(UserDetailByEmail(db.users, data.email.value).value);
    }
    if user.None? {
      return Err(UnboundLocal("user"));
    }
    Jwt.CreateAndInjectToken(response, user.value, now, jti, settings);
    db.Commit();
    return Ok(LoginResponse(true, "", user, ""));
  }

  /** Cookies are only ever issued for a user whose password verified (email path) or
      whose Google id is linked (Google path). */
  lemma LoginIssuesOnlyVerified(users: seq<User>, links: seq<GoogleLink>, data: UserLogin,
                                profile: Result<GoogleCredentialData>, u: UserDetail)
    requires LoginOutcome(users, links, data, profile) == Ok(Some(u))
    ensures data.email.Some? ==>
              && VerifyPassword(data.password, UserPasswordByEmail(users, data.email.value))
              && UserDetailByEmail(users, data.email.value) == Ok(u)
    ensures data.email.None? ==> profile.Ok? && GetUserByGoogleId(users, links, profile.value.sub) == Some(u)
  {
  }

  /** An unknown email, a password-less account and a wrong password are refused alike. */
  lemma LoginErrorIsUniform(users: seq<User>, links: seq<GoogleLink>, email: string, password: Option<string>,
                            profile: Result<GoogleCredentialData>)
    requires UserPasswordByEmail(users, email).None? ||
             !VerifyPassword(password, UserPasswordByEmail(users, email))
    ensures LoginOutcome(users, links, UserLogin(Some(email), password, None), profile) == Err(BAD_CREDENTIALS)
  {
  }

  /** A user registered with a password logs in with it, when it is the first account
      with that email. */
  lemma LoginWithOwnPassword(users: seq<User>, links: seq<GoogleLink>, i: nat, plaintext: string, salt: string,
                             profile: Result<GoogleCredentialData>)
    requires i < |users| && FirstWithEmail(users, users[i].email, i)
    requires users[i].password == Some(GetPasswordHash(plaintext, salt))
    ensures LoginOutcome(users, links, UserLogin(Some(users[i].email), Some(plaintext), None), profile)
              == Ok(Some(DetailOf(users[i])))
  {
    VerifyOwnHash(plaintext, salt);
  }

  /** With the intended login validator a request always names a credential, so `/login`
      never reaches the unbound `user`. */
  lemma ValidatedLoginIsBound(users: seq<User>, links: seq<GoogleLink>, email: Option<string>, password: Option<string>,
                              googleToken: Option<string>, profile: Result<GoogleCredentialData>)
    requires ValidateUserLogin(email, password, googleToken).Ok?
    ensures LoginOutcome(users, links, ValidateUserLogin(email, password, googleToken).value, profile) != Err(UnboundLocal("user"))
  {
    var data := ValidateUserLogin(email, password, googleToken).value;
    if data.email.None? {
      assert data.googleToken.Some?;
    }
  }

  /** As written, the validator lets an empty body through and `/login` then fails on the
      unbound `user`. */
  lemma EmptyLoginUnbound(users: seq<User>, links: seq<GoogleLink>, profile: Result<GoogleCredentialData>)
    ensures EnsureCredentials(LoginValues(None, None, None)).Ok?
    ensures LoginOutcome(users, links, UserLoginOf(LoginValues(None, None, None)), profile) == Err(UnboundLocal("user"))
  {
    EnsureCredentialsNeverRefuses(None, None, None);
  }

  /** The user `/token` authenticates: the stored hash is passed to `verify_password`
      without a None check. */
  function TokenLoginUser(users: seq<User>, username: string, password: string): (r: Result<UserDetail>)
    ensures r.Ok? <==> VerifyPassword(Some(password), UserPasswordByEmail(users, username))
    ensures r.Err? ==> r.error == BAD_CREDENTIALS
    ensures r.Ok? ==> UserDetailByEmail(users, username) == Ok(r.value)
  {
    var hashed := UserPasswordByEmail(users, username);
    if !VerifyPassword(Some(password), hashed) then Err(BAD_CREDENTIALS)
    else
      PasswordImpliesDetail(users, username);
      Ok(UserDetailByEmail(users, username).value)
  }

  /** `/token` (the OAuth2 password form): issues the session cookies; it does not commit. */
  method LoginToken(db: Session, response: Jwt.Response, username: string, password: string,
                    now: int, jti: string, settings: Settings) returns (r: Result<()>)
    modifies response
    ensures match TokenLoginUser(db.users, username, password)
            case Err(e) => r == Err(e) && response.cookies == old(response.cookies)
            case Ok(u) => r == Ok(()) && response.cookies == old(response.cookies) + Jwt.SessionCookies(u.id, jti, now, settings)
  {
    var hashed := UserPasswordByEmail(db.users, username);
    if !VerifyPassword(Some(password), hashed) {
      return Err(BAD_CREDENTIALS);
    }
    PasswordImpliesDetail(db.users, username);
    var user := UserDetailByEmail(db.users, username).value;
    Jwt.CreateAndInjectToken(response, user, now, jti, settings);
    return Ok(());
  }
}
