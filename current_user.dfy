/** `get_current_user` of src/dependencies/user.py: decode the bearer token, then look the
    user up by the integer value of its `sub` claim. It changes nothing. */
module CurrentUser {
  import opened Errors
  import opened JoseCodec
  import opened Config
  import opened Schemas
  import opened Tables
  import Builtins
  import Jwt
  import UserService

  /** `get_current_user(token)` at instant `now` over the users table. */
  function GetCurrentUser(token: Token, users: seq<User>, settings: Settings, now: int): (r: Result<UserDetail>)
    ensures Jwt.DecodeAccessToken(token, settings, now).Err? ==> r == Err(AuthFailed)
    ensures Jwt.DecodeAccessToken(token, settings, now).Ok? && SUB !in token.claims ==> r == Err(KeyError(SUB))
    ensures Jwt.DecodeAccessToken(token, settings, now).Ok? && SUB in token.claims ==>
              match Builtins.IntOfStr(token.claims[SUB].text)
              case None => r.Err? && r.error.ValueError?
              case Some(id) => r == UserService.UserById(users, id)
    ensures r.Ok? ==> Jwt.DecodeAccessToken(token, settings, now).Ok?
  {
    match Jwt.DecodeAccessToken(token, settings, now)
    case Err(e) => Err(e)
    case Ok(payload) =>
      if SUB !in payload then Err(KeyError(SUB))
      else
        match Builtins.IntOfStr(payload[SUB].text)
        case None => Err(ValueError("invalid literal for int() with base 10"))
        case Some(id) => UserService.UserById(users, id)
  }

  /** The access token `create_and_inject_token` minted for a user resolves, until it
      expires, to that user's row. */
  lemma MintedAccessResolves(users: seq<User>, i: nat, jti: string, createTime: int, now: int, settings: Settings)
    requires KeysUnique(users, UserKey) && i < |users|
    requires now <= createTime + 60 * settings.accessTokenExpiresMinutes
    ensures GetCurrentUser(Jwt.SessionCookies(users[i].id, jti, createTime, settings)[0].value, users, settings, now)
              == Ok(DetailOf(users[i]))
  {
    Jwt.SessionCookiesShape(users[i].id, jti, createTime, settings);
    var p := Jwt.SessionPayload(users[i].id, jti, createTime);
    Jwt.CreateTokenDecodes(p, createTime + Jwt.Minutes(settings.accessTokenExpiresMinutes), settings, now);
    Builtins.IntOfStrOfInt(users[i].id);
    UserService.UserByIdOfRow(users, i);
  }

  /** So does an access token re-minted from the session's refresh token, until the new
      access token expires. */
  lemma RefreshedAccessResolves(users: seq<User>, i: nat, jti: string, createTime: int, refreshTime: int, now: int, settings: Settings)
    requires KeysUnique(users, UserKey) && i < |users|
    requires refreshTime <= createTime + 60 * settings.refreshTokenExpiresMinutes
    requires now <= refreshTime + 60 * settings.accessTokenExpiresMinutes
    ensures var refresh := Jwt.SessionCookies(users[i].id, jti, createTime, settings)[1].value;
            var access := Jwt.RefreshedAccess(refresh, refreshTime, settings);
            access.Ok? && GetCurrentUser(access.value.value, users, settings, now) == Ok(DetailOf(users[i]))
  {
    Jwt.RefreshKeepsSession(users[i].id, jti, createTime, refreshTime, settings);
    var refresh := Jwt.SessionCookies(users[i].id, jti, createTime, settings)[1].value;
    var access := Jwt.RefreshedAccess(refresh, refreshTime, settings).value.value;
    assert ClaimsWellTyped(access.claims) by {
      Builtins.IntOfStrOfInt(users[i].id);
    }
    Builtins.IntOfStrOfInt(users[i].id);
    UserService.UserByIdOfRow(users, i);
  }

  /** An expired access token is refused before any lookup. */
  lemma ExpiredAccessRefused(users: seq<User>, userId: int, jti: string, createTime: int, now: int, settings: Settings)
    requires now > createTime + 60 * settings.accessTokenExpiresMinutes
    ensures GetCurrentUser(Jwt.SessionCookies(userId, jti, createTime, settings)[0].value, users, settings, now)
              == Err(AuthFailed)
  {
    Jwt.SessionCookiesShape(userId, jti, createTime, settings);
    var p := Jwt.SessionPayload(userId, jti, createTime);
    Jwt.CreateTokenDecodes(p, createTime + Jwt.Minutes(settings.accessTokenExpiresMinutes), settings, now);
  }

  /** A live token for an id no row has gives NotFoundException. */
  lemma UnknownSubjectNotFound(users: seq<User>, userId: int, jti: string, createTime: int, now: int, settings: Settings)
    requires forall i :: 0 <= i < |users| ==> users[i].id != userId
    requires now <= createTime + 60 * settings.accessTokenExpiresMinutes
    ensures GetCurrentUser(Jwt.SessionCookies(userId, jti, createTime, settings)[0].value, users, settings, now)
              == Err(NotFound)
  {
    Jwt.SessionCookiesShape(userId, jti, createTime, settings);
    var p := Jwt.SessionPayload(userId, jti, createTime);
    Jwt.CreateTokenDecodes(p, createTime + Jwt.Minutes(settings.accessTokenExpiresMinutes), settings, now);
    Builtins.IntOfStrOfInt(userId);
  }
}
