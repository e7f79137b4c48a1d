/** Token issuance, refresh and decoding of src/core/jwt.py. The creation instant `now`
    and the session id `jti` are inputs (the clock and uuid4 are not modelled); instants
    are whole seconds and a lifetime of `m` minutes is `60 * m` seconds. */
module Jwt {
  import opened Errors
  import opened JoseCodec
  import opened Config
  import opened Schemas
  import Builtins

  const REFRESH_COOKIE_NAME := "refresh"
  const ACCESS_COOKIE_NAME := "access"

  /** One `Set-Cookie` of a response; `expires` is the POSIX second it carries. */
  datatype Cookie = Cookie(key: string, value: Token, expires: int, httponly: bool)

  /** The cookie jar of an outgoing response, in the order the cookies were set. */
  class Response {
    var cookies: seq<Cookie>

    constructor ()
      ensures cookies == []
    {
      cookies := [];
    }

    /** `response.set_cookie(...)` appends one header. */
    method SetCookie(key: string, value: Token, expires: int, httponly: bool)
      modifies this
      ensures cookies == old(cookies) + [Cookie(key, value, expires, httponly)]
    {
      cookies := cookies + [Cookie(key, value, expires, httponly)];
    }
  }

  /** `timedelta(minutes=m)` in seconds. */
  function Minutes(m: int): int {
    60 * m
  }

  /** `_create_token`: the payload is signed together with `exp`, which replaces any `exp`
      the payload held; the record keeps the payload without it. */
  function CreateToken(payload: Claims, expire: int, settings: Settings): (t: JwtTokenSchema)
    ensures t.payload == payload && t.expire == expire
    ensures t.token.Compact? && t.token.alg == settings.algorithm
    ensures Authentic(t.token, settings.secretKey)
    ensures t.token.claims.Keys == payload.Keys + {EXP}
    ensures t.token.claims[EXP] == Number(expire)
    ensures forall k :: k in payload && k != EXP ==> t.token.claims[k] == payload[k]
  {
    JwtTokenSchema(Encode(payload[EXP := Number(expire)], settings.secretKey, settings.algorithm), payload, expire)
  }

  /** A token made by `_create_token` decodes, with the configured secret and algorithm,
      to its claims until `expire` and is refused as expired after it. */
  lemma CreateTokenDecodes(payload: Claims, expire: int, settings: Settings, now: int)
    requires ClaimsWellTyped(payload)
    ensures var r := Decode(CreateToken(payload, expire, settings).token, settings.secretKey, [settings.algorithm], now);
            if now <= expire then r == Ok(payload[EXP := Number(expire)]) else r == Err(Jwt(Expired))
  {
    var claims := payload[EXP := Number(expire)];
    assert ClaimsWellTyped(claims);
  }

  /** The payload shared by both tokens of a session: `{sub: str(user.id), jti, iat}`.
      `iat` is the creation instant, which the encoder turns into seconds. */
  function SessionPayload(userId: int, jti: string, createTime: int): (p: Claims)
    ensures p.Keys == {SUB, JTI, IAT}
    ensures p[SUB] == Text(Builtins.StrOfInt(userId)) && p[JTI] == Text(jti) && p[IAT] == Number(createTime)
    ensures ClaimsWellTyped(p)
    ensures IntClaim(p[SUB]) == Some(userId)
  {
    Builtins.IntOfStrOfInt(userId);
    map[SUB := Text(Builtins.StrOfInt(userId)), JTI := Text(jti), IAT := Number(createTime)]
  }

  /** `token_details`: cookie name and lifetime in minutes, access first. */
  function TokenDetails(settings: Settings): seq<(string, int)> {
    [(ACCESS_COOKIE_NAME, settings.accessTokenExpiresMinutes),
     (REFRESH_COOKIE_NAME, settings.refreshTokenExpiresMinutes)]
  }

  /** The cookie one iteration of the loop sets. */
  function CookieOf(payload: Claims, name: string, minutes: int, createTime: int, settings: Settings): Cookie {
    var expire := createTime + Minutes(minutes);
    Cookie(name, CreateToken(payload, expire, settings).token, expire, true)
  }

  /** The cookies the loop sets for `details`, in order. */
  function CookiesOf(payload: Claims, details: seq<(string, int)>, createTime: int, settings: Settings): (cs: seq<Cookie>)
    ensures |cs| == |details|
    ensures forall i :: 0 <= i < |details| ==>
              cs[i] == CookieOf(payload, details[i].0, details[i].1, createTime, settings)
  {
    if |details| == 0 then []
    else CookiesOf(payload, details[..|details| - 1], createTime, settings)
         + [CookieOf(payload, details[|details| - 1].0, details[|details| - 1].1, createTime, settings)]
  }

  /** The cookies `create_and_inject_token` sets for a user. */
  function SessionCookies(userId: int, jti: string, now: int, settings: Settings): seq<Cookie> {
    CookiesOf(SessionPayload(userId, jti, now), TokenDetails(settings), now, settings)
  }

  /** `create_and_inject_token(response, user)` at instant `now` with session id `jti`. */
  method CreateAndInjectToken(response: Response, user: UserDetail, now: int, jti: string, settings: Settings)
    modifies response
    ensures response.cookies == old(response.cookies) + SessionCookies(user.id, jti, now, settings)
  {
    var createTime := now;
    var payload := SessionPayload(user.id, jti, createTime);
    var tokenDetails := TokenDetails(settings);
    var i := 0;
    while i < |tokenDetails|
      invariant 0 <= i <= |tokenDetails|
      invariant response.cookies == old(response.cookies) + CookiesOf(payload, tokenDetails[..i], createTime, settings)
    {
      var (tokenName, refreshMinutes) := tokenDetails[i];
      var expire := createTime + Minutes(refreshMinutes);
      var token := CreateToken(payload, expire, settings);
      response.SetCookie(tokenName, token.token, expire, true);
      assert tokenDetails[..i + 1][..i] == tokenDetails[..i];
      i := i + 1;
    }
    assert tokenDetails[..i] == tokenDetails;
  }

  /** The two session cookies: `access` then `refresh`, http-only, each expiring when its
      token does, after the configured lifetime, with one shared `sub`, `jti` and `iat`. */
  lemma SessionCookiesShape(userId: int, jti: string, now: int, settings: Settings)
    ensures var cs := SessionCookies(userId, jti, now, settings);
      && |cs| == 2
      && cs[0].key == "access" && cs[1].key == "refresh"
      && cs[0].expires == now + 60 * settings.accessTokenExpiresMinutes
      && cs[1].expires == now + 60 * settings.refreshTokenExpiresMinutes
      && (forall i :: 0 <= i < 2 ==>
            && cs[i].httponly
            && cs[i].value.Compact?
            && cs[i].value.claims.Keys == {SUB, JTI, IAT, EXP}
            && cs[i].value.claims[EXP] == Number(cs[i].expires)
            && cs[i].value.claims[SUB] == Text(Builtins.StrOfInt(userId))
            && cs[i].value.claims[JTI] == Text(jti)
            && cs[i].value.claims[IAT] == Number(now))
  {
    var cs := SessionCookies(userId, jti, now, settings);
    var p := SessionPayload(userId, jti, now);
    assert cs[0] == CookieOf(p, "access", settings.accessTokenExpiresMinutes, now, settings);
    assert cs[1] == CookieOf(p, "refresh", settings.refreshTokenExpiresMinutes, now, settings);
  }

  /** With the default lifetimes the access cookie expires strictly before the refresh one. */
  lemma AccessExpiresBeforeRefresh(userId: int, jti: string, now: int, secretKey: string)
    ensures var cs := SessionCookies(userId, jti, now, DefaultSettings(secretKey));
            cs[0].expires == now + 86400 && cs[1].expires == now + 1296000 && cs[0].expires < cs[1].expires
  {
    SessionCookiesShape(userId, jti, now, DefaultSettings(secretKey));
  }

  /** `decode_access_token`: any decoding failure becomes AuthFailedException. */
  function DecodeAccessToken(token: Token, settings: Settings, now: int): (r: Result<Claims>)
    ensures r.Ok? <==> Decode(token, settings.secretKey, [settings.algorithm], now).Ok?
    ensures r.Ok? ==> r.value == token.claims
    ensures r.Err? ==> r.error == AuthFailed
  {
    match Decode(token, settings.secretKey, [settings.algorithm], now)
    case Err(_) => Err(AuthFailed)
    case Ok(payload) => Ok(payload)
  }

  /** `decode_token` as written: a None token evaluates the undefined name `none`. */
  function DecodeToken(token: Option<Token>, settings: Settings, now: int): (r: Result<Option<Claims>>)
    ensures token.None? ==> r == Err(NameError("none"))
    ensures token.Some? ==> r.Ok?
    ensures token.Some? ==>
              (r.value.Some? <==> Decode(token.value, settings.secretKey, [settings.algorithm], now).Ok?)
    ensures token.Some? && r.value.Some? ==> r.value.value == token.value.claims
  {
    match token
    case None => Err(NameError("none"))
    case Some(t) =>
      match Decode(t, settings.secretKey, [settings.algorithm], now)
      case Err(_) => Ok(None)
      case Ok(payload) => Ok(Some(payload))
  }

  /** `decode_token` as intended: None for a None token as for an undecodable one. */
  function DecodeTokenIntended(token: Option<Token>, settings: Settings, now: int): (r: Option<Claims>)
    ensures r.Some? <==> token.Some? && Decode(token.value, settings.secretKey, [settings.algorithm], now).Ok?
    ensures r.Some? ==> r.value == token.value.claims
  {
    match token
    case None => None
    case Some(t) =>
      match Decode(t, settings.secretKey, [settings.algorithm], now)
      case Err(_) => None
      case Ok(payload) => Some(payload)
  }

  /** The two agree on every present token; on None the written one raises NameError. */
  lemma DecodeTokenDiscrepancy(token: Option<Token>, settings: Settings, now: int)
    ensures token.Some? ==> DecodeToken(token, settings, now) == Ok(DecodeTokenIntended(token, settings, now))
    ensures token.None? ==> DecodeToken(token, settings, now).Err? && DecodeTokenIntended(token, settings, now).None?
  {
  }

  /** The access cookie `refresh_token_state` sets for a refresh token, or the
      AuthFailedException it raises. */
  function RefreshedAccess(refreshToken: Token, now: int, settings: Settings): (r: Result<Cookie>)
    ensures r.Err? <==> Decode(refreshToken, settings.secretKey, [settings.algorithm], now).Err?
    ensures r.Err? ==> r.error == AuthFailed
    ensures r.Ok? ==>
              && r.value.key == ACCESS_COOKIE_NAME && r.value.httponly
              && r.value.expires == now + 60 * settings.accessTokenExpiresMinutes
              && r.value.value.Compact? && Authentic(r.value.value, settings.secretKey)
              && r.value.value.claims == refreshToken.claims[EXP := Number(r.value.expires)]
  {
    match Decode(refreshToken, settings.secretKey, [settings.algorithm], now)
    case Err(_) => Err(AuthFailed)
    case Ok(payload) =>
      var newExpire := now + Minutes(settings.accessTokenExpiresMinutes);
      Ok(Cookie(ACCESS_COOKIE_NAME, CreateToken(payload, newExpire, settings).token, newExpire, true))
  }

  /** `refresh_token_state(response, refresh_token)` at instant `now`. */
  method RefreshTokenState(response: Response, refreshToken: Token, now: int, settings: Settings) returns (r: Result<()>)
    modifies response
    ensures match RefreshedAccess(refreshToken, now, settings)
            case Err(e) => r == Err(e) && response.cookies == old(response.cookies)
            case Ok(c) => r == Ok(()) && response.cookies == old(response.cookies) + [c]
  {
    var decoded := Decode(refreshToken, settings.secretKey, [settings.algorithm], now);
    if decoded.Err? {
      return Err(AuthFailed);
    }
    var payload := decoded.value;
    var newExpire := now + Minutes(settings.accessTokenExpiresMinutes);
    var newAccessToken := CreateToken(payload, newExpire, settings);
    response.SetCookie(ACCESS_COOKIE_NAME, newAccessToken.token, newExpire, true);
    return Ok(());
  }

  /** Refreshing with the refresh token of a live session gives a new access token with
      the session's `sub`, `jti` and `iat`, expiring one access lifetime after `now`. */
  lemma RefreshKeepsSession(userId: int, jti: string, createTime: int, now: int, settings: Settings)
    requires now <= createTime + 60 * settings.refreshTokenExpiresMinutes
    ensures var refresh := SessionCookies(userId, jti, createTime, settings)[1].value;
            var r := RefreshedAccess(refresh, now, settings);
            && r.Ok?
            && r.value.value.claims.Keys == {SUB, JTI, IAT, EXP}
            && r.value.value.claims[SUB] == Text(Builtins.StrOfInt(userId))
            && r.value.value.claims[JTI] == Text(jti)
            && r.value.value.claims[IAT] == Number(createTime)
            && r.value.value.claims[EXP] == Number(now + 60 * settings.accessTokenExpiresMinutes)
  {
    SessionCookiesShape(userId, jti, createTime, settings);
    var p := SessionPayload(userId, jti, createTime);
    CreateTokenDecodes(p, createTime + Minutes(settings.refreshTokenExpiresMinutes), settings, now);
  }

  /** Once the refresh token has expired, refreshing fails and no cookie is set. */
  lemma RefreshRejectsExpired(userId: int, jti: string, createTime: int, now: int, settings: Settings)
    requires now > createTime + 60 * settings.refreshTokenExpiresMinutes
    ensures RefreshedAccess(SessionCookies(userId, jti, createTime, settings)[1].value, now, settings) == Err(AuthFailed)
  {
    SessionCookiesShape(userId, jti, createTime, settings);
    var p := SessionPayload(userId, jti, createTime);
    CreateTokenDecodes(p, createTime + Minutes(settings.refreshTokenExpiresMinutes), settings, now);
  }

  /** The cookie `add_refresh_token_cookie` sets: `token` as is, one refresh lifetime. */
  function RefreshCookie(token: Token, now: int, settings: Settings): (c: Cookie)
    ensures c.key == REFRESH_COOKIE_NAME && c.value == token && c.httponly
    ensures c.expires == now + 60 * settings.refreshTokenExpiresMinutes
  {
    Cookie(REFRESH_COOKIE_NAME, token, now + Minutes(settings.refreshTokenExpiresMinutes), true)
  }

  /** `add_refresh_token_cookie(response, token)` at instant `now`. */
  method AddRefreshTokenCookie(response: Response, token: Token, now: int, settings: Settings)
    modifies response
    ensures response.cookies == old(response.cookies) + [RefreshCookie(token, now, settings)]
  {
    var exp := now + Minutes(settings.refreshTokenExpiresMinutes);
    response.SetCookie(REFRESH_COOKIE_NAME, token, exp, true);
  }

  /** Re-adding a session's refresh token at its creation instant reproduces the refresh
      cookie of the session: the cookie expires exactly when the token does. */
  lemma RefreshCookieMatchesSession(userId: int, jti: string, createTime: int, settings: Settings)
    ensures var cs := SessionCookies(userId, jti, createTime, settings);
            RefreshCookie(cs[1].value, createTime, settings) == cs[1]
  {
    SessionCookiesShape(userId, jti, createTime, settings);
  }
}
