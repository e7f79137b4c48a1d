/** The `jose` JWT codec used by src/core/jwt.py, as a symbolic model: a compact token
    carries its header algorithm, its claims and a signature term that only the holder
    of the secret can produce. Decoding accepts exactly the tokens that encoding made
    with the same secret and an allowed algorithm, whose claims are well typed and whose
    `exp` has not passed. */
module JoseCodec {
  import opened Errors
  import Builtins

  /** A JSON claim value as the core uses them: a string or an integer. */
  datatype ClaimValue = Text(text: string) | Number(number: int)

  type Claims = map<string, ClaimValue>

  const SUB := "sub"
  const EXP := "exp"
  const IAT := "iat"
  const JTI := "jti"

  /** The MAC that signing computes, as a term over its inputs. */
  datatype Signature = Mac(key: string, alg: string, signed: Claims)

  datatype Token =
    | Compact(alg: string, claims: Claims, signature: Signature)
    | Unparsable(raw: string)

  /** `jwt.encode(claims, key, algorithm=alg)`. */
  function Encode(claims: Claims, key: string, alg: string): (t: Token)
    ensures t.Compact? && t.alg == alg && t.claims == claims
  {
    Compact(alg, claims, Mac(key, alg, claims))
  }

  /** The integer value of a numeric claim, as `int(claims[name])` computes it. */
  function IntClaim(v: ClaimValue): Option<int> {
    match v
    case Number(n) => Some(n)
    case Text(s) => Builtins.IntOfStr(s)
  }

  /** The registered-claim type checks: `iat` and `exp` integers, `sub` and `jti` strings. */
  predicate ClaimsWellTyped(claims: Claims) {
    && (IAT in claims ==> IntClaim(claims[IAT]).Some?)
    && (EXP in claims ==> IntClaim(claims[EXP]).Some?)
    && (SUB in claims ==> claims[SUB].Text?)
    && (JTI in claims ==> claims[JTI].Text?)
  }

  /** No `exp`, or `exp` not before `now` (leeway 0). */
  predicate NotExpired(claims: Claims, now: int)
    requires ClaimsWellTyped(claims)
  {
    EXP in claims ==> now <= IntClaim(claims[EXP]).value
  }

  /** A token is authentic when its signature is the one the secret gives its claims. */
  predicate Authentic(t: Token, key: string) {
    t.Compact? && t.signature == Mac(key, t.alg, t.claims)
  }

  /** `jwt.decode(token, key, algorithms=algorithms)` at instant `now`. */
  function Decode(t: Token, key: string, algorithms: seq<string>, now: int): (r: Result<Claims>)
    ensures r.Ok? <==> t.Compact? && t.alg in algorithms && Authentic(t, key)
                        && ClaimsWellTyped(t.claims) && NotExpired(t.claims, now)
    ensures r.Ok? ==> r.value == t.claims
    ensures r.Err? ==> r.error.Jwt?
  {
    match t
    case Unparsable(_) => Err(Jwt(Malformed))
    case Compact(alg, claims, signature) =>
      if alg !in algorithms then Err(Jwt(AlgorithmNotAllowed))
      else if signature != Mac(key, alg, claims) then Err(Jwt(SignatureMismatch))
      else if !ClaimsWellTyped(claims) then Err(Jwt(ClaimsInvalid))
      else if !NotExpired(claims, now) then Err(Jwt(Expired))
      else Ok(claims)
  }

  /** Decoding inverts encoding until `exp`. */
  lemma DecodeEncode(claims: Claims, key: string, alg: string, now: int)
    requires ClaimsWellTyped(claims) && NotExpired(claims, now)
    ensures Decode(Encode(claims, key, alg), key, [alg], now) == Ok(claims)
  {
  }

  /** An authentic token whose `exp` has passed is refused as expired. */
  lemma DecodeRejectsExpired(claims: Claims, key: string, alg: string, now: int)
    requires ClaimsWellTyped(claims) && EXP in claims && IntClaim(claims[EXP]).value < now
    ensures Decode(Encode(claims, key, alg), key, [alg], now) == Err(Jwt(Expired))
  {
  }

  /** Changing the claims of a signed token without re-signing makes it undecodable,
      whatever its expiry. */
  lemma DecodeRejectsTampered(t: Token, forged: Claims, key: string, algorithms: seq<string>, now: int)
    requires Authentic(t, key) && forged != t.claims
    ensures Decode(Compact(t.alg, forged, t.signature), key, algorithms, now).Err?
  {
  }

  /** A token made with another secret is refused. */
  lemma DecodeRejectsOtherKey(claims: Claims, key: string, other: string, alg: string, now: int)
    requires key != other
    ensures Decode(Encode(claims, other, alg), key, [alg], now).Err?
  {
  }
}
