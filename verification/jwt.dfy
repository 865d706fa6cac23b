/**
 * The JSON Web Tokens of the older `net/http` API: the claims it signs, the
 * signing-method check made before a signature is trusted, and the creation
 * of a token for a user. Decoding, signing and the signature check belong to
 * the JWT library and are parameters here.
 */
module Jwt {
  import opened Wrappers
  import opened Errors
  import opened Decimal

  /** A decoded claim value: a JSON string, a JSON number (decoded as `float64`) or anything else. */
  datatype Claim = Str(s: string) | Num(x: real) | OtherClaim

  /** The `alg` of a token header and whether the library implements it with HMAC. */
  datatype SigningMethod = Hmac(alg: string) | OtherMethod(alg: string)

  /** A parsed token: its signing method, its claims and the library's validity flag. */
  datatype Token = Token(signing: SigningMethod, claims: map<string, Claim>, valid: bool)

  /**
   * The JWT library with the server's secret: `decode` splits and decodes a
   * token string; `signatureOk` checks its signature with the HMAC secret;
   * `sign` serialises claims and signs them with HS256.
   */
  datatype Library = Library(
    decode: string -> Result<Token, Err>,
    signatureOk: string -> bool,
    sign: map<string, Claim> -> Result<string, Err>)

  const Second: int := 1_000_000_000

  /** `validateJWT`: the key is handed out only for HMAC tokens, so any other method fails. */
  function ValidateJwt(lib: Library, tokenString: string): (r: Result<Token, Err>)
    ensures r.Ok? <==> lib.decode(tokenString).Ok? && lib.decode(tokenString).value.signing.Hmac?
                       && lib.signatureOk(tokenString)
    ensures r.Ok? ==> r.value == lib.decode(tokenString).value
    ensures lib.decode(tokenString).Err? ==> r == Err(lib.decode(tokenString).error)
  {
    match lib.decode(tokenString)
    case Err(e) => Err(e)
    case Ok(t) =>
      if !t.signing.Hmac? then Err(Plain("unexpected signing method: " + t.signing.alg))
      else if !lib.signatureOk(tokenString) then Err(Plain("token signature is invalid"))
      else Ok(t)
  }

  /** Go's `int64(f)` conversion of a float: truncation toward zero. */
  function Truncate(x: real): (n: int)
    ensures x >= 0.0 ==> 0 <= n && n as real <= x < n as real + 1.0
    ensures x < 0.0 ==> n <= 0 && n as real - 1.0 < x <= n as real
  {
    if x >= 0.0 then x.Floor else -((-x).Floor)
  }

  /** `time.Time.Unix`: whole seconds since the epoch, rounded down, of a time in nanoseconds. */
  function UnixSeconds(nanos: int): (s: int)
    ensures s * Second <= nanos < (s + 1) * Second
  {
    nanos / Second
  }

  /** The claims `CreateJWT` signs: the user id as a decimal string and the expiry in whole seconds. */
  function CreateClaims(userId: int, now: int, lifetime: int): (c: map<string, Claim>)
    ensures c.Keys == {"userID", "expiresAt"}
    ensures c["userID"].Str? && c["expiresAt"].Num?
  {
    map["userID" := Str(Itoa(userId)), "expiresAt" := Num(UnixSeconds(now + lifetime) as real)]
  }

  /**
   * `CreateJWT`: the signed claims, or the signing error and an empty token.
   * With a library whose signed tokens read back, the token validates, and
   * its claims give back the user id and the expiry second.
   */
  function CreateJwt(lib: Library, userId: int, now: int, lifetime: int): (r: Result<string, Err>)
    ensures r.Err? <==> lib.sign(CreateClaims(userId, now, lifetime)).Err?
    ensures r.Err? ==> r.error == lib.sign(CreateClaims(userId, now, lifetime)).error
    ensures SignReadsBack(lib) && r.Ok? ==>
      ValidateJwt(lib, r.value).Ok? &&
      ValidateJwt(lib, r.value).value.claims == CreateClaims(userId, now, lifetime) &&
      ValidateJwt(lib, r.value).value.claims.Keys == {"userID", "expiresAt"} &&
      Truncate(ValidateJwt(lib, r.value).value.claims["expiresAt"].x) == UnixSeconds(now + lifetime)
    ensures IsInt64(userId) && SignReadsBack(lib) && r.Ok? ==>
      ParseInt(ValidateJwt(lib, r.value).value.claims["userID"].s, 64) == Ok(userId)
  {
    CreatedClaimsReadBack(userId, now, lifetime);
    lib.sign(CreateClaims(userId, now, lifetime))
  }

  /** The token string the library produced for `claims` decodes back to them and verifies. */
  predicate RoundTrips(lib: Library, claims: map<string, Claim>, tokenString: string) {
    lib.decode(tokenString) == Ok(Token(Hmac("HS256"), claims, true)) && lib.signatureOk(tokenString)
  }

  /** The library law: every token `sign` produces decodes to the claims it signed, as HS256 valid. */
  ghost predicate SignReadsBack(lib: Library) {
    forall c :: lib.sign(c).Ok? ==> RoundTrips(lib, c, lib.sign(c).value)
  }

  /** Under the library law, a token `CreateJWT` returned carries exactly the created claims. */
  lemma CreatedTokenRoundTrips(lib: Library, userId: int, now: int, lifetime: int, tokenString: string)
    requires SignReadsBack(lib)
    requires CreateJwt(lib, userId, now, lifetime) == Ok(tokenString)
    ensures RoundTrips(lib, CreateClaims(userId, now, lifetime), tokenString)
  {
    assert lib.sign(CreateClaims(userId, now, lifetime)).Ok?;
  }

  /** The user id claim of a created token parses back to the id, and its expiry is a whole second. */
  lemma CreatedClaimsReadBack(userId: int, now: int, lifetime: int)
    ensures IsInt64(userId) ==> ParseInt(CreateClaims(userId, now, lifetime)["userID"].s, 64) == Ok(userId)
    ensures Truncate(CreateClaims(userId, now, lifetime)["expiresAt"].x) == UnixSeconds(now + lifetime)
  {
    if IsInt64(userId) {
      ItoaParseRoundTrip(userId);
    }
  }
}
