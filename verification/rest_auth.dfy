/**
 * `JWTMiddleware` of the older `net/http` API: the raw `Authorization` header
 * is the token; its signature, validity flag, claims, expiry, the `user_id`
 * path parameter and the user's existence are checked in that order before
 * the wrapped handler runs.
 */
module RestAuth {
  import opened Wrappers
  import opened Errors
  import opened Decimal
  import opened Jwt

  /**
   * What the middleware does with a request: rejects it with a status and an
   * optional JSON error text, passes it to the wrapped handler, or panics on
   * a failed type assertion.
   */
  datatype Outcome = Rejected(status: int, body: Option<string>) | Served | Panicked

  /** `CreateJWT` tokens live three hours. */
  const TokenLifetime: int := 3 * 3600 * Second

  /** The token's user id claim holds a string (the unchecked type assertion succeeds). */
  predicate HasUserId(t: Token) {
    "userID" in t.claims && t.claims["userID"].Str?
  }

  /** The token's expiry claim holds a number. */
  predicate HasExpiry(t: Token) {
    "expiresAt" in t.claims && t.claims["expiresAt"].Num?
  }

  /** The expiry instant of the token, in nanoseconds. */
  function ExpiryNanos(t: Token): int
    requires HasExpiry(t)
  {
    Truncate(t.claims["expiresAt"].x) * Second
  }

  /** A non-empty `user_id` path parameter must equal the token's user id string. */
  predicate PathAllows(pathId: string, userIdText: string) {
    pathId == "" || pathId == userIdText
  }

  /**
   * `JWTMiddleware` (the current version). `now` is the request time in
   * nanoseconds since the epoch; `getUser` answers the user lookup with an
   * error or none.
   */
  function JwtMiddleware(lib: Library, getUser: int -> Option<Err>, header: string, pathId: string, now: int): (o: Outcome)
    ensures o.Rejected? ==> o.status in {401, 403} && o.body.None?
    ensures ValidateJwt(lib, header).Err? ==> o == Rejected(401, None)
    ensures o == Panicked <==>
      (ValidateJwt(lib, header).Ok? && ValidateJwt(lib, header).value.valid && !HasUserId(ValidateJwt(lib, header).value))
    ensures o == Rejected(403, None) <==>
      ValidateJwt(lib, header).Ok? &&
      var t := ValidateJwt(lib, header).value;
      t.valid && HasUserId(t) && HasExpiry(t) && now <= ExpiryNanos(t) &&
      ParseInt(t.claims["userID"].s, 64).Ok? && !PathAllows(pathId, t.claims["userID"].s)
    ensures o == Served <==>
      ValidateJwt(lib, header).Ok? &&
      var t := ValidateJwt(lib, header).value;
      t.valid && HasUserId(t) && HasExpiry(t) && now <= ExpiryNanos(t) &&
      ParseInt(t.claims["userID"].s, 64).Ok? && PathAllows(pathId, t.claims["userID"].s) &&
      getUser(ParseInt(t.claims["userID"].s, 64).value).None?
  {
    match ValidateJwt(lib, header)
    case Err(_) => Rejected(401, None)
    case Ok(t) =>
      if !t.valid then Rejected(401, None)
      else if !HasUserId(t) then Panicked
      else if !HasExpiry(t) then Rejected(401, None)
      else if now > ExpiryNanos(t) then Rejected(401, None)
      else
        var userIdText := t.claims["userID"].s;
        match ParseInt(userIdText, 64)
        case Err(_) => Rejected(401, None)
        case Ok(userId) =>
          if !PathAllows(pathId, userIdText) then Rejected(403, None)
          else if getUser(userId).Some? then Rejected(401, None)
          else Served
  }

  /**
   * A token `CreateJWT` issued for an existing user admits the request until
   * its expiry second has passed, on that user's own paths and on paths
   * without a user id; it never makes the middleware panic.
   */
  lemma CreatedTokenAdmitted(lib: Library, getUser: int -> Option<Err>, userId: int, issuedAt: int,
                             tokenString: string, pathId: string, now: int)
    requires IsInt64(userId) && getUser(userId).None?
    requires SignReadsBack(lib) && CreateJwt(lib, userId, issuedAt, TokenLifetime) == Ok(tokenString)
    requires pathId == "" || pathId == Itoa(userId)
    requires now <= UnixSeconds(issuedAt + TokenLifetime) * Second
    ensures JwtMiddleware(lib, getUser, tokenString, pathId, now) == Served
  {
    CreatedTokenRoundTrips(lib, userId, issuedAt, TokenLifetime, tokenString);
    CreatedClaimsReadBack(userId, issuedAt, TokenLifetime);
  }

  /** The same token is refused with 401 once its expiry second has passed. */
  lemma CreatedTokenExpires(lib: Library, getUser: int -> Option<Err>, userId: int, issuedAt: int,
                            tokenString: string, pathId: string, now: int)
    requires IsInt64(userId)
    requires SignReadsBack(lib) && CreateJwt(lib, userId, issuedAt, TokenLifetime) == Ok(tokenString)
    requires now > UnixSeconds(issuedAt + TokenLifetime) * Second
    ensures JwtMiddleware(lib, getUser, tokenString, pathId, now) == Rejected(401, None)
  {
    CreatedTokenRoundTrips(lib, userId, issuedAt, TokenLifetime, tokenString);
    CreatedClaimsReadBack(userId, issuedAt, TokenLifetime);
  }

  /** Another user's id in the path is refused with 403, whoever that user is. */
  lemma OtherUsersPathForbidden(lib: Library, getUser: int -> Option<Err>, userId: int, issuedAt: int,
                                tokenString: string, pathId: string, now: int)
    requires IsInt64(userId)
    requires SignReadsBack(lib) && CreateJwt(lib, userId, issuedAt, TokenLifetime) == Ok(tokenString)
    requires pathId != "" && pathId != Itoa(userId)
    requires now <= UnixSeconds(issuedAt + TokenLifetime) * Second
    ensures JwtMiddleware(lib, getUser, tokenString, pathId, now) == Rejected(403, None)
  {
    CreatedTokenRoundTrips(lib, userId, issuedAt, TokenLifetime, tokenString);
    CreatedClaimsReadBack(userId, issuedAt, TokenLifetime);
  }
}
