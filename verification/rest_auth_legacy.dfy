/**
 * The earlier `JWTMiddleware` of the `net/http` API: the same token, validity
 * and user-id checks, but no expiry check and no `user_id` path check, and
 * every rejection is the same 401 "permission denied" JSON body.
 */
module RestAuthLegacy {
  import opened Wrappers
  import opened Errors
  import opened Decimal
  import opened Jwt
  import opened RestAuth

  /** Its `CreateJWT` tokens carry an expiry 120 days ahead. */
  const LegacyTokenLifetime: int := 120 * 24 * 3600 * Second

  const PermissionDeniedText: string := "permission denied"

  /** `permissionDenied`: status 401 with the JSON error text. */
  function PermissionDenied(): (o: Outcome)
    ensures o.Rejected? && o.status == 401 && o.body == Some(PermissionDeniedText)
  {
    Rejected(401, Some(PermissionDeniedText))
  }

  /** `JWTMiddleware` (the earlier version). */
  function LegacyJwtMiddleware(lib: Library, getUser: int -> Option<Err>, header: string): (o: Outcome)
    ensures o.Rejected? ==> o == PermissionDenied()
    ensures o == Panicked <==>
      (ValidateJwt(lib, header).Ok? && ValidateJwt(lib, header).value.valid && !HasUserId(ValidateJwt(lib, header).value))
    ensures o == Served <==>
      ValidateJwt(lib, header).Ok? &&
      var t := ValidateJwt(lib, header).value;
      t.valid && HasUserId(t) && ParseInt(t.claims["userID"].s, 64).Ok? &&
      getUser(ParseInt(t.claims["userID"].s, 64).value).None?
  {
    match ValidateJwt(lib, header)
    case Err(_) => PermissionDenied()
    case Ok(t) =>
      if !t.valid then PermissionDenied()
      else if !HasUserId(t) then Panicked
      else
        match ParseInt(t.claims["userID"].s, 64)
        case Err(_) => PermissionDenied()
        case Ok(userId) =>
          if getUser(userId).Some? then PermissionDenied()
          else Served
  }

  /**
   * The later middleware only adds checks: whatever it serves the earlier one
   * serves too, and both panic on exactly the same tokens.
   */
  lemma LaterMiddlewareIsStricter(lib: Library, getUser: int -> Option<Err>, header: string, pathId: string, now: int)
    ensures JwtMiddleware(lib, getUser, header, pathId, now) == Served ==> LegacyJwtMiddleware(lib, getUser, header) == Served
    ensures JwtMiddleware(lib, getUser, header, pathId, now) == Panicked <==> LegacyJwtMiddleware(lib, getUser, header) == Panicked
  {
  }

  /**
   * A token the earlier `CreateJWT` issued for an existing user is admitted at
   * any later time: the expiry it carries is never read.
   */
  lemma LegacyTokenNeverExpires(lib: Library, getUser: int -> Option<Err>, userId: int, issuedAt: int,
                                tokenString: string, now: int)
    requires IsInt64(userId) && getUser(userId).None?
    requires SignReadsBack(lib) && CreateJwt(lib, userId, issuedAt, LegacyTokenLifetime) == Ok(tokenString)
    ensures LegacyJwtMiddleware(lib, getUser, tokenString) == Served
  {
    CreatedTokenRoundTrips(lib, userId, issuedAt, LegacyTokenLifetime, tokenString);
    CreatedClaimsReadBack(userId, issuedAt, LegacyTokenLifetime);
  }
}
