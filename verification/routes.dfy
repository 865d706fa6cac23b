/**
 * The account routes of the gin server: which middleware guards a handler.
 * The delete route is meant for bank staff only; the route as registered puts
 * it behind `Authentication`, which never turns a role away.
 */
module Routes {
  import opened Wrappers
  import opened Errors
  import opened Bearer
  import opened Permission
  import opened Token
  import opened Authentication
  import opened Gin
  import opened AccountHandler
  import AccountService

  /** A request either stops at the middleware or reaches the handler. */
  datatype Routed<H> = Stopped(status: int) | Reached(handled: H)

  /** The roles the delete route lists. */
  const DeleteRoles: seq<Role> := [Banker]

  /** `DELETE /api/v1/accounts/:id` as registered: `Authentication` with the banker list, then the handler. */
  function DeleteRouteAsWritten(verify: string -> Result<Payload, Err>, header: string, id: string,
                                repo: AccountService.Repository): (r: Routed<Handled<int, ()>>)
    ensures r.Stopped? ==> r.status == 401
    ensures r.Reached? <==> VerifiedPayload(verify, header).Ok?
    ensures r.Reached? ==> r.handled == HandleDeleteAccount(id, repo)
  {
    match Authentication.Authentication(verify, DeleteRoles, header)
    case Abort(status, _) => Stopped(status)
    case Next(_, _) => Reached(HandleDeleteAccount(id, repo))
  }

  /**
   * The route as registered lets a depositor with a valid token reach the
   * delete handler, although it is meant for bankers and admins only.
   */
  lemma DepositorReachesDelete(id: string, repo: AccountService.Repository)
    ensures
      var p := Payload("token-id", "alice", Depositor, 0, 1);
      var verify := (s: string) => if s == "t" then Ok(p) else Err(Plain("invalid token"));
      DeleteRouteAsWritten(verify, Join(["Bearer", "t"]), id, repo).Reached?
  {
    var p := Payload("token-id", "alice", Depositor, 0, 1);
    var verify := (s: string) => if s == "t" then Ok(p) else Err(Plain("invalid token"));
    BearerHeaderOfToken();
    BearerTokenAdmitted(verify, DeleteRoles, "Bearer", "t", p);
  }

  /** The route guarded as intended: `authMiddleware` with the banker list, then the handler. */
  function DeleteRoute(verify: string -> Result<Payload, Err>, header: string, id: string,
                       repo: AccountService.Repository): (r: Routed<Handled<int, ()>>)
    ensures r.Stopped? ==> r.status in {401, 403}
    ensures r.Reached? <==>
      VerifiedPayload(verify, header).Ok? && VerifiedPayload(verify, header).value.role in {Admin, Banker}
    ensures r.Stopped? && r.status == 403 <==>
      VerifiedPayload(verify, header).Ok? && VerifiedPayload(verify, header).value.role !in {Admin, Banker}
    ensures r.Reached? ==> r.handled == HandleDeleteAccount(id, repo)
  {
    match AuthMiddleware(verify, DeleteRoles, header)
    case Abort(status, _) => Stopped(status)
    case Next(_, _) => Reached(HandleDeleteAccount(id, repo))
  }

  /** The guarded route admits a subset of what the registered one admits, with the same handling. */
  lemma DeleteRouteNarrows(verify: string -> Result<Payload, Err>, header: string, id: string,
                           repo: AccountService.Repository)
    ensures DeleteRoute(verify, header, id, repo).Reached? ==>
      DeleteRouteAsWritten(verify, header, id, repo) == DeleteRoute(verify, header, id, repo)
  {
  }

  /** On the guarded route the same depositor is turned away with 403 before the handler runs. */
  lemma DepositorForbiddenFromDelete(id: string, repo: AccountService.Repository)
    ensures
      var p := Payload("token-id", "alice", Depositor, 0, 1);
      var verify := (s: string) => if s == "t" then Ok(p) else Err(Plain("invalid token"));
      DeleteRoute(verify, Join(["Bearer", "t"]), id, repo) == Stopped(403)
  {
    var p := Payload("token-id", "alice", Depositor, 0, 1);
    var verify := (s: string) => if s == "t" then Ok(p) else Err(Plain("invalid token"));
    BearerHeaderOfToken();
    BearerTokenAdmitted(verify, DeleteRoles, "Bearer", "t", p);
    assert AuthMiddleware(verify, DeleteRoles, Join(["Bearer", "t"])).Abort?;
  }

  /** The header `Bearer t` is a well-formed bearer header. */
  lemma BearerHeaderOfToken()
    ensures IsField("Bearer") && IsField("t") && ToLower("Bearer") == "bearer"
  {
    assert ToLower("Bearer")[0] == 'b';
  }
}
