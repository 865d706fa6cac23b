/**
 * The two bearer-token middlewares of the gin server. `Authentication` admits
 * every verified token and records whether its role may override ownership
 * checks; `AuthMiddleware` also turns away roles outside its list.
 */
module Authentication {
  import opened Wrappers
  import opened Errors
  import opened DbError
  import opened Bearer
  import opened Permission
  import opened Token

  /** What a middleware does with a request: abort with a status and body, or pass it on. */
  datatype Gate =
    | Abort(status: int, body: ErrorResponse)
      /** the verified payload, and the `override_permission` value if one is set */
    | Next(payload: Payload, overridePermission: Option<bool>)

  const ForbiddenText: string := "forbidden"

  /** The header and token checks both middlewares share, with their 401 message on failure. */
  function VerifiedPayload(verify: string -> Result<Payload, Err>, header: string): (r: Result<Payload, string>)
    ensures r.Ok? <==> ParseBearer(header).Ok? && verify(ParseBearer(header).value).Ok?
    ensures r.Ok? ==> r.value == verify(Fields(header)[1]).value
    ensures ParseBearer(header).Err? ==> r == Err(ParseBearer(header).error)
    ensures ParseBearer(header).Ok? && verify(ParseBearer(header).value).Err? ==>
      r == Err(ErrorText(verify(ParseBearer(header).value).error))
  {
    match ParseBearer(header)
    case Err(msg) => Err(msg)
    case Ok(token) =>
      match verify(token)
      case Err(e) => Err(ErrorText(e))
      case Ok(p) => Ok(p)
  }

  /**
   * `Authentication`: a bad header or token aborts with 401; otherwise the
   * payload is stored and `override_permission` is set. The role list never
   * turns a request away.
   */
  function Authentication(verify: string -> Result<Payload, Err>, roles: seq<Role>, header: string): (g: Gate)
    ensures g.Abort? ==> g.status == 401 && |g.body.validations| == 0
    ensures |header| == 0 ==> g == Abort(401, RenderErrorResponse(HeaderMissing))
    ensures g.Next? <==> ParseBearer(header).Ok? && verify(ParseBearer(header).value).Ok?
    ensures g.Next? ==>
      g.payload == verify(Fields(header)[1]).value &&
      g.overridePermission == Some(CanOverridePermission(g.payload.role, roles))
  {
    match VerifiedPayload(verify, header)
    case Err(msg) => Abort(401, RenderErrorResponse(msg))
    case Ok(p) => Next(p, Some(CanOverridePermission(p.role, roles)))
  }

  /**
   * `authMiddleware`: the same header and token checks, then an admin passes
   * with `override_permission` set, a listed role passes without it, and any
   * other role aborts with 403.
   */
  function AuthMiddleware(verify: string -> Result<Payload, Err>, roles: seq<Role>, header: string): (g: Gate)
    ensures g.Abort? ==> g.status in {401, 403} && |g.body.validations| == 0
    ensures g.Abort? && g.status == 403 <==>
      VerifiedPayload(verify, header).Ok? &&
      VerifiedPayload(verify, header).value.role != Admin &&
      VerifiedPayload(verify, header).value.role !in roles
    ensures g.Abort? && g.status == 403 ==> g.body.error == ForbiddenText
    ensures g.Next? ==> VerifiedPayload(verify, header) == Ok(g.payload)
    ensures g.Next? ==> (g.overridePermission == Some(true) <==> g.payload.role == Admin)
    ensures g.Next? ==> (g.overridePermission.None? <==> g.payload.role != Admin)
  {
    match VerifiedPayload(verify, header)
    case Err(msg) => Abort(401, ErrorResponse(msg, []))
    case Ok(p) =>
      if p.role == Admin then Next(p, Some(true))
      else if !HasPermission(p.role, roles) then Abort(403, ErrorResponse(ForbiddenText, []))
      else Next(p, None)
  }

  /** The two middlewares answer a bad header or token with the same 401 and the same body. */
  lemma MiddlewaresAgreeOnIdentity(verify: string -> Result<Payload, Err>, roles: seq<Role>, header: string)
    ensures Authentication(verify, roles, header).Abort? <==>
      AuthMiddleware(verify, roles, header).Abort? && AuthMiddleware(verify, roles, header).status == 401
    ensures Authentication(verify, roles, header).Abort? ==>
      Authentication(verify, roles, header) == AuthMiddleware(verify, roles, header)
  {
  }

  /** Whatever `authMiddleware` lets through, `Authentication` lets through with the same payload and no weaker override. */
  lemma GateContainsRoleGate(verify: string -> Result<Payload, Err>, roles: seq<Role>, header: string)
    ensures AuthMiddleware(verify, roles, header).Next? ==>
      Authentication(verify, roles, header).Next? &&
      Authentication(verify, roles, header).payload == AuthMiddleware(verify, roles, header).payload
    ensures (AuthMiddleware(verify, roles, header).Next? &&
             AuthMiddleware(verify, roles, header).overridePermission == Some(true)) ==>
      Authentication(verify, roles, header).overridePermission == Some(true)
  {
  }

  /** `Authentication` admits the same requests whatever its role list. */
  lemma AuthenticationIgnoresRoles(verify: string -> Result<Payload, Err>, roles: seq<Role>, others: seq<Role>, header: string)
    ensures Authentication(verify, roles, header).Next? <==> Authentication(verify, others, header).Next?
  {
  }

  /** `Bearer <token>` with a token the maker verifies is admitted with that token's payload. */
  lemma {:induction false} BearerTokenAdmitted(verify: string -> Result<Payload, Err>, roles: seq<Role>, scheme: string, token: string, p: Payload)
    requires IsField(token) && IsField(scheme) && ToLower(scheme) == "bearer"
    requires verify(token) == Ok(p)
    ensures Authentication(verify, roles, Join([scheme, token])) == Next(p, Some(CanOverridePermission(p.role, roles)))
    ensures p.role == Admin ==> AuthMiddleware(verify, roles, Join([scheme, token])) == Next(p, Some(true))
    ensures p.role != Admin && p.role in roles ==> AuthMiddleware(verify, roles, Join([scheme, token])) == Next(p, None)
    ensures p.role != Admin && p.role !in roles ==> AuthMiddleware(verify, roles, Join([scheme, token])) == Abort(403, ErrorResponse(ForbiddenText, []))
  {
    ParseBearerOfHeader(scheme, token, []);
    assert [scheme, token] + [] == [scheme, token];
  }
}
