/** The user endpoints: the login forwarding and the ownership gate of a profile update. */
module UserHandler {
  import opened Wrappers
  import opened Errors
  import opened Binding
  import opened Gin
  import opened ErrorHandler
  import opened Token
  import AuthService

  // ---------------------------------------------------------------------------
  // login

  datatype LoginRequest = LoginRequest(username: string, password: string)

  /** `loginUserRequest`: both fields are required. */
  function BindLogin(req: LoginRequest): (r: Result<LoginRequest, Err>)
    ensures r.Ok? <==> |req.username| > 0 && |req.password| > 0
    ensures r.Ok? ==> r.value == req
  {
    Validate(req, [
      FieldFailure("loginUserRequest", "Username", [Required(|req.username| > 0)]),
      FieldFailure("loginUserRequest", "Password", [Required(|req.password| > 0)])])
  }

  /**
   * `handleLoginUser`: the credentials from the body, with the request's user
   * agent and client address, go to the service; its response is sent as is.
   */
  function HandleLogin(body: Result<LoginRequest, Err>, userAgent: string, clientIp: string,
                       login: AuthService.LoginParams -> Result<AuthService.LoginResponse, Err>)
    : (h: Handled<AuthService.LoginParams, AuthService.LoginResponse>)
    ensures h.call.Some? <==> body.Ok? && BindLogin(body.value).Ok?
    ensures h.call.None? ==> h.reply.Recorded? && Is(h.reply.err, InvalidParams)
    ensures h.call.Some? ==>
      h.call.value == AuthService.LoginParams(body.value.username, body.value.password, userAgent, clientIp)
    ensures h.call.Some? ==>
      h.reply == if login(h.call.value).Ok? then Json(200, login(h.call.value).value) else Recorded(login(h.call.value).error)
  {
    match body
    case Err(e) => Handled(None, Recorded(BindFailure(e)))
    case Ok(req) =>
      match BindLogin(req)
      case Err(e) => Handled(None, Recorded(BindFailure(e)))
      case Ok(_) =>
        var p := AuthService.LoginParams(req.username, req.password, userAgent, clientIp);
        match login(p)
        case Err(e) => Handled(Some(p), Recorded(e))
        case Ok(rsp) => Handled(Some(p), Json(200, rsp))
  }

  /** Missing credentials never reach the service and answer 400 with one entry per missing field. */
  lemma MissingCredentialsAnswer400(req: LoginRequest, userAgent: string, clientIp: string,
                                    login: AuthService.LoginParams -> Result<AuthService.LoginResponse, Err>)
    requires |req.username| == 0 || |req.password| == 0
    ensures HandleLogin(Ok(req), userAgent, clientIp, login).call.None?
    ensures var reply := Classify(HandleLogin(Ok(req), userAgent, clientIp, login).reply.err);
      reply.status == 400 &&
      |reply.body.validations| == (if |req.username| == 0 then 1 else 0) + (if |req.password| == 0 then 1 else 0)
  {
    var user := FieldFailure("loginUserRequest", "Username", [Required(|req.username| > 0)]);
    var pass := FieldFailure("loginUserRequest", "Password", [Required(|req.password| > 0)]);
    assert user.Some? <==> |req.username| == 0;
    assert pass.Some? <==> |req.password| == 0;
    CollectPair(user, pass);
    assert BindLogin(req).error == Validation(Collect([user, pass]));
    BindFailureAnswer(BindLogin(req).error);
  }

  /** A body that does not decode never reaches the service, and the error middleware answers it with 500. */
  lemma UndecodableLoginAnswers500(e: Err, userAgent: string, clientIp: string,
                                   login: AuthService.LoginParams -> Result<AuthService.LoginResponse, Err>)
    requires e.Plain? || e.NumError?
    ensures HandleLogin(Err(e), userAgent, clientIp, login).call.None?
    ensures Classify(HandleLogin(Err(e), userAgent, clientIp, login).reply.err).status == 500
  {
    BindFailureAnswer(e);
  }

  // ---------------------------------------------------------------------------
  // update

  datatype UpdateBody = UpdateBody(fullName: string, email: string, password: string)

  datatype UpdateParams = UpdateParams(username: string, plaintextPassword: string, fullName: string, email: string)

  /** `updateUserUriRequest`: the username is required and alphanumeric. */
  function BindUsername(username: string): (r: Result<string, Err>)
    ensures r.Ok? <==> |username| > 0 && IsAlphanum(username)
    ensures r.Ok? ==> r.value == username
    ensures |username| == 0 ==> r == Err(Validation([FieldError("updateUserUriRequest.Username", "Username", "required", "")]))
  {
    var checks := [Required(|username| > 0), Check("alphanum", "", IsAlphanum(username))];
    var f := FieldFailure("updateUserUriRequest", "Username", checks);
    assert "updateUserUriRequest" + "." + "Username" == "updateUserUriRequest.Username";
    assert |username| == 0 ==> f == Some(FieldError("updateUserUriRequest.Username", "Username", "required", ""));
    assert |username| == 0 ==> Collect([f]) == [f.value];
    Validate(username, [f])
  }

  const NotOwnUserText: string := "user doesn't belong to the authenticated user"

  /**
   * `handleUpdateUser`: bind the URI then the body; a caller that may not
   * override can update only its own user. The service is called only after
   * both checks pass.
   */
  function HandleUpdateUser(username: string, body: Result<UpdateBody, Err>, payload: Payload, overridePermission: bool,
                            update: UpdateParams -> Result<AuthService.User, Err>)
    : (h: Handled<UpdateParams, AuthService.UserView>)
    ensures BindUsername(username).Err? || body.Err? ==>
      h.call.None? && h.reply.Recorded? && Is(h.reply.err, InvalidParams)
    ensures BindUsername(username).Err? ==> h.reply == Recorded(BindFailure(BindUsername(username).error))
    ensures BindUsername(username).Ok? && body.Ok? && !overridePermission && username != payload.username ==>
      h.call.None? && h.reply.Recorded? && Is(h.reply.err, Forbidden)
    ensures h.call.Some? <==>
      BindUsername(username).Ok? && body.Ok? && (overridePermission || username == payload.username)
    ensures h.call.Some? ==>
      h.call.value == UpdateParams(username, body.value.password, body.value.fullName, body.value.email)
    ensures h.call.Some? ==>
      h.reply == if update(h.call.value).Ok? then Json(200, AuthService.ViewOf(update(h.call.value).value))
                 else Recorded(update(h.call.value).error)
  {
    match BindUsername(username)
    case Err(e) => Handled(None, Recorded(BindFailure(e)))
    case Ok(_) =>
      match body
      case Err(e) => Handled(None, Recorded(BindFailure(e)))
      case Ok(b) =>
        var p := UpdateParams(username, b.password, b.fullName, b.email);
        if !overridePermission && username != payload.username then
          WrapLabelledIs(Forbidden, NotOwnUserText, Plain(NotOwnUserText), Forbidden);
          Handled(None, Recorded(WrapLabelled(Forbidden, NotOwnUserText, Plain(NotOwnUserText))))
        else
          match update(p)
          case Err(e) => Handled(Some(p), Recorded(e))
          case Ok(u) => Handled(Some(p), Json(200, AuthService.ViewOf(u)))
  }

  /** With override permission any well-formed update goes through, whoever's user it names. */
  lemma OverrideUpdatesAnyone(username: string, b: UpdateBody, payload: Payload,
                              update: UpdateParams -> Result<AuthService.User, Err>)
    requires |username| > 0 && IsAlphanum(username)
    ensures HandleUpdateUser(username, Ok(b), payload, true, update).call ==
      Some(UpdateParams(username, b.password, b.fullName, b.email))
  {
  }

  /** Without override, the outcome depends on whose user it is and not on the caller's role. */
  lemma UpdateGateIgnoresRole(username: string, body: Result<UpdateBody, Err>, p1: Payload, p2: Payload,
                              update: UpdateParams -> Result<AuthService.User, Err>)
    requires p1.username == p2.username
    ensures HandleUpdateUser(username, body, p1, false, update) == HandleUpdateUser(username, body, p2, false, update)
  {
  }
}
