/**
 * The login and token-renewal decisions of the authentication service, over
 * the session table, a user lookup, a password check and a token maker.
 */
module AuthService {
  import opened Wrappers
  import opened Errors
  import opened DbError
  import opened Permission
  import opened Token

  datatype User = User(
    username: string, hashedPassword: string, fullName: string, email: string, role: Role,
    isEmailVerified: bool, passwordChangedAt: int, createdAt: int)

  datatype Session = Session(
    id: string, username: string, refreshToken: string, userAgent: string, clientIp: string,
    isBlocked: bool, expiresAt: int)

  /**
   * The `sessions` table: rows by id, and the driver error every statement
   * reports while the store is failing.
   */
  datatype SessionStore = SessionStore(rows: map<string, Session>, failure: Option<Err>)

  /** The message the driver reports for a second row with an existing id. */
  const DuplicateSessionMessage: string := "duplicate key value violates unique constraint \"sessions_pkey\""

  /** `SessionRepository.Get`: the row, or the translated driver error. */
  function GetSession(store: SessionStore, id: string): (r: Result<Session, Err>)
    ensures r.Ok? <==> store.failure.None? && id in store.rows
    ensures r.Ok? ==> r.value == store.rows[id]
    ensures store.failure.None? && id !in store.rows ==>
      r.Err? && Is(r.error, NoRows) && forall k :: Is(r.error, k) ==> k == NoRows
  {
    if store.failure.Some? then Err(DBErrorToInternal(store.failure.value))
    else if id !in store.rows then
      NoRowsTranslated();
      Err(DBErrorToInternal(PgxNoRows))
    else Ok(store.rows[id])
  }

  /** `SessionRepository.Create`: insert a new row; an existing id is a unique-constraint violation. */
  function CreateSession(store: SessionStore, s: Session): (r: Result<SessionStore, Err>)
    ensures r.Ok? <==> store.failure.None? && s.id !in store.rows
    ensures r.Ok? ==> r.value == store.(rows := store.rows[s.id := s])
    ensures store.failure.None? && s.id in store.rows ==> r.Err? && Is(r.error, UniqueConstraintViolation)
  {
    if store.failure.Some? then Err(DBErrorToInternal(store.failure.value))
    else if s.id in store.rows then
      var pg := PgError(UniqueViolationCode, DuplicateSessionMessage, "Key (id)=(" + s.id + ") already exists.");
      TranslationMatches(pg);
      Err(DBErrorToInternal(pg))
    else Ok(store.(rows := store.rows[s.id := s]))
  }

  /** The collaborators and settings of the service. */
  datatype Env = Env(
    getUser: string -> Result<User, Err>,
    checkPassword: (string, string) -> Option<Err>,
    maker: Maker,
    accessDuration: int,
    refreshDuration: int)

  datatype LoginParams = LoginParams(username: string, password: string, userAgent: string, clientIp: string)

  /** The user as a response shows it: no password hash and no role. */
  datatype UserView = UserView(username: string, fullName: string, email: string, passwordChangedAt: int, createdAt: int)

  datatype LoginResponse = LoginResponse(
    sessionId: string, accessToken: string, accessTokenExpiresAt: int,
    refreshToken: string, refreshTokenExpiresAt: int, user: UserView)

  function ViewOf(u: User): (v: UserView)
    ensures v.username == u.username && v.fullName == u.fullName && v.email == u.email
    ensures v.passwordChangedAt == u.passwordChangedAt && v.createdAt == u.createdAt
  {
    UserView(u.username, u.fullName, u.email, u.passwordChangedAt, u.createdAt)
  }

  /** The outcome of a call and the session table after it. */
  datatype Outcome<T> = Outcome(result: Result<T, Err>, sessions: SessionStore)

  /** The session a successful login stores for the refresh token. */
  function NewSession(u: User, req: LoginParams, refresh: string, rp: Payload): (s: Session)
    ensures s.id == rp.id && s.userAgent == req.userAgent && s.clientIp == req.clientIp
    ensures forall now :: RowAdmits(s, rp, refresh, now) <==> rp.username == u.username && now <= rp.expiredAt
  {
    Session(rp.id, u.username, refresh, req.userAgent, req.clientIp, false, rp.expiredAt)
  }

  /** Every step of a login succeeds: the conditions under which `Login` returns a response. */
  predicate LoginAdmits(env: Env, sessions: SessionStore, req: LoginParams, now: int, draw: nat) {
    var g := env.getUser(req.username);
    g.Ok? && g.value.isEmailVerified &&
    env.checkPassword(req.password, g.value.hashedPassword).None? &&
    var acc := env.maker.create(g.value.username, g.value.role, env.accessDuration, now, draw);
    var ref := env.maker.create(g.value.username, g.value.role, env.refreshDuration, now, draw + 1);
    acc.Ok? && ref.Ok? && sessions.failure.None? && ref.value.1.id !in sessions.rows
  }

  /**
   * `Login` at time `now`: look the user up, require a verified email and the
   * right password, mint both tokens (the access token with draw `draw`, the
   * refresh token with the next) and store a session.
   */
  function Login(env: Env, sessions: SessionStore, req: LoginParams, now: int, draw: nat): (o: Outcome<LoginResponse>)
    ensures o.result.Err? ==> o.sessions == sessions
    ensures var g := env.getUser(req.username);
      g.Err? && Is(g.error, NoRows) ==> o.result.Err? && Is(o.result.error, InvalidCredentials)
    ensures var g := env.getUser(req.username);
      g.Err? && !Is(g.error, NoRows) ==> o.result == Err(g.error)
    ensures var g := env.getUser(req.username);
      g.Ok? && !g.value.isEmailVerified ==> o.result == Err(Sentinel(UnverifiedAccount))
    ensures var g := env.getUser(req.username);
      (g.Ok? && g.value.isEmailVerified && env.checkPassword(req.password, g.value.hashedPassword).Some?) ==>
      o.result.Err? && Is(o.result.error, InvalidCredentials)
    ensures o.result.Ok? <==> LoginAdmits(env, sessions, req, now, draw)
    ensures o.result.Ok? ==>
      var u := env.getUser(req.username).value;
      var acc := env.maker.create(u.username, u.role, env.accessDuration, now, draw).value;
      var ref := env.maker.create(u.username, u.role, env.refreshDuration, now, draw + 1).value;
      o.sessions == sessions.(rows := sessions.rows[ref.1.id := NewSession(u, req, ref.0, ref.1)]) &&
      o.result.value == LoginResponse(ref.1.id, acc.0, acc.1.expiredAt, ref.0, ref.1.expiredAt, ViewOf(u))
  {
    match env.getUser(req.username)
    case Err(e) =>
      if Is(e, NoRows) then
        WrapLabelledIs(InvalidCredentials, "user not found", e, InvalidCredentials);
        Outcome(Err(WrapLabelled(InvalidCredentials, "user not found", e)), sessions)
      else Outcome(Err(e), sessions)
    case Ok(u) =>
      if !u.isEmailVerified then Outcome(Err(Sentinel(UnverifiedAccount)), sessions)
      else match env.checkPassword(req.password, u.hashedPassword)
      case Some(pe) =>
        WrapIs(InvalidCredentials, pe, InvalidCredentials);
        Outcome(Err(WrapSemi(InvalidCredentials, pe)), sessions)
      case None =>
        match env.maker.create(u.username, u.role, env.accessDuration, now, draw)
        case Err(e) => Outcome(Err(WrapContext("cannot create access token", e)), sessions)
        case Ok((access, ap)) =>
          match env.maker.create(u.username, u.role, env.refreshDuration, now, draw + 1)
          case Err(e) => Outcome(Err(WrapContext("cannot create refresh token", e)), sessions)
          case Ok((refresh, rp)) =>
            match CreateSession(sessions, NewSession(u, req, refresh, rp))
            case Err(e) => Outcome(Err(WrapContext("cannot create session", e)), sessions)
            case Ok(stored) =>
              Outcome(Ok(LoginResponse(rp.id, access, ap.expiredAt, refresh, rp.expiredAt, ViewOf(u))), stored)
  }

  datatype RenewResponse = RenewResponse(accessToken: string, accessTokenExpiresAt: int)

  /**
   * `RenewAccessToken` at time `now`: the refresh token must verify, name a
   * stored session that is not blocked, belongs to the token's user, holds
   * this very token and has not expired; then one access token is minted with draw `draw`.
   */
  function RenewAccessToken(env: Env, sessions: SessionStore, refreshToken: string, now: int, draw: nat)
    : (r: Result<RenewResponse, Err>)
    ensures env.maker.verify(refreshToken).Err? ==>
      r == Err(WrapSemi(InvalidToken, env.maker.verify(refreshToken).error))
    ensures var v := env.maker.verify(refreshToken);
      v.Ok? && GetSession(sessions, v.value.id).Err? ==>
      var e := GetSession(sessions, v.value.id).error;
      r == Err(WrapContext(if Is(e, NoRows) then "session not found" else "internal server error", e))
    ensures var v := env.maker.verify(refreshToken);
      v.Ok? && sessions.failure.None? && v.value.id !in sessions.rows ==>
      r.Err? && Is(r.error, NoRows) && !Is(r.error, InvalidToken)
    ensures var v := env.maker.verify(refreshToken);
      v.Ok? && GetSession(sessions, v.value.id).Ok? && !SessionAdmits(sessions, v.value, refreshToken, now) ==>
      r.Err? && Is(r.error, InvalidToken)
    ensures r.Ok? <==>
      env.maker.verify(refreshToken).Ok? &&
      SessionAdmits(sessions, env.maker.verify(refreshToken).value, refreshToken, now) &&
      env.maker.create(env.maker.verify(refreshToken).value.username, env.maker.verify(refreshToken).value.role,
                       env.accessDuration, now, draw).Ok?
    ensures r.Ok? ==>
      var p := env.maker.verify(refreshToken).value;
      var acc := env.maker.create(p.username, p.role, env.accessDuration, now, draw).value;
      r.value == RenewResponse(acc.0, acc.1.expiredAt)
  {
    match env.maker.verify(refreshToken)
    case Err(e) => Err(WrapSemi(InvalidToken, e))
    case Ok(p) =>
      match GetSession(sessions, p.id)
      case Err(e) =>
        if Is(e, NoRows) then
          WrapContextIs("session not found", e, InvalidToken);
          WrapContextIs("session not found", e, NoRows);
          Err(WrapContext("session not found", e))
        else
          WrapContextIs("internal server error", e, InvalidToken);
          Err(WrapContext("internal server error", e))
      case Ok(s) =>
        if s.isBlocked then
          Err(WrapLabelled(InvalidToken, "session is blocked", Plain("blocked session")))
        else if s.username != p.username then
          Err(WrapLabelled(InvalidToken, "session user mismatch", Plain("incorrect session user")))
        else if s.refreshToken != refreshToken then
          Err(WrapLabelled(InvalidToken, "session token mismatch", Plain("mismatched session token")))
        else if now > s.expiresAt then
          Err(WrapLabelled(InvalidToken, "session expired", Plain("expired session")))
        else
          match env.maker.create(p.username, p.role, env.accessDuration, now, draw)
          case Err(e) => Err(WrapContext("cannot create access token", e))
          case Ok((access, ap)) => Ok(RenewResponse(access, ap.expiredAt))
  }

  /** The session checks of a renewal, stated independently of the order they are made in. */
  predicate SessionAdmits(sessions: SessionStore, p: Payload, refreshToken: string, now: int) {
    sessions.failure.None? && p.id in sessions.rows && RowAdmits(sessions.rows[p.id], p, refreshToken, now)
  }

  /** One stored session admits a refresh token: not blocked, same user, same token, not yet expired. */
  predicate RowAdmits(s: Session, p: Payload, refreshToken: string, now: int) {
    !s.isBlocked && s.username == p.username && s.refreshToken == refreshToken && now <= s.expiresAt
  }

  /**
   * A refresh token from a successful login renews an access token until the
   * session expires, provided the maker verifies its own tokens and mints the
   * payload for the user and role it was asked for. The renewal mints a new
   * access token at the time of the renewal.
   */
  lemma {:induction false} LoginThenRenew(env: Env, sessions: SessionStore, req: LoginParams, now: int, draw: nat,
                                          later: int, renewDraw: nat)
    requires Login(env, sessions, req, now, draw).result.Ok?
    requires var u := env.getUser(req.username).value;
      var ref := env.maker.create(u.username, u.role, env.refreshDuration, now, draw + 1).value;
      env.maker.verify(ref.0) == Ok(ref.1) && ref.1.username == u.username && ref.1.role == u.role &&
      later <= ref.1.expiredAt
    ensures var o := Login(env, sessions, req, now, draw);
      var u := env.getUser(req.username).value;
      var acc := env.maker.create(u.username, u.role, env.accessDuration, later, renewDraw);
      var r := RenewAccessToken(env, o.sessions, o.result.value.refreshToken, later, renewDraw);
      (r.Ok? <==> acc.Ok?) &&
      (r.Ok? ==> r.value == RenewResponse(acc.value.0, acc.value.1.expiredAt)) &&
      (r.Err? ==> r == Err(WrapContext("cannot create access token", acc.error)))
  {
    var o := Login(env, sessions, req, now, draw);
    var u := env.getUser(req.username).value;
    var ref := env.maker.create(u.username, u.role, env.refreshDuration, now, draw + 1).value;
    assert o.sessions.rows[ref.1.id] == NewSession(u, req, ref.0, ref.1);
    assert SessionAdmits(o.sessions, ref.1, ref.0, later);
  }

  /**
   * A renewal that passes the session checks at some time passes them at every
   * earlier time: refused earlier, it was refused only by the maker.
   */
  lemma RenewalsOnlyExpire(env: Env, sessions: SessionStore, refreshToken: string, now: int, later: int,
                           draw: nat, laterDraw: nat)
    requires now <= later
    ensures RenewAccessToken(env, sessions, refreshToken, later, laterDraw).Ok? ==>
      var p := env.maker.verify(refreshToken).value;
      SessionAdmits(sessions, p, refreshToken, now) &&
      (RenewAccessToken(env, sessions, refreshToken, now, draw).Ok? <==>
        env.maker.create(p.username, p.role, env.accessDuration, now, draw).Ok?)
  {
  }

  /** A blocked session never renews, whatever the token and the time. */
  lemma BlockedSessionRefused(env: Env, sessions: SessionStore, refreshToken: string, now: int, draw: nat)
    requires env.maker.verify(refreshToken).Ok?
    requires sessions.failure.None? && env.maker.verify(refreshToken).value.id in sessions.rows
    requires sessions.rows[env.maker.verify(refreshToken).value.id].isBlocked
    ensures RenewAccessToken(env, sessions, refreshToken, now, draw).Err?
    ensures Is(RenewAccessToken(env, sessions, refreshToken, now, draw).error, InvalidToken)
  {
  }
}
