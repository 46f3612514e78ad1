/**
 * The admin page gate (components/auth/RequireAdmin.tsx): the wrapped page is shown only
 * to a caller whose own hook state holds an unexpired session; anyone else gets the
 * login form. No role and no remote check take part in the decision.
 */
module RequireAdmin {
  import opened Options
  import opened Backend
  import opened AdminSession

  /** What the gate renders: the login form, or the wrapped children unchanged. */
  datatype Screen<C> = LoginForm | Children(content: C)

  function Gate<C>(isAuthenticated: bool, children: C): (r: Screen<C>)
    ensures r == Children(children) <==> isAuthenticated
    ensures r == LoginForm <==> !isAuthenticated
  {
    if !isAuthenticated then LoginForm else Children(children)
  }

  /** A render of the gate with its own hook instance at time `now`. */
  function Render<C>(hook: SessionHook, now: int, children: C): (r: Screen<C>)
    reads hook
    ensures r.Children? ==> hook.session.Some? && now < hook.session.value.expiresAt
  {
    Gate(hook.IsAuthenticated(now), children)
  }

  /** A session at or past its expiry never reaches the children, whatever its token. */
  lemma ExpiredSessionShowsLoginForm<C>(s: Session, now: int, children: C)
    requires now >= s.expiresAt
    ensures Gate(Authenticated(Some(s), now), children) == LoginForm
  {
  }

  /** Any unexpired session opens the gate, whatever its token: there is no role check. */
  lemma UnexpiredSessionPasses<C>(s: Session, now: int, children: C)
    requires now < s.expiresAt
    ensures Gate(Authenticated(Some(s), now), children) == Children(children)
  {
  }

  /**
   * Logging in through the login form, which has a hook instance of its own, leaves the
   * gate's instance without a session: the gate keeps showing the login form although
   * storage now holds a valid session.
   */
  method FormLoginLeavesGateClosed(token: string, now: int) returns (gate: Screen<()>, formAuthenticated: bool)
    ensures formAuthenticated
    ensures gate == LoginForm
  {
    var storage := new LocalStorage(map[]);
    var gateHook := new SessionHook(storage, now);
    var formHook := new SessionHook(storage, now);
    var _, _ := formHook.Login(true, "owner", "password", Resolved(token), now, now);
    formAuthenticated := formHook.IsAuthenticated(now);
    gate := Render(gateHook, now, ());
  }

  /** The gate as evidently intended: it decides from the shared storage at render time. */
  method RenderShared<C>(storage: LocalStorage, now: int, children: C) returns (screen: Screen<C>)
    modifies storage
    ensures screen == Gate(Authenticated(Retrieve(old(storage.items), now).session, now), children)
    ensures storage.items == Retrieve(old(storage.items), now).items
  {
    var session := GetStoredSession(storage, now);
    screen := Gate(Authenticated(session, now), children);
  }

  /** With the shared gate, a login through the form opens the gate until the stored session expires. */
  method FormLoginOpensSharedGate(token: string, loginAt: int, now: int) returns (gate: Screen<()>)
    requires loginAt <= now < loginAt + SessionLifetime
    ensures gate == Children(())
  {
    var storage := new LocalStorage(map[]);
    var formHook := new SessionHook(storage, loginAt);
    var _, _ := formHook.Login(true, "owner", "password", Resolved(token), loginAt, loginAt);
    gate := RenderShared(storage, now, ());
  }
}
