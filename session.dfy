/**
 * The admin session (hooks/useAdminSession.ts): one `{token, expiresAt}` record kept in
 * the browser's local storage under a fixed key and dropped lazily when read after its
 * expiry, and the state each component's `useAdminSession()` keeps beside it: the
 * session it loaded, whether a login is under way, and the last login error.
 * The clock is read by the caller and passed in as `now`.
 */
module AdminSession {
  import opened Options
  import opened Backend
  import Text
  import Feedback

  const StorageKey: string := "admin_session"

  /** Eight hours in milliseconds, the lifetime the service gives a session. */
  const SessionLifetime: int := 8 * 60 * 60 * 1000

  datatype Session = Session(token: string, expiresAt: int)

  /**
   * A stored value as `JSON.parse` sees it: a session record, or text it cannot parse.
   * An empty string behaves as unparsable text: it is read as absent and left in place.
   */
  datatype StoredValue = Record(session: Session) | Unparsable

  /** What reading the stored session returns, and what storage holds afterwards. */
  datatype Retrieved = Retrieved(session: Option<Session>, items: map<string, StoredValue>)

  /**
   * `getStoredSession()` at time `now`: a record is returned up to and including its
   * expiry instant; a record read after it is removed and absent is returned; anything
   * else reads as absent and stays where it is.
   */
  function Retrieve(items: map<string, StoredValue>, now: int): (r: Retrieved)
    ensures r.session.Some? <==>
      StorageKey in items && items[StorageKey].Record? && now <= items[StorageKey].session.expiresAt
    ensures r.session.Some? ==> r.session.value == items[StorageKey].session
    ensures r.items == (if StorageKey in items && items[StorageKey].Record? && now > items[StorageKey].session.expiresAt
                        then items - {StorageKey} else items)
  {
    if StorageKey !in items then Retrieved(None, items)
    else match items[StorageKey]
      case Unparsable => Retrieved(None, items)
      case Record(s) =>
        if now > s.expiresAt then Retrieved(None, items - {StorageKey}) else Retrieved(Some(s), items)
  }

  /** Reading twice at the same instant returns the same as reading once and changes nothing more. */
  lemma RetrieveTwice(items: map<string, StoredValue>, now: int)
    ensures Retrieve(Retrieve(items, now).items, now) == Retrieved(Retrieve(items, now).session, Retrieve(items, now).items)
  {
  }

  /** `storeSession(token)` at time `now`: a record that expires one lifetime later replaces any earlier one. */
  function Stored(items: map<string, StoredValue>, token: string, now: int): (r: map<string, StoredValue>)
    ensures StorageKey in r && r[StorageKey] == Record(Session(token, now + SessionLifetime))
    ensures r - {StorageKey} == items - {StorageKey}
  {
    items[StorageKey := Record(Session(token, now + SessionLifetime))]
  }

  /** A stored session reads back unchanged until its expiry instant, and as absent afterwards. */
  lemma StoreThenRetrieve(items: map<string, StoredValue>, token: string, storedAt: int, now: int)
    ensures Retrieve(Stored(items, token, storedAt), now).session ==
      (if now <= storedAt + SessionLifetime then Some(Session(token, storedAt + SessionLifetime)) else None)
  {
  }

  /** `isAuthenticated`: a session is held and `now` is strictly before its expiry. */
  predicate Authenticated(session: Option<Session>, now: int)
  {
    session.Some? && now < session.value.expiresAt
  }

  /** `session?.token || null`: an empty token reads as no token. */
  function TokenOf(session: Option<Session>): (r: Option<string>)
    ensures r.Some? <==> session.Some? && session.value.token != ""
    ensures r.Some? ==> r.value == session.value.token
  {
    if session.Some? && session.value.token != "" then Some(session.value.token) else None
  }

  /**
   * The read test and the authentication test disagree at the expiry instant: the
   * record is still returned and kept, yet the session does not authenticate.
   */
  lemma ExpiryInstant(items: map<string, StoredValue>, s: Session)
    requires StorageKey in items && items[StorageKey] == Record(s)
    ensures Retrieve(items, s.expiresAt) == Retrieved(Some(s), items)
    ensures !Authenticated(Retrieve(items, s.expiresAt).session, s.expiresAt)
  {
  }

  /** A session read from storage authenticates at every instant but its expiry instant. */
  lemma RetrievedAuthenticates(items: map<string, StoredValue>, now: int)
    ensures Authenticated(Retrieve(items, now).session, now) <==>
      Retrieve(items, now).session.Some? && now != Retrieve(items, now).session.value.expiresAt
  {
  }

  /** The `loginError` text after a rejected login: it tells bad credentials from any other failure. */
  function LoginErrorText(message: string): (r: string)
    ensures r == "Invalid credentials" <==> Text.Includes(message, "Unauthorized")
    ensures r == "Invalid credentials" || r == "Login failed"
  {
    Feedback.MissingCharExcludes("Login failed", "Unauthorized", 'U');
    if Text.Includes(Feedback.MessageOr(message, "Login failed"), "Unauthorized") then "Invalid credentials"
    else "Login failed"
  }

  /** The browser's `localStorage`: one per browser profile, shared by every hook instance. */
  class LocalStorage {
    var items: map<string, StoredValue>

    constructor (items: map<string, StoredValue>)
      ensures this.items == items
    {
      this.items := items;
    }
  }

  /** `getStoredSession()` */
  method GetStoredSession(storage: LocalStorage, now: int) returns (session: Option<Session>)
    modifies storage
    ensures session == Retrieve(old(storage.items), now).session
    ensures storage.items == Retrieve(old(storage.items), now).items
  {
    session := None;
    if StorageKey in storage.items {
      match storage.items[StorageKey] {
        case Unparsable =>
        case Record(s) =>
          if now > s.expiresAt {
            storage.items := storage.items - {StorageKey};
          } else {
            session := Some(s);
          }
      }
    }
  }

  /** `storeSession(token)` */
  method StoreSession(storage: LocalStorage, token: string, now: int)
    modifies storage
    ensures storage.items == Stored(old(storage.items), token, now)
  {
    storage.items := storage.items[StorageKey := Record(Session(token, now + SessionLifetime))];
  }

  /** `clearSession()` */
  method ClearSession(storage: LocalStorage)
    modifies storage
    ensures storage.items == old(storage.items) - {StorageKey}
  {
    storage.items := storage.items - {StorageKey};
  }

  /** The state of one `useAdminSession()` call. Each component calling the hook has its own. */
  class SessionHook {
    const storage: LocalStorage
    var session: Option<Session>
    var isLoggingIn: bool
    var loginError: Option<string>

    /** Mounting: the initial state and then the mount effect read the stored session. */
    constructor (storage: LocalStorage, now: int)
      modifies storage
      ensures this.storage == storage
      ensures session == Retrieve(old(storage.items), now).session
      ensures storage.items == Retrieve(old(storage.items), now).items
      ensures !isLoggingIn && loginError == None
    {
      this.storage := storage;
      isLoggingIn := false;
      loginError := None;
      new;
      var initial := GetStoredSession(storage, now);
      session := initial;
      var synced := GetStoredSession(storage, now);
      session := synced;
    }

    /** `isAuthenticated` */
    predicate IsAuthenticated(now: int)
      reads this
    {
      Authenticated(session, now)
    }

    /** `token` */
    function Token(): (r: Option<string>)
      reads this
      ensures r.Some? <==> session.Some? && session.value.token != ""
      ensures r.Some? ==> r.value == session.value.token
    {
      TokenOf(session)
    }

    /** The steps of `login` before its remote call: the state every render sees while the call is pending. */
    method BeginLogin()
      modifies this
      ensures isLoggingIn && loginError == None && session == old(session)
    {
      isLoggingIn := true;
      loginError := None;
    }

    /**
     * The steps of `login` after its remote call settles. On success the token is stored
     * with an expiry from one clock reading (`storedAt`) and held with an expiry from a
     * second one (`shownAt`); on failure nothing but the error text changes. Either way
     * the login flag is lowered.
     */
    method FinishLogin(reply: Reply<string>, storedAt: int, shownAt: int) returns (outcome: Reply<()>)
      modifies this, storage
      ensures !isLoggingIn
      ensures outcome == (if reply.Resolved? then Resolved(()) else Rejected(reply.message))
      ensures reply.Resolved? ==>
        && storage.items == Stored(old(storage.items), reply.value, storedAt)
        && session == Some(Session(reply.value, shownAt + SessionLifetime))
        && loginError == old(loginError)
      ensures reply.Rejected? ==>
        && storage.items == old(storage.items)
        && session == old(session)
        && loginError == Some(LoginErrorText(reply.message))
    {
      match reply {
        case Resolved(token) =>
          StoreSession(storage, token, storedAt);
          session := Some(Session(token, shownAt + SessionLifetime));
          outcome := Resolved(());
        case Rejected(message) =>
          loginError := Some(LoginErrorText(message));
          outcome := Rejected(message);
      }
      isLoggingIn := false;
    }

    /**
     * `login(username, password)`: without an actor it throws before changing anything;
     * otherwise it sends the credentials as given and rethrows a rejection.
     */
    method Login(actor: bool, username: string, password: string, reply: Reply<string>, storedAt: int, shownAt: int)
      returns (request: Option<Call>, outcome: Reply<()>)
      modifies this, storage
      ensures !actor ==> request == None && outcome == Rejected(ActorNotAvailable)
      ensures !actor ==> unchanged(this) && unchanged(storage)
      ensures actor ==> request == Some(Call.Login(username, password)) && !isLoggingIn
      ensures actor ==> outcome == (if reply.Resolved? then Resolved(()) else Rejected(reply.message))
      ensures actor && reply.Resolved? ==>
        && storage.items == Stored(old(storage.items), reply.value, storedAt)
        && session == Some(Session(reply.value, shownAt + SessionLifetime))
        && loginError == None
      ensures actor && reply.Rejected? ==>
        && storage.items == old(storage.items)
        && session == old(session)
        && loginError == Some(LoginErrorText(reply.message))
    {
      if !actor {
        return None, Rejected(ActorNotAvailable);
      }
      BeginLogin();
      request := Some(Call.Login(username, password));
      outcome := FinishLogin(reply, storedAt, shownAt);
    }

    /**
     * `logout()`: the service is told only when both a session and an actor exist, and
     * whatever it answers, the stored record and the held session are gone afterwards.
     */
    method Logout(actor: bool, reply: Reply<()>) returns (request: Option<Call>)
      modifies this, storage
      ensures request == (if old(session).Some? && actor then Some(Call.Logout(old(session).value.token)) else None)
      ensures session == None && storage.items == old(storage.items) - {StorageKey}
      ensures isLoggingIn == old(isLoggingIn) && loginError == old(loginError)
    {
      if session.None? || !actor {
        ClearSession(storage);
        session := None;
        return None;
      }
      request := Some(Call.Logout(session.value.token));
      // A rejected `reply` is caught and only logged; the clean-up below runs either way.
      ClearSession(storage);
      session := None;
    }
  }
}
