/**
 * The authentication service: the current session, its record in local
 * storage, and the listeners it registers on authenticators.
 *
 * Authenticators are foreign objects, looked up by key in a registry where
 * two keys may name one object. What one of their calls (`boot`, `login`,
 * `logout`) does is a parameter: it returns, it starts or ends a session
 * (which notifies every listener registered on that object), or it throws. Events emitted on the application bus and alerts shown
 * to the user are recorded in `events`.
 */
module Auth {
  import opened Common

  /** The local-storage key under which the service remembers the authenticator. */
  const StorageKey: string := "auth"

  /** The authenticator `login()` uses when none is named. */
  const DefaultAuthenticator: string := "default"

  datatype User = User(name: string)

  /** An authenticator object: `id` stands for its identity, `name` for its `name` property. */
  datatype Authenticator = Authenticator(id: nat, name: string)

  /** A session, with the authenticator object it belongs to. */
  datatype Session = Session(user: User, authenticator: Authenticator)

  /** A local-storage entry: the service's own record, or a value that does not parse as one. */
  datatype StoredValue = AuthData(authenticator: string) | Unreadable

  /** What one call into an authenticator does. */
  datatype AuthenticatorCall = Returns | StartsSession(session: Session) | EndsSession | Throws

  datatype Event = LoginEvent(user: User) | LogoutEvent | AlertCouldNotLogIn

  /** The computed `authenticator`: the session's authenticator, or none. */
  function SessionAuthenticator(session: Option<Session>): (auth: Option<Authenticator>)
    ensures auth.Some? <==> session.Some?
    ensures auth.Some? ==> auth.value == session.value.authenticator
  {
    if session.Some? then Some(session.value.authenticator) else None
  }

  /** The computed `user`: the session's user, or none. */
  function SessionUser(session: Option<Session>): (user: Option<User>)
    ensures user.Some? <==> session.Some?
    ensures user.Some? ==> user.value == session.value.user
  {
    if session.Some? then Some(session.value.user) else None
  }

  /**
   * The computed `loggedIn`: there is a session. `isLoggedIn()` relies on it
   * to narrow the service to one whose user and authenticator are set, which
   * the contracts of `SessionUser` and `SessionAuthenticator` guarantee.
   */
  function LoggedIn(session: Option<Session>): (loggedIn: bool)
    ensures loggedIn <==> SessionUser(session).Some? && SessionAuthenticator(session).Some?
  {
    session.Some?
  }

  /** `count` copies of `event`. */
  function Repeat(event: Event, count: nat): (events: seq<Event>)
    ensures |events| == count && forall i :: 0 <= i < count ==> events[i] == event
  {
    if count == 0 then [] else Repeat(event, count - 1) + [event]
  }

  /** The events a call's session change emits through `count` listener pairs. */
  function Delivered(call: AuthenticatorCall, count: nat): (events: seq<Event>)
    ensures |events| == (if call.StartsSession? || call.EndsSession? then count else 0)
    ensures call.StartsSession? ==> forall e :: e in events ==> e == LoginEvent(call.session.user)
    ensures call.EndsSession? ==> forall e :: e in events ==> e == LogoutEvent
    ensures AlertCouldNotLogIn !in events
  {
    match call
    case StartsSession(started) => Repeat(LoginEvent(started.user), count)
    case EndsSession => Repeat(LogoutEvent, count)
    case _ => []
  }

  /** The session and the stored record agree: the name of the session's authenticator is stored, or nothing is. */
  ghost predicate Recorded(session: Option<Session>, storage: map<string, StoredValue>) {
    if session.Some? then StorageKey in storage && storage[StorageKey] == AuthData(session.value.authenticator.name)
    else StorageKey !in storage
  }

  /** The session once a call's session change has reached `count` listener pairs. */
  function SessionAfter(call: AuthenticatorCall, count: nat, session: Option<Session>): (after: Option<Session>)
    ensures count == 0 || call.Returns? || call.Throws? ==> after == session
    ensures count > 0 && call.StartsSession? ==> after == Some(call.session)
    ensures count > 0 && call.EndsSession? ==> after.None?
  {
    if count == 0 then session
    else match call
      case StartsSession(started) => Some(started)
      case EndsSession => None
      case _ => session
  }

  /** Local storage once a call's session change has reached `count` listener pairs. */
  function StorageAfter(call: AuthenticatorCall, count: nat, storage: map<string, StoredValue>): (after: map<string, StoredValue>)
    ensures forall key :: key != StorageKey ==> (key in after <==> key in storage)
    ensures forall key :: key != StorageKey && key in after ==> after[key] == storage[key]
    ensures count == 0 || call.Returns? || call.Throws? ==> after == storage
  {
    if count == 0 then storage
    else match call
      case StartsSession(started) => storage[StorageKey := AuthData(started.authenticator.name)]
      case EndsSession => storage - {StorageKey}
      case _ => storage
  }

  /**
   * A call keeps the session and its record in agreement, and once a session
   * change has been delivered they agree whatever they were before.
   */
  lemma CallKeepsRecord(call: AuthenticatorCall, count: nat, session: Option<Session>, storage: map<string, StoredValue>)
    requires Recorded(session, storage) || (count > 0 && (call.StartsSession? || call.EndsSession?))
    ensures Recorded(SessionAfter(call, count, session), StorageAfter(call, count, storage))
  {
  }

  /** Whether `login(name)` ends in the alert: the name is unknown, or booting or logging in throws. */
  predicate LoginFails(known: bool, boot: AuthenticatorCall, login: AuthenticatorCall) {
    !known || boot.Throws? || login.Throws?
  }

  class AuthService {
    var session: Option<Session>
    var storage: map<string, StoredValue>
    /** The registry `Authenticators`: the object each key stands for. */
    const authenticators: map<string, Authenticator>
    /** How many listener pairs the service has registered on each authenticator object, by identity. */
    var listeners: map<nat, nat>
    /** The authenticator objects booted by the service, in order. */
    var booted: seq<Authenticator>
    var events: seq<Event>

    /** The session and its stored record agree. */
    ghost predicate SessionStored()
      reads this`session, this`storage
    {
      Recorded(session, storage)
    }

    /** The listener pairs registered on the object `auth`. */
    function ListenersOn(auth: Authenticator): (count: nat)
      reads this`listeners
      ensures auth.id !in listeners ==> count == 0
      ensures auth.id in listeners ==> count == listeners[auth.id]
    {
      if auth.id in listeners then listeners[auth.id] else 0
    }

    /** `getInitialState`: no session. */
    constructor (storage: map<string, StoredValue>, authenticators: map<string, Authenticator>)
      ensures this.session.None? && !LoggedIn(this.session)
      ensures this.storage == storage && this.authenticators == authenticators
      ensures listeners == map[] && booted == [] && events == []
    {
      this.session := None;
      this.storage := storage;
      this.authenticators := authenticators;
      listeners := map[];
      booted := [];
      events := [];
    }

    /** The `onSessionStarted` listener: keep the session, remember its authenticator, emit `login`. */
    method SessionStarted(started: Session)
      modifies this`session, this`storage, this`events
      ensures session == Some(started) && SessionStored()
      ensures storage == old(storage)[StorageKey := AuthData(started.authenticator.name)]
      ensures events == old(events) + [LoginEvent(started.user)]
    {
      session := Some(started);
      storage := storage[StorageKey := AuthData(started.authenticator.name)];
      events := events + [LoginEvent(started.user)];
    }

    /** The `onSessionEnded` listener: forget the session and its record, emit `logout`. */
    method SessionEnded()
      modifies this`session, this`storage, this`events
      ensures session.None? && SessionStored()
      ensures storage == old(storage) - {StorageKey}
      ensures events == old(events) + [LogoutEvent]
    {
      session := None;
      storage := storage - {StorageKey};
      events := events + [LogoutEvent];
    }

    /**
     * One call into the authenticator object `auth`: a session it starts or
     * ends reaches each of the listener pairs registered on it. Returns false
     * when the call throws.
     */
    method Dispatch(auth: Authenticator, call: AuthenticatorCall) returns (ok: bool)
      modifies this`session, this`storage, this`events
      ensures ok <==> !call.Throws?
      ensures events == old(events) + Delivered(call, ListenersOn(auth))
      ensures session == SessionAfter(call, ListenersOn(auth), old(session))
      ensures storage == StorageAfter(call, ListenersOn(auth), old(storage))
      ensures ListenersOn(auth) == 0 || call.Returns? || call.Throws? ==> session == old(session) && storage == old(storage)
      ensures call.StartsSession? && ListenersOn(auth) > 0 ==>
        && session == Some(call.session) && SessionStored()
        && storage == old(storage)[StorageKey := AuthData(call.session.authenticator.name)]
      ensures call.EndsSession? && ListenersOn(auth) > 0 ==>
        && session.None? && SessionStored()
        && storage == old(storage) - {StorageKey}
    {
      var count := ListenersOn(auth);
      match call
      case Returns =>
        ok := true;
      case Throws =>
        ok := false;
      case StartsSession(started) =>
        var i := 0;
        while i < count
          invariant 0 <= i <= count
          invariant i == 0 ==> unchanged(this)
          invariant i > 0 ==> session == Some(started) && storage == old(storage)[StorageKey := AuthData(started.authenticator.name)]
          invariant events == old(events) + Repeat(LoginEvent(started.user), i)
        {
          SessionStarted(started);
          i := i + 1;
        }
        ok := true;
      case EndsSession =>
        var i := 0;
        while i < count
          invariant 0 <= i <= count
          invariant i == 0 ==> unchanged(this)
          invariant i > 0 ==> session.None? && storage == old(storage) - {StorageKey}
          invariant events == old(events) + Repeat(LogoutEvent, i)
        {
          SessionEnded();
          i := i + 1;
        }
        ok := true;
    }

    /**
     * `bootAuthenticator(name)`: registers one more listener pair on the
     * authenticator object the name stands for and boots it. Returns false
     * when the name is unknown (the lookup yields `undefined`) or the boot
     * throws.
     */
    method BootAuthenticator(name: string, boot: AuthenticatorCall) returns (ok: bool)
      modifies this`session, this`storage, this`events, this`listeners, this`booted
      ensures name !in authenticators ==> !ok && unchanged(this)
      ensures name in authenticators ==>
        var auth := authenticators[name];
        && (ok <==> !boot.Throws?)
        && listeners == old(listeners)[auth.id := old(ListenersOn(auth)) + 1]
        && booted == old(booted) + [auth]
      ensures name in authenticators && boot.StartsSession? ==> session == Some(boot.session) && SessionStored()
      ensures name in authenticators && boot.EndsSession? ==> session.None? && SessionStored()
      ensures name in authenticators ==>
        var count := old(ListenersOn(authenticators[name])) + 1;
        && events == old(events) + Delivered(boot, count)
        && session == SessionAfter(boot, count, old(session))
        && storage == StorageAfter(boot, count, old(storage))
      ensures name in authenticators && (boot.Returns? || boot.Throws?) ==>
        session == old(session) && storage == old(storage)
    {
      if name !in authenticators {
        return false;
      }
      var auth := authenticators[name];
      listeners := listeners[auth.id := ListenersOn(auth) + 1];
      booted := booted + [auth];
      ok := Dispatch(auth, boot);
    }

    /**
     * `login(name)`: nothing when already logged in; otherwise boots the
     * authenticator and logs in with it. A failure of either step is
     * reported with an alert and never propagates.
     */
    method Login(name: Option<string>, boot: AuthenticatorCall, login: AuthenticatorCall)
      modifies this`session, this`storage, this`events, this`listeners, this`booted
      ensures LoggedIn(old(session)) ==> unchanged(this)
      ensures var chosen := if name.Some? then name.value else DefaultAuthenticator;
        var known := chosen in authenticators;
        var count := if known then old(ListenersOn(authenticators[chosen])) + 1 else 0;
        !LoggedIn(old(session)) ==>
          && booted == old(booted) + (if known then [authenticators[chosen]] else [])
          && listeners == (if known then old(listeners)[authenticators[chosen].id := count] else old(listeners))
          && events == old(events)
            + (if known then Delivered(boot, count) else [])
            + (if known && !boot.Throws? then Delivered(login, count) else [])
            + (if LoginFails(known, boot, login) then [AlertCouldNotLogIn] else [])
      ensures var chosen := if name.Some? then name.value else DefaultAuthenticator;
        var known := chosen in authenticators;
        var count := if known then old(ListenersOn(authenticators[chosen])) + 1 else 0;
        var bootedSession := if known then SessionAfter(boot, count, old(session)) else old(session);
        var bootedStorage := if known then StorageAfter(boot, count, old(storage)) else old(storage);
        !LoggedIn(old(session)) ==>
          && session == (if known && !boot.Throws? then SessionAfter(login, count, bootedSession) else bootedSession)
          && storage == (if known && !boot.Throws? then StorageAfter(login, count, bootedStorage) else bootedStorage)
      ensures var chosen := if name.Some? then name.value else DefaultAuthenticator;
        !LoggedIn(old(session)) && chosen in authenticators && !boot.Throws? && login.StartsSession? ==>
          session == Some(login.session) && SessionStored()
    {
      if LoggedIn(session) {
        return;
      }
      var chosen := if name.Some? then name.value else DefaultAuthenticator;
      var ok := BootAuthenticator(chosen, boot);
      if ok {
        ok := Dispatch(authenticators[chosen], login);
      }
      if !ok {
        events := events + [AlertCouldNotLogIn];
      }
    }

    /**
     * `logout()`: nothing when logged out; otherwise asks the session's
     * authenticator object to log out. A failure propagates (false).
     */
    method Logout(logout: AuthenticatorCall) returns (ok: bool)
      modifies this`session, this`storage, this`events
      ensures !LoggedIn(old(session)) ==> ok && unchanged(this)
      ensures LoggedIn(old(session)) ==> (ok <==> !logout.Throws?)
      ensures LoggedIn(old(session)) ==>
        var count := ListenersOn(old(session).value.authenticator);
        && events == old(events) + Delivered(logout, count)
        && session == SessionAfter(logout, count, old(session))
        && storage == StorageAfter(logout, count, old(storage))
      ensures LoggedIn(old(session)) && logout.EndsSession? && ListenersOn(old(session).value.authenticator) > 0 ==>
        session.None? && StorageKey !in storage
    {
      if !LoggedIn(session) {
        return true;
      }
      ok := Dispatch(session.value.authenticator, logout);
    }

    /**
     * `boot`: boots the authenticator remembered in storage, if any. Fails
     * when the stored value does not parse or names no authenticator.
     */
    method Boot(boot: AuthenticatorCall) returns (ok: bool)
      modifies this`session, this`storage, this`events, this`listeners, this`booted
      ensures StorageKey !in old(storage) ==> ok && unchanged(this)
      ensures StorageKey in old(storage) && old(storage)[StorageKey].Unreadable? ==> !ok && unchanged(this)
      ensures StorageKey in old(storage) && old(storage)[StorageKey].AuthData? ==>
        var name := old(storage)[StorageKey].authenticator;
        && (name in authenticators ==>
              var auth := authenticators[name];
              var count := old(ListenersOn(auth)) + 1;
              && booted == old(booted) + [auth] && (ok <==> !boot.Throws?)
              && listeners == old(listeners)[auth.id := count]
              && events == old(events) + Delivered(boot, count)
              && session == SessionAfter(boot, count, old(session))
              && storage == StorageAfter(boot, count, old(storage))
              && (boot.Returns? || boot.Throws? ==> session == old(session) && storage == old(storage)))
        && (name !in authenticators ==> !ok && unchanged(this))
    {
      if StorageKey !in storage {
        return true;
      }
      match storage[StorageKey]
      case Unreadable =>
        ok := false;
      case AuthData(name) =>
        ok := BootAuthenticator(name, boot);
    }
  }

  /**
   * A boot that restores no session followed by a login with the same
   * authenticator leaves two listener pairs on it: the session the login
   * starts is delivered twice, so `login` is emitted twice.
   */
  method LoginAfterBootNotifiesTwice() returns (auth: AuthService)
    ensures auth.booted == [Authenticator(0, "default"), Authenticator(0, "default")]
    ensures auth.events == [LoginEvent(User("alice")), LoginEvent(User("alice"))]
  {
    var local := Authenticator(0, "default");
    auth := new AuthService(map[StorageKey := AuthData("default")], map["default" := local]);
    var booted := auth.Boot(Returns);
    auth.Login(None, Returns, StartsSession(Session(User("alice"), local)));
    assert Repeat(LoginEvent(User("alice")), 2) == Repeat(LoginEvent(User("alice")), 1) + [LoginEvent(User("alice"))];
  }

  /**
   * When `'default'` stands for the authenticator stored under another key,
   * booting by the stored key and logging in by `'default'` register on the
   * same object, so the started session is delivered twice.
   */
  method AliasedDefaultNotifiesTwice() returns (auth: AuthService)
    ensures auth.booted == [Authenticator(0, "solid"), Authenticator(0, "solid")]
    ensures auth.listeners == map[0 := 2]
    ensures auth.events == [LoginEvent(User("alice")), LoginEvent(User("alice"))]
  {
    var solid := Authenticator(0, "solid");
    auth := new AuthService(map[StorageKey := AuthData("solid")], map["default" := solid, "solid" := solid]);
    var booted := auth.Boot(Returns);
    auth.Login(None, Returns, StartsSession(Session(User("alice"), solid)));
    assert Repeat(LoginEvent(User("alice")), 2) == Repeat(LoginEvent(User("alice")), 1) + [LoginEvent(User("alice"))];
  }

  /**
   * A session started by one object through the listener pair of another is
   * kept, but logging out goes through the session's own object: with no
   * listener pair on it, the session stays.
   */
  method LogoutThroughSessionAuthenticator() returns (auth: AuthService, ok: bool)
    ensures ok && auth.session == Some(Session(User("alice"), Authenticator(1, "other")))
    ensures auth.events == [LoginEvent(User("alice"))]
  {
    var local := Authenticator(0, "default");
    var other := Authenticator(1, "other");
    auth := new AuthService(map[], map["default" := local, "other" := other]);
    auth.Login(None, Returns, StartsSession(Session(User("alice"), other)));
    ok := auth.Logout(EndsSession);
  }

  /**
   * A started session's authenticator is booted again on the next start: a
   * new service over the storage a login left boots the object the
   * session's authenticator name stands for, and restores its session.
   */
  method SessionRestoredOnNextBoot() returns (first: AuthService, next: AuthService)
    ensures first.session == Some(Session(User("alice"), Authenticator(0, "solid")))
    ensures first.booted == [Authenticator(0, "solid")]
    ensures next.booted == [Authenticator(0, "solid")]
    ensures next.session == first.session && next.storage == first.storage
    ensures next.events == [LoginEvent(User("alice"))]
  {
    var solid := Authenticator(0, "solid");
    var registry := map["default" := solid, "solid" := solid];
    var alice := Session(User("alice"), solid);
    first := new AuthService(map[], registry);
    first.Login(None, Returns, StartsSession(alice));
    next := new AuthService(first.storage, registry);
    var ok := next.Boot(StartsSession(alice));
  }
}
