/** The server's connection handler: one transaction over the session, timeout and resource tables. */
module ServerConnection {
  import opened Collections
  import opened Wrappers
  import S = SessionManager
  import T = TimeoutManager
  import R = ResourceManager

  /** What a timeout of the handler does when it fires; it keeps the session object it was made for. */
  datatype Callback = ConnectTimeout(session: S.ClientSession) | AuthTimeout(session: S.ClientSession)

  datatype Config = Config(requireAuth: bool, enableEncryption: bool, authTimeout: int, maxAuthAttempts: int)

  /** The configurations of the handler and its three managers, all fixed. */
  datatype Settings = Settings(server: Config, sessions: S.Config, connectTimeout: int, limits: R.Limits)

  datatype Server = Server(sessions: S.Table, timeouts: T.Table<Callback>, resources: R.Table)

  /** The names generated while a connection is set up. */
  datatype Names = Names(session: string, resource: string, connect: string, auth: string)

  /** Where setting up a connection ends. */
  datatype Stage = NoSession | NoResource | RequestNotSent | Declined | Established

  // ---- atomic steps ----

  /** Clear the device's timeouts, release the session's resource, close the device's session. */
  function Cleaned(s: Server, device: string, resource: Option<string>): Server {
    Server(s.sessions - {device}, T.Cleared(s.timeouts, device),
           if resource.Some? then R.Released(s.resources, resource.value) else s.resources)
  }

  /** `sent` is the answer of the connection to the authentication request, `welcomed` that of the user's callback. */
  ghost function StageOf(s: Server, c: Settings, device: string, sent: bool, welcomed: bool): Stage {
    if S.Refusal(s.sessions, c.sessions, device).Some? then NoSession
    else if !R.Check(s.resources, c.limits, R.Connection, 1).Granted? then NoResource
    else if c.server.requireAuth && !sent then RequestNotSent
    else if !welcomed then Declined
    else Established
  }

  /** The session of a device whose connection was set up. */
  function Admitted(c: Settings, device: string, names: Names, now: int): S.Session {
    S.Opened(device, names.session, now).(
      status := if c.server.requireAuth then S.Authenticating else S.Active,
      metadata := S.Metadata(Some(names.resource), Some(names.connect),
                             if c.server.requireAuth then Some(names.auth) else None, 0))
  }

  /** The timeouts set while a connection is set up. */
  function Armed(t: T.Table<Callback>, c: Settings, device: string, names: Names, session: S.ClientSession, now: int)
    : T.Table<Callback>
  {
    var u := T.Added(t, names.connect, device, T.Connect, c.connectTimeout, Some(ConnectTimeout(session)), now);
    if c.server.requireAuth
    then T.Added(u, names.auth, device, T.Custom, c.server.authTimeout, Some(AuthTimeout(session)), now)
    else u
  }

  ghost function Taken(s: Server, c: Settings, device: string, names: Names, now: int): R.Table {
    R.Allocated(s.resources, c.limits, names.resource, device, R.Connection, 1, now)
  }

  ghost function Connected(s: Server, c: Settings, device: string, names: Names, session: S.ClientSession, now: int)
    : Server
  {
    Server(s.sessions[device := Admitted(c, device, names, now)],
           Armed(s.timeouts, c, device, names, session, now), Taken(s, c, device, names, now))
  }

  /** What is left when setting up is given up after the timeouts were set. */
  ghost function GivenUp(s: Server, c: Settings, device: string, names: Names, now: int): Server {
    Server(s.sessions - {device}, T.Cleared(s.timeouts - Used(c, names), device),
           R.Released(Taken(s, c, device, names, now), names.resource))
  }

  /** The names of the timeouts that are set. */
  function Used(c: Settings, names: Names): set<string> {
    if c.server.requireAuth then {names.connect, names.auth} else {names.connect}
  }

  lemma ArmedCleared(t: T.Table<Callback>, c: Settings, device: string, names: Names, session: S.ClientSession,
                     now: int)
    ensures T.Cleared(Armed(t, c, device, names, session, now), device) == T.Cleared(t - Used(c, names), device)
  {
  }

  /** Setting up a connection: `session` is the session object made for it. */
  ghost function Connect(s: Server, c: Settings, device: string, names: Names, session: S.ClientSession,
                         sent: bool, welcomed: bool, now: int): Server
  {
    match StageOf(s, c, device, sent, welcomed)
    case NoSession => s
    case NoResource => s.(sessions := s.sessions - {device})
    case Established => Connected(s, c, device, names, session, now)
    case _ => GivenUp(s, c, device, names, now)
  }

  function Disconnect(s: Server, device: string): Server {
    if device in s.sessions then Cleaned(s, device, s.sessions[device].metadata.resourceId) else s
  }

  /** The connection of the device's session ended before the handler was told. */
  function SessionClosed(s: Server, device: string): Server {
    s.(sessions := s.sessions - {device})
  }

  /** Credentials were refused: the failure is counted, and the last one allowed ends the session. */
  function FailedAttempt(s: Server, c: Config, device: string): Server
    requires device in s.sessions
  {
    var v := s.sessions[device];
    var w := v.(metadata := v.metadata.(authAttempts := v.metadata.authAttempts + 1));
    var t := s.(sessions := s.sessions[device := w]);
    if w.metadata.authAttempts >= c.maxAuthAttempts then Cleaned(t, device, w.metadata.resourceId) else t
  }

  /** Credentials were accepted: the authentication timeout goes, encryption starts, the session is active. */
  function LogIn(s: Server, c: Config, device: string, keyed: bool, now: int): Server
    requires device in s.sessions
  {
    var v := s.sessions[device];
    var w := v.(metadata := v.metadata.(authTimeoutId := None));
    var x := if c.enableEncryption then S.EncryptOne(w, keyed, now) else w;
    Server(s.sessions[device := if c.enableEncryption && !keyed then w else x.(status := S.Active)],
           if v.metadata.authTimeoutId.Some? then s.timeouts - {v.metadata.authTimeoutId.value} else s.timeouts,
           s.resources)
  }

  predicate Authenticates(s: Server, device: string, accepted: bool) {
    device in s.sessions && !S.Over(s.sessions[device]) && accepted
  }

  /** `accepted` is the answer of the security manager to the credentials, `keyed` to the request for a key. */
  function AuthMessage(s: Server, c: Config, device: string, accepted: bool, keyed: bool, now: int): Server
    requires device in s.sessions
  {
    var t := s.(sessions := S.Authenticate(s.sessions, device, accepted, now));
    if Authenticates(s, device, accepted) then LogIn(t, c, device, keyed, now) else FailedAttempt(t, c, device)
  }

  // The same for the object of a session the table no longer holds: `v` is its value.

  function StaleFailure(s: Server, c: Config, v: S.Session): Server {
    if v.metadata.authAttempts + 1 >= c.maxAuthAttempts then Cleaned(s, v.deviceId, v.metadata.resourceId) else s
  }

  function StaleLogIn(s: Server, c: Config, v: S.Session, keyed: bool, now: int): Server {
    Server(if c.enableEncryption then S.Encrypt(s.sessions, v.deviceId, keyed, now) else s.sessions,
           if v.metadata.authTimeoutId.Some? then s.timeouts - {v.metadata.authTimeoutId.value} else s.timeouts,
           s.resources)
  }

  /** What becomes of the object itself. */
  function StaleSession(s: Server, c: Config, v: S.Session, accepted: bool, keyed: bool): S.Session {
    if !Authenticates(s, v.deviceId, accepted) then
      v.(metadata := v.metadata.(authAttempts := v.metadata.authAttempts + 1))
    else
      v.(metadata := v.metadata.(authTimeoutId := None),
         status := if c.enableEncryption && !keyed then v.status else S.Active)
  }

  function StaleAuthMessage(s: Server, c: Config, v: S.Session, accepted: bool, keyed: bool, now: int): Server {
    var t := s.(sessions := S.Authenticate(s.sessions, v.deviceId, accepted, now));
    if Authenticates(s, v.deviceId, accepted) then StaleLogIn(t, c, v, keyed, now) else StaleFailure(t, c, v)
  }

  /** A message from a device: its session is touched, and before authentication only credentials pass. */
  function Message(s: Server, c: Config, device: string, isAuth: bool, accepted: bool, keyed: bool, now: int): Server {
    if device !in s.sessions then s
    else
      var t := s.(sessions := S.Touched(s.sessions, device, now));
      if !S.Over(t.sessions[device]) && c.requireAuth && !t.sessions[device].isAuthenticated && isAuth
      then AuthMessage(t, c, device, accepted, keyed, now)
      else t
  }

  datatype Reply = UnknownDevice | SessionOver | NotAuthenticated | AuthenticationFailed | LockedOut
                 | EncryptionFailed | NotWelcomed | LoggedIn | PassedOn

  class ServerConnectionHandler {
    const sessionManager: S.SessionManager
    const timeoutManager: T.TimeoutManager<Callback>
    const resourceManager: R.ResourceManager
    const config: Config

    constructor (sm: S.SessionManager, tm: T.TimeoutManager<Callback>, rm: R.ResourceManager, config: Config)
      ensures sessionManager == sm && timeoutManager == tm && resourceManager == rm && this.config == config
    {
      sessionManager, timeoutManager, resourceManager, this.config := sm, tm, rm, config;
    }

    ghost predicate Valid()
      reads sessionManager, sessionManager.sessions.Values
    {
      sessionManager.Valid()
    }

    function Rules(): Settings {
      Settings(config, sessionManager.config, timeoutManager.connectTimeout, resourceManager.limits)
    }

    ghost function State(): Server
      reads sessionManager, sessionManager.sessions.Values, timeoutManager, resourceManager
    {
      Server(sessionManager.Table(), timeoutManager.timeouts, resourceManager.resources)
    }

    /** `session` may be one the table no longer holds; its device's present session is closed all the same. */
    method Cleanup(session: S.ClientSession)
      requires Valid()
      modifies sessionManager, sessionManager.At(session.deviceId), timeoutManager, resourceManager
      ensures Valid() && sessionManager.sessions == old(sessionManager.sessions) - {session.deviceId}
      ensures State() == Cleaned(old(State()), session.deviceId, old(session.metadata.resourceId))
    {
      hide T.Cleared, R.Released, S.ClientSession.Value;
      timeoutManager.ClearTimeoutsByDevice(session.deviceId);
      if session.metadata.resourceId.Some? {
        var _ := resourceManager.ReleaseResource(session.metadata.resourceId.value);
      }
      var _ := sessionManager.CloseSession(session.deviceId);
    }

    method OnDisconnected(device: string)
      requires Valid()
      modifies sessionManager, sessionManager.At(device), timeoutManager, resourceManager
      ensures Valid() && State() == Disconnect(old(State()), device)
    {
      var r := sessionManager.GetSession(device);
      if r.Ok? {
        Cleanup(r.value);
      }
    }

    /** A fired timeout of either kind ends in the cleanup of the session it was made for. */
    method HandleTimeout(session: S.ClientSession)
      requires Valid()
      modifies sessionManager, sessionManager.At(session.deviceId), timeoutManager, resourceManager
      ensures Valid()
      ensures State() == Cleaned(old(State()), session.deviceId, old(session.metadata.resourceId))
    {
      Cleanup(session);
    }

    /** `encrypted` and `sent` are the answers of the security manager and of the connection. */
    method SendMessage(session: S.ClientSession, encrypted: bool, sent: bool, now: int) returns (ok: bool)
      requires Valid()
      modifies sessionManager.At(session.deviceId)
      ensures Valid()
      ensures ok == (&& !old(S.Over(session.Value())) && sent
                     && (config.enableEncryption && old(session.isEncrypted) ==> encrypted))
      ensures sessionManager.Table() == if ok then S.Touched(old(sessionManager.Table()), session.deviceId, now)
                                        else old(sessionManager.Table())
    {
      if session.status == S.Closed || session.status == S.Expired {
        return false;
      }
      if config.enableEncryption && session.isEncrypted && !encrypted {
        return false;
      }
      if !sent {
        return false;
      }
      sessionManager.UpdateActivity(session.deviceId, now);
      return true;
    }

    /** The session is the one its device has in the table. */
    predicate Held(session: S.ClientSession)
      reads sessionManager
    {
      session.deviceId in sessionManager.sessions && sessionManager.sessions[session.deviceId] == session
    }

    method StartAuthentication(session: S.ClientSession, encrypted: bool, sent: bool, now: int) returns (ok: bool)
      requires Valid()
      modifies session, sessionManager.At(session.deviceId)
      ensures Valid() && ok == ((config.enableEncryption && old(session.isEncrypted) ==> encrypted) && sent)
      ensures var v := old(session.Value()).(status := S.Authenticating);
              session.Value() == if ok && Held(session) then S.Touch(v, now) else v
      ensures !Held(session) ==>
                sessionManager.Table() == if ok then S.Touched(old(sessionManager.Table()), session.deviceId, now)
                                          else old(sessionManager.Table())
    {
      session.status := S.Authenticating;
      ghost var v := session.Value();
      assert Held(session) ==> sessionManager.Table()[session.deviceId] == v;
      ok := SendMessage(session, encrypted, sent, now);
      assert Held(session) ==> sessionManager.Table()[session.deviceId] == session.Value();
    }

    /** Record the resource, set the timeouts, and ask for credentials if they are required. */
    method Prepare(session: S.ClientSession, names: Names, sent: bool, now: int) returns (ok: bool)
      requires Valid() && session.deviceId in sessionManager.sessions
      requires sessionManager.sessions[session.deviceId] == session
      requires session.Value() == S.Opened(session.deviceId, names.session, now)
      modifies session, timeoutManager
      ensures Valid() && ok == (config.requireAuth ==> sent)
      ensures session.metadata.resourceId == Some(names.resource)
      ensures sessionManager.Table()
              == old(sessionManager.Table())[session.deviceId := Admitted(Rules(), session.deviceId, names, now)]
      ensures timeoutManager.timeouts
              == Armed(old(timeoutManager.timeouts), Rules(), session.deviceId, names, session, now)
    {
      session.metadata := session.metadata.(resourceId := Some(names.resource));
      timeoutManager.AddConnectTimeout(names.connect, session.deviceId, Some(ConnectTimeout(session)), now);
      session.metadata := session.metadata.(connectTimeoutId := Some(names.connect));
      if config.requireAuth {
        timeoutManager.AddTimeout(names.auth, session.deviceId, T.Custom, config.authTimeout,
                                  Some(AuthTimeout(session)), now);
        session.metadata := session.metadata.(authTimeoutId := Some(names.auth));
        ok := StartAuthentication(session, false, sent, now);
      } else {
        session.status := S.Active;
        ok := true;
      }
      sessionManager.OneChanged(session.deviceId);
    }

    /** Create the session and take the connection resource, or neither. */
    method Reserve(device: string, names: Names, now: int) returns (stage: Stage)
      requires Valid()
      modifies sessionManager, sessionManager.At(device), resourceManager
      ensures Valid() && stage == StageOf(old(State()), Rules(), device, true, true)
      ensures stage == NoSession ==> State() == old(State())
      ensures stage == NoResource ==> State() == old(State()).(sessions := old(State().sessions) - {device})
      ensures stage == Established ==>
                && device in sessionManager.sessions && fresh(sessionManager.sessions[device])
                && sessionManager.sessions[device].Value() == S.Opened(device, names.session, now)
                && sessionManager.sessions == old(sessionManager.sessions)[device := sessionManager.sessions[device]]
                && sessionManager.Table() == old(sessionManager.Table())[device := S.Opened(device, names.session, now)]
                && resourceManager.resources == Taken(old(State()), Rules(), device, names, now)
    {
      hide S.Refusal, R.Check, S.Opened, S.ClientSession.Value;
      var r := sessionManager.CreateSession(device, names.session, now);
      if r.Err? {
        return NoSession;
      }
      assert sessionManager.Table()[device] == r.value.Value();
      SetThenRemoved(old(sessionManager.Table()), device, S.Opened(device, names.session, now));
      var verdict := resourceManager.AllocateResource(names.resource, device, R.Connection, 1, now);
      if !verdict.Granted? {
        var _ := sessionManager.CloseSession(device);
        return NoResource;
      }
      return Established;
    }

    method OnConnected(device: string, names: Names, sent: bool, welcomed: bool, now: int) returns (stage: Stage)
      requires Valid()
      modifies sessionManager, sessionManager.At(device), timeoutManager, resourceManager
      ensures Valid() && stage == StageOf(old(State()), Rules(), device, sent, welcomed)
      ensures stage == NoSession ==> State() == old(State())
      ensures stage == NoResource ==> State() == old(State()).(sessions := old(State().sessions) - {device})
      ensures stage == RequestNotSent || stage == Declined ==>
                State() == GivenUp(old(State()), Rules(), device, names, now)
      ensures stage == Established ==>
                && device in sessionManager.sessions && fresh(sessionManager.sessions[device])
                && State() == Connected(old(State()), Rules(), device, names, sessionManager.sessions[device], now)
    {
      hide S.Refusal, R.Check, R.Allocated, R.Released, S.Opened, S.ClientSession.Value;
      hide T.Cleared, Admitted, Armed, Used;
      stage := Reserve(device, names, now);
      if stage != Established {
        return;
      }
      var session := sessionManager.sessions[device];
      ArmedCleared(timeoutManager.timeouts, Rules(), device, names, session, now);
      SetTwice(old(sessionManager.Table()), device, session.Value(), Admitted(Rules(), device, names, now));
      SetThenRemoved(old(sessionManager.Table()), device, Admitted(Rules(), device, names, now));
      var ok := Prepare(session, names, sent, now);
      if !ok {
        Cleanup(session);
        return RequestNotSent;
      }
      if !welcomed {
        Cleanup(session);
        return Declined;
      }
    }

    method CountFailure(session: S.ClientSession) returns (reply: Reply)
      requires Valid()
      modifies sessionManager, session, sessionManager.At(session.deviceId), timeoutManager, resourceManager
      ensures Valid()
      ensures old(Held(session)) ==> State() == FailedAttempt(old(State()), config, session.deviceId)
      ensures !old(Held(session)) ==> State() == StaleFailure(old(State()), config, old(session.Value()))
      ensures !old(Held(session)) ==>
                session.Value() == old(session.Value()).(metadata := session.metadata)
                && session.metadata == old(session.metadata).(authAttempts := old(session.metadata.authAttempts) + 1)
      ensures reply == if old(session.metadata.authAttempts) + 1 >= config.maxAuthAttempts then LockedOut
                       else AuthenticationFailed
    {
      hide Cleaned;
      session.metadata := session.metadata.(authAttempts := session.metadata.authAttempts + 1);
      if Held(session) {
        sessionManager.OneChanged(session.deviceId);
      }
      if session.metadata.authAttempts >= config.maxAuthAttempts {
        Cleanup(session);
        return LockedOut;
      }
      return AuthenticationFailed;
    }

    /** What the table holds after a change of one session object. */
    ghost function TableWith(table: S.Table, session: S.ClientSession): S.Table
      reads sessionManager, session
    {
      if Held(session) then table[session.deviceId := session.Value()] else table
    }

    method DropAuthTimeout(session: S.ClientSession)
      requires Valid()
      modifies session`metadata, timeoutManager
      ensures Valid()
      ensures session.Value() == old(session.Value()).(
                metadata := old(session.Value()).metadata.(authTimeoutId := None))
      ensures sessionManager.Table() == TableWith(old(sessionManager.Table()), session)
      ensures var auth := old(session.Value()).metadata.authTimeoutId;
              timeoutManager.timeouts == if auth.Some? then old(timeoutManager.timeouts) - {auth.value}
                                         else old(timeoutManager.timeouts)
    {
      if session.metadata.authTimeoutId.Some? {
        var _ := timeoutManager.RemoveTimeout(session.metadata.authTimeoutId.value);
        session.metadata := session.metadata.(authTimeoutId := None);
      }
      if Held(session) {
        sessionManager.OneChanged(session.deviceId);
      }
    }

    method StartEncryption(device: string, keyed: bool, now: int) returns (ok: bool)
      requires Valid() && device in sessionManager.sessions && sessionManager.sessions[device].isAuthenticated
      modifies sessionManager.At(device)
      ensures Valid() && ok == (config.enableEncryption ==> keyed)
      ensures sessionManager.Table() == if config.enableEncryption
                                        then S.Encrypt(old(sessionManager.Table()), device, keyed, now)
                                        else old(sessionManager.Table())
    {
      ok := true;
      if config.enableEncryption {
        var e := sessionManager.EnableEncryption(device, keyed, now);
        ok := e.Ok?;
      }
    }

    /** Encryption of the device's present session, seen from the session a message was for. */
    method EncryptFor(session: S.ClientSession, keyed: bool, now: int) returns (ok: bool)
      requires Valid() && session.deviceId in sessionManager.sessions
      requires sessionManager.sessions[session.deviceId].isAuthenticated
      modifies sessionManager.At(session.deviceId)
      ensures Valid() && ok == (config.enableEncryption ==> keyed)
      ensures session.Value() == if Held(session) && config.enableEncryption && keyed
                                 then S.EncryptOne(old(session.Value()), keyed, now) else old(session.Value())
      ensures Held(session) ==> sessionManager.Table() == TableWith(old(sessionManager.Table()), session)
      ensures !Held(session) ==>
                sessionManager.Table() == if config.enableEncryption
                                          then S.Encrypt(old(sessionManager.Table()), session.deviceId, keyed, now)
                                          else old(sessionManager.Table())
    {
      assert Held(session) ==> sessionManager.Table()[session.deviceId] == session.Value();
      ok := StartEncryption(session.deviceId, keyed, now);
      assert Held(session) ==> sessionManager.Table()[session.deviceId] == session.Value();
    }

    method Activate(session: S.ClientSession)
      requires Valid()
      modifies session`status
      ensures Valid() && session.Value() == old(session.Value()).(status := S.Active)
      ensures sessionManager.Table() == TableWith(old(sessionManager.Table()), session)
    {
      session.status := S.Active;
      if Held(session) {
        sessionManager.OneChanged(session.deviceId);
      }
    }

    method Admit(session: S.ClientSession, keyed: bool, welcomed: bool, now: int) returns (reply: Reply)
      requires Valid() && session.deviceId in sessionManager.sessions
      requires sessionManager.sessions[session.deviceId].isAuthenticated
      modifies session, sessionManager.At(session.deviceId), timeoutManager
      ensures Valid()
      ensures Held(session) ==> State() == LogIn(old(State()), config, session.deviceId, keyed, now)
      ensures !Held(session) ==> State() == StaleLogIn(old(State()), config, old(session.Value()), keyed, now)
      ensures !Held(session) ==>
                var v := old(session.Value());
                session.Value() == v.(metadata := v.metadata.(authTimeoutId := None),
                                      status := if config.enableEncryption && !keyed then v.status else S.Active)
      ensures reply == if config.enableEncryption && !keyed then EncryptionFailed
                       else if welcomed then LoggedIn else NotWelcomed
    {
      assert session.Value().deviceId == session.deviceId;
      assert Held(session) ==> sessionManager.Table()[session.deviceId] == session.Value();
      ghost var before := sessionManager.Table();
      hide S.Encrypt, S.ClientSession.Value;
      DropAuthTimeout(session);
      ghost var v := session.Value();
      var ok := EncryptFor(session, keyed, now);
      SetTwice(before, session.deviceId, v, session.Value());
      if ok {
        ghost var w := session.Value();
        Activate(session);
        SetTwice(before, session.deviceId, w, session.Value());
      }
      return if !ok then EncryptionFailed else if welcomed then LoggedIn else NotWelcomed;
    }

    /** Credentials from a device; `welcomed` is the answer of the user's callback to a success. `session` may be one
        the table no longer holds: then the device's present session is authenticated, and the counts are kept in the
        old. */
    method HandleAuthMessage(session: S.ClientSession, accepted: bool, keyed: bool, welcomed: bool, now: int)
      returns (reply: Reply)
      requires Valid()
      modifies sessionManager, session, sessionManager.At(session.deviceId), timeoutManager, resourceManager
      ensures Valid()
      ensures old(Held(session)) ==>
                State() == AuthMessage(old(State()), config, session.deviceId, accepted, keyed, now)
      ensures !old(Held(session)) ==>
                && State() == StaleAuthMessage(old(State()), config, old(session.Value()), accepted, keyed, now)
                && session.Value() == StaleSession(old(State()), config, old(session.Value()), accepted, keyed)
      ensures reply == if !Authenticates(old(State()), session.deviceId, accepted) then
                         (if old(session.metadata.authAttempts) + 1 >= config.maxAuthAttempts
                          then LockedOut else AuthenticationFailed)
                       else if config.enableEncryption && !keyed then EncryptionFailed
                       else if welcomed then LoggedIn else NotWelcomed
    {
      hide LogIn, FailedAttempt, StaleLogIn, StaleFailure;
      var r := sessionManager.AuthenticateSession(session.deviceId, accepted, now);
      assert Held(session) ==> sessionManager.Table()[session.deviceId] == session.Value();
      if r.Err? {
        reply := CountFailure(session);
      } else {
        reply := Admit(session, keyed, welcomed, now);
      }
    }

    /** `PassedOn` messages go on to heartbeat handling, rate limiting, decryption and the user. */
    method OnMessage(device: string, isAuth: bool, accepted: bool, keyed: bool, welcomed: bool, now: int)
      returns (reply: Reply)
      requires Valid()
      modifies sessionManager, sessionManager.At(device), timeoutManager, resourceManager
      ensures Valid()
      ensures State() == Message(old(State()), config, device, isAuth, accepted, keyed, now)
      ensures reply == UnknownDevice <==> device !in old(State().sessions)
      ensures device in old(State().sessions) ==>
                var v := old(State().sessions)[device];
                var admitted := config.requireAuth ==> v.isAuthenticated;
                && (reply == SessionOver <==> S.Over(v))
                && (reply == NotAuthenticated <==> !S.Over(v) && !admitted && !isAuth)
                && (reply == PassedOn <==> !S.Over(v) && admitted)
                && (reply == SessionOver || reply == NotAuthenticated || reply == PassedOn ==>
                      State() == old(State()).(sessions := S.Touched(old(State().sessions), device, now)))
    {
      var r := sessionManager.GetSession(device);
      if r.Err? {
        return UnknownDevice;
      }
      var session := r.value;
      sessionManager.UpdateActivity(device, now);
      assert sessionManager.Table()[device] == session.Value();
      if session.status == S.Closed || session.status == S.Expired {
        return SessionOver;
      }
      if config.requireAuth && !session.isAuthenticated {
        if !isAuth {
          return NotAuthenticated;
        }
        reply := HandleAuthMessage(session, accepted, keyed, welcomed, now);
        return;
      }
      return PassedOn;
    }
  }

  // ---- laws of every run ----

  /** Everything that can happen to the three tables. `Received` is any message. `Ended` is a CloseSession, or the end
      of the connection of any session of the device, present or past. `Fired` is the callback of a timeout made for any
      session, present or past. */
  datatype Event = Connecting(device: string, names: Names, session: S.ClientSession, sent: bool, welcomed: bool,
                              at: int)
                 | Disconnecting(device: string)
                 | Received(device: string, isAuth: bool, accepted: bool, keyed: bool, at: int)
                 | Ended(device: string)
                 | Fired(device: string, resource: Option<string>)
                 | Authenticate(device: string, accepted: bool, at: int)
                 | Encrypt(device: string, keyed: bool, at: int)
                 | Heartbeat(device: string, at: int)
                 | SweepSessions(at: int)
                 | Timeouts(timeout: T.Event<Callback>)
                 | Resources(resourceEvent: R.Event)

  ghost function Step(s: Server, c: Settings, e: Event): Server {
    match e
    case Connecting(device, names, session, sent, welcomed, at) =>
      Connect(s, c, device, names, session, sent, welcomed, at)
    case Disconnecting(device) => Disconnect(s, device)
    case Received(device, isAuth, accepted, keyed, at) => Message(s, c.server, device, isAuth, accepted, keyed, at)
    case Ended(device) => SessionClosed(s, device)
    case Fired(device, resource) => Cleaned(s, device, resource)
    case Authenticate(device, accepted, at) => s.(sessions := S.Authenticate(s.sessions, device, accepted, at))
    case Encrypt(device, keyed, at) => s.(sessions := S.Encrypt(s.sessions, device, keyed, at))
    case Heartbeat(device, at) => s.(sessions := S.Beaten(s.sessions, device, at))
    case SweepSessions(at) => s.(sessions := S.Swept(s.sessions, c.sessions, at))
    case Timeouts(t) => s.(timeouts := T.Step(T.State(s.timeouts, []), t).table)
    case Resources(r) => s.(resources := R.Step(s.resources, c.limits, r))
  }

  ghost function RunFrom(s: Server, c: Settings, events: seq<Event>): Server {
    if events == [] then s else Step(RunFrom(s, c, events[..|events| - 1]), c, events[|events| - 1])
  }

  /** The events that reach one table only: what they do there, and that the others stay. */
  lemma ManagerEvents(s: Server, c: Settings, e: Event, d: string)
    requires e.Authenticate? || e.Encrypt? || e.Heartbeat? || e.SweepSessions? || e.Timeouts? || e.Resources?
    ensures
      var t := Step(s, c, e);
      && (e.Timeouts? ==> t.sessions == s.sessions && t.resources == s.resources
                          && t.timeouts == T.Step(T.State(s.timeouts, []), e.timeout).table)
      && (e.Resources? ==> t.sessions == s.sessions && t.timeouts == s.timeouts
                           && t.resources == R.Step(s.resources, c.limits, e.resourceEvent))
      && (!e.Timeouts? && !e.Resources? ==>
            t.timeouts == s.timeouts && t.resources == s.resources && t.sessions.Keys <= s.sessions.Keys)
      && (d in t.sessions && d in s.sessions ==>
            var v, w := s.sessions[d], t.sessions[d];
            && w.isAuthenticated == (v.isAuthenticated
                                     || (e.Authenticate? && e.device == d && e.accepted && !S.Over(v)))
            && w.isEncrypted == (v.isEncrypted || (e.Encrypt? && e.device == d && e.keyed && v.isAuthenticated))
            && w.lastHeartbeat == (if e.Heartbeat? && e.device == d then Some(e.at) else v.lastHeartbeat)
            && w.metadata == v.metadata)
      && (e.SweepSessions? ==> t.sessions == S.Swept(s.sessions, c.sessions, e.at))
  {
    hide R.Step, T.Step;
  }

  const EMPTY := Server(map[], map[], map[])

  ghost function Run(c: Settings, events: seq<Event>): Server {
    RunFrom(EMPTY, c, events)
  }

  /** A session under its own device's name, not over, and encrypted only if authenticated. */
  predicate Proper(v: S.Session, device: string) {
    v.deviceId == device && !S.Over(v) && (v.isEncrypted ==> v.isAuthenticated)
  }

  ghost predicate SoundSessions(t: S.Table, c: Settings) {
    && |t| <= R.AtLeastZero(c.sessions.maxSessions)
    && forall d :: d in t ==> Proper(t[d], d)
  }

  ghost predicate SoundResources(t: R.Table, c: Settings) {
    && |R.Connections(t)| <= R.AtLeastZero(c.limits.maxConnections)
    && forall id :: id in t ==> t[id].refCount == 1
  }

  ghost predicate Sound(s: Server, c: Settings) {
    SoundSessions(s.sessions, c) && SoundResources(s.resources, c)
  }

  lemma {:induction false} FewerSessions(t: S.Table, u: S.Table)
    requires u.Keys <= t.Keys
    ensures |u| <= |t|
  {
    SubsetSize(u.Keys, t.Keys);
    assert |u| == |u.Keys| && |t| == |t.Keys|;
  }

  lemma SessionUpdated(t: S.Table, c: Settings, d: string, v: S.Session)
    requires SoundSessions(t, c) && Proper(v, d)
    requires d in t || |t| < c.sessions.maxSessions
    ensures SoundSessions(t[d := v], c)
  {
    if d in t {
      assert t[d := v].Keys == t.Keys;
      FewerSessions(t, t[d := v]);
    } else {
      assert t[d := v].Keys == t.Keys + {d};
      assert |t[d := v]| == |t| + 1;
    }
  }

  lemma SessionsRemoved(t: S.Table, c: Settings, u: S.Table)
    requires SoundSessions(t, c) && u.Keys <= t.Keys
    requires forall d :: d in u ==> Proper(u[d], d)
    ensures SoundSessions(u, c)
  {
    FewerSessions(t, u);
  }

  lemma ResourcesStep(t: R.Table, c: Settings, e: R.Event)
    requires SoundResources(t, c)
    ensures SoundResources(R.Step(t, c.limits, e), c)
  {
    hide R.Check;
    if e.Allocate? {
      R.AllocateConnections(t, c.limits, e);
    } else {
      R.FewerConnections(t, R.Step(t, c.limits, e));
    }
  }

  lemma CleanedKeepsSound(s: Server, c: Settings, device: string, resource: Option<string>)
    requires Sound(s, c)
    ensures Sound(Cleaned(s, device, resource), c)
  {
    hide SoundResources;
    SessionsRemoved(s.sessions, c, s.sessions - {device});
    if resource.Some? {
      ResourcesStep(s.resources, c, R.Release(resource.value));
    }
  }

  /** Once a session was created, its device had none, since no session in the table is over. */
  lemma StageFacts(s: Server, c: Settings, device: string, sent: bool, welcomed: bool)
    requires SoundSessions(s.sessions, c)
    ensures !StageOf(s, c, device, sent, welcomed).NoSession? ==>
              device !in s.sessions && |s.sessions| < c.sessions.maxSessions
    ensures StageOf(s, c, device, sent, welcomed).Established? ==>
              R.Check(s.resources, c.limits, R.Connection, 1).Granted?
  {
    hide R.Check;
  }

  lemma ConnectKeepsSound(s: Server, c: Settings, device: string, names: Names, session: S.ClientSession,
                          sent: bool, welcomed: bool, now: int)
    requires Sound(s, c)
    ensures Sound(Connect(s, c, device, names, session, sent, welcomed, now), c)
  {
    hide SoundSessions, SoundResources, StageOf, Armed, Used, Admitted, Taken, T.Cleared, R.Released;
    StageFacts(s, c, device, sent, welcomed);
    TakenKeepsSound(s, c, device, names, now);
    RemovedKeepsSound(s, c, device);
    if StageOf(s, c, device, sent, welcomed).Established? {
      AdmittedKeepsSound(s.sessions, c, device, names, now);
    }
  }

  lemma RemovedKeepsSound(s: Server, c: Settings, device: string)
    requires SoundSessions(s.sessions, c)
    ensures SoundSessions(s.sessions - {device}, c)
  {
    SessionsRemoved(s.sessions, c, s.sessions - {device});
  }

  lemma TakenKeepsSound(s: Server, c: Settings, device: string, names: Names, now: int)
    requires SoundResources(s.resources, c)
    ensures SoundResources(Taken(s, c, device, names, now), c)
    ensures SoundResources(R.Released(Taken(s, c, device, names, now), names.resource), c)
  {
    hide SoundResources, R.Allocated, R.Released;
    ResourcesStep(s.resources, c, R.Allocate(names.resource, device, R.Connection, 1, now));
    ResourcesStep(Taken(s, c, device, names, now), c, R.Release(names.resource));
  }

  lemma AdmittedKeepsSound(t: S.Table, c: Settings, device: string, names: Names, now: int)
    requires SoundSessions(t, c) && |t| < c.sessions.maxSessions
    ensures SoundSessions(t[device := Admitted(c, device, names, now)], c)
  {
    hide SoundSessions;
    SessionUpdated(t, c, device, Admitted(c, device, names, now));
  }

  lemma MessageKeepsSound(s: Server, c: Settings, device: string, isAuth: bool, accepted: bool, keyed: bool, now: int)
    requires Sound(s, c)
    ensures Sound(Message(s, c.server, device, isAuth, accepted, keyed, now), c)
  {
    hide SoundResources, Cleaned;
    if device in s.sessions {
      var v := S.Touch(s.sessions[device], now);
      SessionUpdated(s.sessions, c, device, v);
      var t := s.(sessions := S.Touched(s.sessions, device, now));
      var u := t.(sessions := S.Authenticate(t.sessions, device, accepted, now));
      SessionUpdated(t.sessions, c, device, S.AuthenticateOne(v, accepted, now));
      if accepted {
        LogInKeepsSound(u, c, device, keyed, now);
      } else {
        FailureKeepsSound(u, c, device);
      }
    }
  }

  lemma LogInKeepsSound(s: Server, c: Settings, device: string, keyed: bool, now: int)
    requires Sound(s, c) && device in s.sessions
    ensures Sound(LogIn(s, c.server, device, keyed, now), c)
  {
    hide SoundResources;
    SessionUpdated(s.sessions, c, device, LogIn(s, c.server, device, keyed, now).sessions[device]);
  }

  lemma FailureKeepsSound(s: Server, c: Settings, device: string)
    requires Sound(s, c) && device in s.sessions
    ensures Sound(FailedAttempt(s, c.server, device), c)
  {
    hide SoundResources, Cleaned;
    var v := s.sessions[device];
    var w := v.(metadata := v.metadata.(authAttempts := v.metadata.authAttempts + 1));
    SessionUpdated(s.sessions, c, device, w);
    CleanedKeepsSound(s.(sessions := s.sessions[device := w]), c, device, w.metadata.resourceId);
  }

  lemma StepKeepsSound(s: Server, c: Settings, e: Event)
    requires Sound(s, c)
    ensures Sound(Step(s, c, e), c)
  {
    hide SoundResources, Connect, Message, Cleaned, T.Step, R.Step;
    match e
    case Connecting(device, names, session, sent, welcomed, at) =>
      ConnectKeepsSound(s, c, device, names, session, sent, welcomed, at);
    case Disconnecting(device) =>
      if device in s.sessions {
        CleanedKeepsSound(s, c, device, s.sessions[device].metadata.resourceId);
      }
    case Received(device, isAuth, accepted, keyed, at) =>
      MessageKeepsSound(s, c, device, isAuth, accepted, keyed, at);
    case Ended(device) => SessionsRemoved(s.sessions, c, s.sessions - {device});
    case Fired(device, resource) => CleanedKeepsSound(s, c, device, resource);
    case Authenticate(device, accepted, at) =>
      if device in s.sessions {
        SessionUpdated(s.sessions, c, device, S.AuthenticateOne(s.sessions[device], accepted, at));
      }
    case Encrypt(device, keyed, at) =>
      if device in s.sessions {
        SessionUpdated(s.sessions, c, device, S.EncryptOne(s.sessions[device], keyed, at));
      }
    case Heartbeat(device, at) =>
      if device in s.sessions {
        SessionUpdated(s.sessions, c, device, S.Beat(s.sessions[device], at));
      }
    case SweepSessions(at) => SessionsRemoved(s.sessions, c, S.Swept(s.sessions, c.sessions, at));
    case Timeouts(t) =>
    case Resources(r) => ResourcesStep(s.resources, c, r);
  }

  lemma {:induction false} RunFromKeepsSound(s: Server, c: Settings, events: seq<Event>)
    requires Sound(s, c)
    ensures Sound(RunFrom(s, c, events), c)
  {
    hide Step;
    if events != [] {
      RunFromKeepsSound(s, c, events[..|events| - 1]);
      StepKeepsSound(RunFrom(s, c, events[..|events| - 1]), c, events[|events| - 1]);
    }
  }

  /** In every reachable state the sessions and the connection resources are within their limits, every session in the
      table is one that is not over, and every encrypted session is authenticated. */
  lemma RunKeepsSound(c: Settings, events: seq<Event>)
    ensures Sound(Run(c, events), c)
  {
    assert R.Connections(map[]) == {};
    RunFromKeepsSound(EMPTY, c, events);
  }

  // ---- connection set-up ----

  /** Generated names that the tables do not hold. */
  predicate Unused(s: Server, names: Names) {
    && names.resource !in s.resources
    && names.connect !in s.timeouts && names.auth !in s.timeouts && names.connect != names.auth
  }

  lemma TakenReleased(s: Server, c: Settings, device: string, names: Names, now: int)
    requires names.resource !in s.resources
    ensures R.Released(Taken(s, c, device, names, now), names.resource) == s.resources
    ensures Taken(s, c, device, names, now) - {names.resource} == s.resources
    ensures R.Check(s.resources, c.limits, R.Connection, 1).Granted? ==>
              names.resource in Taken(s, c, device, names, now)
              && Taken(s, c, device, names, now)[names.resource].deviceId == device
  {
    hide R.Check;
    R.ReleaseUndoesAllocate(s.resources, c.limits, names.resource, device, R.Connection, 1, now);
  }

  lemma ArmedAdds(t: T.Table<Callback>, c: Settings, device: string, names: Names, session: S.ClientSession, now: int)
    requires names.connect !in t && names.auth !in t && names.connect != names.auth
    ensures
      var u := Armed(t, c, device, names, session, now);
      && Used(c, names) <= u.Keys && u - Used(c, names) == t && t - Used(c, names) == t
      && (forall id :: id in Used(c, names) ==> u[id].deviceId == device && u[id].isActive)
      && (forall id :: id in t ==> id in u && u[id] == t[id])
      && u[names.connect].callback == Some(ConnectTimeout(session))
      && u[names.connect].deadline == now + c.connectTimeout
  {
  }

  lemma AdmittedFacts(c: Settings, device: string, names: Names, now: int)
    ensures var v := Admitted(c, device, names, now);
            && v.deviceId == device && !v.isAuthenticated && !v.isEncrypted && !S.Over(v)
            && v.status == (if c.server.requireAuth then S.Authenticating else S.Active)
            && v.metadata == S.Metadata(Some(names.resource), Some(names.connect),
                                        if c.server.requireAuth then Some(names.auth) else None, 0)
  {
  }

  /** A failing set-up leaves the session and resource tables as they were and adds no timeout. */
  lemma FailedSetUpLeavesNothing(s: Server, c: Settings, device: string, names: Names, session: S.ClientSession,
                                 sent: bool, welcomed: bool, now: int)
    requires Sound(s, c) && Unused(s, names)
    requires StageOf(s, c, device, sent, welcomed) != Established
    ensures
      var t := Connect(s, c, device, names, session, sent, welcomed, now);
      var stage := StageOf(s, c, device, sent, welcomed);
      && t.sessions == s.sessions && t.resources == s.resources
      && t.timeouts == if stage.NoSession? || stage.NoResource? then s.timeouts else T.Cleared(s.timeouts, device)
  {
    hide StageOf, Armed, Used, Admitted, SoundSessions, SoundResources, T.Cleared, Taken;
    StageFacts(s, c, device, sent, welcomed);
    TakenReleased(s, c, device, names, now);
    ArmedAdds(s.timeouts, c, device, names, session, now);
    if !StageOf(s, c, device, sent, welcomed).NoSession? {
      NothingRemoved(s.sessions, device);
    }
  }

  /** A succeeding set-up adds exactly one live session, the resource it records, and its timeouts. */
  lemma SetUpAddsOneSession(s: Server, c: Settings, device: string, names: Names, session: S.ClientSession,
                            sent: bool, welcomed: bool, now: int)
    requires Sound(s, c) && Unused(s, names)
    requires StageOf(s, c, device, sent, welcomed) == Established
    ensures
      var t := Connect(s, c, device, names, session, sent, welcomed, now);
      && device !in s.sessions && device in t.sessions && t.sessions - {device} == s.sessions
      && t.sessions[device].status == (if c.server.requireAuth then S.Authenticating else S.Active)
      && t.sessions[device].metadata.resourceId == Some(names.resource)
      && names.resource in t.resources && t.resources[names.resource].deviceId == device
      && t.resources - {names.resource} == s.resources
      && Used(c, names) <= t.timeouts.Keys && t.timeouts - Used(c, names) == s.timeouts
      && forall id :: id in Used(c, names) ==> t.timeouts[id].deviceId == device && t.timeouts[id].isActive
  {
    hide StageOf, Armed, Used, Admitted, SoundSessions, SoundResources, Taken;
    StageFacts(s, c, device, sent, welcomed);
    TakenReleased(s, c, device, names, now);
    ArmedAdds(s.timeouts, c, device, names, session, now);
    AdmittedFacts(c, device, names, now);
    AddedThenRemoved(s.sessions, device, Admitted(c, device, names, now));
  }

  /** Disconnecting undoes a successful set-up, but for older timeouts of the device, which go too. */
  lemma DisconnectUndoesConnect(s: Server, c: Settings, device: string, names: Names, session: S.ClientSession,
                                sent: bool, now: int)
    requires Sound(s, c) && Unused(s, names)
    requires StageOf(s, c, device, sent, true) == Established
    ensures Disconnect(Connect(s, c, device, names, session, sent, true, now), device)
            == s.(timeouts := T.Cleared(s.timeouts, device))
  {
    hide StageOf, Armed, Used, Admitted, SoundSessions, SoundResources, Taken, T.Cleared, R.Released;
    StageFacts(s, c, device, sent, true);
    AdmittedFacts(c, device, names, now);
    TakenReleased(s, c, device, names, now);
    ArmedAdds(s.timeouts, c, device, names, session, now);
    ArmedCleared(s.timeouts, c, device, names, session, now);
    AddedThenRemoved(s.sessions, device, Admitted(c, device, names, now));
  }

  /** The order of the two ways a connection's end is noticed decides whether anything is left behind. */
  lemma LateDisconnectLeavesResource(s: Server, device: string)
    requires device in s.sessions
    ensures Disconnect(SessionClosed(s, device), device) == SessionClosed(s, device)
    ensures SessionClosed(Disconnect(s, device), device) == Disconnect(s, device)
    ensures Disconnect(s, device) == SessionClosed(s, device)
            <==> && (forall id :: id in s.timeouts ==> s.timeouts[id].deviceId != device)
                 && (s.sessions[device].metadata.resourceId.Some? ==>
                       s.sessions[device].metadata.resourceId.value !in s.resources)
  {
    var t := SessionClosed(s, device);
    NothingRemoved(t.sessions, device);
    NothingRemoved(Disconnect(s, device).sessions, device);
    CleanedAll(s.timeouts, device);
  }

  /** So after every set-up whose session ends first, the resource and the timeouts of the set-up stay behind. */
  lemma LateDisconnectAfterSetUp(s: Server, c: Settings, device: string, names: Names, session: S.ClientSession,
                                 sent: bool, now: int)
    requires Sound(s, c) && Unused(s, names)
    requires StageOf(s, c, device, sent, true) == Established
    ensures
      var t := Connect(s, c, device, names, session, sent, true, now);
      var u := Disconnect(SessionClosed(t, device), device);
      && u == t.(sessions := s.sessions)
      && names.resource in u.resources && Used(c, names) <= u.timeouts.Keys
      && u != Disconnect(t, device)
  {
    hide Connect, StageOf, Unused, Used, Sound;
    var t := Connect(s, c, device, names, session, sent, true, now);
    SetUpAddsOneSession(s, c, device, names, session, sent, true, now);
    DisconnectUndoesConnect(s, c, device, names, session, sent, now);
    LateDisconnectLeavesResource(t, device);
    assert names.resource !in s.resources by { UnusedResource(s, names); }
  }

  lemma UnusedResource(s: Server, names: Names)
    requires Unused(s, names)
    ensures names.resource !in s.resources
  {
  }

  lemma CleanedAll(t: T.Table<Callback>, device: string)
    ensures T.Cleared(t, device) == t <==> forall id :: id in t ==> t[id].deviceId != device
  {
    if T.Cleared(t, device) == t {
      assert forall id :: id in t ==> id in T.Cleared(t, device);
    }
  }

  // ---- the set-up and the clean-up, field by field ----

  /** What a succeeding set-up writes: the session, the timeouts with their deadlines and callbacks, the resource. */
  lemma SetUpWrites(s: Server, c: Settings, device: string, names: Names, session: S.ClientSession, sent: bool,
                    welcomed: bool, now: int)
    requires StageOf(s, c, device, sent, welcomed) == Established
    ensures
      var t, auth := Connect(s, c, device, names, session, sent, welcomed, now), c.server.requireAuth;
      var connect := T.Entry(device, T.Connect, now + c.connectTimeout, Some(ConnectTimeout(session)), true, now, now);
      var custom := T.Entry(device, T.Custom, now + c.server.authTimeout, Some(AuthTimeout(session)), true, now, now);
      var metadata := S.Metadata(Some(names.resource), Some(names.connect), if auth then Some(names.auth) else None, 0);
      var status := if auth then S.Authenticating else S.Active;
      && t.sessions == s.sessions[device := S.Session(names.session, device, status, now, now, None, false, false,
                                                      metadata)]
      && t.timeouts == (if auth then s.timeouts[names.connect := connect][names.auth := custom]
                        else s.timeouts[names.connect := connect])
      && t.resources == s.resources[names.resource := R.Resource(device, R.Connection, 1, now, now, 1)]
  {
    TakenFacts(s, c, device, names, sent, welcomed, now);
    hide StageOf, Taken;
  }

  /** When a set-up succeeds: in this order, the session is created, a connection is free and within the budget, the
      request for credentials is sent if they are required, and the user's callback agrees. */
  lemma StagesInOrder(s: Server, c: Settings, device: string, names: Names, session: S.ClientSession, sent: bool,
                      welcomed: bool, now: int)
    ensures
      var stage := StageOf(s, c, device, sent, welcomed);
      var created := |s.sessions| < c.sessions.maxSessions
                     && (device in s.sessions ==>
                           s.sessions[device].status == S.Closed || s.sessions[device].status == S.Expired);
      var granted := R.Check(s.resources, c.limits, R.Connection, 1) == R.Granted;
      && (stage == NoSession <==> !created)
      && (stage == NoResource <==> created && !granted)
      && (stage == RequestNotSent <==> created && granted && c.server.requireAuth && !sent)
      && (stage == Declined <==> created && granted && (c.server.requireAuth ==> sent) && !welcomed)
      && (stage == NoSession ==> Connect(s, c, device, names, session, sent, welcomed, now) == s)
      && (stage == NoResource ==>
            Connect(s, c, device, names, session, sent, welcomed, now) == s.(sessions := s.sessions - {device}))
  {
    hide R.Check;
  }

  /** A clean-up takes out every timeout of the device, one reference of the resource, and the device's session. */
  lemma CleanUpTakes(s: Server, device: string, resource: Option<string>)
    ensures
      var t := Cleaned(s, device, resource);
      && (forall id :: id in t.timeouts <==> id in s.timeouts && s.timeouts[id].deviceId != device)
      && (forall id :: id in t.timeouts ==> t.timeouts[id] == s.timeouts[id])
      && t.sessions == s.sessions - {device}
      && (forall id :: id in t.resources
                       <==> id in s.resources && !(resource == Some(id) && s.resources[id].refCount <= 1))
      && (forall id :: id in t.resources ==>
            t.resources[id].refCount == s.resources[id].refCount - if resource == Some(id) then 1 else 0)
  {
  }

  /** Without credentials in time the authentication timeout is launched by exactly the checks past its deadline, and
      takes the whole set-up back. */
  lemma UnansweredRequestUndoesSetUp(s: Server, c: Settings, device: string, names: Names, session: S.ClientSession,
                                     now: int, check: int)
    requires Sound(s, c) && Unused(s, names) && c.server.requireAuth
    requires StageOf(s, c, device, true, true) == Established
    ensures
      var t := Connect(s, c, device, names, session, true, true, now);
      var u := Step(Step(t, c, Timeouts(T.Check(check))), c, Fired(device, Some(names.resource)));
      && names.auth in t.timeouts && t.timeouts[names.auth].callback == Some(AuthTimeout(session))
      && (names.auth in T.Expired(t.timeouts, check) <==> check > now + c.server.authTimeout)
      && u.sessions == s.sessions && u.resources == s.resources
      && forall id :: id in u.timeouts ==> u.timeouts[id].deviceId != device
  {
    SetUpWrites(s, c, device, names, session, true, true, now);
    StageFacts(s, c, device, true, true);
    hide Connect, StageOf, R.Check, SoundSessions, SoundResources;
    AddedThenRemoved(s.sessions, device, Connect(s, c, device, names, session, true, true, now).sessions[device]);
    AddedThenRemoved(s.resources, names.resource, R.Resource(device, R.Connection, 1, now, now, 1));
  }

  // ---- the connect timeout ----

  /** The event clears the timeouts of a device. */
  ghost predicate Clears(s: Server, c: Settings, e: Event, device: string) {
    match e
    case Connecting(d, _, _, sent, welcomed, _) =>
      d == device && (StageOf(s, c, d, sent, welcomed).RequestNotSent? || StageOf(s, c, d, sent, welcomed).Declined?)
    case Disconnecting(d) => d == device && d in s.sessions
    case Received(d, isAuth, accepted, _, _) =>
      && d == device && d in s.sessions && !S.Over(s.sessions[d]) && c.server.requireAuth
      && !s.sessions[d].isAuthenticated && isAuth && !accepted
      && s.sessions[d].metadata.authAttempts + 1 >= c.server.maxAuthAttempts
    case Fired(d, _) => d == device
    case Timeouts(t) => t.Clear? && t.device == device
    case _ => false
  }

  /** The event names one timeout, to add, remove or postpone it. */
  predicate Mentions(c: Settings, e: Event, id: string) {
    match e
    case Connecting(_, names, _, _, _, _) => id in Used(c, names)
    case Timeouts(t) => (t.Add? || t.Remove? || t.Update?) && t.id == id
    case _ => false
  }

  /** The event leaves a timeout of the device alone that is due only after `deadline`. */
  ghost predicate LeavesAlone(s: Server, c: Settings, e: Event, device: string, id: string, deadline: int) {
    !Clears(s, c, e, device) && !Mentions(c, e, id) && (e.Timeouts? && e.timeout.Check? ==> e.timeout.at <= deadline)
  }

  ghost predicate LeftAlone(s: Server, c: Settings, events: seq<Event>, device: string, id: string, deadline: int) {
    forall i :: 0 <= i < |events| ==> LeavesAlone(RunFrom(s, c, events[..i]), c, events[i], device, id, deadline)
  }

  /** The timeout stands: active in the table, with this callback and deadline, and no session would remove it on
      logging in. */
  predicate Stands(s: Server, device: string, id: string, callback: Callback, deadline: int) {
    && id in s.timeouts && s.timeouts[id].isActive
    && s.timeouts[id].deviceId == device && s.timeouts[id].deadline == deadline
    && s.timeouts[id].callback == Some(callback)
    && forall d :: d in s.sessions ==> s.sessions[d].metadata.authTimeoutId != Some(id)
  }

  lemma ConnectStands(s: Server, c: Settings, e: Event, device: string, id: string, callback: Callback, deadline: int)
    requires Stands(s, device, id, callback, deadline) && LeavesAlone(s, c, e, device, id, deadline) && e.Connecting?
    ensures Stands(Step(s, c, e), device, id, callback, deadline)
  {
    hide StageOf, Taken, R.Released;
  }

  lemma MessageStands(s: Server, c: Settings, e: Event, device: string, id: string, callback: Callback, deadline: int)
    requires Stands(s, device, id, callback, deadline) && LeavesAlone(s, c, e, device, id, deadline) && e.Received?
    ensures Stands(Step(s, c, e), device, id, callback, deadline)
  {
    hide R.Released;
  }

  lemma StepStands(s: Server, c: Settings, e: Event, device: string, id: string, callback: Callback, deadline: int)
    requires Stands(s, device, id, callback, deadline) && LeavesAlone(s, c, e, device, id, deadline)
    ensures Stands(Step(s, c, e), device, id, callback, deadline)
  {
    hide Connect, Message, R.Released, R.Step;
    if e.Connecting? {
      ConnectStands(s, c, e, device, id, callback, deadline);
    } else if e.Received? {
      MessageStands(s, c, e, device, id, callback, deadline);
    }
  }

  lemma {:induction false} RunStands(s: Server, c: Settings, events: seq<Event>, device: string, id: string,
                                     callback: Callback, deadline: int)
    requires Stands(s, device, id, callback, deadline) && LeftAlone(s, c, events, device, id, deadline)
    ensures Stands(RunFrom(s, c, events), device, id, callback, deadline)
  {
    hide Step, Stands, LeavesAlone;
    if events != [] {
      var n := |events| - 1;
      assert forall i :: 0 <= i < n ==> events[..n][..i] == events[..i];
      RunStands(s, c, events[..n], device, id, callback, deadline);
      StepStands(RunFrom(s, c, events[..n]), c, events[n], device, id, callback, deadline);
    }
  }

  /** Whatever happens after a set-up, log-ins included: as long as nothing clears the device's timeouts, names the
      connect timeout or checks it past its deadline, it stands, and a check launches it exactly if it comes past the
      deadline. The callback launched closes the session its device then has. */
  lemma ConnectTimeoutOutlivesLogIn(s: Server, c: Settings, device: string, names: Names, session: S.ClientSession,
                                    sent: bool, now: int, events: seq<Event>, check: int)
    requires Sound(s, c) && Unused(s, names)
    requires forall d :: d in s.sessions ==> s.sessions[d].metadata.authTimeoutId != Some(names.connect)
    requires StageOf(s, c, device, sent, true) == Established
    requires LeftAlone(Connect(s, c, device, names, session, sent, true, now), c, events, device, names.connect,
                       now + c.connectTimeout)
    ensures
      var u := RunFrom(Connect(s, c, device, names, session, sent, true, now), c, events);
      var v := Step(u, c, Timeouts(T.Check(check)));
      && names.connect in u.timeouts && u.timeouts[names.connect].callback == Some(ConnectTimeout(session))
      && (names.connect in T.Expired(u.timeouts, check) <==> check > now + c.connectTimeout)
      && (names.connect in v.timeouts <==> check <= now + c.connectTimeout)
      && device !in Step(v, c, Fired(device, Some(names.resource))).sessions
  {
    hide RunFrom, Step, Connect, StageOf, Stands, LeftAlone, Sound, T.Expired;
    var t := Connect(s, c, device, names, session, sent, true, now);
    SetUpStands(s, c, device, names, session, sent, now);
    RunStands(t, c, events, device, names.connect, ConnectTimeout(session), now + c.connectTimeout);
    StandingIsLaunched(RunFrom(t, c, events), c, device, names.connect, ConnectTimeout(session),
                       now + c.connectTimeout, check, Some(names.resource));
  }

  /** A timeout that stands is taken out and launched by the checks past its deadline, and by no other. */
  lemma StandingIsLaunched(u: Server, c: Settings, device: string, id: string, callback: Callback, deadline: int,
                           check: int, resource: Option<string>)
    requires Stands(u, device, id, callback, deadline)
    ensures
      var v := Step(u, c, Timeouts(T.Check(check)));
      && id in u.timeouts && u.timeouts[id].callback == Some(callback)
      && (id in T.Expired(u.timeouts, check) <==> check > deadline)
      && (id in v.timeouts <==> check <= deadline)
      && device !in Step(v, c, Fired(device, resource)).sessions
  {
    hide R.Released;
  }

  lemma SetUpStands(s: Server, c: Settings, device: string, names: Names, session: S.ClientSession, sent: bool,
                    now: int)
    requires Sound(s, c) && Unused(s, names)
    requires forall d :: d in s.sessions ==> s.sessions[d].metadata.authTimeoutId != Some(names.connect)
    requires StageOf(s, c, device, sent, true) == Established
    ensures Stands(Connect(s, c, device, names, session, sent, true, now), device, names.connect,
                   ConnectTimeout(session), now + c.connectTimeout)
  {
    hide StageOf, Taken, Armed, Admitted, SoundSessions, SoundResources;
    ArmedAdds(s.timeouts, c, device, names, session, now);
    AdmittedFacts(c, device, names, now);
  }

  lemma AcceptedMessage(s: Server, c: Config, device: string, keyed: bool, now: int)
    requires c.requireAuth && device in s.sessions
    requires !S.Over(s.sessions[device]) && !s.sessions[device].isAuthenticated
    ensures
      var t := Message(s, c, device, true, true, keyed, now);
      var auth := s.sessions[device].metadata.authTimeoutId;
      && device in t.sessions && t.sessions[device].isAuthenticated
      && (t.sessions[device].isEncrypted <==> s.sessions[device].isEncrypted || (c.enableEncryption && keyed))
      && (t.sessions[device].status.Active? <==> c.enableEncryption ==> keyed)
      && t.sessions[device].metadata == s.sessions[device].metadata.(authTimeoutId := None)
      && t.sessions[device].lastActivity == now && t.sessions - {device} == s.sessions - {device}
      && t.resources == s.resources
      && t.timeouts == if auth.Some? then s.timeouts - {auth.value} else s.timeouts
  {
    SameOthers(s, c, device, keyed, now);
  }

  lemma SameOthers(s: Server, c: Config, device: string, keyed: bool, now: int)
    requires device in s.sessions
    ensures Message(s, c, device, true, true, keyed, now).sessions - {device} == s.sessions - {device}
  {
  }

  /** A log-in right after the set-up removes the authentication timeout but not the connect timeout. */
  lemma LogInKeepsConnectTimeout(s: Server, c: Settings, device: string, names: Names, session: S.ClientSession,
                                 keyed: bool, now: int, later: int, check: int)
    requires Sound(s, c) && Unused(s, names) && c.server.requireAuth
    requires StageOf(s, c, device, true, true) == Established
    ensures
      var t := Connect(s, c, device, names, session, true, true, now);
      var u := Message(t, c.server, device, true, true, keyed, later);
      && device in u.sessions && u.sessions[device].isAuthenticated
      && names.auth !in u.timeouts && names.connect in u.timeouts
      && u.timeouts[names.connect].callback == Some(ConnectTimeout(session))
      && (T.Due(u.timeouts[names.connect], check) <==> check > now + c.connectTimeout)
  {
    hide StageOf, Message, Armed, Admitted, SoundSessions, SoundResources, Taken;
    StageFacts(s, c, device, true, true);
    ArmedAdds(s.timeouts, c, device, names, session, now);
    AdmittedFacts(c, device, names, now);
    AcceptedMessage(Connect(s, c, device, names, session, true, true, now), c.server, device, keyed, later);
  }

  /** Log-ins are among the events that leave the connect timeout alone. */
  lemma LogInLeavesAlone(s: Server, c: Settings, device: string, keyed: bool, now: int, id: string, deadline: int)
    ensures LeavesAlone(s, c, Received(device, true, true, keyed, now), device, id, deadline)
  {
  }

  /** A session whose connection ends first leaves its connect timeout standing, and its resource in the table. */
  lemma EndedSetUpStands(s: Server, c: Settings, device: string, names: Names, session: S.ClientSession, sent: bool,
                         now: int)
    requires Sound(s, c) && Unused(s, names)
    requires forall d :: d in s.sessions ==> s.sessions[d].metadata.authTimeoutId != Some(names.connect)
    requires StageOf(s, c, device, sent, true) == Established
    ensures
      var t := SessionClosed(Connect(s, c, device, names, session, sent, true, now), device);
      && device !in t.sessions && names.resource in t.resources
      && Stands(t, device, names.connect, ConnectTimeout(session), now + c.connectTimeout)
  {
    hide Connect, StageOf, Unused, Sound;
    SetUpStands(s, c, device, names, session, sent, now);
    SetUpAddsOneSession(s, c, device, names, session, sent, true, now);
  }

  /** A timeout that stands when its device is set up again stands through the set-up; when it fires it closes the new
      session and clears its timeouts, and unless it happens to name the new session's resource, that stays behind. */
  lemma StaleTimeoutClosesNextSession(s: Server, c: Settings, device: string, names: Names, session: S.ClientSession,
                                      sent: bool, now: int, id: string, stale: Callback, deadline: int,
                                      resource: Option<string>)
    requires Sound(s, c) && Unused(s, names) && StageOf(s, c, device, sent, true) == Established
    requires Stands(s, device, id, stale, deadline)
    ensures
      var t := Connect(s, c, device, names, session, sent, true, now);
      var u := Step(t, c, Fired(device, resource));
      && Stands(t, device, id, stale, deadline)
      && device in t.sessions && device !in u.sessions
      && names.connect in t.timeouts && names.connect !in u.timeouts
      && (names.resource in u.resources <==> resource != Some(names.resource))
  {
    hide StageOf, Armed, Admitted, SoundSessions, SoundResources, R.Check, Taken;
    ArmedAdds(s.timeouts, c, device, names, session, now);
    AdmittedFacts(c, device, names, now);
    TakenFacts(s, c, device, names, sent, true, now);
  }

  lemma RunAppends(s: Server, c: Settings, events: seq<Event>, e: Event)
    ensures RunFrom(s, c, events + [e]) == Step(RunFrom(s, c, events), c, e)
  {
    hide Step;
    assert (events + [e])[..|events|] == events;
  }

  lemma {:induction false} RunJoins(s: Server, c: Settings, before: seq<Event>, events: seq<Event>)
    ensures RunFrom(s, c, before + events) == RunFrom(RunFrom(s, c, before), c, events)
  {
    hide Step;
    if events == [] {
      assert before + events == before;
    } else {
      var n := |events| - 1;
      RunJoins(s, c, before, events[..n]);
      assert (before + events)[..|before| + n] == before + events[..n];
    }
  }

  /** The device is set up, and the session ends with its connection. */
  ghost function SetUpEnds(device: string, names: Names, session: S.ClientSession, sent: bool, now: int): seq<Event> {
    [Connecting(device, names, session, sent, true, now)] + [Ended(device)]
  }

  lemma SetUpEndsStands(s: Server, c: Settings, device: string, names: Names, session: S.ClientSession, sent: bool,
                        now: int)
    requires Sound(s, c) && Unused(s, names)
    requires forall d :: d in s.sessions ==> s.sessions[d].metadata.authTimeoutId != Some(names.connect)
    requires StageOf(s, c, device, sent, true) == Established
    ensures Stands(RunFrom(s, c, SetUpEnds(device, names, session, sent, now)), device, names.connect,
                   ConnectTimeout(session), now + c.connectTimeout)
  {
    hide Connect, StageOf, Unused, Sound, Stands, SessionClosed;
    var e := Connecting(device, names, session, sent, true, now);
    EndedSetUpStands(s, c, device, names, session, sent, now);
    RunAppends(s, c, [], e);
    assert [] + [e] == [e];
    RunAppends(s, c, [e], Ended(device));
  }

  /** One run: a device is set up, its session ends with its connection, anything happens that leaves the connect
      timeout of that set-up alone, and the device is set up again. Exactly the checks past the first deadline launch
      the callback of the first session, and it closes the second one, clears its timeouts, and leaves its resource
      behind. */
  lemma FirstSetUpClosesSecond(s: Server, c: Settings, device: string,
                               first: Names, session: S.ClientSession, sent: bool, now: int, events: seq<Event>,
                               second: Names, next: S.ClientSession, again: bool, later: int, check: int)
    requires Sound(s, c) && Unused(s, first)
    requires forall d :: d in s.sessions ==> s.sessions[d].metadata.authTimeoutId != Some(first.connect)
    requires StageOf(s, c, device, sent, true) == Established
    requires LeftAlone(RunFrom(s, c, SetUpEnds(device, first, session, sent, now)), c, events, device, first.connect,
                       now + c.connectTimeout)
    requires var u := RunFrom(s, c, SetUpEnds(device, first, session, sent, now) + events);
             Unused(u, second) && StageOf(u, c, device, again, true) == Established
    ensures
      var twice := SetUpEnds(device, first, session, sent, now) + events
                   + [Connecting(device, second, next, again, true, later)];
      var t := RunFrom(s, c, twice);
      var u := RunFrom(s, c, twice + [Timeouts(T.Check(check))] + [Fired(device, Some(first.resource))]);
      && device in t.sessions && second.connect in t.timeouts && second.resource in t.resources
      && first.connect in t.timeouts && t.timeouts[first.connect].callback == Some(ConnectTimeout(session))
      && (first.connect in T.Expired(t.timeouts, check) <==> check > now + c.connectTimeout)
      && device !in u.sessions && second.connect !in u.timeouts
      && (second.resource in u.resources <==> second.resource != first.resource)
  {
    hide RunFrom, Step, Stands, LeftAlone, Unused, StageOf, Sound, SetUpEnds, T.Expired;
    var begun := SetUpEnds(device, first, session, sent, now);
    var callback, deadline := ConnectTimeout(session), now + c.connectTimeout;
    SetUpEndsStands(s, c, device, first, session, sent, now);
    RunStands(RunFrom(s, c, begun), c, events, device, first.connect, callback, deadline);
    RunJoins(s, c, begun, events);
    RunFromKeepsSound(s, c, begun + events);
    var e := Connecting(device, second, next, again, true, later);
    SecondClosed(RunFrom(s, c, begun + events), c, device, second, next, again, later,
                 first.connect, callback, deadline, first.resource, check);
    RunAppends(s, c, begun + events, e);
    RunAppends(s, c, begun + events + [e], Timeouts(T.Check(check)));
    RunAppends(s, c, begun + events + [e] + [Timeouts(T.Check(check))], Fired(device, Some(first.resource)));
  }

  /** The end of that run: the second set-up, the check and the callback. */
  lemma SecondClosed(s: Server, c: Settings, device: string, names: Names, session: S.ClientSession, sent: bool,
                     now: int, id: string, stale: Callback, deadline: int, resource: string, check: int)
    requires Sound(s, c) && Unused(s, names) && StageOf(s, c, device, sent, true) == Established
    requires Stands(s, device, id, stale, deadline)
    ensures
      var t := Step(s, c, Connecting(device, names, session, sent, true, now));
      var u := Step(Step(t, c, Timeouts(T.Check(check))), c, Fired(device, Some(resource)));
      && device in t.sessions && names.connect in t.timeouts && names.resource in t.resources
      && id in t.timeouts && t.timeouts[id].callback == Some(stale)
      && (id in T.Expired(t.timeouts, check) <==> check > deadline)
      && device !in u.sessions && names.connect !in u.timeouts
      && (names.resource in u.resources <==> names.resource != resource)
  {
    hide Connect, StageOf, Unused, Sound, Stands, T.Expired, R.Released;
    var t := Connect(s, c, device, names, session, sent, true, now);
    StaleTimeoutClosesNextSession(s, c, device, names, session, sent, now, id, stale, deadline, Some(resource));
    SetUpAddsOneSession(s, c, device, names, session, sent, true, now);
    StandingIsLaunched(t, c, device, id, stale, deadline, check, Some(resource));
    CheckThenFired(t, c, device, Some(resource), check);
  }

  /** A check takes timeouts out and nothing else, so a callback after it leaves the same sessions and resources as one
      without it, and no timeout more. */
  lemma CheckThenFired(t: Server, c: Settings, device: string, resource: Option<string>, check: int)
    ensures
      var u := Step(t, c, Fired(device, resource));
      var v := Step(Step(t, c, Timeouts(T.Check(check))), c, Fired(device, resource));
      && v.sessions == u.sessions && v.resources == u.resources && v.timeouts.Keys <= u.timeouts.Keys
  {
    hide R.Released;
  }

  /** The connection of a session closed by a disconnection ends too, and its end may come after the device was set up
      again: then it takes the second session out of the table, but not its resource and its timeouts, and no later
      disconnection finds them. */
  lemma ClosedSessionEndsNext(s: Server, c: Settings, device: string,
                              first: Names, session: S.ClientSession, sent: bool, now: int,
                              second: Names, next: S.ClientSession, again: bool, later: int)
    requires Sound(s, c) && Unused(s, first) && Unused(s, second)
    requires forall d :: d in s.sessions ==> s.sessions[d].metadata.authTimeoutId != Some(second.connect)
    requires StageOf(s, c, device, sent, true) == Established && StageOf(s, c, device, again, true) == Established
    ensures
      var twice := [Connecting(device, first, session, sent, true, now)] + [Disconnecting(device)]
                   + [Connecting(device, second, next, again, true, later)];
      var t := RunFrom(s, c, twice);
      var u := RunFrom(s, c, twice + [Ended(device)]);
      && device in t.sessions && u == t.(sessions := s.sessions) && Disconnect(u, device) == u
      && second.resource in u.resources && u.resources - {second.resource} == s.resources
      && Stands(u, device, second.connect, ConnectTimeout(next), later + c.connectTimeout)
  {
    hide RunFrom, Connect, StageOf, Unused, Sound, Stands;
    var e0, e1, e2 := Connecting(device, first, session, sent, true, now), Disconnecting(device),
                      Connecting(device, second, next, again, true, later);
    RunAppends(s, c, [], e0);
    assert [] + [e0] == [e0];
    RunAppends(s, c, [e0], e1);
    RunAppends(s, c, [e0] + [e1], e2);
    RunAppends(s, c, [e0] + [e1] + [e2], Ended(device));
    NothingRun(s, c);
    DisconnectUndoesConnect(s, c, device, first, session, sent, now);
    var v := s.(timeouts := T.Cleared(s.timeouts, device));
    SameStage(s, c, device, second, again);
    EndedSetUpStands(v, c, device, second, next, again, later);
    LateDisconnectAfterSetUp(v, c, device, second, next, again, later);
    SetUpAddsOneSession(v, c, device, second, next, again, true, later);
  }

  lemma NothingRun(s: Server, c: Settings)
    ensures RunFrom(s, c, []) == s
  {
  }

  /** A set-up goes the same way whatever timeouts of its device were cleared before. */
  lemma SameStage(s: Server, c: Settings, device: string, names: Names, sent: bool)
    requires Sound(s, c) && Unused(s, names)
    ensures var t := s.(timeouts := T.Cleared(s.timeouts, device));
            Sound(t, c) && Unused(t, names) && StageOf(t, c, device, sent, true) == StageOf(s, c, device, sent, true)
  {
    hide SoundSessions, SoundResources;
  }

  lemma TakenFacts(s: Server, c: Settings, device: string, names: Names, sent: bool, welcomed: bool, now: int)
    requires StageOf(s, c, device, sent, welcomed) == Established
    ensures Taken(s, c, device, names, now)
            == s.resources[names.resource := R.Resource(device, R.Connection, 1, now, now, 1)]
  {
    hide R.Check;
  }

  // ---- failed log-ins ----

  /** The device sends credentials that are refused, once at each time. */
  function Refused(s: Server, c: Config, device: string, times: seq<int>): Server {
    if times == [] then s
    else Message(Refused(s, c, device, times[..|times| - 1]), c, device, true, false, false, times[|times| - 1])
  }

  /** The session survives refused credentials exactly as long as they number fewer than allowed, and until then nothing
      else changes; the failure that ends it takes the session, its resource and its timeouts away. */
  lemma {:induction false} LockedOutAfterMaxAttempts(s: Server, c: Config, device: string, times: seq<int>)
    requires c.requireAuth && device in s.sessions && times != []
    requires !S.Over(s.sessions[device]) && !s.sessions[device].isAuthenticated
    requires s.sessions[device].metadata.authAttempts == 0
    ensures
      var t := Refused(s, c, device, times);
      var out := Cleaned(s, device, s.sessions[device].metadata.resourceId);
      if |times| < c.maxAuthAttempts then
        && device in t.sessions && t.sessions - {device} == s.sessions - {device}
        && t.timeouts == s.timeouts && t.resources == s.resources
        && !t.sessions[device].isAuthenticated && !S.Over(t.sessions[device])
        && t.sessions[device].metadata == s.sessions[device].metadata.(authAttempts := |times|)
      else t == out
  {
    var n := |times| - 1;
    var before := Refused(s, c, device, times[..n]);
    if n > 0 {
      LockedOutAfterMaxAttempts(s, c, device, times[..n]);
    }
    if device in before.sessions {
      OneRefusal(before, c, device, times[n]);
    } else {
      assert device !in Cleaned(s, device, s.sessions[device].metadata.resourceId).sessions;
    }
  }

  lemma OneRefusal(s: Server, c: Config, device: string, now: int)
    requires c.requireAuth && device in s.sessions
    requires !S.Over(s.sessions[device]) && !s.sessions[device].isAuthenticated
    ensures
      var t := Message(s, c, device, true, false, false, now);
      var meta := s.sessions[device].metadata;
      if meta.authAttempts + 1 < c.maxAuthAttempts then
        && device in t.sessions && t.sessions - {device} == s.sessions - {device}
        && t.timeouts == s.timeouts && t.resources == s.resources
        && !t.sessions[device].isAuthenticated && !S.Over(t.sessions[device])
        && t.sessions[device].metadata == meta.(authAttempts := meta.authAttempts + 1)
      else t == Cleaned(s, device, meta.resourceId)
  {
    var t := Message(s, c, device, true, false, false, now);
    assert t.sessions - {device} == s.sessions - {device};
  }
}
