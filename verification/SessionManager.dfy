/** Client sessions: one per device, bounded in number, authenticated before they are encrypted. */
module SessionManager {
  import opened Wrappers

  datatype Status = Created | Authenticating | Authenticated | Active | Idle | Expired | Closed

  datatype Error = TooManySessions | SessionExists | NotFound | NotSupported | AuthFailed | EncryptionFailed
  type Result<T> = Wrappers.Result<T, Error>

  /** What the session's metadata holds under the keys the server uses. */
  datatype Metadata = Metadata(resourceId: Option<string>, connectTimeoutId: Option<string>,
                               authTimeoutId: Option<string>, authAttempts: int)

  const NO_METADATA := Metadata(None, None, None, 0)

  /** The value of a session object at one moment. */
  datatype Session = Session(id: string, deviceId: string, status: Status, createdAt: int, lastActivity: int,
                             lastHeartbeat: Option<int>, isAuthenticated: bool, isEncrypted: bool, metadata: Metadata)

  type Table = map<string, Session>

  datatype Config = Config(maxSessions: int, sessionTimeout: int, maxIdleTime: int)

  // ---- atomic steps ----

  predicate Over(s: Session) {
    s.status == Closed || s.status == Expired
  }

  function Opened(device: string, id: string, now: int): Session {
    Session(id, device, Created, now, now, None, false, false, NO_METADATA)
  }

  /** Why a session cannot be created, if it cannot. */
  function Refusal(t: Table, config: Config, device: string): Option<Error> {
    if |t| >= config.maxSessions then Some(TooManySessions)
    else if device in t && !Over(t[device]) then Some(SessionExists)
    else None
  }

  function Create(t: Table, config: Config, device: string, id: string, now: int): Table {
    if Refusal(t, config, device).None? then t[device := Opened(device, id, now)] else t
  }

  /** `accepted` is the answer of the security manager; without one it is always yes. */
  function AuthenticateOne(s: Session, accepted: bool, now: int): Session {
    if Over(s) then s
    else if accepted then s.(isAuthenticated := true, status := Authenticated, lastActivity := now)
    else s.(status := Created)
  }

  function EncryptOne(s: Session, keyed: bool, now: int): Session {
    if s.isAuthenticated && keyed then s.(isEncrypted := true, lastActivity := now) else s
  }

  function Touch(s: Session, now: int): Session {
    s.(lastActivity := now, status := if s.status == Idle then Active else s.status)
  }

  function Beat(s: Session, now: int): Session {
    s.(lastHeartbeat := Some(now), lastActivity := now)
  }

  predicate TimedOut(s: Session, config: Config, now: int) {
    || now - s.createdAt > config.sessionTimeout
    || (now - s.lastActivity > config.maxIdleTime && now - s.lastActivity > config.sessionTimeout)
  }

  function Aged(s: Session, config: Config, now: int): Session {
    if now - s.lastActivity > config.maxIdleTime then s.(status := Idle) else s
  }

  function Swept(t: Table, config: Config, now: int): Table {
    map d | d in t && !TimedOut(t[d], config, now) :: Aged(t[d], config, now)
  }

  function Authenticate(t: Table, d: string, accepted: bool, now: int): Table {
    if d in t then t[d := AuthenticateOne(t[d], accepted, now)] else t
  }

  function Encrypt(t: Table, d: string, keyed: bool, now: int): Table {
    if d in t then t[d := EncryptOne(t[d], keyed, now)] else t
  }

  function Touched(t: Table, d: string, now: int): Table {
    if d in t then t[d := Touch(t[d], now)] else t
  }

  function Beaten(t: Table, d: string, now: int): Table {
    if d in t then t[d := Beat(t[d], now)] else t
  }

  /** A session is created unless the limit is reached or the device's present one is neither closed nor expired; it
      starts created, with no authentication, no encryption and no metadata. */
  lemma CreatedUnless(t: Table, config: Config, device: string, id: string, now: int)
    ensures Refusal(t, config, device)
            == if |t| >= config.maxSessions then Some(TooManySessions)
               else if device in t && t[device].status != Closed && t[device].status != Expired then Some(SessionExists)
               else None
    ensures Create(t, config, device, id, now)
            == if Refusal(t, config, device).Some? then t
               else t[device := Session(id, device, Created, now, now, None, false, false,
                                        Metadata(None, None, None, 0))]
  {
  }

  /** A session is swept once it is older than its timeout, however active, or once it has been silent for longer than
      both limits; one that stays is idle if it has been silent for longer than the idle limit. */
  lemma SweptIff(t: Table, config: Config, now: int, d: string)
    requires d in t
    ensures d !in Swept(t, config, now)
            <==> || now - t[d].createdAt > config.sessionTimeout
                 || (now - t[d].lastActivity > config.maxIdleTime && now - t[d].lastActivity > config.sessionTimeout)
    ensures d in Swept(t, config, now) ==>
              Swept(t, config, now)[d]
              == t[d].(status := if now - t[d].lastActivity > config.maxIdleTime then Idle else t[d].status)
  {
  }

  /** A session with activity no older than its creation is swept exactly when it is older than its timeout, so being
      idle never ends it sooner. */
  lemma OnlyAgeEndsSession(t: Table, config: Config, now: int, d: string)
    requires d in t && t[d].createdAt <= t[d].lastActivity
    ensures d !in Swept(t, config, now) <==> now - t[d].createdAt > config.sessionTimeout
  {
  }

  class ClientSession {
    const id: string
    const deviceId: string
    var status: Status
    const createdAt: int
    var lastActivity: int
    var lastHeartbeat: Option<int>
    var isAuthenticated: bool
    var isEncrypted: bool
    var metadata: Metadata
    /** Whether the session's connection was told to close. */
    var disconnected: bool

    constructor (id: string, deviceId: string, now: int)
      ensures Value() == Opened(deviceId, id, now) && this.deviceId == deviceId && !disconnected
    {
      this.id, this.deviceId, status, createdAt, lastActivity := id, deviceId, Created, now, now;
      lastHeartbeat, isAuthenticated, isEncrypted, metadata, disconnected := None, false, false, NO_METADATA, false;
    }

    function Value(): Session
      reads this
    {
      Session(id, deviceId, status, createdAt, lastActivity, lastHeartbeat, isAuthenticated, isEncrypted, metadata)
    }

    /** Mark an idle session, and tell whether it has timed out. */
    method Age(config: Config, now: int) returns (isExpired: bool)
      modifies `status
      ensures Value() == Aged(old(Value()), config, now)
      ensures isExpired == TimedOut(old(Value()), config, now)
    {
      isExpired := now - createdAt > config.sessionTimeout;
      if now - lastActivity > config.maxIdleTime {
        status := Idle;
        if now - lastActivity > config.sessionTimeout {
          isExpired := true;
        }
      }
    }
  }

  class SessionManager {
    const config: Config
    var sessions: map<string, ClientSession>

    constructor (config: Config)
      ensures this.config == config && sessions == map[]
    {
      this.config, sessions := config, map[];
    }

    ghost predicate Valid()
      reads this, sessions.Values
    {
      forall d :: d in sessions ==> sessions[d].deviceId == d
    }

    function Table(): Table
      reads this, sessions.Values
    {
      map d | d in sessions :: sessions[d].Value()
    }

    method CloseSessionInternal(session: ClientSession)
      modifies session
      ensures session.Value() == old(session.Value()).(status := Closed)
      ensures session.disconnected == (old(session.disconnected) || old(session.status) != Closed)
    {
      if session.status != Closed {
        session.status := Closed;
        session.disconnected := true;
      }
    }

    /** The session of a device, as a set of at most one object. */
    function At(device: string): set<ClientSession>
      reads this
    {
      if device in sessions then {sessions[device]} else {}
    }

    twostate lemma OneChanged(device: string)
      requires old(Valid()) && sessions == old(sessions) && device in sessions
      requires forall d :: d in sessions && d != device ==> unchanged(sessions[d])
      ensures Table() == old(Table())[device := sessions[device].Value()]
    {
    }

    lemma TableSize()
      ensures |Table()| == |sessions| && Table().Keys == sessions.Keys
    {
      assert Table().Keys == sessions.Keys;
    }

    method Refuse(device: string) returns (e: Option<Error>)
      ensures e == Refusal(Table(), config, device)
    {
      TableSize();
      if |sessions| >= config.maxSessions {
        return Some(TooManySessions);
      }
      if device in sessions && sessions[device].status != Closed && sessions[device].status != Expired {
        return Some(SessionExists);
      }
      return None;
    }

    /** `id` stands for the generated name of the session. */
    method CreateSession(device: string, id: string, now: int) returns (r: Result<ClientSession>)
      requires Valid()
      modifies this, At(device)
      ensures Valid()
      ensures Table() == Create(old(Table()), config, device, id, now)
      ensures match Refusal(old(Table()), config, device)
              case Some(e) => r == Err(e) && sessions == old(sessions) && unchanged(sessions.Values)
              case None => r.Ok? && fresh(r.value) && sessions == old(sessions)[device := r.value]
    {
      hide Refusal, Opened, ClientSession.Value, Over;
      var refusal := Refuse(device);
      if refusal.Some? {
        return Err(refusal.value);
      }
      if device in sessions {
        CloseSessionInternal(sessions[device]);
      }
      var session := new ClientSession(id, device, now);
      sessions := sessions[device := session];
      return Ok(session);
    }

    method GetSession(device: string) returns (r: Result<ClientSession>)
      ensures r == if device in sessions then Ok(sessions[device]) else Err(NotFound)
    {
      return if device in sessions then Ok(sessions[device]) else Err(NotFound);
    }

    method CloseSession(device: string) returns (r: Result<()>)
      requires Valid()
      modifies this, At(device)
      ensures Valid() && sessions == old(sessions) - {device}
      ensures Table() == old(Table()) - {device}
      ensures r == if device in old(sessions) then Ok(()) else Err(NotFound)
      ensures device in old(sessions) ==> old(sessions)[device].status == Closed
    {
      if device !in sessions {
        return Err(NotFound);
      }
      CloseSessionInternal(sessions[device]);
      sessions := sessions - {device};
      return Ok(());
    }

    method AuthenticateSession(device: string, accepted: bool, now: int) returns (r: Result<()>)
      requires Valid()
      modifies At(device)
      ensures Valid()
      ensures Table() == Authenticate(old(Table()), device, accepted, now)
      ensures r == if device !in sessions then Err(NotFound)
                   else if old(Over(sessions[device].Value())) then Err(NotSupported)
                   else if accepted then Ok(()) else Err(AuthFailed)
      ensures device in sessions ==>
                var s, over := sessions[device], old(sessions[device].status) == Closed
                                                 || old(sessions[device].status) == Expired;
                && (r == Err(NotSupported) <==> over)
                && s.status == (if over then old(s.status) else if accepted then Authenticated else Created)
                && s.isAuthenticated == (old(s.isAuthenticated) || (!over && accepted))
                && s.lastActivity == (if !over && accepted then now else old(s.lastActivity))
                && s.isEncrypted == old(s.isEncrypted) && s.metadata == old(s.metadata)
    {
      if device !in sessions {
        return Err(NotFound);
      }
      var session := sessions[device];
      if session.status == Closed || session.status == Expired {
        return Err(NotSupported);
      }
      session.status := Authenticating;
      if !accepted {
        session.status := Created;
        OneChanged(device);
        return Err(AuthFailed);
      }
      session.isAuthenticated := true;
      session.status := Authenticated;
      session.lastActivity := now;
      OneChanged(device);
      return Ok(());
    }

    method EnableEncryption(device: string, keyed: bool, now: int) returns (r: Result<()>)
      requires Valid()
      modifies At(device)
      ensures Valid()
      ensures Table() == Encrypt(old(Table()), device, keyed, now)
      ensures r == if device !in sessions then Err(NotFound)
                   else if !old(sessions[device].isAuthenticated) then Err(AuthFailed)
                   else if keyed then Ok(()) else Err(EncryptionFailed)
      ensures device in sessions ==>
                var s := sessions[device];
                && s.isEncrypted == (old(s.isEncrypted) || (old(s.isAuthenticated) && keyed))
                && s.lastActivity == (if old(s.isAuthenticated) && keyed then now else old(s.lastActivity))
                && s.status == old(s.status) && s.isAuthenticated == old(s.isAuthenticated)
    {
      if device !in sessions {
        return Err(NotFound);
      }
      var session := sessions[device];
      if !session.isAuthenticated {
        return Err(AuthFailed);
      }
      if !keyed {
        return Err(EncryptionFailed);
      }
      session.isEncrypted := true;
      session.lastActivity := now;
      OneChanged(device);
      return Ok(());
    }

    method UpdateActivity(device: string, now: int)
      requires Valid()
      modifies At(device)
      ensures Valid()
      ensures Table() == Touched(old(Table()), device, now)
      ensures device in sessions ==>
                var s := sessions[device];
                && s.lastActivity == now && s.status == (if old(s.status) == Idle then Active else old(s.status))
                && s.lastHeartbeat == old(s.lastHeartbeat)
    {
      if device in sessions {
        var session := sessions[device];
        session.lastActivity := now;
        if session.status == Idle {
          session.status := Active;
        }
        OneChanged(device);
      }
    }

    method UpdateHeartbeat(device: string, now: int)
      requires Valid()
      modifies At(device)
      ensures Valid()
      ensures Table() == Beaten(old(Table()), device, now)
      ensures device in sessions ==>
                var s := sessions[device];
                s.lastHeartbeat == Some(now) && s.lastActivity == now && s.status == old(s.status)
    {
      if device in sessions {
        var session := sessions[device];
        session.lastHeartbeat := Some(now);
        session.lastActivity := now;
        OneChanged(device);
      }
    }

    /** The connection of `session` ended: whatever session its device has now is dropped. */
    method HandleSessionClosed(session: ClientSession)
      requires Valid()
      modifies this, session
      ensures Valid() && sessions == old(sessions) - {session.deviceId}
      ensures Table() == old(Table()) - {session.deviceId}
      ensures session.Value() == old(session.Value()).(status := Closed)
    {
      session.status := Closed;
      sessions := sessions - {session.deviceId};
    }

    method CloseAll(expired: map<string, ClientSession>)
      modifies expired.Values
      ensures forall d :: d in expired ==> expired[d].status == Closed && expired[d].disconnected
    {
      var todo := expired.Keys;
      while todo != {}
        invariant todo <= expired.Keys
        invariant forall d :: d in expired && d !in todo ==> expired[d].status == Closed && expired[d].disconnected
        decreases |todo|
      {
        var d :| d in todo;
        todo := todo - {d};
        expired[d].status := Expired;
        CloseSessionInternal(expired[d]);
      }
    }

    /** Mark the idle sessions, and list the timed-out ones. */
    static method AgeAll(all: map<string, ClientSession>, config: Config, now: int)
      returns (expired: map<string, ClientSession>)
      requires forall d :: d in all ==> all[d].deviceId == d
      modifies all.Values
      ensures forall d :: d in all ==> all[d].Value() == Aged(old(all[d].Value()), config, now)
      ensures forall d :: d in expired <==> d in all && TimedOut(old(all[d].Value()), config, now)
      ensures forall d :: d in expired ==> expired[d] == all[d]
    {
      hide ClientSession.Value, Aged, TimedOut;
      var todo := all.Keys;
      expired := map[];
      while todo != {}
        invariant todo <= all.Keys
        invariant forall d :: d in todo ==> unchanged(all[d])
        invariant forall d :: d in all && d !in todo ==> all[d].Value() == Aged(old(all[d].Value()), config, now)
        invariant forall d :: d in expired <==> d in all && d !in todo && TimedOut(old(all[d].Value()), config, now)
        invariant forall d :: d in expired ==> expired[d] == all[d]
        decreases |todo|
      {
        var d :| d in todo;
        todo := todo - {d};
        var isExpired := all[d].Age(config, now);
        if isExpired {
          expired := expired[d := all[d]];
        }
      }
    }

    /** Drop the timed-out sessions from the table. */
    method Sweep(now: int) returns (expired: map<string, ClientSession>)
      requires Valid()
      modifies this, sessions.Values
      ensures Valid() && Table() == Swept(old(Table()), config, now)
      ensures sessions == old(sessions) - expired.Keys
      ensures forall d :: d in expired <==> d in old(sessions) && TimedOut(old(Table())[d], config, now)
      ensures forall d :: d in expired ==> expired[d] == old(sessions)[d]
    {
      hide ClientSession.Value, Aged, TimedOut;
      expired := AgeAll(sessions, config, now);
      sessions := sessions - expired.Keys;
    }

    method CleanupExpiredSessions(now: int)
      requires Valid()
      modifies this, sessions.Values
      ensures Valid()
      ensures Table() == Swept(old(Table()), config, now)
      ensures forall d :: d in old(sessions) && TimedOut(old(Table())[d], config, now) ==>
                old(sessions)[d].status == Closed && old(sessions)[d].disconnected
      ensures forall d :: d in sessions ==> d in old(sessions) && sessions[d] == old(sessions)[d]
    {
      hide ClientSession.Value, Swept, TimedOut;
      var expired := Sweep(now);
      CloseAll(expired);
    }
  }
}
