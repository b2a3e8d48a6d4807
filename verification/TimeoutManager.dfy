/** The timeout table: entries added under fresh IDs, removed, postponed, and expired by a periodic check. */
module TimeoutManager {
  import opened Wrappers

  datatype TimeoutType = Connect | Read | Write | Idle | KeepAlive | Custom

  /** The callback is whatever the caller wants launched; `None` is the nil function. */
  datatype Entry<+C> = Entry(deviceId: string, kind: TimeoutType, deadline: int, callback: Option<C>,
                             isActive: bool, createdAt: int, lastActivity: int)

  type Table<C> = map<string, Entry<C>>

  // ---- atomic steps ----

  function Added<C>(t: Table<C>, id: string, device: string, kind: TimeoutType, duration: int, callback: Option<C>,
                    now: int): Table<C>
  {
    t[id := Entry(device, kind, now + duration, callback, true, now, now)]
  }

  function Postponed<C>(t: Table<C>, id: string, duration: int, now: int): Table<C> {
    if id in t then t[id := t[id].(deadline := now + duration, lastActivity := now)] else t
  }

  function Refreshed<C>(t: Table<C>, id: string, now: int): Table<C> {
    if id in t then t[id := t[id].(lastActivity := now)] else t
  }

  function Cleared<C>(t: Table<C>, device: string): Table<C> {
    map id | id in t && t[id].deviceId != device :: t[id]
  }

  predicate Due<C>(e: Entry<C>, now: int) {
    e.isActive && now > e.deadline
  }

  function Expired<C>(t: Table<C>, now: int): Table<C> {
    map id | id in t && Due(t[id], now) :: t[id]
  }

  class TimeoutManager<C> {
    const connectTimeout: int
    var timeouts: Table<C>

    constructor (connectTimeout: int)
      ensures this.connectTimeout == connectTimeout && timeouts == map[]
    {
      this.connectTimeout, timeouts := connectTimeout, map[];
    }

    /** `id` stands for the generated name of the entry. */
    method AddTimeout(id: string, device: string, kind: TimeoutType, duration: int, callback: Option<C>, now: int)
      modifies this
      ensures timeouts == Added(old(timeouts), id, device, kind, duration, callback, now)
      ensures timeouts == old(timeouts)[id := Entry(device, kind, now + duration, callback, true, now, now)]
    {
      timeouts := timeouts[id := Entry(device, kind, now + duration, callback, true, now, now)];
    }

    method AddConnectTimeout(id: string, device: string, callback: Option<C>, now: int)
      modifies this
      ensures timeouts == Added(old(timeouts), id, device, Connect, connectTimeout, callback, now)
      ensures timeouts == old(timeouts)[id := Entry(device, Connect, now + connectTimeout, callback, true, now, now)]
    {
      AddTimeout(id, device, Connect, connectTimeout, callback, now);
    }

    method RemoveTimeout(id: string) returns (found: bool)
      modifies this
      ensures timeouts == old(timeouts) - {id} && found == (id in old(timeouts))
    {
      found := id in timeouts;
      timeouts := timeouts - {id};
    }

    method UpdateTimeout(id: string, duration: int, now: int) returns (found: bool)
      modifies this
      ensures timeouts == Postponed(old(timeouts), id, duration, now) && found == (id in old(timeouts))
      ensures found ==>
                timeouts == old(timeouts)[id := old(timeouts)[id].(deadline := now + duration, lastActivity := now)]
    {
      if id !in timeouts {
        return false;
      }
      timeouts := timeouts[id := timeouts[id].(deadline := now + duration, lastActivity := now)];
      return true;
    }

    method RefreshTimeout(id: string, now: int) returns (found: bool)
      modifies this
      ensures timeouts == Refreshed(old(timeouts), id, now) && found == (id in old(timeouts))
      ensures found ==> timeouts == old(timeouts)[id := old(timeouts)[id].(lastActivity := now)]
      ensures timeouts == Step(State(old(timeouts), []), Refresh(id, now)).table
    {
      if id !in timeouts {
        return false;
      }
      timeouts := timeouts[id := timeouts[id].(lastActivity := now)];
      return true;
    }

    method ClearTimeoutsByDevice(device: string)
      modifies this
      ensures timeouts == Cleared(old(timeouts), device)
      ensures forall id :: id in timeouts <==> id in old(timeouts) && old(timeouts)[id].deviceId != device
      ensures forall id :: id in timeouts ==> timeouts[id] == old(timeouts)[id]
    {
      var todo, toRemove := timeouts.Keys, {};
      while todo != {}
        invariant todo <= timeouts.Keys && todo !! toRemove
        invariant timeouts == old(timeouts)
        invariant forall id :: id in timeouts && id !in todo ==> (id in toRemove <==> timeouts[id].deviceId == device)
        invariant toRemove <= timeouts.Keys
        decreases |todo|
      {
        var id :| id in todo;
        todo := todo - {id};
        if timeouts[id].deviceId == device {
          toRemove := toRemove + {id};
        }
      }
      timeouts := timeouts - toRemove;
    }

    /** Take the expired entries out of the table; their callbacks are then launched, each on its own. */
    method CheckTimeouts(now: int) returns (expired: Table<C>)
      modifies this
      ensures expired == Expired(old(timeouts), now)
      ensures forall id :: id in expired <==> id in old(timeouts) && old(timeouts)[id].isActive
                                              && now > old(timeouts)[id].deadline
      ensures forall id :: id in expired ==> expired[id] == old(timeouts)[id]
      ensures timeouts == old(timeouts) - expired.Keys
    {
      var todo := timeouts.Keys;
      expired := map[];
      while todo != {}
        invariant todo <= timeouts.Keys <= old(timeouts.Keys)
        invariant forall id :: id in timeouts ==> timeouts[id] == old(timeouts)[id]
        invariant forall id :: id in expired ==> id in old(timeouts) && expired[id] == old(timeouts)[id]
        invariant forall id :: id in old(timeouts) ==> (id in timeouts <==> id !in expired)
        invariant forall id :: id in old(timeouts) && id !in todo ==> (id in expired <==> Due(old(timeouts)[id], now))
        decreases |todo|
      {
        var id :| id in todo;
        todo := todo - {id};
        if timeouts[id].isActive && now > timeouts[id].deadline {
          expired := expired[id := timeouts[id]];
          timeouts := timeouts - {id};
        }
      }
    }
  }

  // ---- runs ----

  datatype Event<+C> = Add(id: string, device: string, kind: TimeoutType, duration: int, callback: Option<C>, at: int)
                     | Remove(id: string)
                     | Update(id: string, duration: int, at: int)
                     | Refresh(id: string, at: int)
                     | Clear(device: string)
                     | Check(at: int)

  /** One check: when it ran, and whose callbacks it launched. */
  datatype Launch = Launch(at: int, ids: set<string>)

  datatype State<C> = State(table: Table<C>, launches: seq<Launch>)

  function WithCallback<C>(t: Table<C>): set<string> {
    set id | id in t && t[id].callback.Some?
  }

  function Step<C>(s: State<C>, e: Event<C>): State<C> {
    match e
    case Add(id, device, kind, duration, callback, at) =>
      s.(table := Added(s.table, id, device, kind, duration, callback, at))
    case Remove(id) => s.(table := s.table - {id})
    case Update(id, duration, at) => s.(table := Postponed(s.table, id, duration, at))
    case Refresh(id, at) => s.(table := Refreshed(s.table, id, at))
    case Clear(device) => s.(table := Cleared(s.table, device))
    case Check(at) =>
      var expired := Expired(s.table, at);
      State(s.table - expired.Keys, s.launches + [Launch(at, WithCallback(expired))])
  }

  function Run<C>(events: seq<Event<C>>): State<C> {
    if events == [] then State(map[], []) else Step(Run(events[..|events| - 1]), events[|events| - 1])
  }

  /** What became of one timeout, told from the events alone. */
  datatype Fate = Unborn
                | Pending(device: string, deadline: int, calls: bool)
                | Cancelled
                | Fired(at: int, deadline: int, calls: bool)

  function FateStep<C>(f: Fate, id: string, e: Event<C>): Fate {
    if f.Unborn? && e.Add? && e.id == id then Pending(e.device, e.at + e.duration, e.callback.Some?)
    else if !f.Pending? then f
    else match e
      case Remove(other) => if other == id then Cancelled else f
      case Update(other, duration, at) => if other == id then Pending(f.device, at + duration, f.calls) else f
      case Clear(device) => if device == f.device then Cancelled else f
      case Check(at) => if at > f.deadline then Fired(at, f.deadline, f.calls) else f
      case _ => f
  }

  function FateOf<C>(events: seq<Event<C>>, id: string): Fate {
    if events == [] then Unborn else FateStep(FateOf(events[..|events| - 1], id), id, events[|events| - 1])
  }

  /** No two additions under one ID. */
  ghost predicate FreshIDs<C>(events: seq<Event<C>>) {
    forall i, j :: 0 <= i < j < |events| && events[i].Add? && events[j].Add? ==> events[i].id != events[j].id
  }

  function Launched(launches: seq<Launch>, id: string): seq<int> {
    if launches == [] then []
    else
      var last := launches[|launches| - 1];
      var before := Launched(launches[..|launches| - 1], id);
      if id in last.ids then before + [last.at] else before
  }

  lemma {:induction false} UnbornBeforeAdd<C>(events: seq<Event<C>>, id: string)
    requires forall i :: 0 <= i < |events| && events[i].Add? ==> events[i].id != id
    ensures FateOf(events, id) == Unborn
  {
    if events != [] {
      UnbornBeforeAdd(events[..|events| - 1], id);
    }
  }

  /** The table holds the entry of a pending timeout, and of no other. */
  ghost predicate Agrees<C>(s: State<C>, id: string, f: Fate) {
    && (id in s.table <==> f.Pending?)
    && (f.Pending? ==> var e := s.table[id];
                       e.isActive && e.deviceId == f.device && e.deadline == f.deadline
                       && e.callback.Some? == f.calls)
    && Launched(s.launches, id) == (if f.Fired? && f.calls then [f.at] else [])
    && (f.Fired? ==> f.at > f.deadline)
  }

  lemma StepAgrees<C>(s: State<C>, id: string, f: Fate, e: Event<C>)
    requires Agrees(s, id, f)
    requires e.Add? && e.id == id ==> f.Unborn?
    ensures Agrees(Step(s, e), id, FateStep(f, id, e))
  {
    var after := Step(s, e);
    if e.Check? {
      assert after.launches[..|after.launches| - 1] == s.launches;
    }
  }

  /** In every run with fresh IDs each timeout is unborn, active in the table with its latest deadline, cancelled with
      its callback never launched, or fired, its callback launched exactly once and after its latest deadline. */
  lemma {:induction false} TimeoutLedger<C>(events: seq<Event<C>>, id: string)
    requires FreshIDs(events)
    ensures Agrees(Run(events), id, FateOf(events, id))
  {
    if events != [] {
      var before, e := events[..|events| - 1], events[|events| - 1];
      TimeoutLedger(before, id);
      if e.Add? && e.id == id {
        UnbornBeforeAdd(before, id);
      }
      StepAgrees(Run(before), id, FateOf(before, id), e);
    }
  }

  /** A cancelled or fired timeout never comes back, and nothing is launched for it again. */
  lemma {:induction false} SettledForGood<C>(events: seq<Event<C>>, more: seq<Event<C>>, id: string)
    requires FreshIDs(events + more)
    requires FateOf(events, id).Cancelled? || FateOf(events, id).Fired?
    ensures id !in Run(events + more).table
    ensures Launched(Run(events + more).launches, id) == Launched(Run(events).launches, id)
  {
    var all := events + more;
    assert events == all[..|events|];
    assert FreshIDs(events);
    FateSettled(events, more, id);
    TimeoutLedger(events, id);
    TimeoutLedger(all, id);
  }

  lemma {:induction false} FateSettled<C>(events: seq<Event<C>>, more: seq<Event<C>>, id: string)
    requires FateOf(events, id).Cancelled? || FateOf(events, id).Fired?
    ensures FateOf(events + more, id) == FateOf(events, id)
  {
    if more == [] {
      assert events + more == events;
    } else {
      var rest := more[..|more| - 1];
      FateSettled(events, rest, id);
      assert (events + more)[..|events + more| - 1] == events + rest;
    }
  }
}
