/** The connection pool: bounded membership, eviction of the least important, and a ledger of departures. */
module ConnectionPool {
  import opened LoadBalancer
  import opened Wrappers

  const PRIORITY_NORMAL := 1

  /** Idle and life time limits of a member. */
  datatype Lifecycle = Lifecycle(maxIdleTime: int, maxLifetime: int)

  /** `total` counts the connections ever admitted; `closed` lists the connections the pool closed, in order. */
  datatype Pool = Pool(members: map<string, PooledConnection>, priorities: map<string, int>, maxConnections: int,
                       total: nat, closed: seq<Connection>)

  datatype Error = AlreadyExists | NotFound | PoolFull | NoActiveConnection | NothingSelected
  type Result<T> = Wrappers.Result<T, Error>

  // ---- importance ----

  /** The order of eviction: priority, then health, then use count. */
  predicate Less(a: PooledConnection, b: PooledConnection) {
    if a.priority != b.priority then a.priority < b.priority
    else if a.healthScore != b.healthScore then a.healthScore < b.healthScore
    else a.useCount < b.useCount
  }

  function Entry(p: Pool, id: string): PooledConnection
    requires id in p.members
  {
    p.members[id]
  }

  /** `order` names every member once, the least important first. */
  ghost predicate Ranking(p: Pool, order: seq<string>) {
    && (forall i, j :: 0 <= i < j < |order| ==> order[i] != order[j])
    && (forall id :: id in p.members <==> id in order)
    && (forall i, j :: 0 <= i < j < |order| ==>
          order[i] in p.members && order[j] in p.members && !Less(p.members[order[j]], p.members[order[i]]))
  }

  // ---- atomic steps ----

  /** One member is closed and leaves. */
  function Leave(p: Pool, id: string): Pool {
    if id !in p.members then p
    else p.(members := p.members - {id}, closed := p.closed + [p.members[id].conn])
  }

  function LeaveAll(p: Pool, ids: seq<string>): Pool
    decreases |ids|
  {
    if ids == [] then p else LeaveAll(Leave(p, ids[0]), ids[1..])
  }

  function PriorityOf(p: Pool, id: string): int {
    if id in p.priorities then p.priorities[id] else PRIORITY_NORMAL
  }

  function Join(p: Pool, c: Connection, now: int): Pool {
    p.(members := p.members[c.deviceID := PooledConnection(c, PriorityOf(p, c.deviceID), now, now, 0, 1, 1.0)],
       total := p.total + 1)
  }

  function Use(p: Pool, id: string, now: int): Pool
    requires id in p.members
  {
    var m := p.members[id];
    p.(members := p.members[id := m.(lastUsed := now, useCount := Incremented(m.useCount))])
  }

  /** How many members leave when the capacity is set. */
  function Excess(p: Pool, max: int): nat {
    var over := |p.members| - max;
    if over <= 0 then 0 else if over > |p.members| then |p.members| else over
  }

  predicate Stale(m: PooledConnection, limits: Lifecycle, now: int, active: set<string>) {
    now - m.lastUsed > limits.maxIdleTime || now - m.createdAt > limits.maxLifetime || m.conn.id !in active
  }

  /** `Add` carries a ranking of the members, which decides ties; `active` names the connections that
      answer IsActive; `chosen` is a member the least-used balancer may pick. */
  datatype Event = Add(conn: Connection, now: int, order: seq<string>)
                 | Remove(id: string)
                 | Get(id: string, now: int)
                 | SetMax(max: int, order: seq<string>)
                 | SetPriority(id: string, priority: int)
                 | Select(active: set<string>, chosen: string, now: int)
                 | Maintain(now: int, limits: Lifecycle, active: set<string>, order: seq<string>)
                 | Close(order: seq<string>)

  predicate Active(p: Pool, active: set<string>, id: string) {
    id in p.members && p.members[id].conn.id in active
  }

  ghost predicate LeastUsed(p: Pool, active: set<string>, id: string) {
    && Active(p, active, id)
    && p.members[id].useCount < MAX_UINT64
    && forall other :: Active(p, active, other) ==> p.members[id].useCount <= p.members[other].useCount
  }

  ghost predicate Listing(p: Pool, ids: seq<string>, limits: Lifecycle, now: int, active: set<string>) {
    && (forall i, j :: 0 <= i < j < |ids| ==> ids[i] != ids[j])
    && (forall id :: id in ids <==> id in p.members && Stale(p.members[id], limits, now, active))
  }

  /** `ids` names every member once. */
  ghost predicate ListsAll(p: Pool, ids: seq<string>) {
    (forall i, j :: 0 <= i < j < |ids| ==> ids[i] != ids[j]) && forall id :: id in ids <==> id in p.members
  }

  /** When an event's free choices are ones the code can make. */
  ghost predicate Possible(p: Pool, e: Event) {
    match e
    case Add(_, _, order) => Ranking(p, order)
    case SetMax(_, order) => Ranking(p, order)
    case Select(active, chosen, _) => LeastUsed(p, active, chosen)
    case Maintain(now, limits, active, order) => Listing(p, order, limits, now, active)
    case Close(order) => ListsAll(p, order)
    case _ => true
  }

  function Step(p: Pool, e: Event): Pool {
    match e
    case Add(c, now, order) =>
      if c.deviceID in p.members then p
      else if |p.members| < p.maxConnections then Join(p, c, now)
      else if order == [] then p
      else Join(Leave(p, order[0]), c, now)
    case Remove(id) => Leave(p, id)
    case Get(id, now) => if id in p.members then Use(p, id, now) else p
    case SetMax(max, order) =>
      LeaveAll(p.(maxConnections := max), order[..if Excess(p, max) <= |order| then Excess(p, max) else |order|])
    case SetPriority(id, priority) =>
      var q := p.(priorities := p.priorities[id := priority]);
      if id in p.members then q.(members := p.members[id := p.members[id].(priority := priority)]) else q
    case Select(active, chosen, now) => if chosen in p.members then Use(p, chosen, now) else p
    case Maintain(_, _, _, order) => LeaveAll(p, order)
    case Close(order) => LeaveAll(p, order)
  }

  // ---- laws of every run ----

  ghost predicate Lawful(p: Pool) {
    && |p.members| <= (if p.maxConnections < 0 then 0 else p.maxConnections)
    && (forall id :: id in p.members ==>
          p.members[id].conn.deviceID == id && p.members[id].priority == PriorityOf(p, id))
    && p.total == |p.members| + |p.closed|
  }

  function Empty(max: int): Pool {
    Pool(map[], map[], max, 0, [])
  }

  lemma LeaveFacts(p: Pool, id: string)
    ensures var q := Leave(p, id);
            && q.members == p.members - {id}
            && |q.members| == |p.members| - (if id in p.members then 1 else 0)
            && q.closed == p.closed + (if id in p.members then [p.members[id].conn] else [])
            && q.total == p.total && q.maxConnections == p.maxConnections && q.priorities == p.priorities
  {
    if id in p.members {
      assert p.members.Keys == (p.members - {id}).Keys + {id};
      assert |p.members.Keys| == |(p.members - {id}).Keys| + 1;
    }
  }

  /** The connections of the listed members. */
  function Conns(p: Pool, ids: seq<string>): (conns: seq<Connection>)
    requires forall id :: id in ids ==> id in p.members
    ensures |conns| == |ids| && forall i :: 0 <= i < |ids| ==> conns[i] == p.members[ids[i]].conn
  {
    seq(|ids|, i requires 0 <= i < |ids| => p.members[ids[i]].conn)
  }

  lemma {:induction false} LeaveAllFacts(p: Pool, ids: seq<string>)
    requires forall i, j :: 0 <= i < j < |ids| ==> ids[i] != ids[j]
    requires forall id :: id in ids ==> id in p.members
    ensures var q := LeaveAll(p, ids);
            && (forall id :: id in q.members <==> id in p.members && id !in ids)
            && (forall id :: id in q.members ==> q.members[id] == p.members[id])
            && |q.members| == |p.members| - |ids|
            && |q.closed| == |p.closed| + |ids|
            && q.total == p.total && q.maxConnections == p.maxConnections && q.priorities == p.priorities
    decreases |ids|
  {
    if ids != [] {
      LeaveFacts(p, ids[0]);
      LeaveAllFacts(Leave(p, ids[0]), ids[1..]);
    }
  }

  /** Members, none of them named twice. */
  ghost predicate Named(p: Pool, ids: seq<string>) {
    (forall i, j :: 0 <= i < j < |ids| ==> ids[i] != ids[j]) && forall id :: id in ids ==> id in p.members
  }

  lemma NamedTail(p: Pool, q: Pool, ids: seq<string>)
    requires ids != [] && Named(p, ids) && q.members == p.members - {ids[0]}
    ensures ids[0] in p.members && Named(q, ids[1..])
    ensures Conns(p, ids) == [p.members[ids[0]].conn] + Conns(q, ids[1..])
  {
    assert forall i :: 0 <= i < |ids| - 1 ==> ids[1..][i] == ids[i + 1] && ids[i + 1] in q.members;
  }

  lemma {:induction false} LeaveAllCloses(p: Pool, ids: seq<string>)
    requires Named(p, ids)
    ensures LeaveAll(p, ids).closed == p.closed + Conns(p, ids)
    decreases |ids|
  {
    if ids == [] {
      assert Conns(p, ids) == [];
    } else {
      OneMoreCloses(p, Leave(p, ids[0]), ids);
      LeaveAllCloses(Leave(p, ids[0]), ids[1..]);
      hide Named, Conns, Leave;
    }
  }

  lemma OneMoreCloses(p: Pool, q: Pool, ids: seq<string>)
    requires ids != [] && Named(p, ids) && q == Leave(p, ids[0])
    ensures Named(q, ids[1..]) && q.closed + Conns(q, ids[1..]) == p.closed + Conns(p, ids)
  {
    assert ids[0] in p.members;
    hide Conns, Named;
    NamedTail(p, q, ids);
    assert q.closed == p.closed + [p.members[ids[0]].conn];
    Assoc(p.closed, [p.members[ids[0]].conn], Conns(q, ids[1..]));
  }

  lemma Assoc(a: seq<Connection>, b: seq<Connection>, c: seq<Connection>)
    ensures (a + b) + c == a + (b + c)
  {
  }

  lemma {:induction false} LeaveOneMore(p: Pool, ids: seq<string>, id: string)
    ensures LeaveAll(p, ids + [id]) == Leave(LeaveAll(p, ids), id)
    decreases |ids|
  {
    if ids == [] {
      assert ids + [id] == [id] && [id][1..] == [];
    } else {
      LeaveOneMore(Leave(p, ids[0]), ids[1..], id);
      assert (ids + [id])[1..] == ids[1..] + [id];
    }
  }

  function Elements(s: seq<string>): set<string> {
    set x | x in s
  }

  lemma {:induction false} DistinctSize(s: seq<string>)
    requires forall i, j :: 0 <= i < j < |s| ==> s[i] != s[j]
    ensures |Elements(s)| == |s|
  {
    if s != [] {
      var front, last := s[..|s| - 1], s[|s| - 1];
      DistinctSize(front);
      assert Elements(s) == Elements(front) + {last};
    }
  }

  lemma RankingSize(p: Pool, order: seq<string>)
    requires Ranking(p, order)
    ensures |order| == |p.members|
  {
    DistinctSize(order);
    assert Elements(order) == p.members.Keys;
  }

  lemma NobodyLeaves(p: Pool)
    ensures LeaveAll(p, []) == p
  {
  }

  lemma Unranked(p: Pool, order: seq<string>, n: nat)
    requires Ranking(p, order) && n <= |order|
    ensures forall i, j :: 0 <= i < j < |order[..n]| ==> order[..n][i] != order[..n][j]
    ensures forall id :: id in order[..n] ==> id in p.members
  {
  }

  lemma SetMaxFacts(p: Pool, max: int, order: seq<string>)
    requires Ranking(p, order)
    ensures var n := Excess(p, max);
            && n <= |order|
            && Step(p, SetMax(max, order)) == LeaveAll(p.(maxConnections := max), order[..n])
            && (forall i, j :: 0 <= i < j < n ==> order[..n][i] != order[..n][j])
            && (forall id :: id in order[..n] ==> id in p.members)
  {
    RankingSize(p, order);
  }

  lemma JoinKeepsLawful(p: Pool, c: Connection, now: int)
    requires Lawful(p) && c.deviceID !in p.members && |p.members| < p.maxConnections
    ensures Lawful(Join(p, c, now))
  {}

  lemma UseKeepsLawful(p: Pool, id: string, now: int)
    requires Lawful(p) && id in p.members
    ensures Lawful(Use(p, id, now))
  {
    assert Use(p, id, now).members.Keys == p.members.Keys;
    assert |Use(p, id, now).members.Keys| == |Use(p, id, now).members|;
  }

  lemma SetPriorityKeepsLawful(p: Pool, id: string, priority: int)
    requires Lawful(p)
    ensures Lawful(Step(p, SetPriority(id, priority)))
  {
    var q := Step(p, SetPriority(id, priority));
    assert q.members.Keys == p.members.Keys;
    assert |q.members.Keys| == |q.members| && |p.members.Keys| == |p.members|;
  }

  lemma AddKeepsLawful(p: Pool, c: Connection, now: int, order: seq<string>)
    requires Lawful(p) && Ranking(p, order)
    ensures Lawful(Step(p, Add(c, now, order)))
  {
    RankingSize(p, order);
    if c.deviceID !in p.members {
      if |p.members| < p.maxConnections {
        JoinKeepsLawful(p, c, now);
      } else if order != [] {
        LeaveFacts(p, order[0]);
        JoinKeepsLawful(Leave(p, order[0]), c, now);
      }
    }
  }

  lemma DroppingKeepsLawful(p: Pool, ids: seq<string>)
    requires (forall i, j :: 0 <= i < j < |ids| ==> ids[i] != ids[j]) && forall id :: id in ids ==> id in p.members
    requires Lawful(p.(maxConnections := |p.members|))
    requires |p.members| - |ids| <= if p.maxConnections < 0 then 0 else p.maxConnections
    ensures Lawful(LeaveAll(p, ids))
  {
    LeaveAllFacts(p, ids);
    hide LeaveAll;
    var q := LeaveAll(p, ids);
    assert forall id :: PriorityOf(q, id) == PriorityOf(p, id);
  }

  lemma StepKeepsLawful(p: Pool, e: Event)
    requires Lawful(p) && Possible(p, e)
    ensures Lawful(Step(p, e))
  {
    hide Lawful, LeaveAll;
    match e {
      case Add(c, now, order) => AddKeepsLawful(p, c, now, order);
      case Remove(id) => RemoveKeepsLawful(p, id);
      case Get(id, now) =>
        if id in p.members {
          UseKeepsLawful(p, id, now);
        }
      case SetMax(max, order) => SetMaxKeepsLawful(p, max, order);
      case SetPriority(id, priority) => SetPriorityKeepsLawful(p, id, priority);
      case Select(_, chosen, now) => UseKeepsLawful(p, chosen, now);
      case Maintain(now, limits, active, order) => MaintainKeepsLawful(p, now, limits, active, order);
      case Close(order) => CloseKeepsLawful(p, order);
    }
  }

  lemma RemoveKeepsLawful(p: Pool, id: string)
    requires Lawful(p)
    ensures Lawful(Leave(p, id))
  {
    LeaveFacts(p, id);
  }

  lemma SetMaxKeepsLawful(p: Pool, max: int, order: seq<string>)
    requires Lawful(p) && Ranking(p, order)
    ensures Lawful(Step(p, SetMax(max, order)))
  {
    SetMaxFacts(p, max, order);
    var q := p.(maxConnections := max);
    assert forall id :: PriorityOf(q, id) == PriorityOf(p, id);
    DroppingKeepsLawful(q, order[..Excess(p, max)]);
  }

  lemma MaintainKeepsLawful(p: Pool, now: int, limits: Lifecycle, active: set<string>, order: seq<string>)
    requires Lawful(p) && Listing(p, order, limits, now, active)
    ensures Lawful(LeaveAll(p, order))
  {
    DroppingKeepsLawful(p, order);
  }

  lemma CloseKeepsLawful(p: Pool, order: seq<string>)
    requires Lawful(p) && ListsAll(p, order)
    ensures Lawful(LeaveAll(p, order))
  {
    DroppingKeepsLawful(p, order);
  }

  function Run(p: Pool, events: seq<Event>): Pool
    decreases |events|
  {
    if events == [] then p else Run(Step(p, events[0]), events[1..])
  }

  ghost predicate PossibleRun(p: Pool, events: seq<Event>)
    decreases |events|
  {
    events == [] || (Possible(p, events[0]) && PossibleRun(Step(p, events[0]), events[1..]))
  }

  lemma {:induction false} RunKeepsLawful(p: Pool, events: seq<Event>)
    requires Lawful(p) && PossibleRun(p, events)
    ensures Lawful(Run(p, events))
    decreases |events|
  {
    if events != [] {
      StepKeepsLawful(p, events[0]);
      RunKeepsLawful(Step(p, events[0]), events[1..]);
    }
  }

  // ---- whoever leaves is closed ----

  /** The members an event removes. */
  function Leavers(p: Pool, e: Event): set<string> {
    p.members.Keys - Step(p, e).members.Keys
  }

  /** What one event closes: the connections of `ids`, all of them leavers, once each, and of no other. */
  ghost predicate Closes(p: Pool, e: Event, ids: seq<string>) {
    var q := Step(p, e);
    && (forall i, j :: 0 <= i < j < |ids| ==> ids[i] != ids[j])
    && (forall id :: id in ids <==> id in Leavers(p, e))
    && q.closed == p.closed + Conns(p, ids)
    && forall id :: id in p.members && id in q.members ==> q.members[id].conn == p.members[id].conn
  }

  lemma ListedCloses(p: Pool, e: Event, q: Pool, ids: seq<string>)
    requires (forall i, j :: 0 <= i < j < |ids| ==> ids[i] != ids[j]) && forall id :: id in ids ==> id in p.members
    requires p.members == q.members && p.closed == q.closed && Step(p, e) == LeaveAll(q, ids)
    ensures Closes(p, e, ids)
  {
    hide Step, LeaveAll;
    LeaveAllFacts(q, ids);
    LeaveAllCloses(q, ids);
    assert Conns(p, ids) == Conns(q, ids);
  }

  /** An event closes the connections of exactly those members it removes, once each, and every other member keeps
      its connection. */
  lemma ClosesLeavers(p: Pool, e: Event) returns (ids: seq<string>)
    requires Possible(p, e)
    ensures Closes(p, e, ids)
  {
    match e
    case Add(c, now, order) => ids := AddCloses(p, c, now, order);
    case SetMax(max, order) =>
      SetMaxFacts(p, max, order);
      ids := order[..Excess(p, max)];
      ListedCloses(p, e, p.(maxConnections := max), ids);
    case Maintain(_, _, _, order) =>
      ids := order;
      ListedCloses(p, e, p, ids);
    case Close(order) =>
      ids := order;
      ListedCloses(p, e, p, ids);
    case _ => ids := OneCloses(p, e);
  }

  lemma OneCloses(p: Pool, e: Event) returns (ids: seq<string>)
    requires e.Remove? || e.Get? || e.SetPriority? || e.Select?
    ensures Closes(p, e, ids)
  {
    ids := if e.Remove? && e.id in p.members then [e.id] else [];
  }

  lemma AddCloses(p: Pool, c: Connection, now: int, order: seq<string>) returns (ids: seq<string>)
    requires Ranking(p, order)
    ensures Closes(p, Add(c, now, order), ids)
  {
    ids := [];
    if c.deviceID !in p.members && |p.members| >= p.maxConnections && order != [] {
      ids := [order[0]];
      assert order[0] in p.members;
    }
  }

  /** How many members the events of a run remove. */
  function Departures(p: Pool, events: seq<Event>): nat
    decreases |events|
  {
    if events == [] then 0 else |Leavers(p, events[0])| + Departures(Step(p, events[0]), events[1..])
  }

  lemma {:induction false} ClosedCountsDepartures(p: Pool, events: seq<Event>)
    requires PossibleRun(p, events)
    ensures |Run(p, events).closed| == |p.closed| + Departures(p, events)
    decreases |events|
  {
    hide Step, Possible;
    if events != [] {
      var ids := ClosesLeavers(p, events[0]);
      DistinctSize(ids);
      assert Elements(ids) == Leavers(p, events[0]);
      ClosedCountsDepartures(Step(p, events[0]), events[1..]);
    }
  }

  /** Over every run a member either stays with its connection or has had that connection closed, and what was closed
      stays on record. */
  lemma {:induction false} LeaversAreClosed(p: Pool, events: seq<Event>, id: string)
    requires PossibleRun(p, events) && id in p.members
    ensures var q := Run(p, events);
            && p.closed <= q.closed
            && ((id in q.members && q.members[id].conn == p.members[id].conn) || p.members[id].conn in q.closed)
    decreases |events|
  {
    hide Step, Possible;
    if events != [] {
      var q := Step(p, events[0]);
      var ids := ClosesLeavers(p, events[0]);
      ClosedGrows(q, events[1..]);
      if id in q.members {
        LeaversAreClosed(q, events[1..], id);
      } else {
        assert id in Leavers(p, events[0]) && id in ids;
        var i :| 0 <= i < |ids| && ids[i] == id;
        assert q.closed[|p.closed| + i] == p.members[id].conn;
      }
    }
  }

  lemma {:induction false} ClosedGrows(p: Pool, events: seq<Event>)
    requires PossibleRun(p, events)
    ensures p.closed <= Run(p, events).closed
    decreases |events|
  {
    hide Step, Possible;
    if events != [] {
      var ids := ClosesLeavers(p, events[0]);
      ClosedGrows(Step(p, events[0]), events[1..]);
    }
  }

  lemma {:induction false} RunSplits(p: Pool, events: seq<Event>, n: nat)
    requires n <= |events|
    ensures Run(p, events) == Run(Run(p, events[..n]), events[n..])
    ensures PossibleRun(p, events) ==> PossibleRun(p, events[..n]) && PossibleRun(Run(p, events[..n]), events[n..])
    decreases |events|
  {
    hide Step, Possible;
    if n == 0 {
      assert events[..0] == [] && events[0..] == events;
    } else {
      RunSplits(Step(p, events[0]), events[1..], n - 1);
      assert events[..n][0] == events[0] && events[..n][1..] == events[1..][..n - 1];
      assert events[n..] == events[1..][n - 1..];
    }
  }

  /** Over every run from an empty pool: never more members than max(maxConnections, 0), each under its own device ID
      and with its configured priority; every connection ever admitted is a member or has departed; and a connection
      that was a member after n events is one still, or has been closed. */
  lemma PoolLedger(max: int, events: seq<Event>, n: nat, id: string)
    requires PossibleRun(Empty(max), events) && n <= |events|
    ensures var p := Run(Empty(max), events);
            var before := Run(Empty(max), events[..n]);
            && |p.members| <= (if p.maxConnections < 0 then 0 else p.maxConnections)
            && (forall id :: id in p.members ==>
                  p.members[id].conn.deviceID == id && p.members[id].priority == PriorityOf(p, id))
            && p.total == |p.members| + Departures(Empty(max), events)
            && |p.closed| == Departures(Empty(max), events)
            && (id in before.members ==>
                  (id in p.members && p.members[id].conn == before.members[id].conn)
                  || before.members[id].conn in p.closed)
  {
    RunKeepsLawful(Empty(max), events);
    ClosedCountsDepartures(Empty(max), events);
    RunSplits(Empty(max), events, n);
    if id in Run(Empty(max), events[..n]).members {
      LeaversAreClosed(Run(Empty(max), events[..n]), events[n..], id);
    }
  }

  // ---- eviction ----

  /** A ranking goes by priority, then by health, then by use count, the smaller first. */
  lemma RankingGoesByFields(p: Pool, order: seq<string>, i: nat, j: nat)
    requires Ranking(p, order) && i < j < |order|
    ensures order[i] in p.members && order[j] in p.members && order[i] != order[j]
    ensures var a, b := p.members[order[i]], p.members[order[j]];
            && a.priority <= b.priority
            && (a.priority == b.priority ==> a.healthScore <= b.healthScore)
            && (a.priority == b.priority && a.healthScore == b.healthScore ==> a.useCount <= b.useCount)
  {
  }

  lemma RankedFirstIsWorst(p: Pool, order: seq<string>, n: nat, evicted: string, kept: string)
    requires Ranking(p, order) && n <= |order|
    requires evicted in order[..n] && kept in p.members && kept !in order[..n]
    ensures !Less(p.members[kept], p.members[evicted])
  {
    var i :| 0 <= i < n && order[..n][i] == evicted;
    var j :| 0 <= j < |order| && order[j] == kept;
    assert forall x :: 0 <= x < n ==> order[..n][x] == order[x] && order[..n][x] in order[..n];
  }

  lemma EvictedByRank(p: Pool, e: Event, evicted: string) returns (n: nat)
    requires (e.Add? || e.SetMax?) && Possible(p, e)
    requires evicted in p.members && evicted !in Step(p, e).members
    ensures n <= |e.order| && evicted in e.order[..n]
    ensures forall id :: id in e.order[..n] ==> id !in Step(p, e).members
  {
    hide Less;
    if e.Add? {
      n := 1;
      assert e.order[..1] == [e.order[0]];
      assert e.order[0] in p.members;
    } else {
      SetMaxFacts(p, e.max, e.order);
      n := Excess(p, e.max);
      LeaveAllFacts(p.(maxConnections := e.max), e.order[..n]);
    }
  }

  /** No capacity eviction, on arrival or by a lower maximum, removes a member while keeping one of lower priority, of
      the same priority and worse health, or of the same priority and health and fewer uses. */
  lemma EvictionSparesTheBetter(p: Pool, e: Event, evicted: string, kept: string)
    requires (e.Add? || e.SetMax?) && Possible(p, e)
    requires evicted in p.members && evicted !in Step(p, e).members
    requires kept in p.members && kept in Step(p, e).members
    ensures p.members[evicted].priority <= p.members[kept].priority
    ensures p.members[evicted].priority == p.members[kept].priority ==>
              p.members[evicted].healthScore <= p.members[kept].healthScore
    ensures p.members[evicted].priority == p.members[kept].priority
            && p.members[evicted].healthScore == p.members[kept].healthScore ==>
              p.members[evicted].useCount <= p.members[kept].useCount
  {
    var n := EvictedByRank(p, e, evicted);
    hide Step, Ranking, Possible;
    RankedFirstIsWorst(p, e.order, n, evicted, kept);
  }

  /** A device that comes to a full pool where one member has a lower priority than all others takes the place of that
      member, whose connection is closed, and of no other. */
  lemma LowestPriorityMakesRoom(p: Pool, c: Connection, now: int, order: seq<string>, lowest: string)
    requires Ranking(p, order) && c.deviceID !in p.members && |p.members| >= p.maxConnections
    requires lowest in p.members
    requires forall id :: id in p.members && id != lowest ==> p.members[lowest].priority < p.members[id].priority
    ensures
      var q := Step(p, Add(c, now, order));
      var priority := if c.deviceID in p.priorities then p.priorities[c.deviceID] else 1;
      && q.members == (p.members - {lowest})[c.deviceID := PooledConnection(c, priority, now, now, 0, 1, 1.0)]
      && q.closed == p.closed + [p.members[lowest].conn] && q.total == p.total + 1
      && q.priorities == p.priorities && q.maxConnections == p.maxConnections
  {
    var i :| 0 <= i < |order| && order[i] == lowest;
    assert order[0] in p.members;
    assert i == 0;
  }

  /** Lowering the capacity removes exactly the members in excess. */
  lemma SetMaxRemovesExactly(p: Pool, max: int, order: seq<string>)
    requires Ranking(p, order)
    ensures |Step(p, SetMax(max, order)).members|
         == if max < 0 then 0 else if |p.members| < max then |p.members| else max
  {
    SetMaxFacts(p, max, order);
    LeaveAllFacts(p.(maxConnections := max), order[..Excess(p, max)]);
  }

  // ---- least-used selection through the pool ----

  /** The use counts of the listed members. */
  function UseCounts(p: Pool, ids: seq<string>): (counts: seq<nat>)
    requires forall i :: 0 <= i < |ids| ==> ids[i] in p.members
    ensures |counts| == |ids|
  {
    seq(|ids|, i requires 0 <= i < |ids| => p.members[ids[i]].useCount)
  }

  /** `ids` lists the active members once each. */
  ghost predicate ActiveList(p: Pool, active: set<string>, ids: seq<string>) {
    && (forall i, j :: 0 <= i < j < |ids| ==> ids[i] != ids[j])
    && (forall i :: 0 <= i < |ids| ==> Active(p, active, ids[i]))
    && (forall id :: Active(p, active, id) ==> id in ids)
  }

  lemma SelectBumpsLeast(p: Pool, active: set<string>, ids: seq<string>, chosen: string, now: int) returns (k: nat)
    requires ActiveList(p, active, ids) && LeastUsed(p, active, chosen)
    ensures IsLeast(UseCounts(p, ids), k)
    ensures var q := Step(p, Select(active, chosen, now));
            && ActiveList(q, active, ids)
            && UseCounts(q, ids) == UseCounts(p, ids)[k := UseCounts(p, ids)[k] + 1]
  {
    k :| 0 <= k < |ids| && ids[k] == chosen;
    var q := Step(p, Select(active, chosen, now));
    forall j | 0 <= j < |ids|
      ensures UseCounts(p, ids)[k] <= UseCounts(p, ids)[j]
    {
      assert Active(p, active, ids[j]);
    }
    forall id
      ensures Active(q, active, id) == Active(p, active, id)
    {}
  }

  ghost predicate SelectsOn(events: seq<Event>, active: set<string>) {
    forall i :: 0 <= i < |events| ==> events[i].Select? && events[i].active == active
  }

  /** Selections through the pool on a fixed active set are a least-used run on its use counts. */
  lemma {:induction false} PoolRunIsLeastUsedRun(p: Pool, active: set<string>, ids: seq<string>, events: seq<Event>)
    returns (picks: seq<nat>)
    requires ActiveList(p, active, ids) && SelectsOn(events, active) && PossibleRun(p, events)
    ensures |picks| == |events| && LeastUsedRun(UseCounts(p, ids), picks)
    ensures ActiveList(Run(p, events), active, ids)
    ensures UseCounts(Run(p, events), ids) == Counted(UseCounts(p, ids), picks)
    decreases |events|
  {
    if events == [] {
      picks := [];
    } else {
      var k := SelectBumpsLeast(p, active, ids, events[0].chosen, events[0].now);
      var rest := PoolRunIsLeastUsedRun(Step(p, events[0]), active, ids, events[1..]);
      picks := [k] + rest;
      assert picks[1..] == rest;
    }
  }

  /** Use counts of a fixed active set never drift further apart than one, or than they were at first; and n*k
      selections from equal counts serve every one of the n members exactly k times. */
  lemma PoolSelectionIsFair(p: Pool, active: set<string>, ids: seq<string>, events: seq<Event>, d: int, c: nat, k: nat)
    requires ActiveList(p, active, ids) && SelectsOn(events, active) && PossibleRun(p, events)
    ensures ActiveList(Run(p, events), active, ids)
    ensures d >= 1 && SpreadAtMost(UseCounts(p, ids), d) ==> SpreadAtMost(UseCounts(Run(p, events), ids), d)
    ensures (forall i :: 0 <= i < |ids| ==> p.members[ids[i]].useCount == c) && |events| == |ids| * k ==>
              forall i :: 0 <= i < |ids| ==> Run(p, events).members[ids[i]].useCount == c + k
  {
    var picks := PoolRunIsLeastUsedRun(p, active, ids, events);
    var counts := UseCounts(p, ids);
    if d >= 1 && SpreadAtMost(counts, d) {
      SpreadNeverGrows(counts, picks, d);
    }
    if (forall i :: 0 <= i < |ids| ==> p.members[ids[i]].useCount == c) && |events| == |ids| * k {
      EqualShares(counts, picks, c, k);
      forall i | 0 <= i < |ids|
        ensures Run(p, events).members[ids[i]].useCount == c + k
      {
        assert UseCounts(Run(p, events), ids)[i] == c + k;
      }
    }
  }

  // ---- the pool ----

  class ConnectionPoolImpl {
    var members: map<string, PooledConnection>
    var priorities: map<string, int>
    var maxConnections: int
    var total: nat
    const limits: Lifecycle
    ghost var closed: seq<Connection>

    constructor (maxConnections: int, limits: Lifecycle)
      ensures View() == Empty(maxConnections) && this.limits == limits
      ensures members == map[] && priorities == map[] && this.maxConnections == maxConnections && total == 0
    {
      members, priorities, this.maxConnections, total := map[], map[], maxConnections, 0;
      this.limits, closed := limits, [];
    }

    ghost function View(): Pool
      reads this
    {
      Pool(members, priorities, maxConnections, total, closed)
    }

    /** Members sorted by importance; sort.Slice leaves the order of ties open. */
    method Ranked() returns (order: seq<string>)
      ensures Ranking(View(), order)
    {
      order := [];
      var left := members.Keys;
      while left != {}
        invariant left <= members.Keys
        invariant forall id :: id in members <==> id in left || id in order
        invariant forall id :: id in order ==> id !in left
        invariant forall i, j :: 0 <= i < j < |order| ==> order[i] != order[j]
        invariant forall i, j :: 0 <= i < j < |order| ==> !Less(members[order[j]], members[order[i]])
        invariant forall i, id :: 0 <= i < |order| && id in left ==> !Less(members[id], members[order[i]])
        decreases |left|
      {
        var least := LeastImportant(left);
        order := order + [least];
        left := left - {least};
      }
    }

    method LeastImportant(ids: set<string>) returns (least: string)
      requires ids != {} && ids <= members.Keys
      ensures least in ids && forall id :: id in ids ==> !Less(members[id], members[least])
    {
      least :| least in ids;
      var rest := ids - {least};
      while rest != {}
        invariant rest <= ids && least in ids
        invariant forall id :: id in ids && id !in rest ==> !Less(members[id], members[least])
        decreases |rest|
      {
        var id :| id in rest;
        rest := rest - {id};
        if Less(members[id], members[least]) {
          least := id;
        }
      }
    }

    /** Close a member and drop it. */
    method Drop(id: string)
      requires id in members
      modifies this
      ensures View() == Leave(old(View()), id)
    {
      closed := closed + [members[id].conn];
      members := members - {id};
    }

    method DropAll(ids: seq<string>)
      requires forall i, j :: 0 <= i < j < |ids| ==> ids[i] != ids[j]
      requires forall id :: id in ids ==> id in members
      modifies this
      ensures View() == LeaveAll(old(View()), ids)
      ensures forall id :: id in members <==> id in old(members) && id !in ids
      ensures forall id :: id in members ==> members[id] == old(members)[id]
      ensures |members| == old(|members|) - |ids| && maxConnections == old(maxConnections)
    {
      LeaveAllFacts(View(), ids);
      for i := 0 to |ids|
        invariant LeaveAll(View(), ids[i..]) == LeaveAll(old(View()), ids)
        invariant forall id :: id in ids[i..] ==> id in members
      {
        assert ids[i..][0] == ids[i] && ids[i..][1..] == ids[i + 1..];
        Drop(ids[i]);
      }
      assert ids[|ids|..] == [];
    }

    method AddConnection(c: Connection, now: int) returns (r: Result<()>, ghost order: seq<string>)
      modifies this
      ensures Ranking(old(View()), order)
      ensures View() == Step(old(View()), Event.Add(c, now, order))
      ensures r == if c.deviceID in old(members) then Err(AlreadyExists)
                   else if |old(members)| >= maxConnections && old(members) == map[] then Err(PoolFull)
                   else Ok(())
      ensures r.Err? ==> View() == old(View())
      ensures r.Ok? ==>
                && c.deviceID in members && total == old(total) + 1 && priorities == old(priorities)
                && members[c.deviceID]
                   == PooledConnection(c, if c.deviceID in priorities then priorities[c.deviceID] else 1, now, now,
                                       0, 1, 1.0)
                && forall id :: id in members && id != c.deviceID ==>
                     id in old(members) && members[id] == old(members)[id]
    {
      var ranked := Ranked();
      order := ranked;
      if c.deviceID in members {
        return Err(AlreadyExists), order;
      }
      if |members| >= maxConnections {
        if ranked == [] {
          return Err(PoolFull), order;
        }
        assert ranked[0] in members;
        Drop(ranked[0]);
      }
      var priority := if c.deviceID in priorities then priorities[c.deviceID] else PRIORITY_NORMAL;
      members := members[c.deviceID := PooledConnection(c, priority, now, now, 0, 1, 1.0)];
      total := total + 1;
      return Ok(()), order;
    }

    method RemoveConnection(id: string) returns (r: Result<()>)
      modifies this
      ensures View() == Step(old(View()), Remove(id))
      ensures members == old(members) - {id}
      ensures r == if id in old(members) then Ok(()) else Err(NotFound)
    {
      if id !in members {
        return Err(NotFound);
      }
      Drop(id);
      return Ok(());
    }

    method GetConnection(id: string, now: int) returns (r: Result<Connection>)
      modifies this
      ensures View() == Step(old(View()), Get(id, now))
      ensures members == if id !in old(members) then old(members) else
                           var m := old(members)[id];
                           old(members)[id := m.(lastUsed := now,
                                                 useCount := if m.useCount == MAX_UINT64 then 0 else m.useCount + 1)]
      ensures r == if id in old(members) then Ok(old(members)[id].conn) else Err(NotFound)
    {
      if id !in members {
        return Err(NotFound);
      }
      var m := members[id];
      members := members[id := m.(lastUsed := now, useCount := Incremented(m.useCount))];
      return Ok(m.conn);
    }

    method SetMaxConnections(max: int) returns (ghost order: seq<string>)
      modifies this
      ensures Ranking(old(View()), order)
      ensures View() == Step(old(View()), SetMax(max, order))
      ensures maxConnections == max
      ensures |members| == if max < 0 then 0 else if old(|members|) < max then old(|members|) else max
      ensures forall id :: id in members ==> id in old(members) && members[id] == old(members)[id]
    {
      hide Ranking, LeaveAll, Step;
      var ranked := Ranked();
      order := ranked;
      RankingSize(View(), order);
      SetMaxFacts(View(), max, order);
      maxConnections := max;
      NobodyLeaves(View());
      assert ranked[..0] == [];
      if |members| > max {
        var count := |members| - max;
        var n := if count < |ranked| then count else |ranked|;
        Unranked(old(View()), ranked, n);
        DropAll(ranked[..n]);
      }
    }

    method SetConnectionPriority(id: string, priority: int)
      modifies this
      ensures View() == Step(old(View()), SetPriority(id, priority))
      ensures priorities == old(priorities)[id := priority] && maxConnections == old(maxConnections)
      ensures members == if id !in old(members) then old(members)
                         else old(members)[id := old(members)[id].(priority := priority)]
    {
      priorities := priorities[id := priority];
      if id in members {
        members := members[id := members[id].(priority := priority)];
      }
    }

    /** The active members, in the order a map iteration happens to yield. */
    method ActiveConnections(active: set<string>) returns (ids: seq<string>)
      ensures ActiveList(View(), active, ids)
    {
      ids := [];
      var left := members.Keys;
      while left != {}
        invariant left <= members.Keys
        invariant forall id :: id in ids ==> id !in left && Active(View(), active, id)
        invariant forall id :: Active(View(), active, id) ==> id in left || id in ids
        invariant forall i, j :: 0 <= i < j < |ids| ==> ids[i] != ids[j]
        decreases |left|
      {
        var id :| id in left;
        left := left - {id};
        if members[id].conn.id in active {
          ids := ids + [id];
        }
      }
    }

    /** SelectConnectionByStrategy with the least-used balancer. */
    method SelectConnection(active: set<string>, now: int) returns (r: Result<Connection>, ghost chosen: string)
      modifies this
      ensures r.Ok? ==> LeastUsed(old(View()), active, chosen) && r.value == old(members)[chosen].conn
      ensures r.Ok? ==> View() == Step(old(View()), Select(active, chosen, now))
      ensures r.Ok? ==>
                && chosen in old(members) && old(members)[chosen].conn.id in active
                && old(members)[chosen].useCount < MAX_UINT64
                && (forall id :: id in old(members) && old(members)[id].conn.id in active ==>
                      old(members)[chosen].useCount <= old(members)[id].useCount)
                && members == old(members)[chosen := old(members)[chosen].(
                                             lastUsed := now, useCount := old(members)[chosen].useCount + 1)]
      ensures r.Err? ==> View() == old(View())
      ensures r.Err? <==> forall id :: Active(old(View()), active, id) ==> old(members)[id].useCount == MAX_UINT64
    {
      chosen := "";
      var ids := ActiveConnections(active);
      if ids == [] {
        return Err(NoActiveConnection), chosen;
      }
      var cs := seq(|ids|, i requires 0 <= i < |ids| && ids[i] in members reads this => members[ids[i]]);
      var k := SelectLeastUsed(cs);
      if k.None? {
        forall id | Active(View(), active, id)
          ensures members[id].useCount == MAX_UINT64
        {
          var i :| 0 <= i < |ids| && ids[i] == id;
          assert cs[i] == members[id];
        }
        return Err(NothingSelected), chosen;
      }
      chosen := ids[k.value];
      forall other | Active(View(), active, other)
        ensures members[chosen].useCount <= members[other].useCount
      {
        var i :| 0 <= i < |ids| && ids[i] == other;
        assert cs[i] == members[other] && cs[k.value] == members[chosen];
      }
      var m := members[ids[k.value]];
      members := members[ids[k.value] := m.(lastUsed := now, useCount := Incremented(m.useCount))];
      return Ok(m.conn), chosen;
    }

    /** The members past a limit or no longer active, in the order a map iteration happens to yield. */
    method FindStale(now: int, active: set<string>) returns (stale: seq<string>)
      ensures Listing(View(), stale, limits, now, active)
    {
      stale := [];
      var left := members.Keys;
      while left != {}
        invariant left <= members.Keys
        invariant forall id :: id in stale ==> id !in left && id in members
        invariant forall id :: id in members && id !in left ==>
                    (id in stale <==> Stale(members[id], limits, now, active))
        invariant forall i, j :: 0 <= i < j < |stale| ==> stale[i] != stale[j]
        decreases |left|
      {
        var id :| id in left;
        left := left - {id};
        if Stale(members[id], limits, now, active) {
          stale := stale + [id];
        }
      }
    }

    method PerformMaintenance(now: int, active: set<string>) returns (ghost order: seq<string>)
      modifies this
      ensures Listing(old(View()), order, limits, now, active)
      ensures View() == Step(old(View()), Maintain(now, limits, active, order))
      ensures forall id :: id in old(members) ==>
                var m := old(members)[id];
                (id in members <==> now - m.lastUsed <= limits.maxIdleTime && now - m.createdAt <= limits.maxLifetime
                                    && m.conn.id in active)
      ensures forall id :: id in members ==> id in old(members) && members[id] == old(members)[id]
    {
      hide LeaveAll;
      var stale := FindStale(now, active);
      order := stale;
      DropAll(stale);
    }

    /** Close every member and drop it. */
    method Close() returns (ghost order: seq<string>)
      modifies this
      ensures ListsAll(old(View()), order)
      ensures View() == Step(old(View()), Event.Close(order)) && members == map[]
    {
      order := [];
      while members != map[]
        invariant forall i, j :: 0 <= i < j < |order| ==> order[i] != order[j]
        invariant forall id :: id in old(members) <==> id in members || id in order
        invariant forall id :: id in order ==> id !in members
        invariant LeaveAll(old(View()), order) == View()
        decreases members.Keys
      {
        var id :| id in members;
        LeaveOneMore(old(View()), order, id);
        Drop(id);
        order := order + [id];
      }
    }
  }
}
