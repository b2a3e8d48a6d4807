/** The resource table: bounded connections, a memory budget summed in 64-bit arithmetic, reference counts. */
module ResourceManager {
  import opened Collections

  datatype ResourceType = Connection | Buffer | Session | Memory | Custom

  const TWO_63: int := 0x8000_0000_0000_0000

  type Int64 = x: int | -TWO_63 <= x < TWO_63

  datatype Resource = Resource(deviceId: string, kind: ResourceType, size: Int64, createdAt: int, lastAccessed: int,
                               refCount: int)

  type Table = map<string, Resource>

  datatype Limits = Limits(maxConnections: int, maxMemoryUsage: Int64)

  datatype Verdict = Granted | TooManyConnections | OutOfMemory

  /** What a signed 64-bit addition leaves of an integer. */
  function Wrap(x: int): (r: Int64)
    ensures -TWO_63 <= x < TWO_63 ==> r == x
  {
    (x + TWO_63) % (2 * TWO_63) - TWO_63
  }

  /** It lies in the range and differs by a multiple of 2^64. */
  lemma WrapIsModular(x: int)
    ensures -0x8000_0000_0000_0000 <= Wrap(x) < 0x8000_0000_0000_0000
    ensures (x - Wrap(x)) % 0x1_0000_0000_0000_0000 == 0
  {
    var k := (x + TWO_63) / (2 * TWO_63);
    assert x - Wrap(x) == k * (2 * TWO_63) + 0;
    ModUnique(x - Wrap(x), k, 0);
  }

  lemma WrapAdd(x: int, y: int)
    ensures Wrap(Wrap(x) + y) == Wrap(x + y)
  {
    var k := (x + TWO_63) / (2 * TWO_63);
    assert Wrap(x) == x - k * (2 * TWO_63);
    WrapShift(x + y, -k);
  }

  lemma WrapShift(x: int, k: int)
    ensures Wrap(x + k * (2 * TWO_63)) == Wrap(x)
  {
    var m := 2 * TWO_63;
    var q := (x + TWO_63) / m;
    assert x + TWO_63 + k * m == (q + k) * m + (x + TWO_63) % m;
    ModUnique(x + TWO_63 + k * m, q + k, (x + TWO_63) % m);
  }

  lemma ModUnique(x: int, q: int, r: int)
    requires 0 <= r < 2 * TWO_63 && x == q * (2 * TWO_63) + r
    ensures x % (2 * TWO_63) == r
  {
  }

  // ---- totals over a table ----

  ghost function TotalSize(t: Table): int
    decreases |t|
  {
    if t == map[] then 0
    else
      var id :| id in t;
      t[id].size + TotalSize(t - {id})
  }

  lemma {:induction false} TotalWithout(t: Table, id: string)
    requires id in t
    ensures TotalSize(t) == t[id].size + TotalSize(t - {id})
    decreases |t|
  {
    assert t != map[];
    var first :| first in t && TotalSize(t) == t[first].size + TotalSize(t - {first});
    if first != id {
      TotalWithout(t - {first}, id);
      TotalWithout(t - {id}, first);
      assert t - {first} - {id} == t - {id} - {first};
    }
  }

  lemma TotalWith(t: Table, id: string, e: Resource)
    requires id !in t
    ensures TotalSize(t[id := e]) == TotalSize(t) + e.size
  {
    TotalWithout(t[id := e], id);
    assert t[id := e] - {id} == t;
  }

  function Connections(t: Table): set<string> {
    set id | id in t && t[id].kind == Connection
  }

  // ---- atomic steps ----

  /** The connection limit is asked first, then the memory limit, on wrapped sums. */
  ghost function Check(t: Table, limits: Limits, kind: ResourceType, size: Int64): Verdict {
    if kind == Connection && |Connections(t)| >= limits.maxConnections then TooManyConnections
    else if Wrap(TotalSize(t) + size) > limits.maxMemoryUsage then OutOfMemory
    else Granted
  }

  ghost function Allocated(t: Table, limits: Limits, id: string, device: string, kind: ResourceType, size: Int64,
                           now: int): Table
  {
    if Check(t, limits, kind, size).Granted? then t[id := Resource(device, kind, size, now, now, 1)] else t
  }

  function Released(t: Table, id: string): Table {
    if id !in t then t
    else if t[id].refCount <= 1 then t - {id}
    else t[id := t[id].(refCount := t[id].refCount - 1)]
  }

  function Touched(t: Table, id: string, now: int): Table {
    if id in t then t[id := t[id].(lastAccessed := now)] else t
  }

  function Kept(t: Table, timeout: int, now: int): Table {
    map id | id in t && now - t[id].lastAccessed <= timeout :: t[id]
  }

  class ResourceManager {
    const limits: Limits
    const resourceTimeout: int
    var resources: Table

    constructor (limits: Limits, resourceTimeout: int)
      ensures this.limits == limits && this.resourceTimeout == resourceTimeout && resources == map[]
    {
      this.limits, this.resourceTimeout, resources := limits, resourceTimeout, map[];
    }

    method CountConnections() returns (count: nat)
      ensures count == |Connections(resources)|
    {
      var todo := resources.Keys;
      ghost var counted: set<string> := {};
      count := 0;
      while todo != {}
        invariant todo <= resources.Keys
        invariant counted == Connections(resources) - todo && count == |counted|
        decreases |todo|
      {
        var id :| id in todo;
        todo := todo - {id};
        if resources[id].kind == Connection {
          counted := counted + {id};
          count := count + 1;
        }
      }
      assert counted == Connections(resources);
    }

    method SumMemory() returns (total: Int64)
      ensures total == Wrap(TotalSize(resources))
    {
      var todo := resources.Keys;
      total := 0;
      assert resources - resources.Keys == map[];
      while todo != {}
        invariant todo <= resources.Keys
        invariant total == Wrap(TotalSize(resources - todo))
        decreases |todo|
      {
        var id :| id in todo;
        ghost var seen := resources - todo;
        TotalWith(seen, id, resources[id]);
        assert resources - (todo - {id}) == seen[id := resources[id]];
        WrapAdd(TotalSize(seen), resources[id].size);
        total := Wrap(total + resources[id].size);
        todo := todo - {id};
      }
      assert resources - {} == resources;
    }

    method CheckResourceLimits(kind: ResourceType, size: Int64) returns (v: Verdict)
      ensures v == Check(resources, limits, kind, size)
      ensures v == TooManyConnections <==>
              && kind == Connection
              && |set id | id in resources && resources[id].kind == Connection| >= limits.maxConnections
      ensures v == OutOfMemory ==> Wrap(TotalSize(resources) + size) > limits.maxMemoryUsage
      ensures v == Granted ==> Wrap(TotalSize(resources) + size) <= limits.maxMemoryUsage
    {
      if kind == Connection {
        var count := CountConnections();
        if count >= limits.maxConnections {
          return TooManyConnections;
        }
      }
      var total := SumMemory();
      WrapAdd(TotalSize(resources), size);
      return if Wrap(total + size) > limits.maxMemoryUsage then OutOfMemory else Granted;
    }

    /** `id` stands for the generated name of the resource. */
    method AllocateResource(id: string, device: string, kind: ResourceType, size: Int64, now: int)
      returns (v: Verdict)
      modifies this
      ensures v == Check(old(resources), limits, kind, size)
      ensures resources == Allocated(old(resources), limits, id, device, kind, size, now)
      ensures resources == if v == Granted then old(resources)[id := Resource(device, kind, size, now, now, 1)]
                           else old(resources)
    {
      v := CheckResourceLimits(kind, size);
      if v.Granted? {
        resources := resources[id := Resource(device, kind, size, now, now, 1)];
      }
    }

    method ReleaseResource(id: string) returns (found: bool)
      modifies this
      ensures resources == Released(old(resources), id) && found == (id in old(resources))
      ensures found ==>
                var r := old(resources)[id];
                resources == if r.refCount <= 1 then old(resources) - {id}
                             else old(resources)[id := r.(refCount := r.refCount - 1)]
    {
      if id !in resources {
        return false;
      }
      resources := resources[id := resources[id].(refCount := resources[id].refCount - 1)];
      if resources[id].refCount <= 0 {
        resources := resources - {id};
      }
      return true;
    }

    method GetResource(id: string, now: int) returns (found: bool)
      modifies this
      ensures resources == Touched(old(resources), id, now) && found == (id in old(resources))
      ensures found ==> resources == old(resources)[id := old(resources)[id].(lastAccessed := now)]
      ensures resources == Step(old(resources), limits, Get(id, now))
    {
      if id !in resources {
        return false;
      }
      resources := resources[id := resources[id].(lastAccessed := now)];
      return true;
    }

    method CleanupExpiredResources(now: int)
      modifies this
      ensures resources == Kept(old(resources), resourceTimeout, now)
      ensures forall id :: id in resources
                           <==> id in old(resources) && now - old(resources)[id].lastAccessed <= resourceTimeout
      ensures forall id :: id in resources ==> resources[id] == old(resources)[id]
    {
      var todo, toRemove := resources.Keys, {};
      while todo != {}
        invariant todo <= resources.Keys && toRemove <= resources.Keys
        invariant resources == old(resources)
        invariant forall id :: id in resources && id !in todo ==>
          (id in toRemove <==> now - resources[id].lastAccessed > resourceTimeout)
        invariant todo !! toRemove
        decreases |todo|
      {
        var id :| id in todo;
        todo := todo - {id};
        if now - resources[id].lastAccessed > resourceTimeout {
          toRemove := toRemove + {id};
        }
      }
      resources := resources - toRemove;
    }
  }

  // ---- runs ----

  datatype Event = Allocate(id: string, device: string, kind: ResourceType, size: Int64, at: int)
                 | Release(id: string)
                 | Get(id: string, at: int)
                 | Cleanup(timeout: int, at: int)

  ghost function Step(t: Table, limits: Limits, e: Event): Table {
    match e
    case Allocate(id, device, kind, size, at) => Allocated(t, limits, id, device, kind, size, at)
    case Release(id) => Released(t, id)
    case Get(id, at) => Touched(t, id, at)
    case Cleanup(timeout, at) => Kept(t, timeout, at)
  }

  ghost function Run(limits: Limits, events: seq<Event>): Table {
    if events == [] then map[] else Step(Run(limits, events[..|events| - 1]), limits, events[|events| - 1])
  }

  function AtLeastZero(x: int): (n: nat)
    ensures x <= 0 ==> n == 0
    ensures x >= 0 ==> n == x
  {
    if x < 0 then 0 else x
  }

  lemma FewerConnections(t: Table, u: Table)
    requires forall id :: id in u ==> id in t && u[id].kind == t[id].kind
    ensures |Connections(u)| <= |Connections(t)|
  {
    SubsetSize(Connections(u), Connections(t));
  }

  lemma AllocateConnections(t: Table, limits: Limits, e: Event)
    requires e.Allocate?
    requires |Connections(t)| <= AtLeastZero(limits.maxConnections)
    ensures |Connections(Step(t, limits, e))| <= AtLeastZero(limits.maxConnections)
  {
    var after := Step(t, limits, e);
    if after != t {
      if e.kind == Connection {
        assert Connections(after) == Connections(t) + {e.id};
      } else {
        assert Connections(after) == Connections(t) - {e.id};
      }
    }
  }

  /** In every reachable state the connection resources number at most the limit, or none if it is negative. */
  lemma {:induction false} ConnectionsWithinLimit(limits: Limits, events: seq<Event>)
    ensures var t := Run(limits, events);
            |set id | id in t && t[id].kind == Connection|
            <= if limits.maxConnections < 0 then 0 else limits.maxConnections
  {
    if events == [] {
      assert Connections(map[]) == {};
    } else {
      var before, e := events[..|events| - 1], events[|events| - 1];
      ConnectionsWithinLimit(limits, before);
      if e.Allocate? {
        AllocateConnections(Run(limits, before), limits, e);
      } else {
        FewerConnections(Run(limits, before), Run(limits, events));
      }
    }
  }

  // ---- the memory budget ----

  ghost predicate Sound(t: Table) {
    forall id :: id in t ==> t[id].size >= 0 && t[id].refCount == 1
  }

  ghost predicate WithinBudget(t: Table, limits: Limits) {
    TotalSize(t) <= AtLeastZero(limits.maxMemoryUsage)
  }

  lemma {:induction false} PartIsSmaller(t: Table, u: Table)
    requires Sound(t)
    requires forall id :: id in u ==> id in t && u[id].size == t[id].size
    ensures 0 <= TotalSize(u) <= TotalSize(t)
    decreases |t|
  {
    if t == map[] {
      assert u == map[];
    } else {
      var id :| id in t;
      TotalWithout(t, id);
      if id in u {
        TotalWithout(u, id);
      }
      PartIsSmaller(t - {id}, u - {id});
      if id !in u {
        assert u - {id} == u;
      }
    }
  }

  /** One allocation under a fresh ID keeps the budget exactly when it is refused for the number of connections or its
      exact sum fits 64 bits. */
  lemma AllocationKeepsBudget(t: Table, limits: Limits, e: Event)
    requires Sound(t) && WithinBudget(t, limits)
    requires e.Allocate? && e.id !in t && e.size >= 0
    ensures WithinBudget(Step(t, limits, e), limits)
            <==> Check(t, limits, e.kind, e.size).TooManyConnections? || TotalSize(t) + e.size < TWO_63
  {
    PartIsSmaller(t, t);
    if TotalSize(t) + e.size >= TWO_63 {
      OverflowIsNeverRefused(t, limits, e.kind, e.size);
    }
    if Check(t, limits, e.kind, e.size).Granted? {
      TotalWith(t, e.id, Resource(e.device, e.kind, e.size, e.at, e.at, 1));
    }
  }

  /** Beyond 63 bits the sum turns negative, and a budget that was kept never refuses it. */
  lemma OverflowIsNeverRefused(t: Table, limits: Limits, kind: ResourceType, size: Int64)
    requires Sound(t) && WithinBudget(t, limits)
    requires size >= 0 && TotalSize(t) + size >= TWO_63
    ensures Wrap(TotalSize(t) + size) < 0
    ensures !Check(t, limits, kind, size).OutOfMemory?
  {
    PartIsSmaller(t, t);
    WrapShift(TotalSize(t) + size - 2 * TWO_63, 1);
  }

  ghost predicate Fresh(limits: Limits, events: seq<Event>) {
    forall i :: 0 <= i < |events| && events[i].Allocate? ==>
      events[i].size >= 0 && events[i].id !in Run(limits, events[..i])
  }

  /** An allocation within the number of connections whose exact sum is 2^63 or more. */
  ghost predicate Overflows(t: Table, limits: Limits, e: Event) {
    e.Allocate? && !Check(t, limits, e.kind, e.size).TooManyConnections? && TotalSize(t) + e.size >= TWO_63
  }

  ghost predicate NeverOverflows(limits: Limits, events: seq<Event>) {
    forall i :: 0 <= i < |events| ==> !Overflows(Run(limits, events[..i]), limits, events[i])
  }

  ghost predicate AlwaysWithinBudget(limits: Limits, events: seq<Event>) {
    forall i :: 0 <= i <= |events| ==> WithinBudget(Run(limits, events[..i]), limits)
  }

  lemma NeverOverflowsUnfolds(limits: Limits, events: seq<Event>, n: nat)
    requires |events| == n + 1
    ensures NeverOverflows(limits, events)
            <==> NeverOverflows(limits, events[..n]) && !Overflows(Run(limits, events[..n]), limits, events[n])
  {
    hide Run, Overflows;
    assert forall i :: 0 <= i < n ==> events[..n][..i] == events[..i] && events[..n][i] == events[i];
  }

  lemma AlwaysWithinBudgetUnfolds(limits: Limits, events: seq<Event>, n: nat)
    requires |events| == n + 1
    ensures AlwaysWithinBudget(limits, events)
            <==> AlwaysWithinBudget(limits, events[..n]) && WithinBudget(Run(limits, events), limits)
  {
    hide Run, WithinBudget;
    assert events[..n + 1] == events;
    assert forall i :: 0 <= i <= n ==> events[..n][..i] == events[..i];
  }

  lemma {:induction false} RunKeepsSound(limits: Limits, events: seq<Event>)
    requires Fresh(limits, events)
    ensures Sound(Run(limits, events))
  {
    hide Check;
    if events != [] {
      var before := events[..|events| - 1];
      FreshPrefix(limits, events, |before|);
      RunKeepsSound(limits, before);
      assert events[|before|].Allocate? ==> events[|before|].size >= 0;
    }
  }

  lemma FreshPrefix(limits: Limits, events: seq<Event>, n: nat)
    requires Fresh(limits, events) && n <= |events|
    ensures Fresh(limits, events[..n])
  {
    forall i | 0 <= i < n && events[i].Allocate?
      ensures events[i].size >= 0 && events[i].id !in Run(limits, events[..n][..i])
    {
      assert events[..n][..i] == events[..i];
    }
  }

  lemma StepKeepsBudget(t: Table, limits: Limits, e: Event)
    requires Sound(t) && WithinBudget(t, limits)
    requires e.Allocate? ==> e.id !in t && e.size >= 0
    ensures WithinBudget(Step(t, limits, e), limits) <==> !Overflows(t, limits, e)
  {
    if e.Allocate? {
      AllocationKeepsBudget(t, limits, e);
    } else {
      PartIsSmaller(t, Step(t, limits, e));
    }
  }

  lemma LastStepKeepsBudget(limits: Limits, events: seq<Event>, n: nat)
    requires |events| == n + 1 && Fresh(limits, events)
    requires WithinBudget(Run(limits, events[..n]), limits)
    ensures WithinBudget(Run(limits, events), limits) <==> !Overflows(Run(limits, events[..n]), limits, events[n])
  {
    hide Overflows, WithinBudget, Step;
    FreshPrefix(limits, events, n);
    RunKeepsSound(limits, events[..n]);
    StepKeepsBudget(Run(limits, events[..n]), limits, events[n]);
  }

  /** A run keeps the sizes within the budget throughout exactly when no allocation that gets to the memory test
      overflows 64 bits. */
  lemma {:induction false} BudgetIffNoOverflow(limits: Limits, events: seq<Event>)
    requires Fresh(limits, events)
    ensures AlwaysWithinBudget(limits, events) <==> NeverOverflows(limits, events)
  {
    hide Overflows, WithinBudget, Fresh;
    if events == [] {
      EmptyWithinBudget(limits);
    } else {
      var n := |events| - 1;
      FreshPrefix(limits, events, n);
      BudgetIffNoOverflow(limits, events[..n]);
      NeverOverflowsUnfolds(limits, events, n);
      AlwaysWithinBudgetUnfolds(limits, events, n);
      if AlwaysWithinBudget(limits, events[..n]) {
        assert events[..n][..n] == events[..n];
        LastStepKeepsBudget(limits, events, n);
      }
    }
  }

  lemma EmptyWithinBudget(limits: Limits)
    ensures AlwaysWithinBudget(limits, [])
  {
  }

  /** A budget that leaves room in 64 bits for the largest request is never broken. */
  lemma {:induction false} RoomySizesKeepBudget(limits: Limits, events: seq<Event>)
    requires Fresh(limits, events)
    requires forall i :: 0 <= i < |events| && events[i].Allocate? ==>
               AtLeastZero(limits.maxMemoryUsage) + events[i].size < TWO_63
    ensures AlwaysWithinBudget(limits, events)
  {
    if events == [] {
      EmptyWithinBudget(limits);
    } else {
      var n := |events| - 1;
      FreshPrefix(limits, events, n);
      RoomySizesKeepBudget(limits, events[..n]);
      AlwaysWithinBudgetUnfolds(limits, events, n);
      assert events[..n][..n] == events[..n];
      RoomStops(Run(limits, events[..n]), limits, events[n]);
      LastStepKeepsBudget(limits, events, n);
    }
  }

  lemma RoomStops(t: Table, limits: Limits, e: Event)
    requires WithinBudget(t, limits)
    requires e.Allocate? ==> AtLeastZero(limits.maxMemoryUsage) + e.size < TWO_63
    ensures !Overflows(t, limits, e)
  {
  }

  /** Releasing a fresh resource restores the table. */
  lemma ReleaseUndoesAllocate(t: Table, limits: Limits, id: string, device: string, kind: ResourceType, size: Int64,
                              now: int)
    requires id !in t
    ensures Released(Allocated(t, limits, id, device, kind, size, now), id) == t
  {
    var u := Allocated(t, limits, id, device, kind, size, now);
    assert id in u ==> u - {id} == t;
  }

  /** The largest budget, once full, admits one more byte. */
  lemma FullBudgetAdmitsMore(id: string, other: string)
    requires id != other
    ensures
      var limits := Limits(1, TWO_63 - 1);
      var full := Allocated(map[], limits, id, "device", Buffer, TWO_63 - 1, 0);
      var more := Allocated(full, limits, other, "device", Buffer, 1, 1);
      id in full && other in more && TotalSize(more) == TWO_63 > limits.maxMemoryUsage
  {
    var limits := Limits(1, TWO_63 - 1);
    var first, second := Resource("device", Buffer, TWO_63 - 1, 0, 0, 1), Resource("device", Buffer, 1, 1, 1, 1);
    TotalWith(map[], id, first);
    TotalWith(map[id := first], other, second);
  }
}
