/** Pooled connections and the strategies that choose among them. */
module LoadBalancer {
  import opened Wrappers

  const TWO_TO_64 := 0x1_0000_0000_0000_0000
  const MAX_UINT64 := TWO_TO_64 - 1

  type Uint64 = n: int | 0 <= n < TWO_TO_64

  datatype Connection = Connection(id: string, deviceID: string)

  datatype PooledConnection = PooledConnection(conn: Connection, priority: int, createdAt: int, lastUsed: int,
                                               useCount: Uint64, weight: int, healthScore: real)

  /** Go's increment of a uint64 counter. */
  function Incremented(n: Uint64): Uint64 {
    (n + 1) % TWO_TO_64
  }

  // ---- weighted selection ----

  /** Sum of the first n weights. */
  function Prefix(weights: seq<int>, n: nat): int
    requires n <= |weights|
  {
    if n == 0 then 0 else Prefix(weights, n - 1) + weights[n - 1]
  }

  /** The first entry, from position i, whose cumulated weight exceeds the draw; past the end, entry 0. */
  function PickFrom(weights: seq<int>, draw: int, i: nat): nat
    requires i <= |weights|
    decreases |weights| - i
  {
    if i == |weights| then 0
    else if draw < Prefix(weights, i + 1) then i
    else PickFrom(weights, draw, i + 1)
  }

  class WeightedBalancer {
    var weights: map<string, int>

    constructor ()
      ensures weights == map[] && Valid()
    {
      weights := map[];
    }

    ghost predicate Valid()
      reads this
    {
      forall id :: id in weights ==> weights[id] > 0
    }

    method UpdateWeight(deviceID: string, weight: int)
      requires Valid()
      modifies this
      ensures Valid()
      ensures weights == if weight <= 0 then old(weights) - {deviceID} else old(weights)[deviceID := weight]
      ensures forall id :: id in weights ==> weights[id] > 0
    {
      if weight <= 0 {
        weights := weights - {deviceID};
      } else {
        weights := weights[deviceID := weight];
      }
    }

    /** The configured weight of the device, or else the connection's own. */
    function WeightOf(c: PooledConnection): int
      reads this
    {
      if c.conn.deviceID in weights then weights[c.conn.deviceID] else c.weight
    }

    function WeightsOf(cs: seq<PooledConnection>): (ws: seq<int>)
      reads this
      ensures |ws| == |cs|
      ensures forall i :: 0 <= i < |cs| ==>
                ws[i] == if cs[i].conn.deviceID in weights then weights[cs[i].conn.deviceID] else cs[i].weight
    {
      seq(|cs|, i requires 0 <= i < |cs| reads this => WeightOf(cs[i]))
    }

    /** `draw(n)` is the random number below n; Go's generator demands n > 0. */
    method Select(cs: seq<PooledConnection>, draw: int -> int) returns (r: Option<nat>)
      requires Prefix(WeightsOf(cs), |cs|) >= 0
      requires forall n :: n > 0 ==> 0 <= draw(n) < n
      ensures r.None? <==> cs == []
      ensures r.Some? ==> r.value < |cs|
      ensures var total := Prefix(WeightsOf(cs), |cs|);
              cs != [] ==> r.value == if total == 0 then draw(|cs|) else PickFrom(WeightsOf(cs), draw(total), 0)
    {
      if |cs| == 0 {
        return None;
      }
      ghost var ws := WeightsOf(cs);
      var total := 0;
      for i := 0 to |cs|
        invariant total == Prefix(ws, i)
      {
        total := total + WeightOf(cs[i]);
      }
      if total == 0 {
        return Some(draw(|cs|));
      }
      var random := draw(total);
      var current := 0;
      for i := 0 to |cs|
        invariant current == Prefix(ws, i)
        invariant PickFrom(ws, random, 0) == PickFrom(ws, random, i)
      {
        current := current + WeightOf(cs[i]);
        if random < current {
          return Some(i);
        }
      }
      return Some(0);
    }
  }

  ghost predicate NonNegative(weights: seq<int>) {
    forall i :: 0 <= i < |weights| ==> weights[i] >= 0
  }

  lemma {:induction false} PrefixGrows(weights: seq<int>, i: nat, j: nat)
    requires NonNegative(weights) && i <= j <= |weights|
    ensures Prefix(weights, i) <= Prefix(weights, j)
    decreases j
  {
    if i < j {
      PrefixGrows(weights, i, j - 1);
    }
  }

  /** A draw selects entry i exactly when it falls into that entry's slice; it never falls through. */
  lemma {:induction false} PickIsSlice(weights: seq<int>, draw: int, from: nat, i: nat)
    requires NonNegative(weights) && from <= |weights| && i < |weights|
    requires Prefix(weights, from) <= draw < Prefix(weights, |weights|)
    ensures PickFrom(weights, draw, from) < |weights|
    ensures PickFrom(weights, draw, from) == i <==> Prefix(weights, i) <= draw < Prefix(weights, i + 1)
    decreases |weights| - from
  {
    if draw < Prefix(weights, from + 1) {
      if i < from {
        PrefixGrows(weights, i + 1, from);
      } else if i > from {
        PrefixGrows(weights, from + 1, i);
      }
    } else {
      PickIsSlice(weights, draw, from + 1, i);
    }
  }

  function Interval(lo: int, hi: int): (s: set<int>)
    requires lo <= hi
    ensures |s| == hi - lo
    ensures forall x :: x in s <==> lo <= x < hi
    decreases hi - lo
  {
    if lo == hi then {} else Interval(lo, hi - 1) + {hi - 1}
  }

  /** The draws that select entry i. */
  function Draws(weights: seq<int>, i: nat): set<int>
    requires Prefix(weights, |weights|) >= 0
  {
    set r | r in Interval(0, Prefix(weights, |weights|)) && PickFrom(weights, r, 0) == i
  }

  /** Of the possible draws, exactly as many select an entry as its weight says. */
  lemma WeightedSelectionIsExact(weights: seq<int>, i: nat)
    requires (forall j :: 0 <= j < |weights| ==> weights[j] >= 0) && i < |weights|
    ensures Prefix(weights, |weights|) >= 0
    ensures |Draws(weights, i)| == weights[i]
  {
    PrefixGrows(weights, 0, |weights|);
    PrefixGrows(weights, 0, i);
    PrefixGrows(weights, i + 1, |weights|);
    var slice := Interval(Prefix(weights, i), Prefix(weights, i + 1));
    forall r
      ensures r in Draws(weights, i) <==> r in slice
    {
      if 0 <= r < Prefix(weights, |weights|) {
        PickIsSlice(weights, r, 0, i);
      }
    }
    assert Draws(weights, i) == slice;
  }

  /** The fallback to the first entry is never reached: the chosen entry's slice holds the draw, so its
      weight is positive. */
  lemma FallbackUnreachable(weights: seq<int>, draw: int)
    requires NonNegative(weights) && 0 <= draw < Prefix(weights, |weights|)
    ensures var i := PickFrom(weights, draw, 0);
            i < |weights| && Prefix(weights, i) <= draw < Prefix(weights, i + 1) && weights[i] > 0
  {
    PickIsSlice(weights, draw, 0, 0);
    PickIsSlice(weights, draw, 0, PickFrom(weights, draw, 0));
  }

  // ---- round-robin selection ----

  /** The entry whose turn it is in a list of n; the list may have shrunk since the last selection. */
  function Turn(current: nat, n: nat): nat {
    if current >= n then 0 else current
  }

  class RoundRobinBalancer {
    var current: nat

    constructor ()
      ensures current == 0
    {
      current := 0;
    }

    method Select(connections: seq<PooledConnection>) returns (r: Option<nat>)
      modifies this
      ensures r == if connections == [] then None else Some(Turn(old(current), |connections|))
      ensures current == if connections == [] then old(current) else Turn(old(current), |connections|) + 1
      ensures r.Some? ==> r.value == if old(current) < |connections| then old(current) else 0
      ensures r.Some? ==> current == r.value + 1
    {
      if |connections| == 0 {
        return None;
      }
      if current >= |connections| {
        current := 0;
      }
      r := Some(current);
      current := current + 1;
    }
  }

  /** The k-th selection from a list that keeps its length. */
  function TurnAt(current: nat, n: nat, k: nat): nat {
    if k == 0 then Turn(current, n) else Turn(TurnAt(current, n, k - 1) + 1, n)
  }

  lemma {:induction false} TurnsRotate(current: nat, n: nat, k: nat, d: nat)
    requires d < n
    ensures TurnAt(current, n, k) < n
    ensures var t := TurnAt(current, n, k) + d;
            TurnAt(current, n, k + d) == if t < n then t else t - n
  {
    if d == 0 {
      TurnBelow(current, n, k);
    } else {
      TurnsRotate(current, n, k, d - 1);
    }
  }

  lemma {:induction false} TurnBelow(current: nat, n: nat, k: nat)
    requires n > 0
    ensures TurnAt(current, n, k) < n
  {
    if k > 0 {
      TurnBelow(current, n, k - 1);
    }
  }

  /** Of any n selections in a row each of the n entries gets exactly one. */
  lemma EachGetsOneTurn(current: nat, n: nat, k: nat, i: nat) returns (turn: nat)
    requires i < n
    ensures k <= turn < k + n
    ensures forall j: nat :: k <= j < k + n ==> (TurnAt(current, n, j) == i <==> j == turn)
  {
    TurnBelow(current, n, k);
    var t := TurnAt(current, n, k);
    turn := k + if i >= t then i - t else i - t + n;
    forall j: nat | k <= j < k + n
      ensures TurnAt(current, n, j) == i <==> j == turn
    {
      TurnsRotate(current, n, k, j - k);
      assert k + (j - k) == j;
    }
  }

  // ---- least-used selection ----

  /** The loop's strict comparison starts at the largest uint64, so a list of saturated counters selects nothing. */
  method SelectLeastUsed(cs: seq<PooledConnection>) returns (r: Option<nat>)
    ensures r.None? <==> forall i :: 0 <= i < |cs| ==> cs[i].useCount == MAX_UINT64
    ensures r.Some? ==> r.value < |cs| && forall i :: 0 <= i < |cs| ==>
              cs[r.value].useCount <= cs[i].useCount && (i < r.value ==> cs[r.value].useCount < cs[i].useCount)
  {
    r := None;
    var least := MAX_UINT64;
    for i := 0 to |cs|
      invariant r.None? ==> least == MAX_UINT64
      invariant r.Some? ==> r.value < i && cs[r.value].useCount == least < MAX_UINT64
      invariant forall j :: 0 <= j < i ==> least <= cs[j].useCount
      invariant r.Some? ==> forall j :: 0 <= j < r.value ==> least < cs[j].useCount
    {
      if cs[i].useCount < least {
        least := cs[i].useCount;
        r := Some(i);
      }
    }
  }

  /** Some least-used entry of the counts. */
  predicate IsLeast(counts: seq<nat>, i: nat) {
    i < |counts| && forall j :: 0 <= j < |counts| ==> counts[i] <= counts[j]
  }

  /** A run of least-used selections over a fixed set; ties are broken in any way. */
  predicate LeastUsedRun(counts: seq<nat>, picks: seq<nat>)
    decreases |picks|
  {
    picks == []
    || (IsLeast(counts, picks[0]) && LeastUsedRun(counts[picks[0] := counts[picks[0]] + 1], picks[1..]))
  }

  function Counted(counts: seq<nat>, picks: seq<nat>): (after: seq<nat>)
    requires LeastUsedRun(counts, picks)
    ensures |after| == |counts|
    decreases |picks|
  {
    if picks == [] then counts else Counted(counts[picks[0] := counts[picks[0]] + 1], picks[1..])
  }

  ghost predicate SpreadAtMost(counts: seq<nat>, d: int) {
    forall i, j :: 0 <= i < |counts| && 0 <= j < |counts| ==> counts[i] - counts[j] <= d
  }

  /** Along a run the gap between the most and the least used never exceeds one or what it was at first. */
  lemma {:induction false} SpreadNeverGrows(counts: seq<nat>, picks: seq<nat>, d: int)
    requires LeastUsedRun(counts, picks) && SpreadAtMost(counts, d) && d >= 1
    ensures SpreadAtMost(Counted(counts, picks), d)
    decreases |picks|
  {
    if picks != [] {
      SpreadNeverGrows(counts[picks[0] := counts[picks[0]] + 1], picks[1..], d);
    }
  }

  function Sum(counts: seq<nat>): nat {
    if counts == [] then 0 else Sum(counts[..|counts| - 1]) + counts[|counts| - 1]
  }

  lemma {:induction false} SumBump(counts: seq<nat>, i: nat)
    requires i < |counts|
    ensures Sum(counts[i := counts[i] + 1]) == Sum(counts) + 1
  {
    var n := |counts| - 1;
    var bumped := counts[i := counts[i] + 1];
    if i < n {
      SumBump(counts[..n], i);
      assert bumped[..n] == counts[..n][i := counts[i] + 1];
    } else {
      assert bumped[..n] == counts[..n];
    }
  }

  lemma {:induction false} SumOfRun(counts: seq<nat>, picks: seq<nat>)
    requires LeastUsedRun(counts, picks)
    ensures Sum(Counted(counts, picks)) == Sum(counts) + |picks|
    decreases |picks|
  {
    if picks != [] {
      SumBump(counts, picks[0]);
      SumOfRun(counts[picks[0] := counts[picks[0]] + 1], picks[1..]);
    }
  }

  lemma TimesPredecessor(n: nat, x: nat)
    requires n > 0
    ensures n * x == (n - 1) * x + x
  {}

  lemma {:induction false} SumAtMost(counts: seq<nat>, hi: nat)
    requires forall j :: 0 <= j < |counts| ==> counts[j] <= hi
    ensures Sum(counts) <= |counts| * hi
  {
    if counts != [] {
      TimesPredecessor(|counts|, hi);
      SumAtMost(counts[..|counts| - 1], hi);
    }
  }

  lemma {:induction false} SumAbove(counts: seq<nat>, lo: nat, i: nat)
    requires i < |counts| && counts[i] > lo && forall j :: 0 <= j < |counts| ==> lo <= counts[j]
    ensures Sum(counts) > |counts| * lo
  {
    var n := |counts| - 1;
    TimesPredecessor(|counts|, lo);
    if i < n {
      SumAbove(counts[..n], lo, i);
    } else {
      SumAtLeast(counts[..n], lo);
    }
  }

  lemma {:induction false} SumAtLeast(counts: seq<nat>, lo: nat)
    requires forall j :: 0 <= j < |counts| ==> lo <= counts[j]
    ensures Sum(counts) >= |counts| * lo
  {
    if counts != [] {
      TimesPredecessor(|counts|, lo);
      SumAtLeast(counts[..|counts| - 1], lo);
    }
  }

  lemma {:induction false} SumBelow(counts: seq<nat>, hi: nat, i: nat)
    requires i < |counts| && counts[i] < hi && forall j :: 0 <= j < |counts| ==> counts[j] <= hi
    ensures Sum(counts) < |counts| * hi
  {
    var n := |counts| - 1;
    TimesPredecessor(|counts|, hi);
    if i < n {
      SumBelow(counts[..n], hi, i);
    } else {
      SumAtMost(counts[..n], hi);
    }
  }

  lemma Distributes(n: nat, c: nat, k: nat)
    ensures n * c + n * k == n * (c + k)
  {}

  /** Counts that differ by at most one and average to a whole number are all equal to it. */
  lemma AverageIsShared(counts: seq<nat>, x: nat, i: nat)
    requires i < |counts| && SpreadAtMost(counts, 1) && Sum(counts) == |counts| * x
    ensures counts[i] == x
  {
    hide Sum;
    if counts[i] > x {
      assert forall j :: 0 <= j < |counts| ==> counts[i] <= counts[j] + 1;
      SumAbove(counts, x, i);
    } else if counts[i] < x {
      assert forall j :: 0 <= j < |counts| ==> counts[j] <= counts[i] + 1;
      SumBelow(counts, x, i);
    }
  }

  lemma SumOfEqual(counts: seq<nat>, c: nat)
    requires forall i :: 0 <= i < |counts| ==> counts[i] == c
    ensures Sum(counts) == |counts| * c
  {
    SumAtLeast(counts, c);
    SumAtMost(counts, c);
  }

  /** n*k selections from equal counts give every one of the n connections exactly k more. */
  lemma EqualShares(counts: seq<nat>, picks: seq<nat>, c: nat, k: nat)
    requires LeastUsedRun(counts, picks) && |picks| == |counts| * k
    requires forall i :: 0 <= i < |counts| ==> counts[i] == c
    ensures forall i :: 0 <= i < |counts| ==> Counted(counts, picks)[i] == c + k
  {
    hide LeastUsedRun, Counted, Sum;
    var after := Counted(counts, picks);
    SpreadNeverGrows(counts, picks, 1);
    SumOfRun(counts, picks);
    SumOfEqual(counts, c);
    Distributes(|counts|, c, k);
    forall i | 0 <= i < |after|
      ensures after[i] == c + k
    {
      AverageIsShared(after, c + k, i);
    }
  }
}
