/** The throttled alert handler: a per-key log of forwarded alerts, pruned to a sliding window. */
module AlertThrottle {
  import opened Collections

  /** The log lines younger than the cutoff, in order. */
  function After(log: seq<int>, cutoff: int): seq<int> {
    if log == [] then []
    else
      var older := After(log[..|log| - 1], cutoff);
      if log[|log| - 1] > cutoff then older + [log[|log| - 1]] else older
  }

  lemma AfterAppend(log: seq<int>, t: int, cutoff: int)
    ensures After(log + [t], cutoff) == if t > cutoff then After(log, cutoff) + [t] else After(log, cutoff)
  {
    assert (log + [t])[..|log|] == log;
  }

  lemma {:induction false} AfterTwice(log: seq<int>, early: int, late: int)
    requires early <= late
    ensures After(After(log, early), late) == After(log, late)
    ensures |After(log, late)| <= |After(log, early)|
  {
    if log != [] {
      var front, t := log[..|log| - 1], log[|log| - 1];
      AfterTwice(front, early, late);
      AfterAppend(After(front, early), t, late);
    }
  }

  /** Exactly the lines after the cutoff are left. */
  lemma {:induction false} AfterIsLater(log: seq<int>, cutoff: int)
    ensures forall t :: t in After(log, cutoff) <==> t in log && t > cutoff
  {
    if log != [] {
      var front, t := log[..|log| - 1], log[|log| - 1];
      AfterIsLater(front, cutoff);
      assert log == front + [t];
    }
  }

  // ---- the handler ----

  type Logs = map<string, seq<int>>

  function Lookup(logs: Logs, key: string): seq<int> {
    if key in logs then logs[key] else []
  }

  function AlertKey(rule: string, component: string): string {
    rule + "_" + component
  }

  /** Two pairs of a rule and a component share a log exactly when what stands between the shorter rule and its
      underscore in the longer one stands before an underscore in the other component; so never when no rule has an
      underscore. */
  lemma SharedKeyIff(rule: string, component: string, other: string, its: string)
    requires |rule| >= |other|
    ensures AlertKey(rule, component) == AlertKey(other, its)
            <==> || (rule == other && component == its)
                 || (exists x :: rule == other + "_" + x && its == x + "_" + component)
    ensures '_' !in rule && AlertKey(rule, component) == AlertKey(other, its) ==> rule == other && component == its
  {
    var n := |other|;
    var k, m := AlertKey(rule, component), AlertKey(other, its);
    if k == m {
      assert rule[..n] == k[..n] == m[..n] == other;
      if |rule| == n {
        assert component == k[n + 1..] == m[n + 1..] == its;
      } else {
        assert rule[n] == k[n] == m[n] == '_';
        var x := rule[n + 1..];
        assert rule == other + "_" + x;
        assert its == m[n + 1..] == k[n + 1..] == x + "_" + component;
      }
    }
    if x :| rule == other + "_" + x && its == x + "_" + component {
      assert k == other + "_" + x + "_" + component == m;
    }
  }

  /** The rule a_b of component c and the rule a of component b_c are throttled together. */
  lemma KeysCollide()
    ensures AlertKey("a_b", "c") == AlertKey("a", "b_c")
  {
  }

  /** One alert of a key: prune the key's log, then forward and log it unless the log is full. */
  function HandleStep(window: int, maxAlerts: int, logs: Logs, key: string, now: int): (Logs, bool) {
    var recent := After(Lookup(logs, key), now - window);
    if |recent| >= maxAlerts then (logs[key := recent], false) else (logs[key := recent + [now]], true)
  }

  class ThrottledAlertHandler {
    const window: int
    const maxAlerts: int
    var logs: Logs

    constructor (window: int, maxAlerts: int)
      ensures this.window == window && this.maxAlerts == maxAlerts && logs == map[]
    {
      this.window, this.maxAlerts, logs := window, maxAlerts, map[];
    }

    method CleanupOldTimestamps(key: string, now: int)
      modifies this
      ensures logs == old(logs)[key := After(Lookup(old(logs), key), now - window)]
      ensures forall t :: t in logs[key] <==> key in old(logs) && t in old(logs)[key] && t > now - window
    {
      var timestamps := Lookup(logs, key);
      var cutoff := now - window;
      var valid := [];
      for i := 0 to |timestamps|
        invariant valid == After(timestamps[..i], cutoff) && logs == old(logs)
      {
        AfterAppend(timestamps[..i], timestamps[i], cutoff);
        assert timestamps[..i + 1] == timestamps[..i] + [timestamps[i]];
        if timestamps[i] > cutoff {
          valid := valid + [timestamps[i]];
        }
      }
      assert timestamps[..|timestamps|] == timestamps;
      AfterIsLater(timestamps, cutoff);
      logs := logs[key := valid];
    }

    /** Whether the alert is passed on to the wrapped handler. */
    method Handle(rule: string, component: string, now: int) returns (forwarded: bool)
      modifies this
      ensures (logs, forwarded) == HandleStep(window, maxAlerts, old(logs), AlertKey(rule, component), now)
      ensures var key := rule + "_" + component;
              && (forall other :: other != key ==> (other in logs <==> other in old(logs))
                                                   && (other in logs ==> logs[other] == old(logs)[other]))
              && var recent := After(Lookup(old(logs), key), now - window);
                 && (forwarded <==> |recent| < maxAlerts)
                 && key in logs && logs[key] == if forwarded then recent + [now] else recent
    {
      var key := AlertKey(rule, component);
      CleanupOldTimestamps(key, now);
      if |logs[key]| >= maxAlerts {
        return false;
      }
      ghost var recent := logs[key];
      logs := logs[key := logs[key] + [now]];
      assert logs == old(logs)[key := recent + [now]];
      return true;
    }
  }

  // ---- runs ----

  datatype Alert = Alert(key: string, at: int)

  function Run(window: int, maxAlerts: int, alerts: seq<Alert>): Logs {
    if alerts == [] then map[]
    else
      var last := alerts[|alerts| - 1];
      HandleStep(window, maxAlerts, Run(window, maxAlerts, alerts[..|alerts| - 1]), last.key, last.at).0
  }

  predicate Forwarded(window: int, maxAlerts: int, alerts: seq<Alert>, i: nat)
    requires i < |alerts|
  {
    HandleStep(window, maxAlerts, Run(window, maxAlerts, alerts[..i]), alerts[i].key, alerts[i].at).1
  }

  /** The times of all forwarded alerts of one key: the history the handler does not keep. */
  function History(window: int, maxAlerts: int, alerts: seq<Alert>, key: string): seq<int> {
    if alerts == [] then []
    else
      var n := |alerts| - 1;
      var before := History(window, maxAlerts, alerts[..n], key);
      if alerts[n].key == key && Forwarded(window, maxAlerts, alerts, n) then before + [alerts[n].at] else before
  }

  predicate Monotone(alerts: seq<Alert>) {
    forall i, j :: 0 <= i < j < |alerts| ==> alerts[i].at <= alerts[j].at
  }

  lemma PrefixMonotone(alerts: seq<Alert>, n: nat)
    requires Monotone(alerts) && n <= |alerts|
    ensures Monotone(alerts[..n])
  {}

  /** The pruned log and the full history agree on everything a present or later call can ask for. */
  lemma {:induction false} PrunedLogAgrees(window: int, maxAlerts: int, alerts: seq<Alert>, key: string, cutoff: int)
    requires Monotone(alerts)
    requires alerts != [] ==> alerts[|alerts| - 1].at - window <= cutoff
    ensures After(Lookup(Run(window, maxAlerts, alerts), key), cutoff)
         == After(History(window, maxAlerts, alerts, key), cutoff)
    decreases |alerts|
  {
    hide After;
    if alerts != [] {
      var n := |alerts| - 1;
      var last, front := alerts[n], alerts[..n];
      PrefixMonotone(alerts, n);
      PrunedLogAgrees(window, maxAlerts, front, key, cutoff);
      var log, history := Lookup(Run(window, maxAlerts, front), key), History(window, maxAlerts, front, key);
      AfterTwice(log, last.at - window, cutoff);
      AfterAppend(After(log, last.at - window), last.at, cutoff);
      AfterAppend(history, last.at, cutoff);
    }
  }

  /** The forwarded alerts of a key among the first n that are later than the cutoff. */
  ghost function Later(window: int, maxAlerts: int, alerts: seq<Alert>, n: nat, key: string, cutoff: int): set<nat>
    requires n <= |alerts|
  {
    set j: nat | j < n && alerts[j].key == key && Forwarded(window, maxAlerts, alerts, j) && alerts[j].at > cutoff
  }

  /** Alert j of a key was forwarded. */
  predicate Logged(window: int, maxAlerts: int, alerts: seq<Alert>, j: nat, key: string)
    requires j < |alerts|
  {
    alerts[j].key == key && Forwarded(window, maxAlerts, alerts, j)
  }

  lemma HistoryOneMore(window: int, maxAlerts: int, alerts: seq<Alert>, n: nat, key: string)
    requires n < |alerts|
    ensures History(window, maxAlerts, alerts[..n + 1], key)
         == History(window, maxAlerts, alerts[..n], key)
            + if Logged(window, maxAlerts, alerts, n, key) then [alerts[n].at] else []
  {
    hide Forwarded;
    assert alerts[..n + 1][..n] == alerts[..n];
    SameForwarded(window, maxAlerts, alerts, n + 1, n);
  }

  lemma LaterOneMore(window: int, maxAlerts: int, alerts: seq<Alert>, n: nat, key: string, cutoff: int)
    requires n < |alerts|
    ensures |Later(window, maxAlerts, alerts, n + 1, key, cutoff)|
         == |Later(window, maxAlerts, alerts, n, key, cutoff)|
            + if Logged(window, maxAlerts, alerts, n, key) && alerts[n].at > cutoff then 1 else 0
  {
    hide Forwarded;
    var before, after := Later(window, maxAlerts, alerts, n, key, cutoff),
                         Later(window, maxAlerts, alerts, n + 1, key, cutoff);
    assert after == before + (if n in after then {n} else {});
  }

  lemma {:induction false} HistoryCounts(window: int, maxAlerts: int, alerts: seq<Alert>, n: nat, key: string,
                                         cutoff: int)
    requires n <= |alerts|
    ensures |After(History(window, maxAlerts, alerts[..n], key), cutoff)|
         == |Later(window, maxAlerts, alerts, n, key, cutoff)|
  {
    if n == 0 {
      NothingAfter(cutoff);
      assert Later(window, maxAlerts, alerts, 0, key, cutoff) == {};
    } else {
      hide After, History, Logged, Later;
      HistoryCounts(window, maxAlerts, alerts, n - 1, key, cutoff);
      HistoryOneMore(window, maxAlerts, alerts, n - 1, key);
      LaterOneMore(window, maxAlerts, alerts, n - 1, key, cutoff);
      AfterOneMore(History(window, maxAlerts, alerts[..n - 1], key), alerts[n - 1].at, cutoff,
                   Logged(window, maxAlerts, alerts, n - 1, key));
    }
  }

  lemma AfterOneMore(log: seq<int>, t: int, cutoff: int, logged: bool)
    ensures |After(log + if logged then [t] else [], cutoff)|
         == |After(log, cutoff)| + if logged && t > cutoff then 1 else 0
  {
    AfterAppend(log, t, cutoff);
    assert log + [] == log;
    hide After;
  }

  lemma NothingAfter(cutoff: int)
    ensures After([], cutoff) == []
  {
  }

  lemma SameForwarded(window: int, maxAlerts: int, alerts: seq<Alert>, n: nat, j: nat)
    requires j < n <= |alerts|
    ensures Forwarded(window, maxAlerts, alerts[..n], j) == Forwarded(window, maxAlerts, alerts, j)
  {
    assert alerts[..n][..j] == alerts[..j];
  }

  /** An alert is dropped exactly when the forwarded alerts of its key in the window that ends with it are as many as
      allowed. */
  lemma DroppedOnlyWhenFull(window: int, maxAlerts: int, alerts: seq<Alert>, i: nat)
    requires Monotone(alerts) && i < |alerts|
    ensures !Forwarded(window, maxAlerts, alerts, i)
            <==> |set j: nat | j < i && alerts[j].key == alerts[i].key && Forwarded(window, maxAlerts, alerts, j)
                               && alerts[j].at > alerts[i].at - window| >= maxAlerts
  {
    var key, cutoff := alerts[i].key, alerts[i].at - window;
    PrefixMonotone(alerts, i);
    PrunedLogAgrees(window, maxAlerts, alerts[..i], key, cutoff);
    HistoryCounts(window, maxAlerts, alerts, i, key, cutoff);
    DroppedByLog(window, maxAlerts, alerts, i);
    hide After, History, Run, Forwarded;
    assert Later(window, maxAlerts, alerts, i, key, cutoff)
        == set j: nat | j < i && alerts[j].key == alerts[i].key && Forwarded(window, maxAlerts, alerts, j)
                        && alerts[j].at > alerts[i].at - window;
  }

  lemma DroppedByLog(window: int, maxAlerts: int, alerts: seq<Alert>, i: nat)
    requires i < |alerts|
    ensures !Forwarded(window, maxAlerts, alerts, i)
            <==> |After(Lookup(Run(window, maxAlerts, alerts[..i]), alerts[i].key), alerts[i].at - window)| >= maxAlerts
  {
  }

  /** The forwarded alerts of a key among the first n that fall into the window after `start`. */
  ghost function Within(window: int, maxAlerts: int, alerts: seq<Alert>, n: nat, key: string, start: int): set<nat>
    requires n <= |alerts|
  {
    set j: nat | j < n && alerts[j].key == key && Forwarded(window, maxAlerts, alerts, j)
                 && start < alerts[j].at <= start + window
  }

  lemma {:induction false} WithinBounded(window: int, maxAlerts: int, alerts: seq<Alert>, n: nat, key: string,
                                         start: int)
    requires Monotone(alerts) && n <= |alerts|
    ensures |Within(window, maxAlerts, alerts, n, key, start)| <= if maxAlerts < 0 then 0 else maxAlerts
  {
    hide Forwarded;
    var within := Within(window, maxAlerts, alerts, n, key, start);
    if n == 0 {
      assert within == {};
    } else if n - 1 in within {
      var m := n - 1;
      DroppedOnlyWhenFull(window, maxAlerts, alerts, m);
      var recent := set j: nat | j < m && alerts[j].key == alerts[m].key && Forwarded(window, maxAlerts, alerts, j)
                                 && alerts[j].at > alerts[m].at - window;
      SubsetSize(within - {m}, recent);
      assert within == (within - {m}) + {m};
    } else {
      WithinBounded(window, maxAlerts, alerts, n - 1, key, start);
      assert within == Within(window, maxAlerts, alerts, n - 1, key, start);
    }
  }

  /** No half-open window of the throttle length ever contains more than `maxAlerts` forwarded alerts of a key. */
  lemma WindowNeverExceeds(window: int, maxAlerts: int, alerts: seq<Alert>, key: string, start: int)
    requires Monotone(alerts)
    ensures |set j: nat | j < |alerts| && alerts[j].key == key && Forwarded(window, maxAlerts, alerts, j)
                          && start < alerts[j].at <= start + window| <= if maxAlerts < 0 then 0 else maxAlerts
  {
    hide Forwarded;
    WithinBounded(window, maxAlerts, alerts, |alerts|, key, start);
    assert Within(window, maxAlerts, alerts, |alerts|, key, start)
        == set j: nat | j < |alerts| && alerts[j].key == key && Forwarded(window, maxAlerts, alerts, j)
                        && start < alerts[j].at <= start + window;
  }
}
