/** Exponential-backoff reconnection. Times and delays are integer counts of nanoseconds. */
module Reconnect {
  import opened Arith
  import opened Wrappers

  /** RetryInterval, RetryAttempts (0 or less means no limit) and the fixed 30-minute ceiling. */
  datatype Config = Config(base: nat, maxAttempts: int, cap: nat)

  datatype Task = Task(attempts: nat, backoff: int, nextAttempt: int, enabled: bool)

  /** The delay before the k-th connection attempt. */
  function Delay(c: Config, k: nat): nat
    requires k > 0
  {
    var d := c.base * Pow2(k - 1);
    if d > c.cap then c.cap else d
  }

  /** The first delay is the interval, and each further one twice the one before, up to the ceiling. */
  lemma DelayDoubles(c: Config, k: nat)
    requires k > 0
    ensures Delay(c, 1) == if c.base < c.cap then c.base else c.cap
    ensures Delay(c, k + 1) == if 2 * Delay(c, k) < c.cap then 2 * Delay(c, k) else c.cap
  {
    var d := c.base * Pow2(k - 1);
    assert c.base * Pow2(k) == 2 * d by { assert Pow2(k) == 2 * Pow2(k - 1); }
    assert Pow2(0) == 1;
  }

  /** ScheduleReconnect on one device's task. */
  function Scheduled(c: Config, task: Option<Task>, now: int): Task {
    var t := match task
             case None => Task(0, c.base, 0, true)
             case Some(known) => if known.enabled then known else Task(0, c.base, known.nextAttempt, true);
    var n := t.attempts + 1;
    if n > c.maxAttempts && c.maxAttempts > 0 then t.(attempts := n, enabled := false)
    else t.(attempts := n, backoff := Delay(c, n), nextAttempt := now + Delay(c, n))
  }

  predicate Due(t: Task, now: int) {
    t.enabled && now > t.nextAttempt
  }

  function Succeeded(t: Task): Task {
    t.(enabled := false, attempts := 0)
  }

  class ReconnectTask {
    const deviceID: string
    const maxDelay: nat
    var attempts: nat
    var backoff: int
    var nextAttempt: int
    var enabled: bool

    constructor (deviceID: string, backoff: int, maxDelay: nat)
      ensures this.deviceID == deviceID && this.maxDelay == maxDelay
      ensures View() == Task(0, backoff, 0, true)
    {
      this.deviceID, this.maxDelay := deviceID, maxDelay;
      attempts, this.backoff, nextAttempt, enabled := 0, backoff, 0, true;
    }

    ghost function View(): Task
      reads this
    {
      Task(attempts, backoff, nextAttempt, enabled)
    }
  }

  class ReconnectManager {
    const config: Config
    var tasks: map<string, ReconnectTask>

    constructor (base: nat, maxAttempts: int)
      ensures config == Config(base, maxAttempts, 1_800_000_000_000) && tasks == map[] && Valid()
    {
      this.config, tasks := Config(base, maxAttempts, 30 * 60 * 1_000_000_000), map[];
    }

    ghost predicate Valid()
      reads this
    {
      forall id :: id in tasks ==> tasks[id].deviceID == id && tasks[id].maxDelay == config.cap
    }

    ghost function TaskOf(id: string): Option<Task>
      reads this, tasks.Values
    {
      if id in tasks then Some(tasks[id].View()) else None
    }

    method Power(n: nat) returns (p: nat)
      ensures p == Pow2(n)
    {
      p := 1;
      for i := 0 to n
        invariant p == Pow2(i)
      {
        p := 2 * p;
      }
    }

    /** The backoff delay in the source's own steps. */
    method Backoff(task: ReconnectTask) returns (delay: nat)
      requires task.attempts > 0 && task.maxDelay == config.cap
      ensures delay == Delay(config, task.attempts)
    {
      var multiplier := Power(task.attempts - 1);
      delay := config.base * multiplier;
      if delay > task.maxDelay {
        delay := task.maxDelay;
      }
    }

    method ScheduleReconnect(id: string, now: int)
      requires Valid()
      modifies this, if id in tasks then {tasks[id]} else {}
      ensures Valid() && TaskOf(id) == Some(Scheduled(config, old(TaskOf(id)), now))
      ensures tasks.Keys == old(tasks.Keys) + {id}
      ensures var running := id in old(tasks) && old(tasks[id].enabled);
              var n := if running then old(tasks[id].attempts) + 1 else 1;
              && tasks[id].attempts == n && (tasks[id].enabled <==> config.maxAttempts <= 0 || n <= config.maxAttempts)
              && (tasks[id].enabled ==>
                    && tasks[id].backoff == Delay(config, n) && tasks[id].nextAttempt == now + Delay(config, n))
              && (!tasks[id].enabled && id in old(tasks) ==> tasks[id].nextAttempt == old(tasks[id].nextAttempt))
      ensures forall other :: other in old(tasks) ==> tasks[other] == old(tasks[other])
    {
      hide Delay;
      if id !in tasks {
        var created := new ReconnectTask(id, config.base, config.cap);
        tasks := tasks[id := created];
      }
      var task := tasks[id];
      if !task.enabled {
        task.enabled := true;
        task.attempts := 0;
        task.backoff := config.base;
      }
      task.attempts := task.attempts + 1;
      if task.attempts > config.maxAttempts && config.maxAttempts > 0 {
        task.enabled := false;
        return;
      }
      var delay := Backoff(task);
      task.backoff := delay;
      task.nextAttempt := now + delay;
    }

    method StopReconnect(id: string)
      requires Valid()
      modifies if id in tasks then {tasks[id]} else {}
      ensures Valid()
      ensures TaskOf(id) == Step(config, old(TaskOf(id)), Stop)
      ensures TaskOf(id) == match old(TaskOf(id)) case None => None case Some(t) => Some(t.(enabled := false))
    {
      if id in tasks {
        tasks[id].enabled := false;
      }
    }

    method ResetReconnectTask(id: string)
      requires Valid()
      modifies if id in tasks then {tasks[id]} else {}
      ensures Valid() && TaskOf(id) == Step(config, old(TaskOf(id)), Reset)
      ensures TaskOf(id)
           == match old(TaskOf(id))
              case None => None
              case Some(t) => Some(t.(attempts := 0, backoff := config.base, enabled := true))
    {
      if id in tasks {
        tasks[id].attempts := 0;
        tasks[id].backoff := config.base;
        tasks[id].enabled := true;
      }
    }

    method ClearReconnectTask(id: string)
      requires Valid()
      modifies this
      ensures Valid() && tasks == old(tasks) - {id} && TaskOf(id) == Step(config, old(TaskOf(id)), Clear)
    {
      tasks := tasks - {id};
    }

    /** One task of one sweep: connect if due, and reschedule after a failure. */
    method Attempt(id: string, now: int, connects: bool, after: int) returns (called: bool)
      requires Valid()
      modifies this, if id in tasks then {tasks[id]} else {}
      ensures Valid() && tasks == old(tasks)
      ensures TaskOf(id) == Step(config, old(TaskOf(id)), Sweep(now, connects, after))
      ensures called <==> old(TaskOf(id)).Some? && Due(old(TaskOf(id)).value, now)
      ensures TaskOf(id) == if called then Some(if connects then Succeeded(old(TaskOf(id)).value)
                                                else Scheduled(config, old(TaskOf(id)), after))
                            else old(TaskOf(id))
      ensures called <==> id in tasks && old(tasks[id].enabled) && now > old(tasks[id].nextAttempt)
      ensures called && connects ==>
                && !tasks[id].enabled && tasks[id].attempts == 0 && tasks[id].backoff == old(tasks[id].backoff)
                && tasks[id].nextAttempt == old(tasks[id].nextAttempt)
    {
      if id !in tasks || !(tasks[id].enabled && now > tasks[id].nextAttempt) {
        return false;
      }
      if connects {
        tasks[id].enabled := false;
        tasks[id].attempts := 0;
      } else {
        ScheduleReconnect(id, after);
      }
      return true;
    }
  }

  // ---- every reachable task ----

  datatype Event = Schedule(at: int) | Stop | Clear | Reset | Sweep(at: int, connects: bool, after: int)

  function Step(c: Config, task: Option<Task>, e: Event): Option<Task> {
    match e
    case Schedule(at) => Some(Scheduled(c, task, at))
    case Stop => if task.None? then None else Some(task.value.(enabled := false))
    case Clear => None
    case Reset => if task.None? then None else Some(task.value.(attempts := 0, backoff := c.base, enabled := true))
    case Sweep(at, connects, after) =>
      if task.None? || !Due(task.value, at) then task
      else Some(if connects then Succeeded(task.value) else Scheduled(c, task, after))
  }

  function Reached(c: Config, events: seq<Event>): Option<Task> {
    if events == [] then None else Step(c, Reached(c, events[..|events| - 1]), events[|events| - 1])
  }

  /** In every reachable state an enabled task has used at most the allowed number of attempts, and a
      disabled one at most one more. */
  lemma {:induction false} AttemptsWithinLimit(c: Config, events: seq<Event>)
    requires c.maxAttempts > 0
    ensures var task := Reached(c, events);
            task.Some? ==> task.value.attempts <= c.maxAttempts + (if task.value.enabled then 0 else 1)
    decreases |events|
  {
    if events != [] {
      AttemptsWithinLimit(c, events[..|events| - 1]);
    }
  }

  // ---- a peer that answers ----

  /** After an answered call no sweep calls again until the peer is scheduled or reset, and the next schedule starts
      over with one attempt and the first delay. */
  lemma AnsweredStartsOver(c: Config, t: Task, at: int, after: int, later: int, connects: bool, next: int)
    requires t.enabled && at > t.nextAttempt
    ensures
      var answered := Step(c, Some(t), Sweep(at, true, after));
      && answered.Some? && !answered.value.enabled
      && Step(c, answered, Sweep(later, connects, next)) == answered
      && Step(c, answered, Stop) == answered
      && Step(c, answered, Schedule(next)) == Some(Task(1, Delay(c, 1), next + Delay(c, 1), true))
  {
  }

  // ---- a peer that never answers ----

  /** A sweep of the worker: it looks at the clock, the connection attempt fails, and it reschedules later. */
  datatype FailedSweep = FailedSweep(at: int, after: int)

  /** The task, the times of the Connect calls, and the time at which each next call was scheduled. */
  datatype Trial = Trial(task: Task, calls: seq<int>, scheduled: seq<int>)

  function SweepStep(c: Config, tr: Trial, w: FailedSweep): Trial {
    if Due(tr.task, w.at) then
      Trial(Scheduled(c, Some(tr.task), w.after), tr.calls + [w.at], tr.scheduled + [w.after])
    else tr
  }

  /** One ScheduleReconnect at `start`, then the sweeps. */
  function Failing(c: Config, before: Option<Task>, start: int, sweeps: seq<FailedSweep>): Trial {
    if sweeps == [] then Trial(Scheduled(c, before, start), [], [start])
    else SweepStep(c, Failing(c, before, start, sweeps[..|sweeps| - 1]), sweeps[|sweeps| - 1])
  }

  function LastTime(start: int, sweeps: seq<FailedSweep>): int {
    if sweeps == [] then start else sweeps[|sweeps| - 1].after
  }

  /** The clock does not run backwards, and each sweep comes more than `gap` after the one before. */
  predicate Spaced(start: int, sweeps: seq<FailedSweep>, gap: int) {
    sweeps == []
    || (var front, last := sweeps[..|sweeps| - 1], sweeps[|sweeps| - 1];
        Spaced(start, front, gap) && LastTime(start, front) + gap < last.at <= last.after)
  }

  lemma {:induction false} SpacedIsChronological(start: int, sweeps: seq<FailedSweep>, gap: nat)
    requires Spaced(start, sweeps, gap)
    ensures Spaced(start, sweeps, -1)
    decreases |sweeps|
  {
    if sweeps != [] {
      SpacedIsChronological(start, sweeps[..|sweeps| - 1], gap);
    }
  }

  /** The attempts that already count when a reconnection is scheduled. */
  function Counted(before: Option<Task>): nat {
    if before.None? || !before.value.enabled then 0 else before.value.attempts
  }

  /** The sum of the k delays that follow the first `done` ones. */
  function TotalDelay(c: Config, done: nat, k: nat): nat {
    if k == 0 then 0 else TotalDelay(c, done, k - 1) + Delay(c, done + k)
  }

  ghost predicate OnSchedule(c: Config, done: nat, start: int, tr: Trial) {
    var k := |tr.calls|;
    && |tr.scheduled| == k + 1 && tr.scheduled[0] == start
    && tr.task.attempts == done + k + 1
    && (c.maxAttempts > 0 ==> done + k <= c.maxAttempts)
    && (tr.task.enabled <==> c.maxAttempts <= 0 || done + k < c.maxAttempts)
    && (tr.task.enabled ==> tr.task.nextAttempt == tr.scheduled[k] + Delay(c, done + k + 1))
    && forall j :: 0 <= j < k ==>
         tr.calls[j] > tr.scheduled[j] + Delay(c, done + j + 1) && tr.scheduled[j + 1] >= tr.calls[j]
  }

  /** Every call comes later than its backoff delay after it was scheduled, there are never more calls than the
      allowance has left, and the peer is given up exactly when that is used up. */
  lemma {:induction false} FailingFollowsSchedule(c: Config, before: Option<Task>, start: int, sweeps: seq<FailedSweep>)
    requires c.maxAttempts > 0 ==> Counted(before) <= c.maxAttempts
    requires Spaced(start, sweeps, -1)
    ensures OnSchedule(c, Counted(before), start, Failing(c, before, start, sweeps))
    decreases |sweeps|
  {
    if sweeps != [] {
      FailingFollowsSchedule(c, before, start, sweeps[..|sweeps| - 1]);
    }
  }

  lemma {:induction false} ElapsedExceedsDelays(c: Config, done: nat, start: int, tr: Trial, k: nat)
    requires OnSchedule(c, done, start, tr) && 0 < k <= |tr.calls|
    ensures tr.calls[k - 1] - start > TotalDelay(c, done, k)
    ensures tr.scheduled[k] - start > TotalDelay(c, done, k)
    decreases k
  {
    if k > 1 {
      ElapsedExceedsDelays(c, done, start, tr, k - 1);
    }
    assert tr.calls[k - 1] > tr.scheduled[k - 1] + Delay(c, done + k);
  }

  /** From one ScheduleReconnect a never-answering peer gets at most the calls the allowance has left: all of them if
      no attempt counts yet, fewer if one was under way. Its entry is disabled after exactly that many, and by then
      more time than the sum of their backoff delays has passed. */
  lemma GivesUpAfterAllAttempts(c: Config, before: Option<Task>, start: int, sweeps: seq<FailedSweep>)
    requires c.maxAttempts > 0 && Counted(before) <= c.maxAttempts && Spaced(start, sweeps, -1)
    ensures var tr, left := Failing(c, before, start, sweeps), c.maxAttempts - Counted(before);
            && |tr.calls| <= left
            && (!tr.task.enabled <==> |tr.calls| == left)
            && (!tr.task.enabled && left > 0 ==> tr.calls[left - 1] - start > TotalDelay(c, Counted(before), left))
  {
    FailingFollowsSchedule(c, before, start, sweeps);
    var tr, left := Failing(c, before, start, sweeps), c.maxAttempts - Counted(before);
    if !tr.task.enabled && left > 0 {
      ElapsedExceedsDelays(c, Counted(before), start, tr, left);
    }
  }

  /** Sweeps far enough apart never come too early, so they do reach the end. */
  lemma {:induction false} SpacedSweepsReachTheEnd(c: Config, before: Option<Task>, start: int,
                                                   sweeps: seq<FailedSweep>)
    requires c.maxAttempts > 0 && Counted(before) <= c.maxAttempts && Spaced(start, sweeps, c.cap)
    ensures var tr, left := Failing(c, before, start, sweeps), c.maxAttempts - Counted(before);
            && |tr.scheduled| == |tr.calls| + 1
            && |tr.calls| == (if |sweeps| < left then |sweeps| else left)
            && tr.scheduled[|tr.calls|] <= LastTime(start, sweeps)
    decreases |sweeps|
  {
    if sweeps != [] {
      var front := sweeps[..|sweeps| - 1];
      SpacedIsChronological(start, front, c.cap);
      FailingFollowsSchedule(c, before, start, front);
      SpacedSweepsReachTheEnd(c, before, start, front);
    }
  }

  /** No reachable entry has more attempts counted than allowed, so the two results hold of every one. */
  lemma CountedWithinLimit(c: Config, events: seq<Event>)
    requires c.maxAttempts > 0
    ensures Counted(Reached(c, events)) <= c.maxAttempts
  {
    AttemptsWithinLimit(c, events);
  }
}
