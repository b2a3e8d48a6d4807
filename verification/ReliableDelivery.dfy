/** Acknowledged sending with retransmission, one atomic step per lock section or timer event. */
module ReliableDelivery {
  /** One SendReliable call. The counters say how many of each pending activity exist: `starting` is the
      first transmission, `resending` a retransmission about to be made, `unarmed` one made but not yet
      timed, `timerLive` the timer the entry refers to, `orphans` live timers it no longer refers to,
      `firing` expired timers not yet handled and `scheduled` resends waiting for the retry interval.
      The last three fields count transmissions and calls of the two callbacks. */
  datatype Entry = Entry(inTable: bool, retries: nat,
                         starting: nat, resending: nat, unarmed: nat, timerLive: bool, orphans: nat, firing: nat,
                         scheduled: nat,
                         attempts: nat, acks: nat, timeouts: nat)

  datatype Action = TransmitFirst(ok: bool) | TransmitAgain(ok: bool) | Arm | FireCurrent | FireOrphan
                  | HandleTimeout | Resend | Ack | Shutdown

  function Started(): Entry {
    Entry(true, 0, 1, 0, 0, false, 0, 0, 0, 0, 0, 0)
  }

  predicate Enabled(e: Entry, a: Action) {
    match a
    case TransmitFirst(_) => e.starting > 0
    case TransmitAgain(_) => e.resending > 0
    case Arm => e.unarmed > 0
    case FireCurrent => e.timerLive
    case FireOrphan => e.orphans > 0
    case HandleTimeout => e.firing > 0
    case Resend => e.scheduled > 0
    case Ack => e.inTable
    case Shutdown => e.inTable
  }

  /** The effect of one atomic step; a step that is not enabled changes nothing. */
  function Act(e: Entry, a: Action, maxRetries: int): Entry {
    if !Enabled(e, a) then e
    else match a
      case TransmitFirst(ok) =>
        var f := e.(starting := e.starting - 1, attempts := e.attempts + 1);
        if ok then f.(unarmed := f.unarmed + 1) else f.(inTable := false)
      case TransmitAgain(ok) =>
        var f := e.(resending := e.resending - 1, attempts := e.attempts + 1);
        if ok then f.(unarmed := f.unarmed + 1) else f.(inTable := false, timeouts := f.timeouts + 1)
      case Arm =>
        e.(unarmed := e.unarmed - 1, timerLive := true, orphans := e.orphans + if e.timerLive then 1 else 0)
      case FireCurrent => e.(timerLive := false, firing := e.firing + 1)
      case FireOrphan => e.(orphans := e.orphans - 1, firing := e.firing + 1)
      case HandleTimeout =>
        var f := e.(firing := e.firing - 1);
        if !e.inTable then f
        else if e.retries + 1 >= maxRetries then
          f.(retries := e.retries + 1, inTable := false, timeouts := e.timeouts + 1)
        else f.(retries := e.retries + 1, scheduled := e.scheduled + 1)
      case Resend => e.(scheduled := e.scheduled - 1, resending := e.resending + 1)
      case Ack => e.(inTable := false, timerLive := false, acks := e.acks + 1)
      case Shutdown => e.(inTable := false, timerLive := false)
  }

  function Acts(e: Entry, actions: seq<Action>, maxRetries: int): Entry
    decreases |actions|
  {
    if actions == [] then e else Acts(Act(e, actions[0], maxRetries), actions[1..], maxRetries)
  }

  /** The retry limit as the code enforces it: the first timeout already gives up when the limit is 1 or less. */
  function Limit(maxRetries: int): nat {
    if maxRetries < 1 then 1 else maxRetries
  }

  // ---- what every step keeps ----

  /** Live activities of an entry. */
  function Tokens(e: Entry): nat {
    e.starting + e.resending + e.unarmed + (if e.timerLive then 1 else 0) + e.orphans + e.firing + e.scheduled
  }

  /** Transmissions already committed to. */
  function Committed(e: Entry): nat {
    e.starting + e.resending + e.scheduled
  }

  ghost predicate Sound(e: Entry, maxRetries: int) {
    && Tokens(e) <= 1 && e.orphans == 0
    && (e.inTable ==> Tokens(e) == 1 && e.retries < Limit(maxRetries) && e.acks == 0 && e.timeouts == 0)
    && (e.inTable ==> e.attempts + Committed(e) == e.retries + 1)
    && e.attempts + Committed(e) <= Limit(maxRetries)
    && e.acks <= 1
    && e.timeouts <= 1 && (e.timeouts == 1 ==> Tokens(e) == 0)
  }

  lemma ActKeepsSound(e: Entry, a: Action, maxRetries: int)
    requires Sound(e, maxRetries)
    ensures Sound(Act(e, a, maxRetries), maxRetries)
  {}

  lemma {:induction false} ActsKeepSound(e: Entry, actions: seq<Action>, maxRetries: int)
    requires Sound(e, maxRetries)
    ensures Sound(Acts(e, actions, maxRetries), maxRetries)
    decreases |actions|
  {
    if actions != [] {
      ActKeepsSound(e, actions[0], maxRetries);
      ActsKeepSound(Act(e, actions[0], maxRetries), actions[1..], maxRetries);
    }
  }

  /** One send causes at most `Limit` transmissions whatever acks, failures and timer orders occur; a
      pending entry has exactly one live activity; each callback runs at most once. */
  lemma SendIsBounded(actions: seq<Action>, maxRetries: int)
    ensures var e, limit := Acts(Started(), actions, maxRetries), if maxRetries < 1 then 1 else maxRetries;
            && e.attempts <= limit
            && (e.inTable ==> e.retries < limit && Tokens(e) == 1)
            && Tokens(e) <= 1 && e.acks <= 1 && e.timeouts <= 1
  {
    ActsKeepSound(Started(), actions, maxRetries);
  }

  /** Once an entry has left the table, through an ack or otherwise, at most one transmission follows. */
  lemma {:induction false} AtMostOneAfterRemoval(e: Entry, actions: seq<Action>, maxRetries: int)
    requires Sound(e, maxRetries) && !e.inTable
    ensures var f := Acts(e, actions, maxRetries);
            !f.inTable && f.attempts + Committed(f) <= e.attempts + Committed(e) <= e.attempts + 1
            && f.acks == e.acks
    decreases |actions|
  {
    if actions != [] {
      ActKeepsSound(e, actions[0], maxRetries);
      AtMostOneAfterRemoval(Act(e, actions[0], maxRetries), actions[1..], maxRetries);
    }
  }

  // ---- no ack, no failure ----

  predicate Quiet(a: Action) {
    match a
    case TransmitFirst(ok) => ok
    case TransmitAgain(ok) => ok
    case Ack => false
    case Shutdown => false
    case _ => true
  }

  predicate AllEnabled(e: Entry, actions: seq<Action>, maxRetries: int)
    decreases |actions|
  {
    actions == []
    || (Enabled(e, actions[0]) && AllEnabled(Act(e, actions[0], maxRetries), actions[1..], maxRetries))
  }

  /** Steps left until the entry gives up, when nothing interferes. */
  function StepsLeft(e: Entry, maxRetries: int): int {
    if Tokens(e) == 0 then 0
    else 5 * (Limit(maxRetries) - e.retries)
         - (if e.scheduled > 0 then 0 else if e.starting + e.resending > 0 then 1 else if e.unarmed > 0 then 2
            else if e.timerLive then 3 else 4)
  }

  ghost predicate Undisturbed(e: Entry, maxRetries: int) {
    && Sound(e, maxRetries) && e.acks == 0
    && (!e.inTable ==> Tokens(e) == 0 && e.attempts == Limit(maxRetries) && e.timeouts == 1)
  }

  lemma QuietStep(e: Entry, a: Action, maxRetries: int)
    requires Undisturbed(e, maxRetries) && Enabled(e, a) && Quiet(a)
    ensures Undisturbed(Act(e, a, maxRetries), maxRetries)
    ensures StepsLeft(Act(e, a, maxRetries), maxRetries) == StepsLeft(e, maxRetries) - 1
  {}

  lemma {:induction false} QuietRun(e: Entry, actions: seq<Action>, maxRetries: int)
    requires Undisturbed(e, maxRetries) && AllEnabled(e, actions, maxRetries)
    requires forall i :: 0 <= i < |actions| ==> Quiet(actions[i])
    ensures var f := Acts(e, actions, maxRetries);
            Undisturbed(f, maxRetries) && StepsLeft(f, maxRetries) == StepsLeft(e, maxRetries) - |actions|
    decreases |actions|
  {
    if actions != [] {
      QuietStep(e, actions[0], maxRetries);
      QuietRun(Act(e, actions[0], maxRetries), actions[1..], maxRetries);
    }
  }

  /** The step an unfinished entry can still take. */
  function NextStep(e: Entry): Action {
    if e.starting > 0 then TransmitFirst(true)
    else if e.resending > 0 then TransmitAgain(true)
    else if e.unarmed > 0 then Arm
    else if e.timerLive then FireCurrent
    else if e.firing > 0 then HandleTimeout
    else Resend
  }

  /** With no ack and no send failure a send ends, after 5 * Limit - 1 steps and exactly `Limit` transmissions,
      in one timeout callback; before that it can always move on. */
  lemma UnansweredSend(actions: seq<Action>, maxRetries: int)
    requires AllEnabled(Started(), actions, maxRetries)
    requires forall i :: 0 <= i < |actions| ==> Quiet(actions[i])
    ensures var e, limit := Acts(Started(), actions, maxRetries), if maxRetries < 1 then 1 else maxRetries;
            && |actions| <= 5 * limit - 1
            && (|actions| == 5 * limit - 1 <==> !e.inTable)
            && (!e.inTable ==> e.attempts == limit && e.timeouts == 1 && e.acks == 0 && Tokens(e) == 0)
            && (e.inTable ==> Enabled(e, NextStep(e)) && Quiet(NextStep(e)))
  {
    assert Undisturbed(Started(), maxRetries);
    QuietRun(Started(), actions, maxRetries);
    StepsOfStart(maxRetries);
    hide Acts, AllEnabled;
    UndisturbedFacts(Acts(Started(), actions, maxRetries), maxRetries);
    hide Undisturbed, StepsLeft, Tokens, Enabled;
  }

  lemma StepsOfStart(maxRetries: int)
    ensures StepsLeft(Started(), maxRetries) == 5 * (if maxRetries < 1 then 1 else maxRetries) - 1
  {
  }

  lemma UndisturbedFacts(e: Entry, maxRetries: int)
    requires Undisturbed(e, maxRetries)
    ensures var limit := if maxRetries < 1 then 1 else maxRetries;
            && StepsLeft(e, maxRetries) >= 0
            && (StepsLeft(e, maxRetries) == 0 <==> !e.inTable)
            && (!e.inTable ==> e.attempts == limit && e.timeouts == 1 && e.acks == 0 && Tokens(e) == 0)
            && (e.inTable ==> Enabled(e, NextStep(e)) && Quiet(NextStep(e)))
  {
  }

  // ---- an ack, then a timeout ----

  /** A resend is waiting for the retry interval, or about to be made. */
  predicate ResendDue(e: Entry) {
    e.scheduled + e.resending > 0
  }

  /** Both callbacks of one send run: the entry is acknowledged, and later OnTimeout is called. */
  ghost predicate TimeoutFollows(e: Entry, later: seq<Action>, maxRetries: int) {
    e.inTable && Acts(Act(e, Ack, maxRetries), later, maxRetries).timeouts > 0
  }

  /** Off the table and with no resend due, an entry never reports a timeout again. */
  lemma {:induction false} NoTimeoutWithoutResend(e: Entry, actions: seq<Action>, maxRetries: int)
    requires !e.inTable && !ResendDue(e)
    ensures Acts(e, actions, maxRetries).timeouts == e.timeouts
    decreases |actions|
  {
    if actions != [] {
      NoTimeoutWithoutResend(Act(e, actions[0], maxRetries), actions[1..], maxRetries);
    }
  }

  /** An ack does not stop a resend that is due; if that resend fails, the timeout callback runs after the ack
      callback. */
  lemma AckThenTimeout(e: Entry, maxRetries: int) returns (later: seq<Action>)
    requires Sound(e, maxRetries) && e.inTable && ResendDue(e)
    ensures TimeoutFollows(e, later, maxRetries)
    ensures var f := Acts(Act(e, Ack, maxRetries), later, maxRetries);
            f.attempts == e.attempts + 1 && f.acks == 1 && f.timeouts == 1
  {
    var acked := Act(e, Ack, maxRetries);
    if e.scheduled > 0 {
      later := [Resend, TransmitAgain(false)];
      var resending := Act(acked, Resend, maxRetries);
      var failed := Act(resending, TransmitAgain(false), maxRetries);
      assert later[1..] == [TransmitAgain(false)] && later[1..][1..] == [];
      assert Acts(resending, later[1..], maxRetries) == Acts(failed, [], maxRetries);
    } else {
      later := [TransmitAgain(false)];
      assert later[1..] == [];
      assert Acts(acked, later, maxRetries) == Acts(Act(acked, later[0], maxRetries), [], maxRetries);
    }
  }

  /** After an ack a timeout callback can still run exactly when a resend is due at the ack. */
  lemma TimeoutAfterAckIffResendDue(e: Entry, maxRetries: int)
    requires Sound(e, maxRetries) && e.inTable
    ensures (exists later :: TimeoutFollows(e, later, maxRetries)) <==> ResendDue(e)
  {
    if ResendDue(e) {
      var later := AckThenTimeout(e, maxRetries);
    } else {
      forall later
        ensures !TimeoutFollows(e, later, maxRetries)
      {
        NoTimeoutWithoutResend(Act(e, Ack, maxRetries), later, maxRetries);
      }
    }
  }

  /** With two retries or more a resend becomes due while the entry is pending. */
  lemma ResendBecomesDue(maxRetries: int) returns (actions: seq<Action>)
    requires maxRetries >= 2
    ensures var e := Acts(Started(), actions, maxRetries);
            e.inTable && ResendDue(e)
  {
    actions := [TransmitFirst(true), Arm, FireCurrent, HandleTimeout];
    assert actions[1..] == [Arm, FireCurrent, HandleTimeout];
    assert actions[1..][1..] == [FireCurrent, HandleTimeout];
    assert actions[1..][1..][1..] == [HandleTimeout];
  }

  /** With one retry or none the first timeout gives up, so no resend is ever due. */
  lemma {:induction false} NoResendWithoutRetries(e: Entry, actions: seq<Action>, maxRetries: int)
    requires maxRetries <= 1 && !ResendDue(e)
    ensures !ResendDue(Acts(e, actions, maxRetries))
    decreases |actions|
  {
    if actions != [] {
      NoResendWithoutRetries(Act(e, actions[0], maxRetries), actions[1..], maxRetries);
    }
  }

  /** Some run of one send calls OnTimeout after OnAck if and only if the handler allows two retries or more. */
  lemma TimeoutAfterAckIffRetries(maxRetries: int)
    ensures (exists before, later :: TimeoutFollows(Acts(Started(), before, maxRetries), later, maxRetries))
            <==> maxRetries >= 2
  {
    if maxRetries >= 2 {
      var before := ResendBecomesDue(maxRetries);
      ActsKeepSound(Started(), before, maxRetries);
      var later := AckThenTimeout(Acts(Started(), before, maxRetries), maxRetries);
    } else {
      forall before, later
        ensures !TimeoutFollows(Acts(Started(), before, maxRetries), later, maxRetries)
      {
        var e := Acts(Started(), before, maxRetries);
        ActsKeepSound(Started(), before, maxRetries);
        NoResendWithoutRetries(Started(), before, maxRetries);
        if e.inTable {
          TimeoutAfterAckIffResendDue(e, maxRetries);
        }
      }
    }
  }

  // ---- the handler ----

  class PendingMessage {
    const id: string
    var retryCount: nat
    var timerLive: bool
    ghost var starting: nat
    ghost var resending: nat
    ghost var unarmed: nat
    ghost var orphans: nat
    ghost var firing: nat
    ghost var scheduled: nat
    ghost var attempts: nat
    ghost var acks: nat
    ghost var timeouts: nat

    constructor (id: string)
      ensures this.id == id && View(true) == Started()
      ensures retryCount == 0 && !timerLive && starting == 1
    {
      this.id, retryCount, timerLive := id, 0, false;
      starting, resending, unarmed, orphans, firing, scheduled := 1, 0, 0, 0, 0, 0;
      attempts, acks, timeouts := 0, 0, 0;
    }

    ghost function View(inTable: bool): Entry
      reads this
    {
      Entry(inTable, retryCount, starting, resending, unarmed, timerLive, orphans, firing, scheduled, attempts, acks,
            timeouts)
    }
  }

  class ReliableHandler {
    const maxRetries: int
    var pending: map<string, PendingMessage>
    /** Every message ever started, by its ID; generated IDs are fresh. */
    ghost var issued: map<string, PendingMessage>

    constructor (maxRetries: int)
      ensures Valid() && this.maxRetries == maxRetries && pending == map[] && issued == map[]
    {
      this.maxRetries, pending, issued := maxRetries, map[], map[];
    }

    ghost predicate Valid()
      reads this
    {
      && (forall id :: id in issued ==> issued[id].id == id)
      && (forall id :: id in pending ==> id in issued && pending[id] == issued[id])
    }

    ghost function EntryOf(id: string): Entry
      requires id in issued
      reads this, issued.Values
    {
      issued[id].View(id in pending)
    }

    /** Only the entry of `id` changes, by the given action. */
    twostate predicate Moves(id: string, a: Action)
      requires old(Valid()) && Valid() && id in old(issued)
      reads this, issued.Values
    {
      && issued == old(issued)
      && EntryOf(id) == Act(old(EntryOf(id)), a, maxRetries)
      && forall other :: other in issued && other != id ==> EntryOf(other) == old(EntryOf(other))
    }

    /** SendReliable up to its first transmission. */
    method Start(id: string)
      requires Valid() && id !in issued
      modifies this
      ensures Valid() && issued.Keys == old(issued.Keys) + {id} && EntryOf(id) == Started()
      ensures pending == old(pending)[id := issued[id]] && fresh(issued[id]) && issued[id].retryCount == 0
      ensures forall other :: other in old(issued) ==>
                issued[other] == old(issued[other]) && EntryOf(other) == old(EntryOf(other))
    {
      var message := new PendingMessage(id);
      pending := pending[id := message];
      issued := issued[id := message];
    }

    /** SendReliable's own transmission; a failure removes the entry and is returned to the caller. */
    method TransmitFirst(id: string, sent: bool)
      requires Valid() && id in issued && issued[id].starting > 0
      modifies this`pending, issued[id]
      ensures Valid() && Moves(id, Action.TransmitFirst(sent))
      ensures pending == if sent then old(pending) else old(pending) - {id}
      ensures issued[id].attempts == old(issued[id].attempts) + 1
      ensures issued[id].unarmed == old(issued[id].unarmed) + if sent then 1 else 0
      ensures issued[id].timeouts == old(issued[id].timeouts)
    {
      ghost var message := issued[id];
      message.starting := message.starting - 1;
      message.attempts := message.attempts + 1;
      if sent {
        message.unarmed := message.unarmed + 1;
      } else {
        pending := pending - {id};
      }
    }

    /** A retransmission; a failure removes the entry and calls OnTimeout. */
    method TransmitAgain(id: string, sent: bool)
      requires Valid() && id in issued && issued[id].resending > 0
      modifies this`pending, issued[id]
      ensures Valid() && Moves(id, Action.TransmitAgain(sent))
      ensures pending == if sent then old(pending) else old(pending) - {id}
      ensures issued[id].attempts == old(issued[id].attempts) + 1
      ensures issued[id].unarmed == old(issued[id].unarmed) + if sent then 1 else 0
      ensures issued[id].timeouts == old(issued[id].timeouts) + if sent then 0 else 1
    {
      ghost var message := issued[id];
      message.resending := message.resending - 1;
      message.attempts := message.attempts + 1;
      if sent {
        message.unarmed := message.unarmed + 1;
      } else {
        pending := pending - {id};
        message.timeouts := message.timeouts + 1;
      }
    }

    /** The end of sendMessageWithRetry: a new timer replaces the one the entry referred to. */
    method ArmTimer(message: PendingMessage)
      requires Valid() && message.id in issued && issued[message.id] == message && message.unarmed > 0
      modifies message
      ensures Valid() && Moves(message.id, Arm)
      ensures message.timerLive && message.unarmed == old(message.unarmed) - 1
      ensures message.orphans == old(message.orphans) + if old(message.timerLive) then 1 else 0
    {
      message.unarmed := message.unarmed - 1;
      if message.timerLive {
        message.orphans := message.orphans + 1;
      }
      message.timerLive := true;
    }

    method HandleMessageTimeout(id: string)
      requires Valid() && id in issued && issued[id].firing > 0
      modifies this`pending, issued[id]
      ensures Valid() && Moves(id, HandleTimeout)
      ensures id !in old(pending) ==> pending == old(pending)
      ensures id in old(pending) ==>
                var message, n := issued[id], old(issued[id].retryCount) + 1;
                && message.retryCount == n
                && pending == (if n >= maxRetries then old(pending) - {id} else old(pending))
                && message.timeouts == old(issued[id].timeouts) + (if n >= maxRetries then 1 else 0)
                && message.scheduled == old(issued[id].scheduled) + if n >= maxRetries then 0 else 1
    {
      issued[id].firing := issued[id].firing - 1;
      if id !in pending {
        return;
      }
      var message := pending[id];
      message.retryCount := message.retryCount + 1;
      if message.retryCount >= maxRetries {
        pending := pending - {id};
        message.timeouts := message.timeouts + 1;
        return;
      }
      message.scheduled := message.scheduled + 1;
    }

    /** An ack may name any ID; one that is not pending is ignored. */
    method ProcessAckMessage(id: string)
      requires Valid()
      modifies this`pending, if id in pending then {pending[id]} else {}
      ensures Valid()
      ensures id in old(issued) ==> Moves(id, Ack)
      ensures pending == old(pending) - {id}
      ensures id in old(pending) ==>
                var message := issued[id];
                !message.timerLive && message.acks == old(message.acks) + 1 && message.timeouts == old(message.timeouts)
    {
      if id in pending {
        var message := pending[id];
        message.timerLive := false;
        message.acks := message.acks + 1;
        pending := pending - {id};
      }
    }

    method Stop()
      requires Valid()
      modifies this`pending, pending.Values
      ensures Valid() && pending == map[] && issued == old(issued)
      ensures forall id :: id in old(pending) ==> !issued[id].timerLive && issued[id].acks == old(issued[id].acks)
      ensures forall id :: id in issued ==> EntryOf(id) == Act(old(EntryOf(id)), Shutdown, maxRetries)
    {
      forall message | message in pending.Values {
        message.timerLive := false;
      }
      pending := map[];
    }
  }
}
