/** The priority message engine: four bounded queues, a weighted scheduler and its output channel. */
module MessageEngine {
  import opened Wrappers

  datatype Priority = Critical | High | Normal | Low

  /** One value per priority. */
  datatype Quad<T> = Quad(critical: T, high: T, normal: T, low: T) {
    function Get(p: Priority): T {
      match p
      case Critical => critical
      case High => high
      case Normal => normal
      case Low => low
    }

    function Set(p: Priority, v: T): (q: Quad<T>)
      ensures forall r :: q.Get(r) == if r == p then v else Get(r)
    {
      match p
      case Critical => this.(critical := v)
      case High => this.(high := v)
      case Normal => this.(normal := v)
      case Low => this.(low := v)
    }
  }

  /** Go's integer priorities; any other number names no queue. */
  function FromCode(code: int): Option<Priority> {
    if code == 3 then Some(Critical)
    else if code == 2 then Some(High)
    else if code == 1 then Some(Normal)
    else if code == 0 then Some(Low)
    else None
  }

  datatype Message = Message(id: string, code: int, payload: string)

  datatype EnqueueResult = Accepted | QueueFull | InvalidPriority

  const ORDER: seq<Priority> := [Critical, High, Normal, Low]

  function Weight(p: Priority): nat {
    match p
    case Critical => 8
    case High => 4
    case Normal => 2
    case Low => 1
  }

  // ---- the engine's state and its atomic steps ----

  /** `held` is the message the scheduler blocks on while the output channel is full. The last
      four fields record the history: what was accepted, refused, dispatched and consumed. */
  datatype Engine = Engine(capacity: Quad<nat>, outputSize: nat,
                           queues: Quad<seq<Message>>, dropped: Quad<nat>, counters: Quad<nat>,
                           output: seq<Message>, held: Option<Message>,
                           accepted: seq<Message>, refused: seq<Message>, sent: seq<Message>, consumed: seq<Message>)

  datatype Event = Offer(message: Message) | Tick | Consume

  function Capacities(queueSize: nat): Quad<nat> {
    Quad(queueSize / 4, queueSize / 4, queueSize / 2, queueSize / 4)
  }

  function Initial(queueSize: nat): Engine {
    Engine(Capacities(queueSize), queueSize, Quad([], [], [], []), Quad(0, 0, 0, 0), Quad(0, 0, 0, 0), [], None,
           [], [], [], [])
  }

  function OfferStep(s: Engine, m: Message): (Engine, EnqueueResult) {
    match FromCode(m.code)
    case None => (s, InvalidPriority)
    case Some(p) =>
      if |s.queues.Get(p)| < s.capacity.Get(p) then
        (s.(queues := s.queues.Set(p, s.queues.Get(p) + [m]), accepted := s.accepted + [m]), Accepted)
      else
        (s.(dropped := s.dropped.Set(p, s.dropped.Get(p) + 1), refused := s.refused + [m]), QueueFull)
  }

  predicate Eligible(s: Engine, p: Priority) {
    s.counters.Get(p) < Weight(p) && s.queues.Get(p) != []
  }

  /** The first priority, from the top, with budget left and a message waiting. */
  function Pick(s: Engine): Option<Priority> {
    if Eligible(s, Critical) then Some(Critical)
    else if Eligible(s, High) then Some(High)
    else if Eligible(s, Normal) then Some(Normal)
    else if Eligible(s, Low) then Some(Low)
    else None
  }

  lemma PickInOrder(s: Engine, i: nat)
    requires i <= |ORDER|
    requires forall j :: 0 <= j < i ==> !Eligible(s, ORDER[j])
    requires i < |ORDER| ==> Eligible(s, ORDER[i])
    ensures Pick(s) == if i < |ORDER| then Some(ORDER[i]) else None
  {
    assert i > 0 ==> !Eligible(s, ORDER[0]);
    assert i > 1 ==> !Eligible(s, ORDER[1]);
    assert i > 2 ==> !Eligible(s, ORDER[2]);
    assert i > 3 ==> !Eligible(s, ORDER[3]);
  }

  /** A message leaves for the output channel, or is held while the channel is full. */
  function Emit(s: Engine, m: Message): Engine {
    if |s.output| < s.outputSize then s.(sent := s.sent + [m], output := s.output + [m])
    else s.(sent := s.sent + [m], held := Some(m))
  }

  function Dispatch(s: Engine, p: Priority): Engine
    requires s.queues.Get(p) != []
  {
    var queue := s.queues.Get(p);
    Emit(s.(queues := s.queues.Set(p, queue[1..]), counters := s.counters.Set(p, s.counters.Get(p) + 1)), queue[0])
  }

  /** A tick finds the scheduler either blocked on its held message or free to serve one message. */
  function TickStep(s: Engine): Engine {
    if s.held.Some? then s
    else match Pick(s)
      case Some(p) => Dispatch(s, p)
      case None => s.(counters := Quad(0, 0, 0, 0))
  }

  /** The distributor receives one message; room in the channel lets a held message in. */
  function ConsumeStep(s: Engine): Engine {
    var waiting := s.output + (if s.held.Some? then [s.held.value] else []);
    if waiting == [] then s
    else s.(output := waiting[1..], held := None, consumed := s.consumed + [waiting[0]])
  }

  function Step(s: Engine, e: Event): Engine {
    match e
    case Offer(m) => OfferStep(s, m).0
    case Tick => TickStep(s)
    case Consume => ConsumeStep(s)
  }

  function Run(s: Engine, events: seq<Event>): Engine
    decreases |events|
  {
    if events == [] then s else Run(Step(s, events[0]), events[1..])
  }

  // ---- the queues and the scheduler ----

  class MessageQueue {
    const capacity: nat
    var messages: seq<Message>
    var enqueued: nat
    var dropped: nat

    constructor (capacity: nat)
      ensures this.capacity == capacity && messages == [] && enqueued == 0 && dropped == 0
    {
      this.capacity, messages, enqueued, dropped := capacity, [], 0, 0;
    }

    method Enqueue(m: Message) returns (ok: bool)
      modifies this
      ensures ok <==> old(|messages|) < capacity
      ensures messages == if ok then old(messages) + [m] else old(messages)
      ensures enqueued == old(enqueued) + (if ok then 1 else 0)
      ensures dropped == old(dropped) + (if ok then 0 else 1)
    {
      if |messages| < capacity {
        messages := messages + [m];
        enqueued := enqueued + 1;
        return true;
      }
      // Displacing a lower-priority message is a stub that always declines.
      dropped := dropped + 1;
      return false;
    }

    /** A receive that does not wait. */
    method TryReceive() returns (r: Option<Message>)
      modifies this`messages
      ensures r == if old(messages) == [] then None else Some(old(messages)[0])
      ensures messages == if old(messages) == [] then [] else old(messages)[1..]
    {
      if messages == [] {
        return None;
      }
      r := Some(messages[0]);
      messages := messages[1..];
    }
  }

  class PriorityEngine {
    const critical: MessageQueue
    const high: MessageQueue
    const normal: MessageQueue
    const low: MessageQueue
    const outputSize: nat
    var counters: map<Priority, nat>
    var output: seq<Message>
    var held: Option<Message>
    ghost var accepted: seq<Message>
    ghost var refused: seq<Message>
    ghost var sent: seq<Message>
    ghost var consumed: seq<Message>

    ghost predicate Wired() {
      critical != high && critical != normal && critical != low && high != normal && high != low && normal != low
    }

    /** Go's map lookup: an absent counter reads as zero. */
    function Counter(p: Priority): nat
      reads this
    {
      if p in counters then counters[p] else 0
    }

    ghost function View(): Engine
      reads this, critical, high, normal, low
    {
      Engine(Quad(critical.capacity, high.capacity, normal.capacity, low.capacity), outputSize,
             Quad(critical.messages, high.messages, normal.messages, low.messages),
             Quad(critical.dropped, high.dropped, normal.dropped, low.dropped),
             Quad(Counter(Critical), Counter(High), Counter(Normal), Counter(Low)),
             output, held, accepted, refused, sent, consumed)
    }

    function Queue(p: Priority): (q: MessageQueue)
      ensures q in {critical, high, normal, low}
    {
      match p
      case Critical => critical
      case High => high
      case Normal => normal
      case Low => low
    }

    constructor (queueSize: nat)
      ensures Wired() && View() == Initial(queueSize)
      ensures fresh(critical) && fresh(high) && fresh(normal) && fresh(low)
      ensures critical.capacity == high.capacity == low.capacity == queueSize / 4 && normal.capacity == queueSize / 2
      ensures outputSize == queueSize && counters == map[] && output == [] && held == None
    {
      critical := new MessageQueue(queueSize / 4);
      high := new MessageQueue(queueSize / 4);
      normal := new MessageQueue(queueSize / 2);
      low := new MessageQueue(queueSize / 4);
      outputSize := queueSize;
      counters, output, held := map[], [], None;
      accepted, refused, sent, consumed := [], [], [], [];
    }

    method Enqueue(m: Message) returns (r: EnqueueResult)
      requires Wired()
      modifies this, critical, high, normal, low
      ensures (View(), r) == OfferStep(old(View()), m)
      ensures r == InvalidPriority <==> m.code < 0 || m.code > 3
      ensures var added := if r == Accepted then [m] else [];
              && critical.messages == old(critical.messages) + (if m.code == 3 then added else [])
              && high.messages == old(high.messages) + (if m.code == 2 then added else [])
              && normal.messages == old(normal.messages) + (if m.code == 1 then added else [])
              && low.messages == old(low.messages) + (if m.code == 0 then added else [])
    {
      var p := FromCode(m.code);
      if p.None? {
        return InvalidPriority;
      }
      var ok := Queue(p.value).Enqueue(m);
      if ok {
        accepted := accepted + [m];
        return Accepted;
      }
      refused := refused + [m];
      return QueueFull;
    }

    /** A receive from the queue of priority p. */
    method Take(p: Priority) returns (m: Option<Message>)
      requires Wired()
      modifies critical`messages, high`messages, normal`messages, low`messages
      ensures var queue := old(View()).queues.Get(p);
        m == (if queue == [] then None else Some(queue[0]))
        && View() == old(View()).(queues := old(View()).queues.Set(p, if queue == [] then [] else queue[1..]))
    {
      match p {
        case Critical => m := critical.TryReceive();
        case High => m := high.TryReceive();
        case Normal => m := normal.TryReceive();
        case Low => m := low.TryReceive();
      }
    }

    method Charge(p: Priority)
      modifies this`counters
      ensures View() == old(View()).(counters := old(View()).counters.Set(p, old(View()).counters.Get(p) + 1))
    {
      counters := counters[p := Counter(p) + 1];
    }

    /** One branch of the scheduler's loop: serve priority p if it has budget and a message. */
    method TryServe(p: Priority) returns (served: bool)
      requires Wired() && held.None?
      modifies this, critical, high, normal, low
      ensures served == Eligible(old(View()), p)
      ensures View() == if served then Dispatch(old(View()), p) else old(View())
    {
      assert View().counters.Get(p) == Counter(p);
      if Counter(p) >= Weight(p) {
        return false;
      }
      var m := Take(p);
      if m.None? {
        return false;
      }
      Charge(p);
      Send(m.value);
      return true;
    }

    method Send(m: Message)
      modifies this`sent, this`output, this`held
      ensures View() == Emit(old(View()), m)
    {
      sent := sent + [m];
      if |output| < outputSize {
        output := output + [m];
      } else {
        held := Some(m);
      }
    }

    method ScheduleNext()
      requires Wired()
      modifies this, critical, high, normal, low
      ensures View() == TickStep(old(View()))
      ensures old(held).Some? ==> View() == old(View())
    {
      if held.Some? {
        return;
      }
      var i := 0;
      while i < |ORDER|
        invariant 0 <= i <= |ORDER|
        invariant View() == old(View())
        invariant forall j :: 0 <= j < i ==> !Eligible(View(), ORDER[j])
      {
        var served := TryServe(ORDER[i]);
        if served {
          PickInOrder(old(View()), i);
          return;
        }
        i := i + 1;
      }
      PickInOrder(View(), i);
      counters := map p | p in counters :: 0;
    }

    /** The distributor's receive from the output channel. */
    method Receive() returns (r: Option<Message>)
      requires Wired()
      modifies this
      ensures View() == ConsumeStep(old(View()))
      ensures r.Some? <==> old(output) != [] || old(held).Some?
      ensures r.Some? ==> consumed == old(consumed) + [r.value]
      ensures r == if old(output) != [] then Some(old(output)[0]) else old(held)
    {
      if output != [] {
        r := Some(output[0]);
        output := output[1..];
        if held.Some? {
          output := output + [held.value];
          held := None;
        }
        consumed := consumed + [r.value];
      } else if held.Some? {
        r := held;
        held := None;
        consumed := consumed + [r.value];
      } else {
        r := None;
      }
    }
  }

  // ---- conservation and order ----

  /** The messages of one priority, in order. */
  function OfPriority(ms: seq<Message>, p: Priority): seq<Message> {
    if ms == [] then []
    else OfPriority(ms[..|ms| - 1], p) + if FromCode(ms[|ms| - 1].code) == Some(p) then [ms[|ms| - 1]] else []
  }

  lemma OfPriorityAppend(ms: seq<Message>, m: Message, p: Priority)
    ensures OfPriority(ms + [m], p) == OfPriority(ms, p) + if FromCode(m.code) == Some(p) then [m] else []
  {
    assert (ms + [m])[..|ms|] == ms;
  }

  ghost predicate Sorted(s: Engine, p: Priority) {
    forall i :: 0 <= i < |s.queues.Get(p)| ==> FromCode(s.queues.Get(p)[i].code) == Some(p)
  }

  /** The laws of one priority: bounded, FIFO and complete, every refusal counted. */
  ghost predicate Lawful(s: Engine, p: Priority) {
    && |s.queues.Get(p)| <= s.capacity.Get(p)
    && s.counters.Get(p) <= Weight(p)
    && Sorted(s, p)
    && OfPriority(s.sent, p) + s.queues.Get(p) == OfPriority(s.accepted, p)
    && s.dropped.Get(p) == |OfPriority(s.refused, p)|
  }

  ghost predicate Valid(s: Engine) {
    && (forall p :: Lawful(s, p))
    && |s.output| <= s.outputSize
    && (s.held.Some? ==> |s.output| == s.outputSize)
    && s.consumed + s.output + (if s.held.Some? then [s.held.value] else []) == s.sent
  }

  lemma OfferKeepsLawful(s: Engine, m: Message, p: Priority)
    requires Lawful(s, p)
    ensures Lawful(OfferStep(s, m).0, p)
  {
    hide OfPriority;
    OfPriorityAppend(s.accepted, m, p);
    OfPriorityAppend(s.refused, m, p);
    var queue := s.queues.Get(p);
    assert OfPriority(s.sent, p) + (queue + [m]) == OfPriority(s.sent, p) + queue + [m];
  }

  lemma OfferKeepsValid(s: Engine, m: Message)
    requires Valid(s)
    ensures Valid(OfferStep(s, m).0)
  {
    forall p
      ensures Lawful(OfferStep(s, m).0, p)
    {
      assert Lawful(s, p);
      OfferKeepsLawful(s, m, p);
    }
  }

  lemma DispatchKeepsOthers(s: Engine, q: Priority, p: Priority)
    requires Lawful(s, p) && Lawful(s, q) && Eligible(s, q) && p != q
    ensures Lawful(Dispatch(s, q), p)
  {
    hide OfPriority;
    var m := s.queues.Get(q)[0];
    assert FromCode(m.code) == Some(q);
    OfPriorityAppend(s.sent, m, p);
  }

  lemma DispatchKeepsOwn(s: Engine, q: Priority)
    requires Lawful(s, q) && Eligible(s, q)
    ensures Lawful(Dispatch(s, q), q)
  {
    hide OfPriority;
    var queue, done := s.queues.Get(q), OfPriority(s.sent, q);
    var m := queue[0];
    assert FromCode(m.code) == Some(q);
    OfPriorityAppend(s.sent, m, q);
    assert queue == [m] + queue[1..];
    assert done + queue == done + [m] + queue[1..];
  }

  lemma TickKeepsValid(s: Engine)
    requires Valid(s)
    ensures Valid(TickStep(s))
  {
    var t := TickStep(s);
    if s.held.None? && Pick(s).Some? {
      var q := Pick(s).value;
      assert Lawful(s, q);
      forall p
        ensures Lawful(t, p)
      {
        if p == q {
          DispatchKeepsOwn(s, q);
        } else {
          DispatchKeepsOthers(s, q, p);
        }
      }
    } else {
      forall p
        ensures Lawful(t, p)
      {
        assert Lawful(s, p);
      }
    }
  }

  lemma ConsumeKeepsValid(s: Engine)
    requires Valid(s)
    ensures Valid(ConsumeStep(s))
  {
    var t := ConsumeStep(s);
    forall p
      ensures Lawful(t, p)
    {
      assert Lawful(s, p);
    }
    var waiting := s.output + (if s.held.Some? then [s.held.value] else []);
    if waiting != [] {
      assert waiting == [waiting[0]] + waiting[1..];
      assert s.consumed + waiting == s.sent;
      assert t.consumed + t.output == s.consumed + waiting;
    }
  }

  lemma StepKeepsValid(s: Engine, e: Event)
    requires Valid(s)
    ensures Valid(Step(s, e))
  {
    match e {
      case Offer(m) => OfferKeepsValid(s, m);
      case Tick => TickKeepsValid(s);
      case Consume => ConsumeKeepsValid(s);
    }
  }

  /** Every run keeps every queue bounded, FIFO and loss-free, and the output channel in dispatch order. */
  lemma {:induction false} RunKeepsValid(s: Engine, events: seq<Event>)
    requires Valid(s)
    ensures Valid(Run(s, events))
    decreases |events|
  {
    if events != [] {
      StepKeepsValid(s, events[0]);
      RunKeepsValid(Step(s, events[0]), events[1..]);
    }
  }

  /** For each priority, dispatched then queued is exactly what was accepted, in order; what the
      workers received, the channel holds and the scheduler holds is exactly what was dispatched. */
  lemma Conservation(queueSize: nat, events: seq<Event>, p: Priority)
    ensures var s := Run(Initial(queueSize), events);
            && OfPriority(s.sent, p) + s.queues.Get(p) == OfPriority(s.accepted, p)
            && s.consumed + s.output + (if s.held.Some? then [s.held.value] else []) == s.sent
            && |s.queues.Get(p)| <= Capacities(queueSize).Get(p)
            && s.dropped.Get(p) == |OfPriority(s.refused, p)|
            && OfferedTo(events, p) == |OfPriority(s.accepted, p)| + |OfPriority(s.refused, p)|
  {
    var s := Initial(queueSize);
    assert forall q :: Lawful(s, q);
    RunKeepsValid(s, events);
    assert Lawful(Run(s, events), p);
    OfferedAreRecorded(s, events, p);
    CapacityFixed(s, events);
  }

  function OfferedTo(events: seq<Event>, p: Priority): nat {
    if events == [] then 0
    else (if events[0].Offer? && FromCode(events[0].message.code) == Some(p) then 1 else 0) + OfferedTo(events[1..], p)
  }

  function Recorded(s: Engine, p: Priority): nat {
    |OfPriority(s.accepted, p)| + |OfPriority(s.refused, p)|
  }

  lemma {:induction false} OfferedAreRecorded(s: Engine, events: seq<Event>, p: Priority)
    ensures Recorded(Run(s, events), p) == Recorded(s, p) + OfferedTo(events, p)
    decreases |events|
  {
    hide OfPriority;
    if events != [] {
      OfferedAreRecorded(Step(s, events[0]), events[1..], p);
      if events[0].Offer? {
        OfPriorityAppend(s.accepted, events[0].message, p);
        OfPriorityAppend(s.refused, events[0].message, p);
      }
    }
  }

  lemma {:induction false} CapacityFixed(s: Engine, events: seq<Event>)
    ensures Run(s, events).capacity == s.capacity
    decreases |events|
  {
    if events != [] {
      CapacityFixed(Step(s, events[0]), events[1..]);
    }
  }

  // ---- no starvation ----

  function Left(c: Quad<nat>, p: Priority): int {
    Weight(p) - c.Get(p)
  }

  function LeftTotal(c: Quad<nat>): int {
    Left(c, Critical) + Left(c, High) + Left(c, Normal) + Left(c, Low)
  }

  /** Budget left above priority p. */
  function LeftAbove(c: Quad<nat>, p: Priority): int {
    match p
    case Critical => 0
    case High => Left(c, Critical)
    case Normal => Left(c, Critical) + Left(c, High)
    case Low => Left(c, Critical) + Left(c, High) + Left(c, Normal)
  }

  /** The tick at which a waiting priority is served at the latest: the others use up their budget,
      one tick resets, the higher ones go first. */
  function Wait(c: Quad<nat>, p: Priority): int {
    if c.Get(p) < Weight(p) then LeftAbove(c, p) + 1
    else LeftTotal(c) + 1 + LeftAbove(Quad(0, 0, 0, 0), p) + 1
  }

  /** The scheduler waits for room in the output channel. */
  predicate Blocked(s: Engine) {
    s.held.Some?
  }

  function Ticks(events: seq<Event>): nat {
    if events == [] then 0 else (if events[0].Tick? then 1 else 0) + Ticks(events[1..])
  }

  /** At every tick of the run priority p has a message waiting and the scheduler is not blocked. */
  predicate Waiting(s: Engine, events: seq<Event>, p: Priority)
    decreases |events|
  {
    events == []
    || ((events[0].Tick? ==> s.queues.Get(p) != [] && !Blocked(s))
        && Waiting(Step(s, events[0]), events[1..], p))
  }

  function Served(s: Engine, p: Priority): nat {
    |OfPriority(s.sent, p)|
  }

  lemma ServedByStep(s: Engine, e: Event, p: Priority)
    requires Valid(s)
    ensures Valid(Step(s, e))
    ensures Served(Step(s, e), p)
         == Served(s, p) + if e.Tick? && s.held.None? && Pick(s) == Some(p) then 1 else 0
    ensures Step(s, e).counters.Get(p)
         == if !e.Tick? || s.held.Some? then s.counters.Get(p)
            else if Pick(s).None? then 0
            else s.counters.Get(p) + if Pick(s) == Some(p) then 1 else 0
  {
    hide OfPriority;
    StepKeepsValid(s, e);
    if e.Tick? && s.held.None? && Pick(s).Some? {
      var q := Pick(s).value;
      assert Lawful(s, q);
      OfPriorityAppend(s.sent, s.queues.Get(q)[0], p);
    }
  }

  lemma {:induction false} ServedGrows(s: Engine, events: seq<Event>, p: Priority)
    requires Valid(s)
    ensures Served(s, p) <= Served(Run(s, events), p)
    decreases |events|
  {
    if events != [] {
      ServedByStep(s, events[0], p);
      ServedGrows(Step(s, events[0]), events[1..], p);
    }
  }

  lemma TickCounters(s: Engine)
    requires s.held.None?
    ensures TickStep(s).counters
         == match Pick(s)
            case Some(q) => s.counters.Set(q, s.counters.Get(q) + 1)
            case None => Quad(0, 0, 0, 0)
  {}

  lemma WaitShrinks(s: Engine, p: Priority)
    requires Valid(s) && !Blocked(s) && s.queues.Get(p) != [] && Pick(s) != Some(p)
    ensures Wait(TickStep(s).counters, p) < Wait(s.counters, p)
  {
    hide TickStep;
    TickCounters(s);
    assert Lawful(s, Critical) && Lawful(s, High) && Lawful(s, Normal) && Lawful(s, Low);
  }

  lemma WaitBound(s: Engine, p: Priority)
    requires Valid(s)
    ensures 1 <= Wait(s.counters, p) <= 30
  {
    assert Lawful(s, Critical) && Lawful(s, High) && Lawful(s, Normal) && Lawful(s, Low);
  }

  /** A priority that keeps a message waiting is served within `Wait` ticks, hence within 30, whatever
      else happens in between. */
  lemma {:induction false} NoStarvation(s: Engine, events: seq<Event>, p: Priority)
    requires Valid(s) && Waiting(s, events, p) && Ticks(events) >= Wait(s.counters, p)
    ensures Served(Run(s, events), p) > Served(s, p)
    decreases |events|
  {
    WaitBound(s, p);
    var t, rest := Step(s, events[0]), events[1..];
    ServedByStep(s, events[0], p);
    if events[0].Tick? {
      if Pick(s) == Some(p) {
        ServedGrows(t, rest, p);
      } else {
        WaitShrinks(s, p);
        NoStarvation(t, rest, p);
      }
    } else {
      NoStarvation(t, rest, p);
    }
  }

  lemma NoStarvationFromStart(queueSize: nat, before: seq<Event>, events: seq<Event>, p: Priority)
    requires Waiting(Run(Initial(queueSize), before), events, p) && Ticks(events) >= 30
    ensures var s := Run(Initial(queueSize), before);
            Served(Run(s, events), p) > Served(s, p)
  {
    var s := Run(Initial(queueSize), before);
    assert forall q :: Lawful(Initial(queueSize), q);
    RunKeepsValid(Initial(queueSize), before);
    WaitBound(s, p);
    NoStarvation(s, events, p);
  }

  predicate AllWaiting(s: Engine, events: seq<Event>) {
    Waiting(s, events, Critical) && Waiting(s, events, High) && Waiting(s, events, Normal) && Waiting(s, events, Low)
  }

  /** The scheduler's choice when every queue has a message. */
  function FirstCredit(c: Quad<nat>): Option<Priority> {
    if c.critical < 8 then Some(Critical)
    else if c.high < 4 then Some(High)
    else if c.normal < 2 then Some(Normal)
    else if c.low < 1 then Some(Low)
    else None
  }

  lemma BackloggedPick(s: Engine)
    requires forall q :: s.queues.Get(q) != []
    ensures Pick(s) == FirstCredit(s.counters)
  {
    assert s.queues.Get(Critical) != [] && s.queues.Get(High) != [];
    assert s.queues.Get(Normal) != [] && s.queues.Get(Low) != [];
  }

  lemma CreditTicksDown(c: Quad<nat>, p: Priority)
    requires c.critical <= 8 && c.high <= 4 && c.normal <= 2 && c.low <= 1
    ensures FirstCredit(c) == Some(p) <==> Wait(c, p) == 1
    ensures FirstCredit(c).Some? && FirstCredit(c).value != p ==>
              var q := FirstCredit(c).value; Wait(c.Set(q, c.Get(q) + 1), p) == Wait(c, p) - 1
    ensures FirstCredit(c).None? ==> Wait(Quad(0, 0, 0, 0), p) == Wait(c, p) - 1
  {
    match p {
      case Critical =>
      case High =>
      case Normal =>
      case Low =>
    }
  }

  /** The bound is exact: while all four queues are backlogged, nothing of priority p goes out
      before tick number `Wait`. */
  lemma {:induction false} ServedNoSooner(s: Engine, events: seq<Event>, p: Priority)
    requires Valid(s) && AllWaiting(s, events) && Ticks(events) < Wait(s.counters, p)
    ensures Served(Run(s, events), p) == Served(s, p)
    decreases |events|
  {
    hide OfPriority, Wait, TickStep, Pick;
    if events != [] {
      ServedByStep(s, events[0], p);
      if events[0].Tick? {
        assert forall q :: s.queues.Get(q) != [];
        BackloggedPick(s);
        TickCounters(s);
        assert Lawful(s, Critical) && Lawful(s, High) && Lawful(s, Normal) && Lawful(s, Low);
        CreditTicksDown(s.counters, p);
        WaitBound(Step(s, events[0]), p);
      }
      ServedNoSooner(Step(s, events[0]), events[1..], p);
    }
  }

  /** Thirty is the least bound: a Low message behind a spent credit waits 29 ticks of full backlog in vain. */
  lemma LowWaitsThirtyTicks(s: Engine, events: seq<Event>)
    requires Valid(s) && s.counters == Quad(0, 0, 0, 1) && AllWaiting(s, events) && Ticks(events) == 29
    ensures Served(Run(s, events), Low) == Served(s, Low)
  {
    ServedNoSooner(s, events, Low);
  }

  /** That state is reached: a lone Low message spends the credit. */
  lemma LowCreditSpentIsReachable(queueSize: nat, m: Message)
    requires queueSize >= 4 && m.code == 0
    ensures Run(Initial(queueSize), [Offer(m), Tick]).counters == Quad(0, 0, 0, 1)
  {
    var s := Step(Initial(queueSize), Offer(m));
    assert [Offer(m), Tick][1..] == [Tick] && [Tick][1..] == [];
    assert Run(Initial(queueSize), [Offer(m), Tick]) == Run(s, [Tick]) == Step(s, Tick);
  }

  // ---- the priority codes ----

  /** Where an offered message goes, by its code: code 3 to the critical queue, 2 to the high, 1 to the normal and 0 to
      the low one, at the back unless it is full; no other queue and no other drop counter changes. */
  lemma OfferGoesByCode(s: Engine, m: Message)
    ensures
      var (t, r) := OfferStep(s, m);
      var added, lost := if r == Accepted then [m] else [], if r == QueueFull then 1 else 0;
      && (r == InvalidPriority <==> m.code < 0 || m.code > 3)
      && (m.code == 3 ==> (r == Accepted <==> |s.queues.critical| < s.capacity.critical))
      && (m.code == 2 ==> (r == Accepted <==> |s.queues.high| < s.capacity.high))
      && (m.code == 1 ==> (r == Accepted <==> |s.queues.normal| < s.capacity.normal))
      && (m.code == 0 ==> (r == Accepted <==> |s.queues.low| < s.capacity.low))
      && t.queues.critical == s.queues.critical + (if m.code == 3 then added else [])
      && t.queues.high == s.queues.high + (if m.code == 2 then added else [])
      && t.queues.normal == s.queues.normal + (if m.code == 1 then added else [])
      && t.queues.low == s.queues.low + (if m.code == 0 then added else [])
      && t.dropped == Quad(s.dropped.critical + (if m.code == 3 then lost else 0),
                           s.dropped.high + (if m.code == 2 then lost else 0),
                           s.dropped.normal + (if m.code == 1 then lost else 0),
                           s.dropped.low + (if m.code == 0 then lost else 0))
      && t.accepted == s.accepted + added && t.counters == s.counters && t.sent == s.sent
  {
  }

  ghost predicate AllOfCode(ms: seq<Message>, code: int) {
    forall i :: 0 <= i < |ms| ==> ms[i].code == code
  }

  /** In every reachable state the critical queue holds messages of code 3 only, and so on down to code 0. */
  lemma QueuesHoldTheirCodes(queueSize: nat, events: seq<Event>)
    ensures var s := Run(Initial(queueSize), events);
            && AllOfCode(s.queues.critical, 3) && AllOfCode(s.queues.high, 2)
            && AllOfCode(s.queues.normal, 1) && AllOfCode(s.queues.low, 0)
  {
    assert forall q :: Lawful(Initial(queueSize), q);
    RunKeepsValid(Initial(queueSize), events);
    var s := Run(Initial(queueSize), events);
    assert Lawful(s, Critical) && Lawful(s, High) && Lawful(s, Normal) && Lawful(s, Low);
    hide Run, OfPriority, Initial;
    assert forall m: Message, q :: FromCode(m.code) == Some(q) ==> m.code == match q case Critical => 3
                                                                                       case High => 2
                                                                                       case Normal => 1
                                                                                       case Low => 0;
  }

  /** The message a tick sends is of the greatest code that waits with credit left, of 8, 4, 2 and 1 for the codes 3, 2,
      1 and 0; it heads its queue and is charged to its own counter. Without one the counters are reset. */
  lemma TickSendsGreatestCode(s: Engine)
    requires s.held.None?
    requires AllOfCode(s.queues.critical, 3) && AllOfCode(s.queues.high, 2)
    requires AllOfCode(s.queues.normal, 1) && AllOfCode(s.queues.low, 0)
    ensures
      var t, q, c := TickStep(s), s.queues, s.counters;
      && (t.sent == s.sent || (|t.sent| == |s.sent| + 1 && t.sent[..|s.sent|] == s.sent))
      && (t.sent != s.sent ==>
            var k := t.sent[|s.sent|].code;
            && (k < 3 ==> q.critical == [] || c.critical >= 8)
            && (k < 2 ==> q.high == [] || c.high >= 4)
            && (k < 1 ==> q.normal == [] || c.normal >= 2)
            && (k == 3 ==> c.critical < 8 && q.critical == [t.sent[|s.sent|]] + t.queues.critical)
            && (k == 2 ==> c.high < 4 && q.high == [t.sent[|s.sent|]] + t.queues.high)
            && (k == 1 ==> c.normal < 2 && q.normal == [t.sent[|s.sent|]] + t.queues.normal)
            && (k == 0 ==> c.low < 1 && q.low == [t.sent[|s.sent|]] + t.queues.low)
            && 0 <= k <= 3
            && t.counters == Quad(c.critical + (if k == 3 then 1 else 0), c.high + (if k == 2 then 1 else 0),
                                  c.normal + (if k == 1 then 1 else 0), c.low + (if k == 0 then 1 else 0))
            && t.output == s.output + (if |s.output| < s.outputSize then [t.sent[|s.sent|]] else [])
            && t.held == if |s.output| < s.outputSize then None else Some(t.sent[|s.sent|]))
      && (t.sent == s.sent ==>
            && (q.critical == [] || c.critical >= 8) && (q.high == [] || c.high >= 4)
            && (q.normal == [] || c.normal >= 2) && (q.low == [] || c.low >= 1)
            && t == s.(counters := Quad(0, 0, 0, 0)))
  {
    var p := Pick(s);
    if p.Some? {
      var queue := s.queues.Get(p.value);
      assert queue == [queue[0]] + queue[1..];
      assert TickStep(s).sent == s.sent + [queue[0]];
    }
  }

  /** A message of code 3 offered after one of code 2 is sent first. */
  lemma CriticalOvertakesHigh(queueSize: nat, high: Message, critical: Message)
    requires queueSize >= 4 && high.code == 2 && critical.code == 3
    ensures Run(Initial(queueSize), [Offer(high), Offer(critical), Tick]).sent == [critical]
  {
    var s0 := Initial(queueSize);
    var s1 := Step(s0, Offer(high));
    var s2 := Step(s1, Offer(critical));
    var events := [Offer(high), Offer(critical), Tick];
    assert events[1..] == [Offer(critical), Tick] && [Offer(critical), Tick][1..] == [Tick] && [Tick][1..] == [];
    assert Run(s0, events) == Run(s1, [Offer(critical), Tick]) == Run(s2, [Tick]) == Run(Step(s2, Tick), []);
  }

  // ---- weighted shares ----

  /** No tick of the run resets the counters. */
  predicate NoReset(s: Engine, events: seq<Event>)
    decreases |events|
  {
    events == []
    || ((events[0].Tick? && s.held.None? ==> Pick(s).Some?) && NoReset(Step(s, events[0]), events[1..]))
  }

  /** Between resets a priority sends one message per credit used, so never more than its weight. */
  lemma {:induction false} SharesBetweenResets(s: Engine, events: seq<Event>, p: Priority)
    requires Valid(s) && NoReset(s, events)
    ensures Served(Run(s, events), p) - Served(s, p) == Run(s, events).counters.Get(p) - s.counters.Get(p)
    ensures Served(Run(s, events), p) - Served(s, p) <= Weight(p)
    decreases |events|
  {
    RunKeepsValid(s, events);
    assert Lawful(Run(s, events), p);
    if events != [] {
      ServedByStep(s, events[0], p);
      SharesBetweenResets(Step(s, events[0]), events[1..], p);
    }
  }

  lemma BackloggedTick(s: Engine)
    requires Valid(s) && !Blocked(s) && forall q :: s.queues.Get(q) != []
    ensures Pick(s).None? <==> LeftTotal(s.counters) == 0
    ensures Pick(s).Some? ==> LeftTotal(TickStep(s).counters) == LeftTotal(s.counters) - 1
  {
    hide TickStep, Pick;
    BackloggedPick(s);
    TickCounters(s);
    assert Lawful(s, Critical) && Lawful(s, High) && Lawful(s, Normal) && Lawful(s, Low);
  }

  /** While all queues are backlogged every tick spends one credit until none is left. */
  lemma {:induction false} CreditsSpent(s: Engine, events: seq<Event>)
    requires Valid(s) && AllWaiting(s, events) && Ticks(events) <= LeftTotal(s.counters)
    ensures NoReset(s, events)
    ensures LeftTotal(Run(s, events).counters) == LeftTotal(s.counters) - Ticks(events)
    decreases |events|
  {
    hide OfPriority, LeftTotal;
    if events != [] {
      ServedByStep(s, events[0], Low);
      if events[0].Tick? {
        assert forall q :: s.queues.Get(q) != [];
        BackloggedTick(s);
      }
      CreditsSpent(Step(s, events[0]), events[1..]);
    }
  }

  /** A backlogged cycle: 15 ticks after a reset the shares are exactly 8, 4, 2 and 1, and the 16th
      tick resets again without serving anything. */
  lemma CycleShares(s: Engine, events: seq<Event>, p: Priority)
    requires Valid(s) && s.counters == Quad(0, 0, 0, 0)
    requires AllWaiting(s, events + [Tick]) && Ticks(events) == 15
    ensures var t := Run(s, events + [Tick]);
            Served(t, p) - Served(s, p) == Weight(p) && t.counters == Quad(0, 0, 0, 0)
  {
    hide OfPriority;
    WaitingSplits(s, events, [Tick], Critical);
    WaitingSplits(s, events, [Tick], High);
    WaitingSplits(s, events, [Tick], Normal);
    WaitingSplits(s, events, [Tick], Low);
    CreditsSpent(s, events);
    SharesBetweenResets(s, events, p);
    var u := Run(s, events);
    RunKeepsValid(s, events);
    assert Lawful(u, Critical) && Lawful(u, High) && Lawful(u, Normal) && Lawful(u, Low);
    assert [Tick][1..] == [];
    assert Run(u, [Tick]) == Step(u, Tick);
    ServedByStep(u, Tick, p);
    assert forall q :: u.queues.Get(q) != [];
    BackloggedTick(u);
  }

  lemma {:induction false} WaitingSplits(s: Engine, a: seq<Event>, b: seq<Event>, p: Priority)
    requires Waiting(s, a + b, p)
    ensures Waiting(s, a, p) && Waiting(Run(s, a), b, p) && Run(s, a + b) == Run(Run(s, a), b)
    decreases |a|
  {
    if a == [] {
      assert a + b == b;
    } else {
      assert (a + b)[0] == a[0] && (a + b)[1..] == a[1..] + b;
      WaitingSplits(Step(s, a[0]), a[1..], b, p);
    }
  }
}
