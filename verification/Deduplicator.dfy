/** Duplicate suppression: a table of accepted message IDs, pruned by age. */
module Deduplicator {
  type Table = map<string, int>

  /** Accept a message unless its ID is in the table. */
  function Receive(t: Table, id: string, now: int): (Table, bool) {
    if id in t then (t, false) else (t[id := now], true)
  }

  function Pruned(t: Table, timeout: int, now: int): Table {
    map id | id in t && now - t[id] <= timeout :: t[id]
  }

  class MessageDeduplicator {
    const messageTimeout: int
    var received: Table

    constructor (messageTimeout: int)
      ensures this.messageTimeout == messageTimeout && received == map[]
    {
      this.messageTimeout, received := messageTimeout, map[];
    }

    predicate IsDuplicate(id: string)
      reads this
    {
      id in received
    }

    method MarkReceived(id: string, now: int)
      modifies this
      ensures received == old(received)[id := now]
    {
      received := received[id := now];
    }

    method Cleanup(now: int)
      modifies this
      ensures received == Pruned(old(received), messageTimeout, now)
      ensures forall id :: id in received <==> id in old(received) && now - old(received)[id] <= messageTimeout
      ensures forall id :: id in received ==> received[id] == old(received)[id]
    {
      var todo := received.Keys;
      while todo != {}
        invariant todo <= received.Keys <= old(received.Keys)
        invariant forall id :: id in received ==> received[id] == old(received)[id]
        invariant forall id :: id in old(received) && id !in todo ==>
          (id in received <==> now - old(received)[id] <= messageTimeout)
        decreases |todo|
      {
        var id :| id in todo;
        todo := todo - {id};
        if now - received[id] > messageTimeout {
          received := received - {id};
        }
      }
    }

    /** Whether the message goes on to the queue, and whether an acknowledgement is sent. */
    method ProcessIncoming(id: string, isData: bool, now: int) returns (accepted: bool, acknowledged: bool)
      modifies this
      ensures (received, accepted) == Receive(old(received), id, now)
      ensures accepted <==> id !in old(received)
      ensures received == if id in old(received) then old(received) else old(received)[id := now]
      ensures acknowledged == isData
    {
      if IsDuplicate(id) {
        return false, isData;
      }
      MarkReceived(id, now);
      return true, isData;
    }
  }

  // ---- runs ----

  datatype Event = Message(id: string, at: int) | Cleanup(at: int)

  function Step(t: Table, timeout: int, e: Event): Table {
    match e
    case Message(id, at) => Receive(t, id, at).0
    case Cleanup(at) => Pruned(t, timeout, at)
  }

  function Run(timeout: int, events: seq<Event>): Table {
    if events == [] then map[] else Step(Run(timeout, events[..|events| - 1]), timeout, events[|events| - 1])
  }

  predicate Accepted(timeout: int, events: seq<Event>, i: nat)
    requires i < |events|
  {
    events[i].Message? && Receive(Run(timeout, events[..i]), events[i].id, events[i].at).1
  }

  /** Event i accepted this ID and no cleanup among events i+1, ..., n-1 found it too old. */
  ghost predicate Remembers(timeout: int, events: seq<Event>, n: nat, i: nat, id: string)
    requires i < n <= |events|
  {
    && Accepted(timeout, events, i) && events[i].id == id
    && forall j :: i < j < n && events[j].Cleanup? ==> events[j].at - events[i].at <= timeout
  }

  lemma RunStep(timeout: int, events: seq<Event>, n: nat)
    requires 0 < n <= |events|
    ensures Run(timeout, events[..n]) == Step(Run(timeout, events[..n - 1]), timeout, events[n - 1])
  {
    assert events[..n][..n - 1] == events[..n - 1];
  }

  /** An accepted ID stays in the table until a cleanup finds it too old. */
  lemma {:induction false} MemoryPersists(timeout: int, events: seq<Event>, n: nat, i: nat, id: string)
    requires i < n <= |events| && Remembers(timeout, events, n, i, id)
    ensures id in Run(timeout, events[..n]) && Run(timeout, events[..n])[id] == events[i].at
    decreases n
  {
    RunStep(timeout, events, n);
    if i < n - 1 {
      MemoryPersists(timeout, events, n - 1, i, id);
    }
  }

  /** Whatever is in the table was accepted, and no cleanup since found it too old. */
  lemma {:induction false} MemoryHasOrigin(timeout: int, events: seq<Event>, n: nat, id: string) returns (i: nat)
    requires n <= |events| && id in Run(timeout, events[..n])
    ensures i < n && Remembers(timeout, events, n, i, id)
    decreases n
  {
    if n == 0 {
      assert false;
    } else {
      RunStep(timeout, events, n);
      if events[n - 1].Message? && events[n - 1].id == id && Accepted(timeout, events, n - 1) {
        i := n - 1;
      } else {
        i := MemoryHasOrigin(timeout, events, n - 1, id);
        MemoryPersists(timeout, events, n - 1, i, id);
      }
    }
  }

  /** A message is reported duplicate exactly when an earlier one with its ID was accepted and no
      cleanup in between found that one older than the timeout. */
  lemma DuplicateIffRemembered(timeout: int, events: seq<Event>, k: nat)
    requires k < |events| && events[k].Message?
    ensures !Accepted(timeout, events, k) <==> exists i: nat :: i < k && Remembers(timeout, events, k, i, events[k].id)
  {
    if !Accepted(timeout, events, k) {
      var i := MemoryHasOrigin(timeout, events, k, events[k].id);
    }
    if i: nat :| i < k && Remembers(timeout, events, k, i, events[k].id) {
      MemoryPersists(timeout, events, k, i, events[k].id);
    }
  }

  predicate Monotone(events: seq<Event>) {
    forall i, j :: 0 <= i < j < |events| ==> events[i].at <= events[j].at
  }

  /** Whatever cleanups ran, two acceptances of the same ID are more than the timeout apart. */
  lemma AcceptancesFarApart(timeout: int, events: seq<Event>, i: nat, k: nat)
    requires Monotone(events) && i < k < |events|
    requires Accepted(timeout, events, i) && Accepted(timeout, events, k) && events[i].id == events[k].id
    ensures events[k].at - events[i].at > timeout
  {
    if events[k].at - events[i].at <= timeout {
      assert Remembers(timeout, events, k, i, events[k].id);
      DuplicateIffRemembered(timeout, events, k);
      assert false;
    }
  }
}
