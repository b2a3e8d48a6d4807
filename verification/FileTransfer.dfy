/** Chunked file transfer: the sender cuts a file into chunks, the receiver reassembles them in any order. */
module FileTransfer {
  import opened Arith
  import opened Bytes

  // ---- cutting a file into chunks ----

  /** Ceiling division, in the sender's own form. */
  function ChunkCount(size: nat, chunkSize: nat): nat
    requires chunkSize > 0
  {
    (size + chunkSize - 1) / chunkSize
  }

  function Chunk(file: seq<Byte>, chunkSize: nat, i: nat): seq<Byte>
    requires chunkSize > 0 && i < ChunkCount(|file|, chunkSize)
  {
    ChunkBounds(|file|, chunkSize, i);
    var start := i * chunkSize;
    file[start..if start + chunkSize > |file| then |file| else start + chunkSize]
  }

  lemma QuotientIs(k: int, d: nat, q: int)
    requires d > 0
    ensures k / d == q <==> q * d <= k < q * d + d
  {
    QuotientBounds(k, d);
    if q * d <= k < q * d + d {
      QuotientUnique(k, d, q);
    }
  }

  /** A chunk number is in range exactly when its first byte lies inside the file. */
  lemma ChunkBounds(size: nat, chunkSize: nat, i: nat)
    requires chunkSize > 0
    ensures i < ChunkCount(size, chunkSize) <==> i * chunkSize < size
    ensures 0 <= i * chunkSize
  {
    var n := ChunkCount(size, chunkSize);
    QuotientBounds(size + chunkSize - 1, chunkSize);
    MulMonotone(0, i, chunkSize);
    if i < n {
      MulMonotone(i, n - 1, chunkSize);
    } else {
      MulMonotone(n, i, chunkSize);
    }
  }

  /** Byte k of the file travels in chunk k / chunkSize and in no other. */
  lemma ChunkHolds(file: seq<Byte>, chunkSize: nat, i: nat, k: nat)
    requires chunkSize > 0 && i < ChunkCount(|file|, chunkSize) && k < |file|
    ensures k / chunkSize == i <==> i * chunkSize <= k < i * chunkSize + |Chunk(file, chunkSize, i)|
    ensures k / chunkSize == i ==> Chunk(file, chunkSize, i)[k - i * chunkSize] == file[k]
  {
    ChunkBounds(|file|, chunkSize, i);
    QuotientIs(k, chunkSize, i);
  }

  lemma ChunkOfByte(size: nat, chunkSize: nat, k: nat)
    requires chunkSize > 0 && k < size
    ensures 0 <= k / chunkSize < ChunkCount(size, chunkSize)
  {
    QuotientIs(k, chunkSize, k / chunkSize);
    ChunkBounds(size, chunkSize, k / chunkSize);
  }

  function FirstChunks(file: seq<Byte>, chunkSize: nat, n: nat): seq<Byte>
    requires chunkSize > 0 && n <= ChunkCount(|file|, chunkSize)
  {
    if n == 0 then [] else FirstChunks(file, chunkSize, n - 1) + Chunk(file, chunkSize, n - 1)
  }

  lemma {:induction false} FirstChunksArePrefix(file: seq<Byte>, chunkSize: nat, n: nat)
    requires chunkSize > 0 && n <= ChunkCount(|file|, chunkSize)
    ensures FirstChunks(file, chunkSize, n) == file[..if n * chunkSize > |file| then |file| else n * chunkSize]
  {
    if n > 0 {
      FirstChunksArePrefix(file, chunkSize, n - 1);
      ChunkBounds(|file|, chunkSize, n - 1);
      assert n * chunkSize == (n - 1) * chunkSize + chunkSize;
    }
  }

  /** The chunks, in order, make up the file. */
  lemma ChunksCoverFile(file: seq<Byte>, chunkSize: nat)
    requires chunkSize > 0
    ensures FirstChunks(file, chunkSize, ChunkCount(|file|, chunkSize)) == file
  {
    var n := ChunkCount(|file|, chunkSize);
    FirstChunksArePrefix(file, chunkSize, n);
    ChunkBounds(|file|, chunkSize, n);
    assert file[..|file|] == file;
  }

  // ---- the receiver's state ----

  datatype Status = Transferring | Completed | Failed

  /** What one transfer session holds; `completions` counts the calls of completeTransfer. */
  datatype Reception = Reception(total: int, received: set<int>, data: seq<Byte>, checksum: string, status: Status,
                                 completions: nat)

  datatype Outcome = UnknownTransfer | Duplicate | OutOfRange | Stored | Finished

  function CopyAt(data: seq<Byte>, offset: nat, source: seq<Byte>): (copied: seq<Byte>)
    requires offset <= |data|
    ensures |copied| == |data|
  {
    seq(|data|, k requires 0 <= k < |data| => if offset <= k < offset + |source| then source[k - offset] else data[k])
  }

  function Verdict(v: Reception, digest: seq<Byte> -> string, saved: bool): Status {
    if v.checksum != "" && digest(v.data) != v.checksum then Failed
    else if saved then Completed else Failed
  }

  /** The effect of one chunk message; an offset outside the buffer makes the source panic. */
  function Deliver(v: Reception, chunkSize: nat, digest: seq<Byte> -> string, index: int, source: seq<Byte>,
                   saved: bool)
    : (Reception, Outcome)
  {
    var offset := index * chunkSize;
    if index in v.received then (v, Duplicate)
    else if offset < 0 || offset > |v.data| then (v, OutOfRange)
    else
      var w := v.(data := CopyAt(v.data, offset, source), received := v.received + {index});
      if |w.received| == w.total then
        (w.(status := Verdict(w, digest, saved), completions := w.completions + 1), Finished)
      else (w, Stored)
  }

  // ---- the application ----

  class Transfer {
    const total: int
    const checksum: string
    const data: array<Byte>
    var received: set<int>
    var status: Status
    ghost var completions: nat

    constructor (size: nat, total: int, checksum: string)
      ensures fresh(this.data)
      ensures View() == Reception(total, {}, seq(size, _ => 0), checksum, Transferring, 0)
    {
      this.total, this.checksum := total, checksum;
      received, status, completions := {}, Transferring, 0;
      var buffer: array<Byte> := new Byte[size](_ => 0);
      data := buffer;
      new;
      assert data[..] == seq(size, _ => 0);
    }

    ghost function View(): Reception
      reads this, data
    {
      Reception(total, received, data[..], checksum, status, completions)
    }

    /** Go's `copy(data[offset:], source)`. */
    method Copy(offset: nat, source: seq<Byte>)
      requires offset <= data.Length
      modifies data
      ensures data[..] == CopyAt(old(data[..]), offset, source)
      ensures forall k :: 0 <= k < data.Length ==>
                data[k] == if offset <= k < offset + |source| then source[k - offset] else old(data[k])
    {
      var n := if |source| <= data.Length - offset then |source| else data.Length - offset;
      var k := 0;
      while k < n
        invariant 0 <= k <= n
        invariant forall j :: 0 <= j < data.Length ==>
          data[j] == if offset <= j < offset + k then source[j - offset] else old(data[j])
      {
        data[offset + k] := source[k];
        k := k + 1;
      }
    }

    method Complete(digest: seq<Byte> -> string, saved: bool)
      modifies this`status, this`completions
      ensures status == Verdict(old(View()), digest, saved)
      ensures status == Completed <==> saved && (checksum == "" || digest(data[..]) == checksum)
      ensures status == Completed || status == Failed
      ensures completions == old(completions) + 1
    {
      completions := completions + 1;
      if checksum != "" {
        var actual := digest(data[..]);
        if actual != checksum {
          status := Failed;
          return;
        }
      }
      status := if saved then Completed else Failed;
    }
  }

  class App {
    const chunkSize: nat
    const digest: seq<Byte> -> string
    var transfers: map<string, Transfer>

    constructor (chunkSize: nat, digest: seq<Byte> -> string)
      requires chunkSize > 0
      ensures this.chunkSize == chunkSize && this.digest == digest && transfers == map[]
    {
      this.chunkSize, this.digest, transfers := chunkSize, digest, map[];
    }

    method HandleFileInfo(id: string, size: nat, total: int, checksum: string)
      modifies this
      ensures transfers.Keys == old(transfers.Keys) + {id}
      ensures forall other :: other in old(transfers) && other != id ==> transfers[other] == old(transfers[other])
      ensures fresh(transfers[id]) && fresh(transfers[id].data)
      ensures transfers[id].View() == Reception(total, {}, seq(size, _ => 0), checksum, Transferring, 0)
    {
      var transfer := new Transfer(size, total, checksum);
      transfers := transfers[id := transfer];
    }

    method HandleChunk(id: string, index: int, source: seq<Byte>, saved: bool) returns (outcome: Outcome)
      modifies if id in transfers then {transfers[id], transfers[id].data} else {}
      ensures transfers == old(transfers)
      ensures id !in transfers ==> outcome == UnknownTransfer
      ensures id in transfers ==>
                (transfers[id].View(), outcome)
                == Deliver(old(transfers[id].View()), chunkSize, digest, index, source, saved)
      ensures outcome == Finished ==>
                var t := transfers[id];
                t.status == Completed <==> saved && (t.checksum == "" || digest(t.data[..]) == t.checksum)
    {
      if id !in transfers {
        return UnknownTransfer;
      }
      var transfer := transfers[id];
      if index in transfer.received {
        return Duplicate;
      }
      var offset := index * chunkSize;
      if offset < 0 || offset > transfer.data.Length {
        return OutOfRange;
      }
      transfer.Copy(offset, source);
      transfer.received := transfer.received + {index};
      if |transfer.received| == transfer.total {
        transfer.Complete(digest, saved);
        return Finished;
      }
      return Stored;
    }

    /** The sender's loop; `accepts(i)` says whether the network takes chunk i, and the first refusal ends it. */
    method SendFileChunks(file: seq<Byte>, accepts: int -> bool) returns (sent: seq<(int, seq<Byte>)>)
      requires chunkSize > 0
      ensures |sent| <= ChunkCount(|file|, chunkSize)
      ensures forall i :: 0 <= i < |sent| ==> sent[i] == (i, Chunk(file, chunkSize, i)) && accepts(i)
      ensures |sent| == ChunkCount(|file|, chunkSize) || !accepts(|sent|)
    {
      var total := (|file| + chunkSize - 1) / chunkSize;
      sent := [];
      var i := 0;
      while i < total
        invariant 0 <= i == |sent| <= total
        invariant forall j :: 0 <= j < i ==> sent[j] == (j, Chunk(file, chunkSize, j)) && accepts(j)
      {
        var start := i * chunkSize;
        var end := start + chunkSize;
        ChunkBounds(|file|, chunkSize, i);
        if end > |file| {
          end := |file|;
        }
        if !accepts(i) {
          return;
        }
        sent := sent + [(i, file[start..end])];
        i := i + 1;
      }
    }
  }

  // ---- any announcement, any contents ----

  /** What one chunk message does: a counted number changes nothing, another is counted and its bytes are put in place;
      the message that brings the count to the announced total decides the status, by the checksum of what is there. */
  lemma DeliverCounts(v: Reception, chunkSize: nat, digest: seq<Byte> -> string, index: int, source: seq<Byte>,
                      saved: bool)
    ensures
      var (w, outcome) := Deliver(v, chunkSize, digest, index, source, saved);
      var counted := outcome == Stored || outcome == Finished;
      && outcome != UnknownTransfer && (outcome == Duplicate <==> index in v.received)
      && (outcome == OutOfRange <==> index !in v.received && !(0 <= index * chunkSize <= |v.data|))
      && w.received == v.received + (if counted then {index} else {})
      && w.total == v.total && w.checksum == v.checksum && |w.data| == |v.data|
      && (!counted ==> w == v)
      && (counted ==> forall k :: 0 <= k < |v.data| ==>
            w.data[k] == if index * chunkSize <= k < index * chunkSize + |source| then source[k - index * chunkSize]
                         else v.data[k])
      && (outcome == Stored ==> |w.received| != v.total && w.status == v.status && w.completions == v.completions)
      && (outcome == Finished ==>
            && |w.received| == v.total && w.completions == v.completions + 1 && w.status != Transferring
            && (w.status == Completed <==> saved && (v.checksum == "" || digest(w.data) == v.checksum)))
  {
  }

  /** A chunk message as it arrives, damaged or not; `saved` is the answer of the disk if it completes the transfer. */
  datatype Arrival = Arrival(index: int, source: seq<Byte>, saved: bool)

  /** The session opened for an announcement, after the messages. */
  function Receive(size: nat, total: int, checksum: string, chunkSize: nat, digest: seq<Byte> -> string,
                   arrivals: seq<Arrival>): Reception
  {
    if arrivals == [] then Reception(total, {}, seq(size, _ => 0), checksum, Transferring, 0)
    else
      var last := arrivals[|arrivals| - 1];
      Deliver(Receive(size, total, checksum, chunkSize, digest, arrivals[..|arrivals| - 1]), chunkSize, digest,
              last.index, last.source, last.saved).0
  }

  /** The message number j brings the count to the announced total. */
  predicate ReachesTotal(size: nat, total: int, checksum: string, chunkSize: nat, digest: seq<Byte> -> string,
                         arrivals: seq<Arrival>, j: nat)
    requires j < |arrivals|
  {
    |Receive(size, total, checksum, chunkSize, digest, arrivals[..j]).received| < total
    && |Receive(size, total, checksum, chunkSize, digest, arrivals[..j + 1]).received| == total
  }

  ghost predicate Fired(v: Reception) {
    v.completions == (if 1 <= v.total <= |v.received| then 1 else 0)
    && (v.status == Transferring <==> v.completions == 0)
  }

  lemma OneMessage(v: Reception, chunkSize: nat, digest: seq<Byte> -> string, a: Arrival)
    requires Fired(v)
    ensures
      var w := Deliver(v, chunkSize, digest, a.index, a.source, a.saved).0;
      && Fired(w) && |v.received| <= |w.received| && (v.completions == 1 ==> w.status == v.status)
      && w.total == v.total && w.checksum == v.checksum
      && (|v.received| < v.total == |w.received| ==>
            (w.status == Completed <==> a.saved && (v.checksum == "" || digest(w.data) == v.checksum)))
  {
    DeliverCounts(v, chunkSize, digest, a.index, a.source, a.saved);
    hide Deliver;
    if a.index in v.received {
      assert v.received + {a.index} == v.received;
    } else {
      assert |v.received + {a.index}| == |v.received| + 1;
    }
  }

  /** Whatever was announced and whatever arrives: completion fires once, when as many different chunks are counted as
      were announced, and the transfer is then completed if and only if the disk took the file and its checksum is the
      announced one or none was announced; otherwise it failed. What comes later does not change that. */
  lemma {:induction false} CompletedIffChecksum(size: nat, total: int, checksum: string, chunkSize: nat,
                                                digest: seq<Byte> -> string, arrivals: seq<Arrival>)
    ensures
      var v := Receive(size, total, checksum, chunkSize, digest, arrivals);
      && v.completions == (if 1 <= total <= |v.received| then 1 else 0)
      && (v.status == Transferring <==> v.completions == 0)
      && forall j :: 0 <= j < |arrivals| && ReachesTotal(size, total, checksum, chunkSize, digest, arrivals, j) ==>
           var data := Receive(size, total, checksum, chunkSize, digest, arrivals[..j + 1]).data;
           v.status == Completed <==> arrivals[j].saved && (checksum == "" || digest(data) == checksum)
  {
    ReceiveKeeps(size, total, checksum, chunkSize, digest, arrivals);
    if arrivals != [] {
      var n := |arrivals| - 1;
      var before := arrivals[..n];
      CompletedIffChecksum(size, total, checksum, chunkSize, digest, before);
      ReceiveKeeps(size, total, checksum, chunkSize, digest, before);
      OneMessage(Receive(size, total, checksum, chunkSize, digest, before), chunkSize, digest, arrivals[n]);
      hide Deliver;
      assert arrivals[..n + 1] == arrivals;
      forall j | 0 <= j < n && ReachesTotal(size, total, checksum, chunkSize, digest, arrivals, j)
        ensures before[..j + 1] == arrivals[..j + 1]
        ensures ReachesTotal(size, total, checksum, chunkSize, digest, before, j)
        ensures Receive(size, total, checksum, chunkSize, digest, before).completions == 1
      {
        ReachedStays(size, total, checksum, chunkSize, digest, arrivals, j);
      }
    }
  }

  lemma ReachedStays(size: nat, total: int, checksum: string, chunkSize: nat, digest: seq<Byte> -> string,
                     arrivals: seq<Arrival>, j: nat)
    requires j < |arrivals| - 1 && ReachesTotal(size, total, checksum, chunkSize, digest, arrivals, j)
    ensures var before := arrivals[..|arrivals| - 1];
            && before[..j + 1] == arrivals[..j + 1]
            && ReachesTotal(size, total, checksum, chunkSize, digest, before, j)
            && 1 <= total <= |Receive(size, total, checksum, chunkSize, digest, before).received|
  {
    hide Receive;
    var before := arrivals[..|arrivals| - 1];
    assert before[..j] == arrivals[..j] && before[..j + 1] == arrivals[..j + 1];
    CountGrows(size, total, checksum, chunkSize, digest, before, j + 1);
  }

  lemma {:induction false} ReceiveKeeps(size: nat, total: int, checksum: string, chunkSize: nat,
                                        digest: seq<Byte> -> string, arrivals: seq<Arrival>)
    ensures var v := Receive(size, total, checksum, chunkSize, digest, arrivals);
            v.total == total && v.checksum == checksum && |v.data| == size && Fired(v)
  {
    if arrivals != [] {
      var before, last := arrivals[..|arrivals| - 1], arrivals[|arrivals| - 1];
      ReceiveKeeps(size, total, checksum, chunkSize, digest, before);
      OneMessage(Receive(size, total, checksum, chunkSize, digest, before), chunkSize, digest, last);
    }
  }

  lemma {:induction false} CountGrows(size: nat, total: int, checksum: string, chunkSize: nat,
                                      digest: seq<Byte> -> string, arrivals: seq<Arrival>, j: nat)
    requires j <= |arrivals|
    ensures |Receive(size, total, checksum, chunkSize, digest, arrivals[..j]).received|
            <= |Receive(size, total, checksum, chunkSize, digest, arrivals).received|
  {
    if j == |arrivals| {
      assert arrivals[..j] == arrivals;
    } else {
      var n := |arrivals| - 1;
      var before, last := arrivals[..n], arrivals[n];
      assert before[..j] == arrivals[..j];
      CountGrows(size, total, checksum, chunkSize, digest, before, j);
      ReceiveKeeps(size, total, checksum, chunkSize, digest, before);
      OneMessage(Receive(size, total, checksum, chunkSize, digest, before), chunkSize, digest, last);
    }
  }

  /** A file of one byte in one chunk, damaged on the way: the transfer failed although the disk would take it. */
  lemma DamagedFileFails(chunkSize: nat, digest: seq<Byte> -> string, checksum: string, damaged: Byte)
    requires checksum != "" && digest([damaged]) != checksum
    ensures Receive(1, 1, checksum, chunkSize, digest, [Arrival(0, [damaged], true)]).status == Failed
  {
    var start := Reception(1, {}, seq(1, _ => 0), checksum, Transferring, 0);
    var a := Arrival(0, [damaged], true);
    assert [a][..0] == [];
    assert Receive(1, 1, checksum, chunkSize, digest, []) == start;
    var w := Deliver(start, chunkSize, digest, 0, [damaged], true).0;
    assert w.data == [damaged];
    assert w.received == {0};
  }

  // ---- any order, any repetition ----

  /** The session start for `file`, before any chunk. */
  function Opened(file: seq<Byte>, chunkSize: nat, digest: seq<Byte> -> string): Reception
    requires chunkSize > 0
  {
    Reception(ChunkCount(|file|, chunkSize), {}, seq(|file|, _ => 0), digest(file), Transferring, 0)
  }

  ghost predicate InRange(file: seq<Byte>, chunkSize: nat, arrivals: seq<int>)
    requires chunkSize > 0
  {
    forall j :: 0 <= j < |arrivals| ==> 0 <= arrivals[j] < ChunkCount(|file|, chunkSize)
  }

  /** The session after chunks of `file` arrived with the given numbers; `saves(j)` says whether the file could be saved
      when arrival j came. */
  function Arrive(file: seq<Byte>, chunkSize: nat, digest: seq<Byte> -> string, arrivals: seq<int>,
                  saves: nat -> bool): Reception
    requires chunkSize > 0 && InRange(file, chunkSize, arrivals)
  {
    if arrivals == [] then Opened(file, chunkSize, digest)
    else
      var i := arrivals[|arrivals| - 1];
      Deliver(Arrive(file, chunkSize, digest, arrivals[..|arrivals| - 1], saves), chunkSize, digest, i,
              Chunk(file, chunkSize, i), saves(|arrivals| - 1)).0
  }

  function Distinct(arrivals: seq<int>): set<int> {
    set i | i in arrivals
  }

  function Range(n: nat): (r: set<int>)
    ensures |r| == n
    ensures forall i :: i in r <==> 0 <= i < n
  {
    if n == 0 then {} else Range(n - 1) + {n - 1}
  }

  function AllChunks(size: nat, chunkSize: nat): (all: set<int>)
    requires chunkSize > 0
  {
    Range(ChunkCount(size, chunkSize))
  }

  /** Chunks in `indices` are in place, the rest of the buffer is zero. */
  ghost predicate Holds(file: seq<Byte>, chunkSize: nat, indices: set<int>, data: seq<Byte>)
    requires chunkSize > 0
  {
    && |data| == |file|
    && forall k :: 0 <= k < |file| ==> data[k] == if k / chunkSize in indices then file[k] else 0
  }

  lemma CopyExtends(file: seq<Byte>, chunkSize: nat, indices: set<int>, data: seq<Byte>, i: nat)
    requires chunkSize > 0 && i < ChunkCount(|file|, chunkSize) && Holds(file, chunkSize, indices, data)
    ensures 0 <= i * chunkSize <= |data|
    ensures Holds(file, chunkSize, indices + {i}, CopyAt(data, i * chunkSize, Chunk(file, chunkSize, i)))
  {
    ChunkBounds(|file|, chunkSize, i);
    forall k | 0 <= k < |file|
      ensures CopyAt(data, i * chunkSize, Chunk(file, chunkSize, i))[k]
           == if k / chunkSize in indices + {i} then file[k] else 0
    {
      ChunkHolds(file, chunkSize, i, k);
    }
  }

  lemma SubsetOfSameSize(a: set<int>, b: set<int>)
    requires a <= b
    ensures |a| <= |b| && (|a| == |b| <==> a == b)
  {
    assert b == a + (b - a);
    assert |b| == |a| + |b - a|;
  }

  lemma FullMeansAll(size: nat, chunkSize: nat, indices: set<int>)
    requires chunkSize > 0 && indices <= AllChunks(size, chunkSize)
    ensures |indices| <= ChunkCount(size, chunkSize)
    ensures |indices| == ChunkCount(size, chunkSize) <==> indices == AllChunks(size, chunkSize)
  {
    SubsetOfSameSize(indices, AllChunks(size, chunkSize));
  }

  lemma AllInPlace(file: seq<Byte>, chunkSize: nat, data: seq<Byte>)
    requires chunkSize > 0 && Holds(file, chunkSize, AllChunks(|file|, chunkSize), data)
    ensures data == file
  {
    forall k | 0 <= k < |file|
      ensures data[k] == file[k]
    {
      ChunkOfByte(|file|, chunkSize, k);
    }
  }

  /** Whatever the order and repetition: received ranges are right, the rest is zero, and completion
      has fired once if all chunks are there and never before; the file passed its checksum, and the one attempt
      to save it decides the status. */
  lemma {:induction false} ArrivalsAccounted(file: seq<Byte>, chunkSize: nat, digest: seq<Byte> -> string,
                                             arrivals: seq<int>, saves: nat -> bool)
    requires chunkSize > 0 && InRange(file, chunkSize, arrivals)
    ensures Accounted(file, chunkSize, digest, Distinct(arrivals),
                      SavedAtEnd(AllChunks(|file|, chunkSize), arrivals, saves),
                      Arrive(file, chunkSize, digest, arrivals, saves))
    decreases |arrivals|
  {
    if arrivals == [] {
      NothingArrived(file, chunkSize, digest);
    } else {
      var n := |arrivals| - 1;
      var before, i := arrivals[..n], arrivals[n];
      ArrivalsAccounted(file, chunkSize, digest, before, saves);
      DistinctAppend(arrivals);
      OneArrival(file, chunkSize, digest, Distinct(before), SavedAtEnd(AllChunks(|file|, chunkSize), before, saves),
                 Arrive(file, chunkSize, digest, before, saves), i, saves(n));
      hide Accounted, Deliver, Distinct, AllChunks;
    }
  }

  lemma NothingArrived(file: seq<Byte>, chunkSize: nat, digest: seq<Byte> -> string)
    requires chunkSize > 0
    ensures Accounted(file, chunkSize, digest, {}, false, Opened(file, chunkSize, digest))
  {
    ChunkBounds(|file|, chunkSize, 0);
    assert file != [] ==> 0 in AllChunks(|file|, chunkSize);
  }

  lemma DistinctAppend(arrivals: seq<int>)
    requires arrivals != []
    ensures Distinct(arrivals) == Distinct(arrivals[..|arrivals| - 1]) + {arrivals[|arrivals| - 1]}
  {
    var n := |arrivals| - 1;
    assert arrivals == arrivals[..n] + [arrivals[n]];
  }

  /** Arrival j brings the last missing chunk. */
  predicate CompletesAt(all: set<int>, arrivals: seq<int>, j: nat)
    requires j < |arrivals|
  {
    Distinct(arrivals[..j]) != all && Distinct(arrivals[..j + 1]) == all
  }

  /** Whether the file could be saved at the arrival that brought the last missing chunk. */
  predicate SavedAtEnd(all: set<int>, arrivals: seq<int>, saves: nat -> bool)
    decreases |arrivals|
  {
    arrivals != []
    && var n := |arrivals| - 1;
       if Distinct(arrivals[..n]) == all then SavedAtEnd(all, arrivals[..n], saves) else saves(n)
  }

  lemma DistinctGrows(arrivals: seq<int>, j: nat)
    requires j <= |arrivals|
    ensures Distinct(arrivals[..j]) <= Distinct(arrivals)
  {
    assert arrivals == arrivals[..j] + arrivals[j..];
  }

  lemma {:induction false} SavedWhere(all: set<int>, arrivals: seq<int>, saves: nat -> bool, j: nat)
    requires j < |arrivals| && CompletesAt(all, arrivals, j) && Distinct(arrivals) <= all
    ensures Distinct(arrivals) == all && (SavedAtEnd(all, arrivals, saves) <==> saves(j))
    decreases |arrivals|
  {
    hide Distinct;
    var n := |arrivals| - 1;
    DistinctGrows(arrivals, j + 1);
    if j < n {
      var before := arrivals[..n];
      assert before[..j] == arrivals[..j] && before[..j + 1] == arrivals[..j + 1];
      DistinctGrows(arrivals, n);
      SavedWhere(all, before, saves, j);
    } else {
      assert arrivals[..j + 1] == arrivals;
    }
  }

  /** What holds of a session once exactly the chunks in `indices` have been received. */
  ghost predicate Accounted(file: seq<Byte>, chunkSize: nat, digest: seq<Byte> -> string, indices: set<int>,
                            saved: bool, v: Reception)
    requires chunkSize > 0
  {
    var full := file != [] && indices == AllChunks(|file|, chunkSize);
    && v.total == ChunkCount(|file|, chunkSize) && v.checksum == digest(file)
    && v.received == indices <= AllChunks(|file|, chunkSize)
    && Holds(file, chunkSize, indices, v.data)
    && v.completions == (if full then 1 else 0)
    && v.status == (if !full then Transferring else if saved then Completed else Failed)
  }

  lemma OneArrival(file: seq<Byte>, chunkSize: nat, digest: seq<Byte> -> string, indices: set<int>, saved: bool,
                   v: Reception, i: nat, savedNow: bool)
    requires chunkSize > 0 && i < ChunkCount(|file|, chunkSize) && Accounted(file, chunkSize, digest, indices, saved, v)
    ensures Accounted(file, chunkSize, digest, indices + {i},
                      if indices == AllChunks(|file|, chunkSize) then saved else savedNow,
                      Deliver(v, chunkSize, digest, i, Chunk(file, chunkSize, i), savedNow).0)
  {
    var all := indices + {i};
    if i in indices {
      assert all == indices;
    } else {
      CopyExtends(file, chunkSize, indices, v.data, i);
      FullMeansAll(|file|, chunkSize, all);
      ChunkBounds(|file|, chunkSize, i);
      assert indices != AllChunks(|file|, chunkSize);
      if all == AllChunks(|file|, chunkSize) {
        AllInPlace(file, chunkSize, CopyAt(v.data, i * chunkSize, Chunk(file, chunkSize, i)));
      }
    }
  }

  ghost predicate ZeroChunk(file: seq<Byte>, chunkSize: nat, i: nat)
    requires chunkSize > 0 && i < ChunkCount(|file|, chunkSize)
  {
    forall k :: 0 <= k < |file| && k / chunkSize == i ==> file[k] == 0
  }

  /** The buffer equals the file exactly when every chunk still missing consists of zero bytes. */
  lemma BufferIsFile(file: seq<Byte>, chunkSize: nat, digest: seq<Byte> -> string, arrivals: seq<int>,
                     saves: nat -> bool)
    requires chunkSize > 0 && InRange(file, chunkSize, arrivals)
    ensures Arrive(file, chunkSize, digest, arrivals, saves).data == file
       <==> forall i: nat :: i < ChunkCount(|file|, chunkSize) && i !in Distinct(arrivals) ==>
              ZeroChunk(file, chunkSize, i)
  {
    ArrivalsAccounted(file, chunkSize, digest, arrivals, saves);
    var data := Arrive(file, chunkSize, digest, arrivals, saves).data;
    if forall i: nat :: i < ChunkCount(|file|, chunkSize) && i !in Distinct(arrivals) ==>
         ZeroChunk(file, chunkSize, i)
    {
      forall k | 0 <= k < |file|
        ensures data[k] == file[k]
      {
        ChunkOfByte(|file|, chunkSize, k);
        var i: nat := k / chunkSize;
        assert i in Distinct(arrivals) || ZeroChunk(file, chunkSize, i);
      }
    }
  }

  /** Completion has fired exactly when all chunks are counted, and then the buffer is the file; the transfer is
      completed or failed as the file could be saved when the last missing chunk came. */
  lemma CompletionDeliversFile(file: seq<Byte>, chunkSize: nat, digest: seq<Byte> -> string, arrivals: seq<int>,
                               saves: nat -> bool)
    requires chunkSize > 0 && file != [] && InRange(file, chunkSize, arrivals)
    ensures var v := Arrive(file, chunkSize, digest, arrivals, saves);
            && (v.completions == 1 <==> |Distinct(arrivals)| == ChunkCount(|file|, chunkSize))
            && v.completions <= 1
            && (v.completions == 1 ==> v.data == file)
            && (v.completions == 0 ==> v.status == Transferring)
            && forall j :: 0 <= j < |arrivals| && CompletesAt(AllChunks(|file|, chunkSize), arrivals, j) ==>
                 v.status == if saves(j) then Completed else Failed
  {
    hide AllChunks, ChunkCount, Distinct, Arrive, Holds, InRange, CompletesAt, SavedAtEnd;
    ArrivalsAccounted(file, chunkSize, digest, arrivals, saves);
    FullMeansAll(|file|, chunkSize, Distinct(arrivals));
    if Distinct(arrivals) == AllChunks(|file|, chunkSize) {
      AllInPlace(file, chunkSize, Arrive(file, chunkSize, digest, arrivals, saves).data);
    }
    forall j | 0 <= j < |arrivals| && CompletesAt(AllChunks(|file|, chunkSize), arrivals, j)
      ensures Arrive(file, chunkSize, digest, arrivals, saves).status == if saves(j) then Completed else Failed
    {
      SavedWhere(AllChunks(|file|, chunkSize), arrivals, saves, j);
    }
  }

  /** "The buffer is the file exactly when all chunks are counted" holds for every arrival order
      if and only if the file has no chunk of zero bytes. */
  lemma EqualExactlyWhenComplete(file: seq<Byte>, chunkSize: nat, digest: seq<Byte> -> string, saves: nat -> bool)
    requires chunkSize > 0 && file != []
    ensures (forall arrivals: seq<int> :: InRange(file, chunkSize, arrivals) ==>
               (Arrive(file, chunkSize, digest, arrivals, saves).data == file
                <==> |Distinct(arrivals)| == ChunkCount(|file|, chunkSize)))
       <==> (forall i: nat :: i < ChunkCount(|file|, chunkSize) ==> !ZeroChunk(file, chunkSize, i))
  {
    if forall i: nat :: i < ChunkCount(|file|, chunkSize) ==> !ZeroChunk(file, chunkSize, i) {
      forall arrivals: seq<int> | InRange(file, chunkSize, arrivals)
        ensures Arrive(file, chunkSize, digest, arrivals, saves).data == file
           <==> |Distinct(arrivals)| == ChunkCount(|file|, chunkSize)
      {
        NoZeroChunk(file, chunkSize, digest, arrivals, saves);
      }
    } else {
      var i: nat :| i < ChunkCount(|file|, chunkSize) && ZeroChunk(file, chunkSize, i);
      AllButZeroChunk(file, chunkSize, digest, i, saves);
    }
  }

  /** Without one zero chunk the buffer already is the file. */
  lemma AllButZeroChunk(file: seq<Byte>, chunkSize: nat, digest: seq<Byte> -> string, i: nat, saves: nat -> bool)
    requires chunkSize > 0 && i < ChunkCount(|file|, chunkSize) && ZeroChunk(file, chunkSize, i)
    ensures var arrivals := UpTo(ChunkCount(|file|, chunkSize), i);
            && InRange(file, chunkSize, arrivals)
            && Arrive(file, chunkSize, digest, arrivals, saves).data == file
            && |Distinct(arrivals)| != ChunkCount(|file|, chunkSize)
  {
    var arrivals := UpTo(ChunkCount(|file|, chunkSize), i);
    assert forall j :: 0 <= j < |arrivals| ==> arrivals[j] in arrivals;
    BufferIsFile(file, chunkSize, digest, arrivals, saves);
    assert Distinct(arrivals) <= AllChunks(|file|, chunkSize);
    FullMeansAll(|file|, chunkSize, Distinct(arrivals));
    assert i in AllChunks(|file|, chunkSize) && i !in Distinct(arrivals);
  }

  lemma NoZeroChunk(file: seq<Byte>, chunkSize: nat, digest: seq<Byte> -> string, arrivals: seq<int>,
                    saves: nat -> bool)
    requires chunkSize > 0 && file != [] && InRange(file, chunkSize, arrivals)
    requires forall i: nat :: i < ChunkCount(|file|, chunkSize) ==> !ZeroChunk(file, chunkSize, i)
    ensures Arrive(file, chunkSize, digest, arrivals, saves).data == file
       <==> |Distinct(arrivals)| == ChunkCount(|file|, chunkSize)
  {
    CompletionDeliversFile(file, chunkSize, digest, arrivals, saves);
    if Arrive(file, chunkSize, digest, arrivals, saves).data == file {
      BufferIsFile(file, chunkSize, digest, arrivals, saves);
      ArrivalsAccounted(file, chunkSize, digest, arrivals, saves);
      assert AllChunks(|file|, chunkSize) <= Distinct(arrivals);
      FullMeansAll(|file|, chunkSize, Distinct(arrivals));
    }
  }

  /** The numbers below n except `i`, in order. */
  function UpTo(n: nat, i: nat): (arrivals: seq<int>)
    ensures forall x :: x in arrivals <==> 0 <= x < n && x != i
  {
    if n == 0 then [] else UpTo(n - 1, i) + if i == n - 1 then [] else [n - 1]
  }
}
