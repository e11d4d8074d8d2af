/**
  The last 64 KiB of the log, kept in a circular array so that a crash handler can write it out
  without allocating or locking. The array stands for the tail of everything ever appended.
 */
module CrashRing {
  import opened UpdateTypes

  type Byte = bv8

  const CAPACITY: nat := 64 * 1024

  /** The last bytes that still fit. */
  function Tail(history: seq<Byte>): (r: seq<Byte>) {
    if |history| <= CAPACITY then history else history[|history| - CAPACITY..]
  }

  /** Where a byte of the history goes in the array. */
  function Place(i: nat): (p: nat)
    ensures p < CAPACITY
  {
    i % CAPACITY
  }

  /** Every byte of the tail is where its position in the whole history puts it. */
  ghost predicate Holds(buffer: seq<Byte>, history: seq<Byte>) {
    && |buffer| == CAPACITY
    && forall i | 0 <= i < |history| && |history| - CAPACITY <= i :: buffer[Place(i)] == history[i]
  }

  /** A byte put at the next position displaces only the byte that has become too old. */
  lemma ByteAdded(buffer: seq<Byte>, history: seq<Byte>, b: Byte)
    requires Holds(buffer, history)
    ensures Holds(buffer[Place(|history|) := b], history + [b])
  {
    hide Place;
    var n := |history|;
    forall i | 0 <= i < n + 1 && n + 1 - CAPACITY <= i
      ensures buffer[Place(n) := b][Place(i)] == (history + [b])[i]
    {
      if i < n {
        PlacesDiffer(i, n);
        assert buffer[Place(i)] == history[i];
      }
    }
  }

  lemma NextByteAdded(buffer: seq<Byte>, history: seq<Byte>, message: seq<Byte>, k: nat)
    requires k < |message| && Holds(buffer, history + message[..k])
    ensures |buffer| == CAPACITY
    ensures Holds(buffer[Place(|history| + k) := message[k]], history + message[..k + 1])
  {
    hide Place;
    ByteAdded(buffer, history + message[..k], message[k]);
    assert history + message[..k + 1] == history + message[..k] + [message[k]];
  }

  lemma PlacesDiffer(i: nat, j: nat)
    requires i < j < i + CAPACITY
    ensures Place(i) != Place(j)
  {
  }

  /** A span that reaches the array's end is followed by the array's start. */
  lemma WrapsToStart(total: nat, span: nat)
    requires span == CAPACITY - Place(total)
    ensures Place(total + span) == 0
  {
  }

  lemma PlaceOf(total: nat, k: nat)
    ensures Place(total + k) == Place(Place(total) + k)
    ensures total < CAPACITY ==> Place(total) == total
    ensures Place(total) + k < CAPACITY ==> Place(total + k) == Place(total) + k
  {
  }

  /** What a reader finds: the part from the oldest byte to the array's end, then the part before it. */
  function FirstRun(buffer: seq<Byte>, index: nat, wrapped: bool): seq<Byte>
    requires index <= |buffer|
  {
    if wrapped then buffer[index..] else buffer[..index]
  }

  function SecondRun(buffer: seq<Byte>, index: nat, wrapped: bool): seq<Byte>
    requires index <= |buffer|
  {
    if wrapped then buffer[..index] else []
  }

  /** The fields agree with the history. */
  ghost predicate Agrees(buffer: seq<Byte>, index: nat, wrapped: bool, history: seq<Byte>) {
    && Holds(buffer, history)
    && index == Place(|history|)
    && (wrapped <==> |history| >= CAPACITY)
  }

  lemma RunsAreTail(buffer: seq<Byte>, index: nat, wrapped: bool, history: seq<Byte>)
    requires Agrees(buffer, index, wrapped, history)
    ensures FirstRun(buffer, index, wrapped) + SecondRun(buffer, index, wrapped) == Tail(history)
  {
    assert |buffer| == CAPACITY;
    hide Place, Holds;
    var n := |history|;
    if wrapped {
      var read, tail := buffer[index..] + buffer[..index], history[n - CAPACITY..];
      forall k | 0 <= k < CAPACITY ensures read[k] == tail[k] {
        RunAt(buffer, history, k);
      }
      assert read == tail;
    } else {
      PlaceOf(n, 0);
      forall k | 0 <= k < n ensures buffer[k] == history[k] {
        PlaceOf(k, 0);
        HeldAt(buffer, history, k);
      }
      assert buffer[..index] == history;
    }
  }

  lemma HeldAt(buffer: seq<Byte>, history: seq<Byte>, i: nat)
    requires Holds(buffer, history) && |history| - CAPACITY <= i < |history|
    ensures |buffer| == CAPACITY && buffer[Place(i)] == history[i]
  {
  }

  lemma RunAt(buffer: seq<Byte>, history: seq<Byte>, k: nat)
    requires Holds(buffer, history) && |history| >= CAPACITY && k < CAPACITY
    ensures (buffer[Place(|history|)..] + buffer[..Place(|history|)])[k] == history[|history| - CAPACITY + k]
  {
    hide Place, Holds;
    HeldAt(buffer, history, |history| - CAPACITY + k);
    TailPlace(|history|, k);
    ReadPlace(buffer, Place(|history|), k);
  }

  lemma ReadPlace(buffer: seq<Byte>, index: nat, k: nat)
    requires |buffer| == CAPACITY && index < CAPACITY && k < CAPACITY
    ensures (buffer[index..] + buffer[..index])[k]
            == buffer[if index + k < CAPACITY then index + k else index + k - CAPACITY]
  {
  }

  /** The tail starts at the write position and comes round to it. */
  lemma TailPlace(total: nat, k: nat)
    requires total >= CAPACITY && k < CAPACITY
    ensures Place(total - CAPACITY + k) == if Place(total) + k < CAPACITY then Place(total) + k else Place(total) + k - CAPACITY
  {
  }

  /** An appended message moves the write position on and may be the one that fills the array. */
  lemma Published(history: seq<Byte>, added: seq<Byte>, index: nat, wrapped: bool)
    requires index == Place(|history|) && (wrapped <==> |history| >= CAPACITY) && |added| <= CAPACITY
    ensures Place(index + |added|) == Place(|history + added|)
    ensures (wrapped || index + |added| >= CAPACITY) <==> |history + added| >= CAPACITY
  {
    PlaceOf(|history|, |added|);
  }

  /** A message is cut to what the whole array can take. */
  function Cut(message: seq<Byte>): seq<Byte> {
    if |message| <= CAPACITY then message else message[..CAPACITY]
  }

  // ----- a file descriptor -----

  datatype WriteResult = Wrote(count: nat) | Interrupted | Broken

  class Descriptor {
    var received: seq<Byte>

    constructor ()
      ensures received == []
    {
      received := [];
    }

    /** write(2): any part of the bytes, or an error. */
    method Write(bytes: seq<Byte>) returns (r: WriteResult)
      modifies this
      ensures r.Wrote? ==> r.count <= |bytes| && received == old(received) + bytes[..r.count]
      ensures !r.Wrote? ==> received == old(received)
    {
      var fails: bool := *;
      if fails {
        var interrupted: bool := *;
        return if interrupted then Interrupted else Broken;
      }
      var count :| 0 <= count <= |bytes|;
      received := received + bytes[..count];
      return Wrote(count);
    }
  }

  const MAX_ATTEMPTS: nat := 1024

  /** Writes on after short and interrupted writes, but never more than 1024 times. */
  method WriteAll(fd: Descriptor, bytes: seq<Byte>) returns (written: nat, ghost attempts: nat, ghost broken: bool)
    modifies fd
    ensures written <= |bytes| && fd.received == old(fd.received) + bytes[..written]
    ensures attempts <= MAX_ATTEMPTS
    ensures written == |bytes| || attempts == MAX_ATTEMPTS || broken
  {
    written, attempts, broken := 0, 0, false;
    var tries := 0;
    while written < |bytes| && tries < MAX_ATTEMPTS
      invariant written <= |bytes| && tries <= MAX_ATTEMPTS && attempts == tries && !broken
      invariant fd.received == old(fd.received) + bytes[..written]
      decreases MAX_ATTEMPTS - tries
    {
      var r := fd.Write(bytes[written..]);
      if r.Wrote? {
        assert bytes[..written + r.count] == bytes[..written] + bytes[written..][..r.count];
        written := written + r.count;
      } else if r.Broken? {
        attempts, broken := attempts + 1, true;
        return;
      }
      tries, attempts := tries + 1, attempts + 1;
    }
  }

  class CrashRingBuffer {
    const buffer: array<Byte>
    var writeIndex: nat
    var wrapped: bool
    var crashing: bool
    /** Everything appended so far, each message cut to the capacity. */
    ghost var history: seq<Byte>

    ghost predicate Valid()
      reads this, buffer
    {
      buffer.Length == CAPACITY && Agrees(buffer[..], writeIndex, wrapped, history)
    }

    constructor ()
      ensures Valid() && history == [] && !crashing && fresh(buffer)
    {
      buffer := new Byte[CAPACITY](_ => 0);
      writeIndex, wrapped, crashing, history := 0, false, false, [];
    }

    method SetCrashing(value: bool)
      requires Valid()
      modifies `crashing
      ensures Valid() && crashing == value
    {
      crashing := value;
    }

    /** Adds a message, unless a crash is being handled. */
    method Append(message: seq<Byte>)
      requires Valid()
      modifies `writeIndex, `wrapped, `history, buffer
      ensures Valid()
      ensures history == if old(crashing) then old(history) else old(history) + Cut(message)
      ensures old(crashing) ==> buffer[..] == old(buffer[..]) && writeIndex == old(writeIndex) && wrapped == old(wrapped)
    {
      if crashing || message == [] {
        return;
      }
      hide Holds, Place;
      var n := if |message| < CAPACITY then |message| else CAPACITY;
      var head := writeIndex;
      ghost var added := Cut(message);
      CopyBothSpans(message, n);
      assert added == message[..n];
      Published(history, added, writeIndex, wrapped);
      if head + n >= CAPACITY {
        wrapped := true;
      }
      writeIndex := Place(head + n);
      history := history + added;
    }

    /** The bytes up to the array's end, then the rest at its start. */
    method CopyBothSpans(message: seq<Byte>, n: nat)
      requires Valid() && n <= |message| && n <= CAPACITY
      modifies buffer
      ensures Holds(buffer[..], history + message[..n])
    {
      hide Holds, Place;
      var head := writeIndex;
      var firstSpan := if n < CAPACITY - head then n else CAPACITY - head;
      assert history + message[..0] == history;
      CopyIn(message, 0, firstSpan, head);
      if firstSpan < n {
        WrapsToStart(|history|, firstSpan);
        CopyIn(message, firstSpan, n, 0);
      }
    }

    /** memcpy of `message[from..to]` to the array from `at` on. */
    method CopyIn(message: seq<Byte>, from: nat, to: nat, at: nat)
      requires from <= to <= |message| && at + to - from <= CAPACITY == buffer.Length
      requires Holds(buffer[..], history + message[..from])
      requires from < to ==> at == Place(|history| + from)
      modifies buffer
      ensures Holds(buffer[..], history + message[..to])
    {
      hide Holds, Place;
      for k := from to to
        invariant Holds(buffer[..], history + message[..k])
      {
        ghost var before := buffer[..];
        PlaceOf(|history| + from, k - from);
        NextByteAdded(before, history, message, k);
        buffer[at + k - from] := message[k];
        assert buffer[..] == before[at + k - from := message[k]];
      }
    }

    /** Copies as much of the tail, oldest byte first, as the caller has room for. */
    method Snapshot(out: array?<Byte>, size: nat) returns (copied: nat)
      requires Valid() && out != buffer
      requires out != null ==> size <= out.Length
      modifies if out != null then {out} else {}
      ensures Valid() && history == old(history)
      ensures out == null || size == 0 ==> copied == 0
      ensures out != null ==> copied == (if size < |Tail(history)| then size else |Tail(history)|)
      ensures out != null ==> out[..copied] == Tail(history)[..copied] && out[copied..] == old(out[copied..])
    {
      copied := 0;
      if out == null || size == 0 {
        return;
      }
      hide Agrees, Tail;
      RunsAreTail(buffer[..], writeIndex, wrapped, history);
      if !wrapped {
        copied := if writeIndex < size then writeIndex else size;
        CopyOut(out, 0, 0, copied);
        assert Tail(history) == buffer[..][..writeIndex];
        return;
      }
      copied := CopyRuns(out, size, writeIndex);
      assert Tail(history) == buffer[..][writeIndex..] + buffer[..][..writeIndex];
    }

    /** The run from `head` to the array's end, then the one before `head`. */
    method CopyRuns(out: array<Byte>, size: nat, head: nat) returns (copied: nat)
      requires out != buffer && size <= out.Length && head < buffer.Length == CAPACITY
      modifies out
      ensures copied == (if size < CAPACITY then size else CAPACITY)
      ensures out[..copied] == (buffer[head..] + buffer[..head])[..copied] && out[copied..] == old(out[copied..])
    {
      var firstSpan := if CAPACITY - head < size then CAPACITY - head else size;
      CopyOut(out, 0, head, firstSpan);
      copied := firstSpan;
      if copied < size {
        ghost var first := out[..copied];
        var secondTake := if head < size - copied then head else size - copied;
        CopyOut(out, copied, 0, secondTake);
        copied := copied + secondTake;
        assert (buffer[head..] + buffer[..head])[..copied] == buffer[head..] + buffer[..secondTake];
        assert first == buffer[head..];
      } else {
        assert (buffer[head..] + buffer[..head])[..copied] == buffer[head..head + copied];
      }
    }

    /** memcpy of `count` bytes of the array from `from` on to `out` from `at` on. */
    method CopyOut(out: array<Byte>, at: nat, from: nat, count: nat)
      requires out != buffer && at + count <= out.Length && from + count <= buffer.Length
      modifies out
      ensures out[..at + count] == old(out[..at]) + buffer[from..from + count]
      ensures out[at + count..] == old(out[at + count..])
    {
      for k := 0 to count
        invariant forall j | 0 <= j < out.Length ::
            out[j] == if at <= j < at + k then buffer[from + j - at] else old(out[j])
      {
        out[at + k] := buffer[from + k];
      }
    }

    /** Writes the two runs out; when every byte is accepted, what arrived is the tail. */
    method SnapshotToFd(fd: Descriptor) returns (written: nat)
      requires Valid()
      modifies fd
      ensures Valid() && history == old(history) && written <= |Tail(history)|
      ensures written == |Tail(history)| ==> fd.received == old(fd.received) + Tail(history)
      ensures |fd.received| == |old(fd.received)| + written
    {
      RunsAreTail(buffer[..], writeIndex, wrapped, history);
      var head := writeIndex;
      ghost var attempts, broken;
      if !wrapped {
        written, attempts, broken := WriteAll(fd, buffer[..head]);
        return;
      }
      written, attempts, broken := WriteAll(fd, buffer[head..]);
      if head > 0 {
        var more;
        more, attempts, broken := WriteAll(fd, buffer[..head]);
        written := written + more;
      }
    }
  }
}
