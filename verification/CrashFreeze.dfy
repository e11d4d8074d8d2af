/**
  Threads append to the ring while another may start handling a crash. An append looks at the
  crashing flag twice, before and after it has the spinlock; the handler takes no lock at all.
 */
module CrashFreeze {
  import opened UpdateTypes
  import opened CrashRing

  datatype Progress =
    | Idle
    | Spinning(message: seq<Byte>)
    | Holding(message: seq<Byte>)
    /* Past the second check: `done` bytes are in the array. */
    | Writing(message: seq<Byte>, done: nat)
    | WrapStored(message: seq<Byte>)
    | IndexStored

  datatype Memory = Memory(buffer: seq<Byte>, index: nat, wrapped: bool)

  datatype Machine = Machine(
    memory: Memory, crashing: bool, lock: Option<nat>, threads: map<nat, Progress>,
    /* Every message whose append has moved the write position on. */
    history: seq<Byte>)
  {
    function At(thread: nat): Progress {
      if thread in threads then threads[thread] else Idle
    }

    function Move(thread: nat, to: Progress): Machine {
      this.(threads := threads[thread := to])
    }
  }

  datatype Step =
    | Begin(thread: nat, message: seq<Byte>)
    | TakeLock(thread: nat)
    | CheckAgain(thread: nat)
    | StoreByte(thread: nat)
    | StoreWrapped(thread: nat)
    | StoreIndex(thread: nat)
    | Release(thread: nat)
    | SetCrashing

  function Take(m: Machine, step: Step): Machine {
    match step
    case SetCrashing => m.(crashing := true)
    case Begin(t, message) =>
      if m.At(t).Idle? && !m.crashing && message != [] then m.Move(t, Spinning(Cut(message))) else m
    case TakeLock(t) =>
      if m.At(t).Spinning? && m.lock.None? then m.(lock := Some(t)).Move(t, Holding(m.At(t).message)) else m
    case CheckAgain(t) =>
      if !m.At(t).Holding? then m
      else if m.crashing then m.(lock := None).Move(t, Idle)
      else m.Move(t, Writing(m.At(t).message, 0))
    case StoreByte(t) => if m.At(t).Writing? then ByteStored(m, t, m.At(t).message, m.At(t).done) else m
    case StoreWrapped(t) =>
      if m.At(t).Writing? && m.At(t).done == |m.At(t).message| then
        m.(memory := m.memory.(wrapped := m.memory.wrapped || m.memory.index + m.At(t).done >= CAPACITY))
        .Move(t, WrapStored(m.At(t).message))
      else m
    case StoreIndex(t) =>
      if m.At(t).WrapStored? then
        m.(memory := m.memory.(index := Place(m.memory.index + |m.At(t).message|)),
           history := m.history + m.At(t).message).Move(t, IndexStored)
      else m
    case Release(t) => if m.At(t).IndexStored? then m.(lock := None).Move(t, Idle) else m
  }

  function ByteStored(m: Machine, t: nat, message: seq<Byte>, done: nat): Machine {
    var place := Place(m.memory.index + done);
    if done < |message| && place < |m.memory.buffer| then
      m.(memory := m.memory.(buffer := m.memory.buffer[place := message[done]])).Move(t, Writing(message, done + 1))
    else m
  }

  const ZEROES: seq<Byte> := seq(CAPACITY, _ => 0)

  const START := Machine(Memory(ZEROES, 0, false), false, None, map[], [])

  function Run(m: Machine, steps: seq<Step>): Machine {
    if steps == [] then m else Take(Run(m, steps[..|steps| - 1]), steps[|steps| - 1])
  }

  // ----- one writer at a time, and the ring stays right -----

  predicate Inside(p: Progress) {
    !p.Idle? && !p.Spinning?
  }

  /** May still change the buffer, the index or the wrap flag. */
  predicate Changing(p: Progress) {
    p.Writing? || p.WrapStored?
  }

  ghost predicate Excluded(m: Machine) {
    forall t: nat :: Inside(m.At(t)) <==> m.lock == Some(t)
  }

  predicate Short(p: Progress) {
    match p
    case Spinning(message) => |message| <= CAPACITY
    case Holding(message) => |message| <= CAPACITY
    case Writing(message, done) => |message| <= CAPACITY && done <= |message|
    case WrapStored(message) => |message| <= CAPACITY
    case _ => true
  }

  ghost predicate Fitting(m: Machine) {
    forall t: nat :: Short(m.At(t))
  }

  /** What of the holder's message is in the array already. */
  function InFlight(p: Progress): seq<Byte> {
    match p
    case Writing(message, done) => if done <= |message| then message[..done] else message
    case WrapStored(message) => message
    case _ => []
  }

  function Holder(m: Machine): Progress {
    if m.lock.Some? then m.At(m.lock.value) else Idle
  }

  /** The array already holds the bytes in flight; index and wrap flag follow when they are stored. */
  ghost predicate RingFits(m: Machine) {
    var flight := InFlight(Holder(m));
    && Holds(m.memory.buffer, m.history + flight)
    && m.memory.index == Place(|m.history|)
    && (m.memory.wrapped <==> |m.history + if Holder(m).WrapStored? then flight else []| >= CAPACITY)
  }

  ghost predicate Invariant(m: Machine) {
    Excluded(m) && Fitting(m) && RingFits(m)
  }

  lemma ExcludedKept(m: Machine, step: Step)
    requires Excluded(m)
    ensures Excluded(Take(m, step))
  {
    var n := Take(m, step);
    if !step.SetCrashing? {
      assert forall t: nat | t != step.thread :: n.At(t) == m.At(t);
    }
  }

  lemma FittingKept(m: Machine, step: Step)
    requires Fitting(m)
    ensures Fitting(Take(m, step))
  {
    var n := Take(m, step);
    forall u: nat ensures Short(n.At(u)) {
      assert Short(m.At(u));
      if step.SetCrashing? || u != step.thread {
        assert n.At(u) == m.At(u);
      }
    }
  }

  lemma ByteKeepsRing(m: Machine, t: nat, message: seq<Byte>, done: nat)
    requires Invariant(m) && m.At(t) == Writing(message, done)
    ensures RingFits(Take(m, StoreByte(t)))
  {
    hide Holds, Place;
    assert m.lock == Some(t);
    if done < |message| {
      PlaceOf(|m.history|, done);
      NextByteAdded(m.memory.buffer, m.history, message, done);
    }
  }

  lemma PublishingKeepsRing(m: Machine, step: Step)
    requires Invariant(m) && (step.StoreWrapped? || step.StoreIndex?)
    ensures RingFits(Take(m, step))
  {
    hide Holds, Place;
    var t := step.thread;
    var p := m.At(t);
    if step.StoreWrapped? && p.Writing? && p.done == |p.message| {
      assert m.lock == Some(t) && p.message[..p.done] == p.message;
      Published(m.history, p.message, m.memory.index, m.memory.wrapped);
    } else if step.StoreIndex? && p.WrapStored? {
      assert m.lock == Some(t);
      PlaceOf(|m.history|, |p.message|);
      assert m.history + p.message + [] == m.history + p.message;
    }
  }

  lemma RingKept(m: Machine, step: Step)
    requires Invariant(m)
    ensures RingFits(Take(m, step))
  {
    hide Holds, Place;
    match step
    case StoreByte(t) =>
      if m.At(t).Writing? {
        ByteKeepsRing(m, t, m.At(t).message, m.At(t).done);
      }
    case StoreWrapped(_) => PublishingKeepsRing(m, step);
    case StoreIndex(_) => PublishingKeepsRing(m, step);
    case SetCrashing =>
    case _ =>
      QuietKeepsRing(m, step);
  }

  lemma QuietKeepsRing(m: Machine, step: Step)
    requires Invariant(m) && !step.SetCrashing? && !step.StoreByte? && !step.StoreWrapped? && !step.StoreIndex?
    ensures RingFits(Take(m, step))
  {
    hide Holds, Place;
    var t := step.thread;
    assert Inside(m.At(t)) <==> m.lock == Some(t);
    assert m.history + [] == m.history;
    if step.CheckAgain? && m.At(t).Holding? {
      assert m.At(t).message[..0] == [];
    }
  }

  lemma {:induction false} InvariantAlways(steps: seq<Step>)
    ensures Invariant(Run(START, steps))
  {
    if steps == [] {
      assert forall t: nat :: START.At(t).Idle?;
    } else {
      hide Take, Excluded, Fitting, RingFits;
      var m, step := Run(START, steps[..|steps| - 1]), steps[|steps| - 1];
      InvariantAlways(steps[..|steps| - 1]);
      ExcludedKept(m, step);
      FittingKept(m, step);
      RingKept(m, step);
    }
  }

  /**
    With any number of threads, whenever no append is half done the array stands for the tail of all
    the messages, each whole, in the order in which they got the lock.
   */
  lemma AppendsDoNotMix(steps: seq<Step>)
    requires !Changing(Holder(Run(START, steps)))
    ensures var m := Run(START, steps); Agrees(m.memory.buffer, m.memory.index, m.memory.wrapped, m.history)
  {
    hide Holds, Place;
    InvariantAlways(steps);
    var m := Run(START, steps);
    assert m.history + [] == m.history;
  }

  // ----- after the crash flag is set -----

  lemma OneStepAfterCrash(m: Machine, step: Step)
    requires m.crashing
    ensures Take(m, step).crashing
    ensures forall t: nat :: Changing(Take(m, step).At(t)) ==> Changing(m.At(t))
    ensures Take(m, step).memory != m.memory ==> !step.SetCrashing? && Changing(m.At(step.thread))
  {
    if !step.SetCrashing? {
      assert forall t: nat | t != step.thread :: Take(m, step).At(t) == m.At(t);
    }
  }

  /** No append gets past its second check any more. */
  lemma {:induction false} NoNewWriter(m: Machine, more: seq<Step>, t: nat)
    requires m.crashing && Changing(Run(m, more).At(t))
    ensures Changing(m.At(t))
    ensures forall k | 0 <= k <= |more| :: Changing(Run(m, more[..k]).At(t))
  {
    StaysCrashing(m, more);
    assert more[..|more|] == more;
    if more != [] {
      var before := more[..|more| - 1];
      StaysCrashing(m, before);
      OneStepAfterCrash(Run(m, before), more[|more| - 1]);
      NoNewWriter(m, before, t);
      assert forall k | 0 <= k <= |before| :: before[..k] == more[..k];
    }
  }

  lemma {:induction false} StaysCrashing(m: Machine, more: seq<Step>)
    requires m.crashing
    ensures Run(m, more).crashing
  {
    if more != [] {
      StaysCrashing(m, more[..|more| - 1]);
    }
  }

  lemma {:induction false} NothingChanges(m: Machine, more: seq<Step>)
    requires m.crashing && forall t: nat :: !Changing(m.At(t))
    ensures Run(m, more).memory == m.memory
  {
    if more != [] {
      var before := Run(m, more[..|more| - 1]);
      NothingChanges(m, more[..|more| - 1]);
      StaysCrashing(m, more[..|more| - 1]);
      if Take(before, more[|more| - 1]).memory != before.memory {
        OneStepAfterCrash(before, more[|more| - 1]);
        NoNewWriter(m, more[..|more| - 1], more[|more| - 1].thread);
      }
    }
  }

  /**
    Once a crash is being handled there is at most one append that can still change the ring, the one
    already past its second check; when it is done, or if there is none, buffer, index and wrap flag
    stay as they are for good.
   */
  lemma FrozenAfterCrash(steps: seq<Step>, more: seq<Step>)
    requires Run(START, steps).crashing
    ensures var m := Run(START, steps);
            (forall t: nat :: !Changing(m.At(t))) ==> Run(m, more).memory == m.memory
    ensures forall t: nat, u: nat ::
              Changing(Run(START, steps).At(t)) && Changing(Run(Run(START, steps), more).At(u)) ==> t == u
  {
    var m := Run(START, steps);
    InvariantAlways(steps);
    if forall t: nat :: !Changing(m.At(t)) {
      NothingChanges(m, more);
    }
    forall t: nat, u: nat | Changing(m.At(t)) && Changing(Run(m, more).At(u)) ensures t == u {
      NoNewWriter(m, more, u);
      assert Inside(m.At(t)) && Inside(m.At(u));
    }
  }
}
