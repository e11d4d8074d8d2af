/**
  How the list of known hosts is kept: a flush writes a backup, then the primary copy, then drops the
  backup, so that a crash in between leaves one of the two to read. Requests to flush are handed to a
  thread of their own.
 */
module HostPersistence {
  import opened UpdateTypes

  datatype Host = Host(uuid: string, attributes: string, apps: seq<string>) {
    /** As the backup keeps it: without its apps. */
    function Bare(): Host {
      this.(apps := [])
    }
  }

  function BareAll(hosts: seq<Host>): (r: seq<Host>)
    ensures |r| == |hosts| && forall i | 0 <= i < |hosts| :: r[i] == hosts[i].Bare()
  {
    seq(|hosts|, i requires 0 <= i < |hosts| => hosts[i].Bare())
  }

  /** What a missing entry reads as. */
  const NO_HOST := Host("", "", [])

  /** A settings array: its entries, and its size once the array has been ended. */
  datatype Section = Section(size: Option<nat>, entries: map<nat, Host>) {
    function Read(): seq<Host> {
      if size.None? then [] else seq(size.value, i => if i in entries then entries[i] else NO_HOST)
    }

    /** Beginning to write an array takes its size away. */
    function Begun(): Section {
      this.(size := None)
    }

    function Put(index: nat, host: Host): Section {
      this.(entries := entries[index := host])
    }

    function Ended(count: nat): Section {
      this.(size := Some(count))
    }
  }

  const REMOVED := Section(None, map[])

  datatype Disk = Disk(primary: Section, backup: Section) {
    /** The constructor prefers a backup: it can only be there if a flush did not finish. */
    function Reload(): seq<Host> {
      if backup.Read() != [] then backup.Read() else primary.Read()
    }
  }

  /** Reading back gives the hosts that were there before or those being written, apps aside. */
  predicate OldOrNew(disk: Disk, before: seq<Host>, first: seq<Host>, second: seq<Host>) {
    var bare := BareAll(disk.Reload());
    bare == BareAll(before) || bare == BareAll(first) || bare == BareAll(second)
  }

  ghost predicate AllOldOrNew(trace: seq<Disk>, before: seq<Host>, first: seq<Host>, second: seq<Host>) {
    forall d | d in trace :: OldOrNew(d, before, first, second)
  }

  /**
    What a flush needs of the disk: no leftover backup, or one that does not matter because the
    primary copy reads as something acceptable as well.
   */
  predicate FlushIsSafe(disk: Disk, first: seq<Host>, second: seq<Host>) {
    disk.backup.Read() == []
    || BareAll(disk.primary.Read()) == BareAll(disk.backup.Read())
    || BareAll(disk.primary.Read()) == BareAll(first)
    || BareAll(disk.primary.Read()) == BareAll(second)
  }

  /** The entries written so far. */
  ghost predicate Written(section: Section, hosts: seq<Host>, count: nat) {
    count <= |hosts| && forall i | 0 <= i < count :: i in section.entries && section.entries[i] == hosts[i]
  }

  lemma WrittenNext(section: Section, hosts: seq<Host>, i: nat)
    requires Written(section, hosts, i) && i < |hosts|
    ensures Written(section.Put(i, hosts[i]), hosts, i + 1)
  {
  }

  lemma EndedReads(section: Section, hosts: seq<Host>)
    requires Written(section, hosts, |hosts|)
    ensures section.Ended(|hosts|).Read() == hosts
  {
  }

  lemma BareTwice(hosts: seq<Host>)
    ensures BareAll(BareAll(hosts)) == BareAll(hosts)
    ensures hosts == [] <==> BareAll(hosts) == []
  {
  }

  class HostSettings {
    var disk: Disk
    /** The disk after each step of the flush: what a crash at that step leaves. */
    ghost var trace: seq<Disk>

    constructor (disk: Disk)
      ensures this.disk == disk && trace == []
    {
      this.disk := disk;
      trace := [];
    }

    /** Every crash point from `start` on leaves the old hosts or the new ones. */
    ghost predicate SafeSince(start: nat, before: Disk, first: seq<Host>, second: seq<Host>)
      reads this
    {
      start <= |trace| && AllOldOrNew(trace[start..], before.Reload(), first, second)
    }

    /** What a crash at any of these steps lets the next run read. */
    ghost predicate ReadsFrom(start: nat, end: nat, hosts: seq<Host>)
      reads this
    {
      end <= |trace| && forall k | start <= k < end :: trace[k].Reload() == hosts
    }

    method Store(next: Disk, ghost start: nat, ghost before: Disk, ghost first: seq<Host>, ghost second: seq<Host>)
      requires start <= |trace|
      modifies this
      ensures disk == next && trace == old(trace) + [next]
      ensures SafeSince(start, before, first, second)
              <==> old(SafeSince(start, before, first, second)) && OldOrNew(next, before.Reload(), first, second)
    {
      disk := next;
      trace := trace + [next];
      assert trace[start..] == old(trace)[start..] + [next];
    }

    /**
      One flush. The hosts are looked at twice, once for each copy, and may have changed in between.
      A crash at any step leaves the old hosts or the new ones, if and only if there was no leftover
      backup, or the primary copy was acceptable too.
     */
    method Flush(first: seq<Host>, second: seq<Host>)
      modifies this
      ensures disk.Reload() == second && disk.backup == REMOVED
      ensures old(trace) <= trace
      ensures SafeSince(|old(trace)|, old(disk), first, second) <==> FlushIsSafe(old(disk), first, second)
    {
      ghost var before, start := disk, |trace|;
      WriteBackup(first, second, before, start);
      WritePrimary(first, second, before, start);
      FinishFlush(first, second, before, start);
    }

    /** Up to the end of the backup, reading back falls through to the primary copy. */
    method WriteBackup(first: seq<Host>, ghost second: seq<Host>, ghost before: Disk, ghost start: nat)
      requires disk == before && start == |trace|
      modifies this
      ensures disk.primary == before.primary && disk.backup.Read() == BareAll(first)
      ensures old(trace) < trace && ReadsFrom(start, |trace| - 1, before.primary.Read())
      ensures SafeSince(start, before, first, second) <==> FlushIsSafe(before, first, second)
    {
      assert SafeSince(start, before, first, second);
      hide OldOrNew, FlushIsSafe, SafeSince, Section.Read;
      BackupBegun(before, first, second);
      NoBackupReads(disk.(backup := disk.backup.Begun()));
      Store(disk.(backup := disk.backup.Begun()), start, before, first, second);
      for i := 0 to |first|
        invariant disk.primary == before.primary && disk.backup.size.None? && Written(disk.backup, BareAll(first), i)
        invariant old(trace) <= trace && ReadsFrom(start, |trace|, before.primary.Read())
        invariant SafeSince(start, before, first, second) <==> FlushIsSafe(before, first, second)
      {
        WrittenNext(disk.backup, BareAll(first), i);
        NoBackupReads(disk.(backup := disk.backup.Put(i, first[i].Bare())));
        Store(disk.(backup := disk.backup.Put(i, first[i].Bare())), start, before, first, second);
      }
      EndedReads(disk.backup, BareAll(first));
      BackupEnded(before, disk.(backup := disk.backup.Ended(|first|)), first, second);
      Store(disk.(backup := disk.backup.Ended(|first|)), start, before, first, second);
    }

    /** From then on the backup is read, until the primary copy is complete. */
    method WritePrimary(ghost first: seq<Host>, second: seq<Host>, ghost before: Disk, ghost start: nat)
      requires disk.backup.Read() == BareAll(first) && start <= |trace|
      modifies this
      ensures disk.backup == old(disk).backup && disk.primary.Read() == second
      ensures old(trace) < trace && ReadsFrom(|old(trace)|, |trace| - 1, BareAll(first))
      ensures SafeSince(start, before, first, second) <==> old(SafeSince(start, before, first, second))
    {
      hide OldOrNew, SafeSince, Section.Read;
      PrimaryUnderway(disk.backup, before, first, second);
      NoPrimaryReads(disk.(primary := REMOVED));
      NoPrimaryReads(disk.(primary := REMOVED.Begun()));
      Store(disk.(primary := REMOVED), start, before, first, second);
      Store(disk.(primary := disk.primary.Begun()), start, before, first, second);
      for i := 0 to |second|
        invariant disk.backup == old(disk).backup && disk.primary.size.None? && Written(disk.primary, second, i)
        invariant old(trace) <= trace && ReadsFrom(|old(trace)|, |trace|, BareAll(first))
        invariant SafeSince(start, before, first, second) <==> old(SafeSince(start, before, first, second))
      {
        WrittenNext(disk.primary, second, i);
        NoPrimaryReads(disk.(primary := disk.primary.Put(i, second[i])));
        Store(disk.(primary := disk.primary.Put(i, second[i])), start, before, first, second);
      }
      EndedReads(disk.primary, second);
      PrimaryEnded(disk.(primary := disk.primary.Ended(|second|)), before, first, second);
      Store(disk.(primary := disk.primary.Ended(|second|)), start, before, first, second);
    }

    method FinishFlush(ghost first: seq<Host>, ghost second: seq<Host>, ghost before: Disk, ghost start: nat)
      requires disk.primary.Read() == second && start <= |trace|
      modifies this
      ensures disk.Reload() == second && disk.backup == REMOVED && old(trace) <= trace
      ensures SafeSince(start, before, first, second) <==> old(SafeSince(start, before, first, second))
    {
      Store(disk.(backup := REMOVED), start, before, first, second);
    }
  }

  lemma NoBackupReads(d: Disk)
    requires d.backup.size.None?
    ensures d.Reload() == d.primary.Read()
  {
  }

  lemma NoPrimaryReads(d: Disk)
    requires d.primary.size.None?
    ensures d.Reload() == d.backup.Read()
  {
  }

  lemma BackupBegun(before: Disk, first: seq<Host>, second: seq<Host>)
    ensures forall d: Disk | d.primary == before.primary && d.backup.size.None? ::
              OldOrNew(d, before.Reload(), first, second) <==> FlushIsSafe(before, first, second)
  {
    BareTwice(before.backup.Read());
  }

  lemma BackupEnded(before: Disk, d: Disk, first: seq<Host>, second: seq<Host>)
    requires d.primary == before.primary && d.backup.Read() == BareAll(first)
    ensures FlushIsSafe(before, first, second) ==> OldOrNew(d, before.Reload(), first, second)
  {
    BareTwice(first);
  }

  lemma PrimaryUnderway(backup: Section, before: Disk, first: seq<Host>, second: seq<Host>)
    requires backup.Read() == BareAll(first)
    ensures forall d: Disk | d.backup == backup && d.primary.size.None? :: OldOrNew(d, before.Reload(), first, second)
  {
    BareTwice(first);
  }

  lemma PrimaryEnded(d: Disk, before: Disk, first: seq<Host>, second: seq<Host>)
    requires d.backup.Read() == BareAll(first) && d.primary.Read() == second
    ensures OldOrNew(d, before.Reload(), first, second)
  {
    BareTwice(first);
  }

  /** From an intact primary copy and no leftover backup, every flush is safe at every step. */
  lemma NoLeftoverIsSafe(disk: Disk, first: seq<Host>, second: seq<Host>)
    requires disk.backup.Read() == []
    ensures FlushIsSafe(disk, first, second)
  {
  }

  /**
    Two crashes in a row lose everything: the first, while the primary copy is being rewritten, leaves
    a backup that the next run does load; the second, right after that run's first flush has begun its
    own backup, takes it away while the primary copy still reads as empty.
   */
  lemma SecondCrashLosesHosts(hosts: seq<Host>, disk: Disk)
    requires hosts != [] && disk.backup.Read() == BareAll(hosts) && disk.primary.size.None?
    ensures disk.Reload() == BareAll(hosts)
    ensures disk.(backup := disk.backup.Begun()).Reload() == []
    ensures !FlushIsSafe(disk, disk.Reload(), disk.Reload())
  {
    BareTwice(hosts);
    BareTwice(BareAll(hosts));
  }

  // ----- handing requests to the flush thread -----

  datatype Position =
    /* Holding the mutex and looking at the flag and the interruption. */
    | Looking
    /* Found nothing to do; about to wait, still holding the mutex. */
    | Settling
    | Asleep
    /* Awake, wanting the mutex. */
    | Waking
    | Flushing
    | Exited

  datatype Event = Requested | FlushBegan | FlushEnded

  /** `woken`: the destructor's wake-up has been made. */
  datatype Handover = Handover(needsFlush: bool, interrupted: bool, woken: bool, thread: Position, log: seq<Event>)

  const STARTED := Handover(false, false, false, Waking, [])

  /** The destructor asks for an interruption and then makes its one wake-up, both without the mutex. */
  datatype Step = SaveHosts | RequestInterruption | WakeOne | ThreadStep | SpuriousWakeUp

  predicate HoldsMutex(thread: Position) {
    thread.Looking? || thread.Settling?
  }

  function WakenUp(thread: Position): Position {
    if thread.Asleep? then Waking else thread
  }

  /** A request is made under the mutex; while the thread holds that, it has to wait. */
  function Take(h: Handover, step: Step): Handover {
    match step
    case SaveHosts =>
      if HoldsMutex(h.thread) then h
      else h.(needsFlush := true, log := h.log + [Requested], thread := WakenUp(h.thread))
    case RequestInterruption => h.(interrupted := true)
    case WakeOne => if h.interrupted && !h.woken then h.(woken := true, thread := WakenUp(h.thread)) else h
    case SpuriousWakeUp => h.(thread := WakenUp(h.thread))
    case ThreadStep =>
      match h.thread
      case Waking => h.(thread := Looking)
      case Looking =>
        if !h.interrupted && !h.needsFlush then h.(thread := Settling)
        else if !h.needsFlush then h.(thread := Exited)
        else h.(needsFlush := false, log := h.log + [FlushBegan], thread := Flushing)
      case Settling => h.(thread := Asleep)
      case Flushing => h.(log := h.log + [FlushEnded], thread := Waking)
      case _ => h
  }

  function From(h: Handover, steps: seq<Step>): Handover {
    if steps == [] then h else Take(From(h, steps[..|steps| - 1]), steps[|steps| - 1])
  }

  function After(steps: seq<Step>): Handover {
    From(STARTED, steps)
  }

  lemma {:induction false} FromAfter(h: Handover, first: seq<Step>, second: seq<Step>)
    ensures From(h, first + second) == From(From(h, first), second)
  {
    if second == [] {
      assert first + second == first;
    } else {
      var last := |second| - 1;
      FromAfter(h, first, second[..last]);
      assert (first + second)[..|first + second| - 1] == first + second[..last];
    }
  }

  /** A request has been made since the last flush began. */
  predicate Unserved(log: seq<Event>) {
    log != [] && match log[|log| - 1]
                 case Requested => true
                 case FlushBegan => false
                 case FlushEnded => Unserved(log[..|log| - 1])
  }

  lemma UnservedNext(log: seq<Event>, e: Event)
    ensures Unserved(log + [e]) <==> e.Requested? || (e.FlushEnded? && Unserved(log))
    ensures !Unserved([])
  {
    assert (log + [e])[..|log|] == log;
  }

  lemma {:induction false} FlagMeansUnserved(steps: seq<Step>)
    ensures var h := After(steps);
            && (h.needsFlush <==> Unserved(h.log))
            && (h.thread.Asleep? || h.thread.Settling? ==> !h.needsFlush)
            && (h.thread.Exited? || h.woken ==> h.interrupted)
  {
    UnservedNext([], Requested);
    if steps != [] {
      hide Unserved;
      var before := After(steps[..|steps| - 1]);
      FlagMeansUnserved(steps[..|steps| - 1]);
      UnservedNext(before.log, Requested);
      UnservedNext(before.log, FlushBegan);
      UnservedNext(before.log, FlushEnded);
    }
  }

  /** A flush began after this request. */
  ghost predicate Served(log: seq<Event>, i: nat) {
    exists j | i < j < |log| :: log[j].FlushBegan?
  }

  /**
    No request is lost: the flag is clear exactly when every request so far has been followed by the
    beginning of a flush, and it is clear whenever the thread waits.
   */
  lemma NoRequestLost(steps: seq<Step>)
    ensures var h := After(steps);
            !h.needsFlush <==> forall i | 0 <= i < |h.log| && h.log[i].Requested? :: Served(h.log, i)
    ensures After(steps).thread.Asleep? ==> !After(steps).needsFlush
  {
    FlagMeansUnserved(steps);
    ServedExactly(After(steps).log);
  }

  lemma {:induction false} ServedExactly(log: seq<Event>)
    ensures !Unserved(log) <==> forall i | 0 <= i < |log| && log[i].Requested? :: Served(log, i)
  {
    if log != [] {
      var last := |log| - 1;
      ServedExactly(log[..last]);
      match log[last]
      case Requested => assert !Served(log, last);
      case FlushBegan => assert forall i | 0 <= i < last :: log[last].FlushBegan? && Served(log, i);
      case FlushEnded =>
        forall i | 0 <= i < last ensures Served(log, i) <==> Served(log[..last], i) {
          if Served(log[..last], i) {
            var j :| i < j < last && log[..last][j].FlushBegan?;
            assert log[j].FlushBegan?;
          }
          if Served(log, i) {
            var j :| i < j < |log| && log[j].FlushBegan?;
            assert log[..last][j].FlushBegan?;
          }
        }
        assert forall i | 0 <= i < last :: log[..last][i] == log[i];
    }
  }

  /**
    A thread that has exited serves nothing more: the flag the destructor finds is set exactly if it
    was, or if a request came after the exit.
   */
  lemma {:induction false} ExitIsFinal(h: Handover, more: seq<Step>)
    requires h.thread.Exited?
    ensures From(h, more).thread.Exited?
    ensures From(h, more).needsFlush <==> h.needsFlush || SaveHosts in more
  {
    if more != [] {
      var last := |more| - 1;
      ExitIsFinal(h, more[..last]);
      assert more == more[..last] + [more[last]];
    }
  }

  // ----- the interruption -----

  /** Nothing the destructor does can wake the thread any more. */
  predicate Missed(h: Handover) {
    h.woken && h.thread.Asleep?
  }

  /** The wake-up came after the thread had looked and before it waited. */
  ghost predicate WokenTooSoon(steps: seq<Step>, i: nat) {
    i < |steps| && steps[i].WakeOne? && !After(steps[..i]).woken && After(steps[..i]).interrupted
    && After(steps[..i]).thread.Settling?
  }

  lemma WokenTooSoonLater(steps: seq<Step>, i: nat)
    requires i < |steps| - 1
    ensures WokenTooSoon(steps, i) <==> WokenTooSoon(steps[..|steps| - 1], i)
  {
    assert steps[..|steps| - 1][..i] == steps[..i];
  }

  /** Only a wake-up that came too soon leaves the thread settling or asleep after it. */
  lemma {:induction false} OnlyTooSoonIsMissed(steps: seq<Step>) returns (i: nat)
    requires After(steps).woken && (After(steps).thread.Settling? || After(steps).thread.Asleep?)
    ensures WokenTooSoon(steps, i)
    ensures After(steps).thread.Asleep? ==> ThreadStep in steps[i + 1..]
  {
    var last := |steps| - 1;
    var before := After(steps[..last]);
    FlagMeansUnserved(steps[..last]);
    if steps[last].WakeOne? && !before.woken {
      i := last;
    } else {
      i := OnlyTooSoonIsMissed(steps[..last]);
      WokenTooSoonLater(steps, i);
      assert steps[i + 1..] == steps[..last][i + 1..] + [steps[last]];
    }
  }

  /** After one that came too soon, the thread's next step puts it to sleep, for good as far as the destructor goes. */
  lemma {:induction false} TooSoonIsMissed(steps: seq<Step>, i: nat) returns (k: nat)
    requires WokenTooSoon(steps, i) && ThreadStep in steps[i + 1..]
    ensures k <= |steps| && Missed(After(steps[..k]))
  {
    var last := |steps| - 1;
    if ThreadStep in steps[i + 1..last] {
      WokenTooSoonLater(steps, i);
      assert steps[i + 1..last] == steps[..last][i + 1..];
      k := TooSoonIsMissed(steps[..last], i);
      assert steps[..last][..k] == steps[..k];
    } else {
      assert steps[i + 1..] == steps[i + 1..last] + [steps[last]] && steps[i + 1..last] == steps[..last][i + 1..];
      WokenTooSoonLater(steps, i);
      StillSettling(steps[..last], i);
      assert steps[..|steps|] == steps;
      k := |steps|;
    }
  }

  lemma {:induction false} StillSettling(steps: seq<Step>, i: nat)
    requires WokenTooSoon(steps, i) && ThreadStep !in steps[i + 1..]
    ensures After(steps).woken && After(steps).thread.Settling?
  {
    var last := |steps| - 1;
    if i < last {
      WokenTooSoonLater(steps, i);
      assert steps[i + 1..] == steps[..last][i + 1..] + [steps[last]];
      StillSettling(steps[..last], i);
    }
  }

  /**
    For every run: the interruption goes unheard at some point if and only if the wake-up was made
    while the thread stood between its look and its wait, and the thread then went on to wait. With
    the mutex held the wake-up could not have come there.
   */
  lemma InterruptionIsMissedExactly(steps: seq<Step>)
    ensures (exists k | 0 <= k <= |steps| :: Missed(After(steps[..k])))
            <==> exists i | 0 <= i < |steps| :: WokenTooSoon(steps, i) && ThreadStep in steps[i + 1..]
  {
    if k :| 0 <= k <= |steps| && Missed(After(steps[..k])) {
      var i := OnlyTooSoonIsMissed(steps[..k]);
      assert steps[..k][..i] == steps[..i];
      assert WokenTooSoon(steps, i);
      var j :| 0 <= j < |steps[..k][i + 1..]| && steps[..k][i + 1..][j] == ThreadStep;
      assert steps[i + 1..][j] == ThreadStep;
    }
    if i :| 0 <= i < |steps| && WokenTooSoon(steps, i) && ThreadStep in steps[i + 1..] {
      var k := TooSoonIsMissed(steps, i);
    }
  }

  ghost predicate StaysMissed(h: Handover, more: seq<Step>) {
    forall k | 0 <= k <= |more| :: Missed(From(h, more[..k]))
  }

  lemma StaysMissedNext(h: Handover, more: seq<Step>, step: Step)
    ensures StaysMissed(h, more + [step]) <==> StaysMissed(h, more) && Missed(Take(From(h, more), step))
  {
    hide Missed, Take;
    var all := more + [step];
    assert all[..|all|] == all && all[..|more|] == more;
    assert forall k | 0 <= k <= |more| :: all[..k] == more[..k];
    assert StaysMissed(h, all) ==> forall k | 0 <= k <= |more| :: Missed(From(h, all[..k]));
  }

  /** Had the wake-up been made under the mutex, it would never come too soon, and none would be missed. */
  lemma MutexWouldSuffice(steps: seq<Step>)
    requires forall i | 0 <= i < |steps| && steps[i].WakeOne? :: !HoldsMutex(After(steps[..i]).thread)
    ensures forall k | 0 <= k <= |steps| :: !Missed(After(steps[..k]))
  {
    InterruptionIsMissedExactly(steps);
  }

  /** As it is made, one can be: the thread looks, is interrupted and woken, and then waits. */
  lemma InterruptionCanBeMissed()
    ensures Missed(After([ThreadStep, ThreadStep, RequestInterruption, WakeOne, ThreadStep]))
  {
    var s := [ThreadStep, ThreadStep, RequestInterruption, WakeOne, ThreadStep];
    assert s[..4][..3] == [ThreadStep, ThreadStep, RequestInterruption];
    assert s[..4][..3][..2] == [ThreadStep, ThreadStep];
    assert s[..4][..3][..2][..1] == [ThreadStep];
    assert After([ThreadStep]).thread.Looking? && After(s[..4][..3][..2]).thread.Settling?;
    assert After(s[..4][..3]).interrupted && After(s[..4]).woken;
  }

  /** An interruption that was missed stays so exactly until a request or a spurious wake-up. */
  lemma {:induction false} MissedLasts(h: Handover, more: seq<Step>)
    requires Missed(h)
    ensures StaysMissed(h, more) <==> SaveHosts !in more && SpuriousWakeUp !in more
  {
    if more == [] {
      assert more[..0] == [];
    } else {
      var front, step := more[..|more| - 1], more[|more| - 1];
      assert more == front + [step] && front[..|front|] == front;
      MissedLasts(h, front);
      StaysMissedNext(h, front, step);
      assert StaysMissed(h, front) ==> Missed(From(h, front[..|front|]));
    }
  }

  /** Steps of its own the thread still takes until it exits. */
  function StepsLeft(h: Handover): nat {
    match h.thread
    case Looking => if h.needsFlush then 4 else 1
    case Waking => if h.needsFlush then 5 else 2
    case Flushing => if h.needsFlush then 6 else 3
    case _ => 0
  }

  lemma {:induction false} ThreadGoesOn(h: Handover, more: seq<Step>)
    requires h.interrupted && forall step | step in more :: step.ThreadStep?
    ensures From(h, more).interrupted
    ensures h.thread.Settling? || h.thread.Asleep? ==> From(h, more).thread.Settling? || From(h, more).thread.Asleep?
    ensures !h.thread.Settling? && !h.thread.Asleep? ==>
              && !From(h, more).thread.Settling? && !From(h, more).thread.Asleep?
              && StepsLeft(From(h, more)) == (if |more| < StepsLeft(h) then StepsLeft(h) - |more| else 0)
              && (From(h, more).needsFlush ==> h.needsFlush)
  {
    if more != [] {
      var last := |more| - 1;
      assert more[last] in more;
      ThreadGoesOn(h, more[..last]);
    }
  }

  /**
    What the destructor waits for. Once it has made its wake-up, six steps of the thread alone end it,
    a flush that was asked for included, if and only if the wake-up did not find it settling or asleep.
   */
  lemma ExitFollowsExactly(steps: seq<Step>, more: seq<Step>)
    requires After(steps).woken
    requires |more| >= 6 && forall step | step in more :: step.ThreadStep?
    ensures After(steps + more).thread.Exited? <==> !After(steps).thread.Settling? && !After(steps).thread.Asleep?
    ensures After(steps + more).thread.Exited? && !After(steps).thread.Exited? ==> !After(steps + more).needsFlush
  {
    FlagMeansUnserved(steps);
    FromAfter(STARTED, steps, more);
    ThreadGoesOn(After(steps), more);
    if !After(steps).thread.Exited? {
      ExitsUnasked(After(steps), more);
    }
  }

  /** Left alone, the thread does not exit with the flag set. */
  lemma {:induction false} ExitsUnasked(h: Handover, more: seq<Step>)
    requires !h.thread.Exited? && forall step | step in more :: step.ThreadStep?
    ensures From(h, more).thread.Exited? ==> !From(h, more).needsFlush
  {
    if more != [] {
      assert more[|more| - 1] in more;
      ExitsUnasked(h, more[..|more| - 1]);
    }
  }
}
