/**
  Installing through the host's Flatpak service. The service answers the start request with a process
  id and announces ends of processes, in either order; the answer given must be the same.
 */
module FlatpakInstall {
  import opened UpdateTypes
  import opened Runs

  type Pid = nat

  /** Process exits that may be kept until the start has been answered. */
  const EARLY_LIMIT: nat := 16

  datatype Event =
    | Open(usable: bool)
    | Started(success: bool, pid: Pid, unknown: bool)
    | Exited(pid: Pid, status: nat)
    | ConnectionLost
    | TimedOut

  datatype Response = Response(success: bool)

  datatype State = State(busy: bool, unknown: bool, pid: Pid, earlyExits: map<Pid, nat>)

  const READY := State(false, false, 0, map[])
  const OPENED := State(true, false, 0, map[])

  type Step = Outcome<State, Response>

  function Finished(s: State, success: bool, unknown: bool): Step {
    Outcome(s.(busy := false, unknown := unknown, earlyExits := map[]), [Response(success)])
  }

  function Handle(s: State, e: Event): Step {
    match e
    case Open(usable) =>
      if s.busy || s.unknown then Outcome(s, [])
      else if !usable then Outcome(s, [Response(false)])
      else Outcome(State(true, s.unknown, 0, map[]), [])
    case Started(success, pid, unknown) =>
      if !s.busy then Outcome(s, [])
      else if !success then Finished(s, false, unknown)
      else if pid == 0 then Finished(s, false, true)
      else if pid in s.earlyExits then Finished(s.(pid := pid), s.earlyExits[pid] == 0, false)
      else Outcome(s.(pid := pid, earlyExits := map[]), [])
    case Exited(pid, status) =>
      if !s.busy then Outcome(s, [])
      else if s.pid == 0 then
        Outcome(s.(earlyExits := Keep(s.earlyExits, EARLY_LIMIT, pid, status)), [])
      else if s.pid == pid then Finished(s, status == 0, false)
      else Outcome(s, [])
    case ConnectionLost => if s.busy then Finished(s, false, true) else Outcome(s, [])
    case TimedOut => if s.busy then Finished(s, false, true) else Outcome(s, [])
  }

  class FlatpakInstaller {
    var busy: bool
    var unknown: bool
    var pid: Pid
    var earlyExits: map<Pid, nat>
    /** What has been reported to the updater. */
    var responses: seq<Response>

    constructor ()
      ensures View() == READY && responses == []
    {
      busy, unknown, pid, earlyExits, responses := false, false, 0, map[], [];
    }

    function View(): State
      reads this
    {
      State(busy, unknown, pid, earlyExits)
    }

    /** The object has gone from `before` to what `Handle` says, and reported what it says. */
    ghost predicate Handled(before: State, reported: seq<Response>, e: Event)
      reads this
    {
      var o := Handle(before, e);
      View() == o.state && responses == reported + o.reported
    }

    method Finish(success: bool, isUnknown: bool)
      modifies this
      ensures old(busy) ==> View() == Finished(old(View()), success, isUnknown).state
                            && responses == old(responses) + [Response(success)]
      ensures !old(busy) ==> View() == old(View()) && responses == old(responses)
    {
      if !busy {
        return;
      }
      busy, unknown, earlyExits := false, isUnknown, map[];
      responses := responses + [Response(success)];
    }

    method OpenFlatpak(usable: bool)
      modifies this
      ensures Handled(old(View()), old(responses), Open(usable))
    {
      if busy || unknown {
        return;
      }
      if !usable {
        responses := responses + [Response(false)];
        return;
      }
      pid, earlyExits, busy := 0, map[], true;
    }

    method OnStarted(success: bool, newPid: Pid, isUnknown: bool)
      modifies this
      ensures Handled(old(View()), old(responses), Started(success, newPid, isUnknown))
    {
      if !busy {
        return;
      }
      if !success {
        Finish(false, isUnknown);
        return;
      }
      if newPid == 0 {
        Finish(false, true);
        return;
      }
      pid := newPid;
      if newPid in earlyExits {
        var status := earlyExits[newPid];
        earlyExits := map[];
        Finish(status == 0, false);
        return;
      }
      earlyExits := map[];
    }

    method OnExited(endedPid: Pid, status: nat)
      modifies this
      ensures Handled(old(View()), old(responses), Exited(endedPid, status))
    {
      if !busy {
        return;
      }
      if pid == 0 {
        if |earlyExits| < EARLY_LIMIT && endedPid !in earlyExits {
          earlyExits := earlyExits[endedPid := status];
        }
      } else if pid == endedPid {
        Finish(status == 0, false);
      }
    }

    method OnLost(timedOut: bool)
      modifies this
      ensures Handled(old(View()), old(responses), if timedOut then TimedOut else ConnectionLost)
    {
      if timedOut || busy {
        Finish(false, true);
      }
    }
  }

  // ----- runs -----

  function StateAfter(s: State, events: seq<Event>): State {
    After(Handle, s, events)
  }

  function Responses(s: State, events: seq<Event>): seq<Response> {
    Reports(Handle, s, events)
  }

  // ----- exits of other processes -----

  /** Only exits of processes other than `pid`. */
  predicate Unrelated(events: seq<Event>, pid: Pid) {
    forall e | e in events :: e.Exited? && e.pid != pid
  }

  /** The different processes that ended. */
  function Pids(events: seq<Event>): set<Pid> {
    set e | e in events && e.Exited? :: e.pid
  }

  /** Before the start is answered, the first sixteen different processes are remembered. */
  lemma {:induction false} EarlyExitsKept(s: State, events: seq<Event>, pid: Pid)
    requires s.busy && s.pid == 0 && Unrelated(events, pid)
    ensures var t := StateAfter(s, events);
            && t.busy && t.pid == 0 && t.unknown == s.unknown && (pid in t.earlyExits <==> pid in s.earlyExits)
            && (pid in s.earlyExits ==> t.earlyExits[pid] == s.earlyExits[pid])
            && Responses(s, events) == []
  {
    if events != [] {
      assert forall e | e in events[..|events| - 1] :: e in events;
      assert events[|events| - 1] in events;
      EarlyExitsKept(s, events[..|events| - 1], pid);
    }
  }

  lemma {:induction false} EarlyExitsCounted(events: seq<Event>, pid: Pid)
    requires Unrelated(events, pid)
    ensures Covers(StateAfter(OPENED, events).earlyExits, EARLY_LIMIT, Pids(events))
  {
    if events == [] {
      assert Pids(events) == {};
    } else {
      var front, e := events[..|events| - 1], events[|events| - 1];
      assert forall x | x in front :: x in events;
      assert e in events;
      EarlyExitsCounted(front, pid);
      EarlyExitsKept(OPENED, front, pid);
      assert events == front + [e];
      EarlyExitCounted(front, e);
    }
  }

  lemma EarlyExitCounted(events: seq<Event>, e: Event)
    requires e.Exited? && StateAfter(OPENED, events).busy && StateAfter(OPENED, events).pid == 0
    requires Covers(StateAfter(OPENED, events).earlyExits, EARLY_LIMIT, Pids(events))
    ensures Covers(StateAfter(OPENED, events + [e]).earlyExits, EARLY_LIMIT, Pids(events + [e]))
  {
    hide Covers, Pids, After, Reports, Keep;
    PidsGrow(events, e);
    OneMore(Handle, OPENED, events, e);
    KeptNext(StateAfter(OPENED, events).earlyExits, EARLY_LIMIT, Pids(events), e.pid, e.status);
  }

  lemma PidsGrow(events: seq<Event>, e: Event)
    requires e.Exited?
    ensures Pids(events + [e]) == Pids(events) + {e.pid}
  {
    forall p ensures p in Pids(events + [e]) <==> p in Pids(events) || p == e.pid {
      if p in Pids(events) {
        var x :| x in events && x.Exited? && x.pid == p;
        assert x in events + [e];
      }
      if p == e.pid {
        assert e in events + [e];
      }
    }
  }

  /** While the process runs, other processes' ends change nothing. */
  lemma {:induction false} LaterExitsIgnored(s: State, events: seq<Event>, pid: Pid)
    requires Unrelated(events, pid) && (s.busy ==> s.pid == pid != 0)
    ensures StateAfter(s, events) == s && Responses(s, events) == []
  {
    if events != [] {
      assert forall e | e in events[..|events| - 1] :: e in events;
      assert events[|events| - 1] in events;
      LaterExitsIgnored(s, events[..|events| - 1], pid);
    }
  }

  // ----- the order does not matter -----

  lemma StartThenExit(first: seq<Event>, between: seq<Event>, last: seq<Event>, pid: Pid, status: nat)
    requires pid != 0 && Unrelated(first, pid) && Unrelated(between, pid) && Unrelated(last, pid)
    ensures Responses(OPENED, first + [Started(true, pid, false)] + between + [Exited(pid, status)] + last)
            == [Response(status == 0)]
  {
    hide After, Reports;
    var started, exited := Started(true, pid, false), Exited(pid, status);
    EarlyExitsKept(OPENED, first, pid);
    OneMore(Handle, OPENED, first, started);
    var running := StateAfter(OPENED, first + [started]);
    LaterExitsIgnored(running, between, pid);
    Join(Handle, OPENED, first + [started], between);
    OneMore(Handle, OPENED, first + [started] + between, exited);
    LaterExitsIgnored(StateAfter(OPENED, first + [started] + between + [exited]), last, pid);
    Join(Handle, OPENED, first + [started] + between + [exited], last);
  }

  /** An early exit is remembered, and decides the answer, exactly if fewer than sixteen came before it. */
  lemma ExitThenStart(first: seq<Event>, between: seq<Event>, last: seq<Event>, pid: Pid, status: nat)
    requires pid != 0 && Unrelated(first, pid) && Unrelated(between, pid) && Unrelated(last, pid)
    ensures Responses(OPENED, first + [Exited(pid, status)] + between + [Started(true, pid, false)] + last)
            == if |Pids(first)| < EARLY_LIMIT then [Response(status == 0)] else []
  {
    hide After, Reports, Pids, Covers;
    var started, exited := Started(true, pid, false), Exited(pid, status);
    EarlyExitsKept(OPENED, first, pid);
    EarlyExitsCounted(first, pid);
    RoomLeft(StateAfter(OPENED, first).earlyExits, EARLY_LIMIT, Pids(first));
    OneMore(Handle, OPENED, first, exited);
    var waiting := StateAfter(OPENED, first + [exited]);
    EarlyExitsKept(waiting, between, pid);
    Join(Handle, OPENED, first + [exited], between);
    OneMore(Handle, OPENED, first + [exited] + between, started);
    LaterExitsIgnored(StateAfter(OPENED, first + [exited] + between + [started]), last, pid);
    Join(Handle, OPENED, first + [exited] + between + [started], last);
  }

  /**
    Whether the end of the process is announced before or after its start is answered, the updater
    hears the same one response, exactly as long as fewer than sixteen other processes ended first.
   */
  lemma OrderDoesNotMatter(first: seq<Event>, between: seq<Event>, last: seq<Event>, pid: Pid, status: nat)
    requires pid != 0 && Unrelated(first, pid) && Unrelated(between, pid) && Unrelated(last, pid)
    ensures Responses(OPENED, first + [Started(true, pid, false)] + between + [Exited(pid, status)] + last)
            == Responses(OPENED, first + [Exited(pid, status)] + between + [Started(true, pid, false)] + last)
            <==> |Pids(first)| < EARLY_LIMIT
  {
    hide After, Reports, Pids;
    StartThenExit(first, between, last, pid, status);
    ExitThenStart(first, between, last, pid, status);
  }

  // ----- what a success means, and an unknown outcome -----

  /** The last open that was taken up, if the installer is at work on it. */
  function OpenedAt(events: seq<Event>): Option<nat> {
    if events == [] then None
    else
      var before, e := StateAfter(READY, events[..|events| - 1]), events[|events| - 1];
      if e.Open? && e.usable && !before.busy && !before.unknown then Some(|events| - 1)
      else OpenedAt(events[..|events| - 1])
  }

  /** Something of this kind has happened since the last open. */
  ghost predicate SinceOpen(events: seq<Event>, e: Event) {
    OpenedAt(events).Some? && exists i | OpenedAt(events).value < i < |events| :: events[i] == e
  }

  ghost predicate StartedSinceOpen(events: seq<Event>, pid: Pid) {
    exists unknown :: SinceOpen(events, Started(true, pid, unknown))
  }

  lemma {:induction false} Remembered(events: seq<Event>)
    ensures var s := StateAfter(READY, events);
            && (s.busy ==> OpenedAt(events).Some? && OpenedAt(events).value < |events|)
            && (s.busy && s.pid != 0 ==> StartedSinceOpen(events, s.pid))
            && (s.busy ==> forall p | p in s.earlyExits :: SinceOpen(events, Exited(p, s.earlyExits[p])))
            && (s.unknown ==> !s.busy)
  {
    if events != [] {
      var front, e := events[..|events| - 1], events[|events| - 1];
      Remembered(front);
      StillSinceOpen(events);
    }
  }

  /** While nothing new is opened, what has happened since the open stays so, and the last event joins it. */
  lemma StillSinceOpen(events: seq<Event>)
    requires events != []
    ensures OpenedAt(events) != Some(|events| - 1) ==>
              && (forall e :: SinceOpen(events[..|events| - 1], e) ==> SinceOpen(events, e))
              && (OpenedAt(events).Some? && OpenedAt(events).value < |events| - 1 ==> SinceOpen(events, events[|events| - 1]))
  {
    var front := events[..|events| - 1];
    if OpenedAt(events) != Some(|events| - 1) {
      forall e | SinceOpen(front, e) ensures SinceOpen(events, e) {
        var i :| OpenedAt(front).value < i < |front| && front[i] == e;
        assert events[i] == e;
      }
    }
  }

  /** A success is reported only for a process that was started, and ended with status 0, since the open. */
  lemma SuccessMeansExitedZero(events: seq<Event>)
    requires events != [] && Handle(StateAfter(READY, events[..|events| - 1]), events[|events| - 1]).reported == [Response(true)]
    ensures exists pid :: pid != 0 && StartedSinceOpen(events, pid) && SinceOpen(events, Exited(pid, 0))
  {
    var front, e := events[..|events| - 1], events[|events| - 1];
    var s := StateAfter(READY, front);
    Remembered(front);
    StillSinceOpen(events);
    var pid := e.pid;
    if e.Started? {
      assert SinceOpen(events, Started(true, pid, e.unknown));
    }
    assert StartedSinceOpen(events, pid) && SinceOpen(events, Exited(pid, 0));
  }

  /** After an unknown outcome nothing is opened, answered or changed any more. */
  lemma {:induction false} UnknownBlocks(s: State, events: seq<Event>)
    requires s.unknown && !s.busy
    ensures StateAfter(s, events) == s && Responses(s, events) == []
  {
    if events != [] {
      UnknownBlocks(s, events[..|events| - 1]);
    }
  }

  function Opens(events: seq<Event>): nat {
    if events == [] then 0
    else
      var before, e := StateAfter(READY, events[..|events| - 1]), events[|events| - 1];
      Opens(events[..|events| - 1]) + if e.Open? && !before.busy && !before.unknown then 1 else 0
  }

  /** Each open that is taken up is answered once, and it is answered unless the installer is still at work. */
  lemma {:induction false} OneResponseEach(events: seq<Event>)
    ensures |Responses(READY, events)| + (if StateAfter(READY, events).busy then 1 else 0) == Opens(events)
  {
    if events != [] {
      OneResponseEach(events[..|events| - 1]);
    }
  }
}
