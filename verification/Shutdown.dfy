/**
  Process shutdown: the first reason wins, and whoever has to act on it is told. Several threads
  request, register and remove at once; each step below is what one of them does between two points
  where another may run (an atomic exchange, or everything done under one mutex).
 */
module Shutdown {
  import opened UpdateTypes

  /** A non-zero reason; no reason yet is `None`. */
  datatype Reason = ApplicationExit | SignalTerminate | SignalInterrupt | SdlApplicationExit | ReplaceRequest | StartupFailure

  datatype Snapshot = Snapshot(host: string, app: int) {
    predicate IsValid() {
      host != "" && app > 0
    }
  }

  const NO_SNAPSHOT := Snapshot("", 0)

  /** A session's identity, which is its address. */
  type Context = nat

  /** What the registry's mutex protects. */
  datatype Registry = Registry(
    context: Option<Context>, snapshot: Snapshot, recoveryContext: Option<Context>, recoverySnapshot: Snapshot)
  {
    function Register(newContext: Context, newSnapshot: Snapshot): Registry {
      Registry(Some(newContext), newSnapshot, None, NO_SNAPSHOT)
    }

    function Unregister(oldContext: Context, retainRecovery: bool): Registry {
      if context != Some(oldContext) then this
      else if retainRecovery then Registry(None, NO_SNAPSHOT, Some(oldContext), snapshot)
      else Registry(None, NO_SNAPSHOT, recoveryContext, recoverySnapshot)
    }

    function ClearRecovery(oldContext: Context): Registry {
      if recoveryContext == Some(oldContext) then this.(recoveryContext := None, recoverySnapshot := NO_SNAPSHOT) else this
    }

    function Visible(): Snapshot {
      if context.Some? then snapshot else recoverySnapshot
    }
  }

  const NO_SESSION := Registry(None, NO_SNAPSHOT, None, NO_SNAPSHOT)

  /**
    A session that ends for recovery stays visible until its recovery is cleared or another session
    registers; one that ends for good uncovers at most an older recovery.
   */
  lemma RecoveryOutlivesSession(r: Registry, context: Context, snapshot: Snapshot, other: Context, later: Context, next: Snapshot)
    requires other != context
    ensures var ended := r.Register(context, snapshot).Unregister(context, true);
            && ended.Visible() == snapshot && ended.ClearRecovery(other).Visible() == snapshot
            && ended.Unregister(other, false) == ended
            && ended.ClearRecovery(context).Visible() == NO_SNAPSHOT
            && ended.Register(later, next).Unregister(later, false).Visible() == NO_SNAPSHOT
    ensures r.Register(context, snapshot).Unregister(context, false).Visible() == NO_SNAPSHOT
    ensures r.Register(context, snapshot).Unregister(other, true).Visible() == snapshot
  {
  }

  class ActiveSessionRegistry {
    var context: Option<Context>
    var snapshot: Snapshot
    var recoveryContext: Option<Context>
    var recoverySnapshot: Snapshot

    constructor ()
      ensures View() == NO_SESSION
    {
      context, snapshot, recoveryContext, recoverySnapshot := None, NO_SNAPSHOT, None, NO_SNAPSHOT;
    }

    function View(): Registry
      reads this
    {
      Registry(context, snapshot, recoveryContext, recoverySnapshot)
    }

    /** A session that registers during a shutdown is told before the mutex is released. */
    method RegisterSession(newContext: Context, newSnapshot: Snapshot, reason: Option<Reason>) returns (told: Option<Reason>)
      modifies this
      ensures View() == old(View()).Register(newContext, newSnapshot)
      ensures told == reason
    {
      recoveryContext, recoverySnapshot := None, NO_SNAPSHOT;
      context, snapshot := Some(newContext), newSnapshot;
      told := None;
      if reason.Some? {
        told := reason;
      }
    }

    method UnregisterSession(oldContext: Context, retainRecovery: bool)
      modifies this
      ensures View() == old(View()).Unregister(oldContext, retainRecovery)
    {
      if context == Some(oldContext) {
        if retainRecovery {
          recoveryContext, recoverySnapshot := Some(oldContext), snapshot;
        }
        context, snapshot := None, NO_SNAPSHOT;
      }
    }

    method ClearRecovery(oldContext: Context)
      modifies this
      ensures View() == old(View()).ClearRecovery(oldContext)
    {
      if recoveryContext == Some(oldContext) {
        recoveryContext, recoverySnapshot := None, NO_SNAPSHOT;
      }
    }

    method Notify() returns (told: Option<Context>)
      ensures told == View().context
    {
      told := context;
    }

    method CurrentSnapshot() returns (current: Snapshot)
      ensures current == View().Visible()
    {
      current := if context.Some? then snapshot else recoverySnapshot;
    }
  }

  // ----- the history -----

  datatype Event =
    | Claimed(reason: Reason)
    | Registered(context: Context)
    | Unregistered(context: Context)
    | Notified(context: Context, reason: Reason)
    | FoundNobody
    | Installed(dispatcher: Option<nat>)
    | Dispatched(target: nat)

  /** The session that has registered and not been removed or displaced since. */
  function SessionAfter(log: seq<Event>): Option<Context> {
    if log == [] then None
    else
      var before := SessionAfter(log[..|log| - 1]);
      match log[|log| - 1]
      case Registered(context) => Some(context)
      case Unregistered(context) => if before == Some(context) then None else before
      case _ => before
  }

  /** The session there now has been told since it registered. */
  predicate SessionTold(log: seq<Event>) {
    log != [] && match log[|log| - 1]
                 case Registered(_) => false
                 case Notified(_, _) => true
                 case _ => SessionTold(log[..|log| - 1])
  }

  function DispatcherAfter(log: seq<Event>): Option<nat> {
    if log == [] then None
    else if log[|log| - 1].Installed? then log[|log| - 1].dispatcher
    else DispatcherAfter(log[..|log| - 1])
  }

  /** The dispatcher there now has been run since it was installed. */
  predicate DispatcherRun(log: seq<Event>) {
    log != [] && match log[|log| - 1]
                 case Installed(_) => false
                 case Dispatched(_) => true
                 case _ => DispatcherRun(log[..|log| - 1])
  }

  predicate Requested(log: seq<Event>) {
    exists e | e in log :: e.Claimed?
  }

  /** The request found no session. */
  predicate LeftToDispatcher(log: seq<Event>) {
    FoundNobody in log
  }

  /** The dispatcher there now was installed when a shutdown had already been requested. */
  predicate InstalledLate(log: seq<Event>) {
    log != [] && if log[|log| - 1].Installed? then Requested(log)
                 else InstalledLate(log[..|log| - 1])
  }

  // ----- the time left -----

  const DEADLINE_MS: int := 5000

  /** ShutdownCoordinator::remainingMs; before the deadline is stored, all of it is left. */
  function RemainingMs(deadline: Option<int>, now: int): int {
    match deadline
    case None => DEADLINE_MS
    case Some(end) => if end <= now then 0 else (end - now) / 1000000
  }

  /** The time left only falls, from five seconds to nothing. */
  lemma RemainingFalls(requested: int, now: int, later: int)
    requires requested <= now <= later
    ensures var deadline := Some(requested + DEADLINE_MS * 1000000);
            && 0 <= RemainingMs(deadline, later) <= RemainingMs(deadline, now) <= RemainingMs(None, now)
            && (RemainingMs(deadline, now) == 0 <==> now - requested > (DEADLINE_MS - 1) * 1000000)
  {
    var end := requested + DEADLINE_MS * 1000000;
    if later < end {
      assert (end - later) / 1000000 <= (end - now) / 1000000;
    }
  }

  // ----- interleaved threads -----

  /** Where a thread stands inside requestShutdown. */
  datatype Progress = Outside | WonExchange | WokeWatchdog | NobodyHome

  datatype Machine = Machine(
    reason: Option<Reason>,
    /* When the process will be ended by force, in nanoseconds. */
    deadline: Option<int>,
    registry: Registry,
    dispatcher: Option<nat>,
    threads: map<nat, Progress>,
    log: seq<Event>)
  {
    function At(thread: nat): Progress {
      if thread in threads then threads[thread] else Outside
    }

    function Move(thread: nat, to: Progress): Machine {
      this.(threads := threads[thread := to])
    }

    function Record(event: Event): Machine {
      this.(log := log + [event])
    }

    /** A session that registers too late is told at once. */
    function TellSession(session: Context): Machine {
      if reason.Some? then Record(Notified(session, reason.value)) else this
    }

    function RunNow(): Machine {
      if dispatcher.Some? then Record(Dispatched(dispatcher.value)) else this
    }
  }

  const START := Machine(None, None, NO_SESSION, None, map[], [])

  datatype Step =
    | Request(thread: nat, reason: Reason)
    | WakeWatchdog(thread: nat, now: int)
    | NotifySession(thread: nat)
    | RunDispatcher(thread: nat)
    | Register(context: Context, snapshot: Snapshot)
    | Unregister(context: Context, retainRecovery: bool)
    | ClearRecovery(context: Context)
    | SetQuitDispatcher(dispatcher: Option<nat>)

  /** The thread is where this step of requestShutdown follows. */
  predicate Enabled(m: Machine, step: Step) {
    match step
    case Request(thread, _) => m.At(thread).Outside?
    case WakeWatchdog(thread, _) => m.At(thread).WonExchange?
    case NotifySession(thread) => m.At(thread).WokeWatchdog?
    case RunDispatcher(thread) => m.At(thread).NobodyHome?
    case _ => true
  }

  function Take(m: Machine, step: Step): Machine {
    if !Enabled(m, step) then m
    else
      match step
      case Request(thread, reason) =>
        if m.reason.Some? then m
        else m.(reason := Some(reason)).Move(thread, WonExchange).Record(Claimed(reason))
      case WakeWatchdog(thread, now) => m.(deadline := Some(now + DEADLINE_MS * 1000000)).Move(thread, WokeWatchdog)
      case NotifySession(thread) =>
        if m.registry.context.Some? then m.Move(thread, Outside).TellSession(m.registry.context.value)
        else m.Move(thread, NobodyHome).Record(FoundNobody)
      case RunDispatcher(thread) => m.Move(thread, Outside).RunNow()
      case Register(context, snapshot) =>
        m.(registry := m.registry.Register(context, snapshot)).Record(Registered(context)).TellSession(context)
      case Unregister(context, retainRecovery) =>
        m.(registry := m.registry.Unregister(context, retainRecovery)).Record(Unregistered(context))
      case ClearRecovery(context) => m.(registry := m.registry.ClearRecovery(context))
      case SetQuitDispatcher(dispatcher) =>
        var installed := m.(dispatcher := dispatcher).Record(Installed(dispatcher));
        if m.reason.Some? then installed.RunNow() else installed
  }

  function After(steps: seq<Step>): Machine {
    if steps == [] then START else Take(After(steps[..|steps| - 1]), steps[|steps| - 1])
  }

  // ----- the invariant -----

  /** Every callback in the history went to whoever was there at that moment, with the one reason. */
  ghost predicate CallbacksFit(m: Machine) {
    && (forall j | 0 <= j < |m.log| && m.log[j].Notified? ::
          SessionAfter(m.log[..j]) == Some(m.log[j].context) && m.reason == Some(m.log[j].reason))
    && (forall j | 0 <= j < |m.log| && m.log[j].Dispatched? ::
          DispatcherAfter(m.log[..j]) == Some(m.log[j].target))
  }

  /** Only the thread that won the exchange is inside. */
  ghost predicate OneWinner(m: Machine) {
    && (forall t, u :: !m.At(t).Outside? && !m.At(u).Outside? ==> t == u)
    && (forall t :: !m.At(t).Outside? ==> m.reason.Some?)
  }

  ghost predicate Inside(m: Machine, place: Progress) {
    exists t :: m.At(t) == place
  }

  /** The history tells the same story as the fields, and no one who still has to be told is forgotten. */
  ghost predicate Invariant(m: Machine) {
    && OneWinner(m)
    && CallbacksFit(m)
    && SessionAfter(m.log) == m.registry.context
    && DispatcherAfter(m.log) == m.dispatcher
    && (m.reason.Some? <==> Requested(m.log))
    && (m.deadline.Some? <==> m.reason.Some? && !Inside(m, WonExchange))
    && (m.reason.Some? && m.registry.context.Some? && !SessionTold(m.log) ==>
          Inside(m, WonExchange) || Inside(m, WokeWatchdog))
    && (LeftToDispatcher(m.log) ==> m.reason.Some? && !Inside(m, WonExchange) && !Inside(m, WokeWatchdog))
    && (m.dispatcher.Some? && InstalledLate(m.log) ==> DispatcherRun(m.log))
    && (m.dispatcher.Some? && LeftToDispatcher(m.log) && !DispatcherRun(m.log) ==> Inside(m, NobodyHome))
    && (Inside(m, NobodyHome) ==> LeftToDispatcher(m.log))
    && (DispatcherRun(m.log) ==> InstalledLate(m.log) || LeftToDispatcher(m.log))
  }

  // ----- the proof -----

  /** What one more event changes. */
  lemma HistoryGrows(log: seq<Event>, e: Event)
    ensures SessionAfter(log + [e]) == (match e
                                        case Registered(context) => Some(context)
                                        case Unregistered(context) =>
                                          if SessionAfter(log) == Some(context) then None else SessionAfter(log)
                                        case _ => SessionAfter(log))
    ensures SessionTold(log + [e]) == (match e case Registered(_) => false case Notified(_, _) => true case _ => SessionTold(log))
    ensures DispatcherAfter(log + [e]) == if e.Installed? then e.dispatcher else DispatcherAfter(log)
    ensures DispatcherRun(log + [e]) == (match e case Installed(_) => false case Dispatched(_) => true case _ => DispatcherRun(log))
    ensures Requested(log + [e]) == (e.Claimed? || Requested(log))
    ensures LeftToDispatcher(log + [e]) == (e.FoundNobody? || LeftToDispatcher(log))
    ensures InstalledLate(log + [e]) == if e.Installed? then Requested(log) else InstalledLate(log)
  {
    assert (log + [e])[..|log|] == log;
  }

  lemma CallbacksStillFit(m: Machine, n: Machine, e: Event)
    requires CallbacksFit(m) && n.log == m.log + [e]
    requires m.reason.Some? ==> n.reason == m.reason
    requires e.Notified? ==> SessionAfter(m.log) == Some(e.context) && n.reason == Some(e.reason)
    requires e.Dispatched? ==> DispatcherAfter(m.log) == Some(e.target)
    ensures CallbacksFit(n)
  {
    forall j | 0 <= j <= |m.log| ensures n.log[..j] == m.log[..j] {
    }
    assert m.log[..|m.log|] == m.log;
  }

  lemma CallbacksKept(m: Machine, n: Machine)
    requires CallbacksFit(m) && n.log == m.log && n.reason == m.reason
    ensures CallbacksFit(n)
  {
  }

  /** Only one thread is ever inside, so wherever it goes is the only place anyone is. */
  lemma WinnerMoves(m: Machine, thread: nat, to: Progress)
    requires OneWinner(m) && (!m.At(thread).Outside? || m.reason.None?)
    ensures var n := m.Move(thread, to);
            && (m.reason.Some? || to.Outside? ==> OneWinner(n))
            && (forall t, u :: !n.At(t).Outside? && !n.At(u).Outside? ==> t == u)
            && Inside(m, m.At(thread))
            && (!m.At(thread).Outside? ==> forall w: Progress | Inside(m, w) && !w.Outside? :: w == m.At(thread))
            && Inside(n, to)
            && (forall w: Progress | Inside(n, w) && !w.Outside? :: w == to)
  {
    var n := m.Move(thread, to);
    assert n.At(thread) == to;
    assert forall t | t != thread :: n.At(t) == m.At(t) && n.At(t).Outside?;
  }

  lemma SameThreads(m: Machine, n: Machine)
    requires m.threads == n.threads
    ensures forall t :: m.At(t) == n.At(t)
    ensures forall w :: Inside(m, w) <==> Inside(n, w)
    ensures m.reason == n.reason ==> (OneWinner(m) <==> OneWinner(n))
  {
    assert forall t :: m.At(t) == n.At(t);
  }

  lemma RequestKeeps(m: Machine, thread: nat, reason: Reason)
    requires Invariant(m) && m.At(thread).Outside? && m.reason.None?
    ensures Invariant(m.(reason := Some(reason)).Move(thread, WonExchange).Record(Claimed(reason)))
  {
    hide CallbacksFit, SessionAfter, SessionTold, DispatcherAfter, DispatcherRun, InstalledLate,
      Requested, LeftToDispatcher;
    var n := m.(reason := Some(reason)).Move(thread, WonExchange).Record(Claimed(reason));
    WinnerMoves(m, thread, WonExchange);
    SameThreads(m.Move(thread, WonExchange), n);
    HistoryGrows(m.log, Claimed(reason));
    CallbacksStillFit(m, n, Claimed(reason));
  }

  lemma WakeKeeps(m: Machine, thread: nat, now: int)
    requires Invariant(m) && m.At(thread).WonExchange?
    ensures Invariant(Take(m, WakeWatchdog(thread, now)))
  {
    hide CallbacksFit;
    var n := Take(m, WakeWatchdog(thread, now));
    WinnerMoves(m, thread, WokeWatchdog);
    SameThreads(m.Move(thread, WokeWatchdog), n);
    CallbacksKept(m, n);
  }

  lemma NotifyKeeps(m: Machine, thread: nat)
    requires Invariant(m) && m.At(thread).WokeWatchdog?
    ensures Invariant(Take(m, NotifySession(thread)))
  {
    hide CallbacksFit, SessionAfter, SessionTold, DispatcherAfter, DispatcherRun, InstalledLate,
      Requested, LeftToDispatcher;
    var n := Take(m, NotifySession(thread));
    assert m.reason.Some?;
    var told := m.registry.context.Some?;
    var e := if told then Notified(m.registry.context.value, m.reason.value) else FoundNobody;
    var to := if told then Outside else NobodyHome;
    WinnerMoves(m, thread, to);
    SameThreads(m.Move(thread, to), n);
    HistoryGrows(m.log, e);
    CallbacksStillFit(m, n, e);
  }

  lemma RunDispatcherKeeps(m: Machine, thread: nat)
    requires Invariant(m) && m.At(thread).NobodyHome?
    ensures Invariant(Take(m, RunDispatcher(thread)))
  {
    hide CallbacksFit, SessionAfter, SessionTold, DispatcherAfter, DispatcherRun, InstalledLate,
      Requested, LeftToDispatcher;
    var n := Take(m, RunDispatcher(thread));
    WinnerMoves(m, thread, Outside);
    SameThreads(m.Move(thread, Outside), n);
    CallbacksKept(m, m.Move(thread, Outside));
    if m.dispatcher.Some? {
      HistoryGrows(m.log, Dispatched(m.dispatcher.value));
      CallbacksStillFit(m, n, Dispatched(m.dispatcher.value));
    }
  }

  lemma RegisterKeeps(m: Machine, context: Context, snapshot: Snapshot)
    requires Invariant(m)
    ensures Invariant(Take(m, Step.Register(context, snapshot)))
  {
    hide CallbacksFit, OneWinner, Inside, SessionAfter, SessionTold, DispatcherAfter, DispatcherRun, InstalledLate,
      Requested, LeftToDispatcher;
    var n := Take(m, Step.Register(context, snapshot));
    var first := m.(registry := m.registry.Register(context, snapshot)).Record(Registered(context));
    SameThreads(m, n);
    HistoryGrows(m.log, Registered(context));
    CallbacksStillFit(m, first, Registered(context));
    if m.reason.Some? {
      HistoryGrows(first.log, Notified(context, m.reason.value));
      CallbacksStillFit(first, n, Notified(context, m.reason.value));
    }
  }

  lemma UnregisterKeeps(m: Machine, context: Context, retainRecovery: bool)
    requires Invariant(m)
    ensures Invariant(Take(m, Step.Unregister(context, retainRecovery)))
  {
    hide CallbacksFit, OneWinner, Inside, SessionAfter, SessionTold, DispatcherAfter, DispatcherRun, InstalledLate,
      Requested, LeftToDispatcher;
    var n := Take(m, Step.Unregister(context, retainRecovery));
    SameThreads(m, n);
    HistoryGrows(m.log, Unregistered(context));
    CallbacksStillFit(m, n, Unregistered(context));
  }

  lemma SetQuitDispatcherKeeps(m: Machine, dispatcher: Option<nat>)
    requires Invariant(m)
    ensures Invariant(Take(m, SetQuitDispatcher(dispatcher)))
  {
    hide CallbacksFit, OneWinner, Inside, SessionAfter, SessionTold, DispatcherAfter, DispatcherRun, InstalledLate,
      Requested, LeftToDispatcher;
    var n := Take(m, SetQuitDispatcher(dispatcher));
    var first := m.(dispatcher := dispatcher).Record(Installed(dispatcher));
    SameThreads(m, n);
    HistoryGrows(m.log, Installed(dispatcher));
    CallbacksStillFit(m, first, Installed(dispatcher));
    if m.reason.Some? && dispatcher.Some? {
      HistoryGrows(first.log, Dispatched(dispatcher.value));
      CallbacksStillFit(first, n, Dispatched(dispatcher.value));
    }
  }

  lemma StepKeeps(m: Machine, step: Step)
    requires Invariant(m)
    ensures Invariant(Take(m, step))
    ensures m.reason.Some? ==> Take(m, step).reason == m.reason
    ensures m.deadline.Some? ==> Take(m, step).deadline == m.deadline
  {
    assert m.deadline.Some? ==> forall t :: !m.At(t).WonExchange?;
    hide Invariant;
    if Enabled(m, step) {
      match step
      case Request(thread, reason) =>
        if m.reason.None? {
          RequestKeeps(m, thread, reason);
        }
      case WakeWatchdog(thread, now) => WakeKeeps(m, thread, now);
      case NotifySession(thread) => NotifyKeeps(m, thread);
      case RunDispatcher(thread) => RunDispatcherKeeps(m, thread);
      case Register(context, snapshot) => RegisterKeeps(m, context, snapshot);
      case Unregister(context, retainRecovery) => UnregisterKeeps(m, context, retainRecovery);
      case ClearRecovery(context) => ClearRecoveryKeeps(m, context);
      case SetQuitDispatcher(dispatcher) => SetQuitDispatcherKeeps(m, dispatcher);
    }
  }

  lemma ClearRecoveryKeeps(m: Machine, context: Context)
    requires Invariant(m)
    ensures Invariant(Take(m, Step.ClearRecovery(context)))
  {
    hide CallbacksFit;
    SameThreads(m, Take(m, Step.ClearRecovery(context)));
    CallbacksKept(m, Take(m, Step.ClearRecovery(context)));
  }

  lemma {:induction false} InvariantAlways(steps: seq<Step>)
    ensures Invariant(After(steps))
  {
    if steps == [] {
      assert forall t :: START.At(t) == Outside;
    } else {
      InvariantAlways(steps[..|steps| - 1]);
      StepKeeps(After(steps[..|steps| - 1]), steps[|steps| - 1]);
    }
  }

  // ----- what it means -----

  ghost predicate AllReturned(m: Machine) {
    forall t :: m.At(t).Outside?
  }

  /**
    No shutdown is missed. Whatever the interleaving, once every call has returned, the session there
    now has been told; and the dispatcher there now has been run exactly when it came after the
    request or the request found no session.
   */
  lemma NothingMissed(steps: seq<Step>)
    requires AllReturned(After(steps)) && After(steps).reason.Some?
    ensures var m := After(steps);
            && (m.registry.context.Some? ==> SessionTold(m.log))
            && (m.dispatcher.Some? ==> (DispatcherRun(m.log) <==> InstalledLate(m.log) || LeftToDispatcher(m.log)))
  {
    InvariantAlways(steps);
  }

  /** The first reason and its deadline stay, and everyone who is told is told that reason. */
  lemma {:induction false} FirstReasonIsPermanent(steps: seq<Step>, more: seq<Step>)
    requires After(steps).reason.Some?
    ensures After(steps + more).reason == After(steps).reason
    ensures After(steps).deadline.Some? ==> After(steps + more).deadline == After(steps).deadline
    ensures forall e | e in After(steps + more).log && e.Notified? :: Some(e.reason) == After(steps).reason
  {
    if more == [] {
      assert steps + more == steps;
    } else {
      var before := steps + more[..|more| - 1];
      assert (steps + more)[..|steps + more| - 1] == before;
      FirstReasonIsPermanent(steps, more[..|more| - 1]);
      InvariantAlways(before);
      StepKeeps(After(before), more[|more| - 1]);
    }
    InvariantAlways(steps + more);
  }

  /** A removed session is gone until it registers anew. */
  lemma {:induction false} RemovedStaysAway(log: seq<Event>, i: nat, context: Context)
    requires i < |log| && log[i] == Unregistered(context)
    requires forall k | i < k < |log| :: log[k] != Registered(context)
    ensures SessionAfter(log) != Some(context)
  {
    if i < |log| - 1 {
      RemovedStaysAway(log[..|log| - 1], i, context);
    }
  }

  /** No session is told after its removal returned, unless it has registered again. */
  lemma NotToldAfterRemoval(steps: seq<Step>, i: nat, j: nat)
    requires i < j < |After(steps).log| && After(steps).log[i].Unregistered?
    requires After(steps).log[j].Notified? && After(steps).log[j].context == After(steps).log[i].context
    ensures exists k | i < k < j :: After(steps).log[k] == Registered(After(steps).log[i].context)
  {
    var log := After(steps).log;
    InvariantAlways(steps);
    if forall k | i < k < j :: log[k] != Registered(log[i].context) {
      RemovedStaysAway(log[..j], i, log[i].context);
    }
  }

  lemma {:induction false} ReplacedDispatcherIsGone(log: seq<Event>, i: nat)
    requires i < |log| && log[i].Installed?
    requires forall k | i < k < |log| :: !log[k].Installed?
    ensures DispatcherAfter(log) == log[i].dispatcher
  {
    if i < |log| - 1 {
      ReplacedDispatcherIsGone(log[..|log| - 1], i);
    }
  }

  /** The dispatcher that runs is the one installed last: none runs after it was replaced or removed. */
  lemma OnlyLatestDispatcherRuns(steps: seq<Step>, i: nat, j: nat)
    requires i < j < |After(steps).log| && After(steps).log[i].Installed? && After(steps).log[j].Dispatched?
    requires forall k | i < k < j :: !After(steps).log[k].Installed?
    ensures After(steps).log[i].dispatcher == Some(After(steps).log[j].target)
  {
    InvariantAlways(steps);
    ReplacedDispatcherIsGone(After(steps).log[..j], i);
  }

  // ----- the objects themselves -----

  lemma OneMoreStep(steps: seq<Step>, step: Step)
    ensures After(steps + [step]) == Take(After(steps), step)
  {
    assert (steps + [step])[..|steps|] == steps;
  }

  lemma OneCall(steps: seq<Step>, step: Step)
    requires AllReturned(After(steps)) && (step.Register? || step.SetQuitDispatcher?)
    ensures var m := After(steps);
            var n := After(steps + [step]);
            && AllReturned(n) && n.reason == m.reason && n.deadline == m.deadline
            && n.registry == (if step.Register? then m.registry.Register(step.context, step.snapshot) else m.registry)
            && n.dispatcher == (if step.Register? then m.dispatcher else step.dispatcher)
  {
    OneMoreStep(steps, step);
    SameThreads(After(steps), After(steps + [step]));
  }

  function RequestAlone(m: Machine, reason: Reason, now: int): Machine {
    Take(Take(Take(Take(m, Request(0, reason)), WakeWatchdog(0, now)), NotifySession(0)), RunDispatcher(0))
  }

  lemma RequestAloneReturns(m: Machine, reason: Reason, now: int)
    requires AllReturned(m)
    ensures var n := RequestAlone(m, reason, now);
            && AllReturned(n) && n.registry == m.registry && n.dispatcher == m.dispatcher
            && n.reason == (if m.reason.Some? then m.reason else Some(reason))
            && n.deadline == (if m.reason.Some? then m.deadline else Some(now + DEADLINE_MS * 1000000))
  {
    var n := RequestAlone(m, reason, now);
    if m.reason.Some? {
      assert m.At(0).Outside?;
      assert n == m;
    } else {
      forall t ensures n.At(t).Outside? {
        assert m.At(t).Outside?;
      }
    }
  }

  /** The steps of one request, with nothing in between. */
  lemma UninterruptedRequest(steps: seq<Step>, reason: Reason, now: int)
    ensures After(steps + RequestSteps(reason, now)) == RequestAlone(After(steps), reason, now)
  {
    hide Take;
    var calls := RequestSteps(reason, now);
    assert steps + calls == steps + [calls[0]] + [calls[1]] + [calls[2]] + [calls[3]];
    OneMoreStep(steps, calls[0]);
    OneMoreStep(steps + [calls[0]], calls[1]);
    OneMoreStep(steps + [calls[0]] + [calls[1]], calls[2]);
    OneMoreStep(steps + [calls[0]] + [calls[1]] + [calls[2]], calls[3]);
  }

  function RequestSteps(reason: Reason, now: int): seq<Step> {
    [Request(0, reason), WakeWatchdog(0, now), NotifySession(0), RunDispatcher(0)]
  }

  /**
    The coordinator next to its registry. Every call, made without interruption, is a run of the
    machine above (`history`), so what holds of all interleavings holds of it.
   */
  class ShutdownCoordinator {
    const sessions: ActiveSessionRegistry
    var reason: Option<Reason>
    var deadline: Option<int>
    var dispatcher: Option<nat>
    ghost var history: seq<Step>

    ghost predicate Valid()
      reads this, sessions
    {
      var m := After(history);
      && m.reason == reason && m.deadline == deadline && m.dispatcher == dispatcher
      && m.registry == sessions.View() && AllReturned(m)
    }

    constructor (sessions: ActiveSessionRegistry)
      requires sessions.View() == NO_SESSION
      ensures Valid() && history == [] && this.sessions == sessions
    {
      this.sessions := sessions;
      reason, deadline, dispatcher, history := None, None, None, [];
    }

    method RequestShutdown(newReason: Reason, now: int) returns (told: Option<Context>, ran: Option<nat>)
      requires Valid()
      modifies this
      ensures Valid() && sessions.View() == old(sessions.View()) && dispatcher == old(dispatcher)
      ensures old(reason).Some? ==> reason == old(reason) && deadline == old(deadline) && told.None? && ran.None?
      ensures old(reason).None? ==>
                && reason == Some(newReason) && told == sessions.context
                && ran == if told.Some? then None else dispatcher
    {
      hide RequestAlone;
      UninterruptedRequest(history, newReason, now);
      RequestAloneReturns(After(history), newReason, now);
      history := history + RequestSteps(newReason, now);
      told, ran := None, None;
      if reason.Some? {
        return;
      }
      reason := Some(newReason);
      deadline := Some(now + DEADLINE_MS * 1000000);
      told := sessions.Notify();
      if told.Some? {
        return;
      }
      ran := dispatcher;
    }

    method SetQuitDispatcher(newDispatcher: Option<nat>) returns (ran: Option<nat>)
      requires Valid()
      modifies this
      ensures Valid() && dispatcher == newDispatcher && reason == old(reason)
      ensures ran == if reason.Some? then newDispatcher else None
    {
      hide After;
      OneCall(history, Step.SetQuitDispatcher(newDispatcher));
      history := history + [Step.SetQuitDispatcher(newDispatcher)];
      dispatcher := newDispatcher;
      ran := if reason.Some? then dispatcher else None;
    }

    method RegisterSession(context: Context, snapshot: Snapshot) returns (told: Option<Reason>)
      requires Valid()
      modifies this`history, sessions
      ensures Valid() && sessions.View() == old(sessions.View()).Register(context, snapshot)
      ensures told == reason
    {
      hide After;
      OneCall(history, Step.Register(context, snapshot));
      history := history + [Step.Register(context, snapshot)];
      told := sessions.RegisterSession(context, snapshot, reason);
    }
  }
}
