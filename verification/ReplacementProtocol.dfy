/**
  Any number of launches, one after another and at once, over lossy and late messages and with
  processes that may die at any step: who runs, who may be asked to make way, and where a handoff
  comes from.
 */
module ReplacementProtocol {
  import opened UpdateTypes
  import Shutdown
  import opened SingleInstance

  datatype Phase = Entering | Serving | Over

  /** The exchange a launch is waiting for. */
  datatype Link = NoLink | StatusAsked(number: nat) | AnswerAsked(number: nat)

  /** Where the service thread stands with the request it has taken. */
  datatype Stage =
    | Accepting
    | Received(index: nat, early: bool)
    | Decided(index: nat, early: bool, late: bool)
    | Closing(shutDown: bool)

  datatype Process = Process(
    phase: Phase, waiter: Waiter, link: Link, exchanges: nat, stage: Stage, replacement: Handoff, shutdown: bool,
    registry: Shutdown.Registry)
  {
    function Service(g: Generation): SingleInstance.Service {
      SingleInstance.Service(g, waiter.launched, waiter.gaming, replacement)
    }
  }

  datatype Sent = Sent(from: Generation, number: nat, request: Request)
  datatype Delivered = Delivered(to: Generation, number: nat, reply: Reply)

  /** `sent` and `replies` only grow: a message may be read late, or never. */
  datatype World = World(
    processes: map<Generation, Process>,
    lock: Option<Generation>,
    sent: seq<Sent>,
    replies: seq<Delivered>,
    /* Every snapshot a session registry has held. */
    held: set<Handoff>,
    /* Who was made to close by whose request. */
    replaced: set<(Generation, Generation)>)
  {
    function With(g: Generation, p: Process): World {
      this.(processes := processes[g := p])
    }

    function Send(g: Generation, p: Process, request: Request): World {
      this.(processes := processes[g := p], sent := sent + [Sent(g, p.exchanges, request)])
    }
  }

  const NOTHING := World(map[], None, [], [], {}, {})

  datatype Step =
    | Launch(g: Generation, gaming: bool, launched: int)
    | TakeLock(g: Generation)
    | AskStatus(g: Generation)
    | HearStatus(g: Generation, index: nat, now: int)
    | HearAnswer(g: Generation, index: nat, now: int)
    | HearNothing(g: Generation)
    | TakeRequest(g: Generation, index: nat)
    | Decide(g: Generation)
    | SendReply(g: Generation)
    | FinishServing(g: Generation)
    | AskShutdown(g: Generation)
    | RegisterSession(g: Generation, context: nat, snapshot: Handoff)
    | UnregisterSession(g: Generation, context: nat, retainRecovery: bool)
    | ClearRecovery(g: Generation, context: nat)
    | ClearHandoff(g: Generation)
    | End(g: Generation)

  /** The reply at `index` is the one this link waits for. */
  predicate Arrived(w: World, g: Generation, number: nat, index: nat) {
    index < |w.replies| && w.replies[index].to == g && w.replies[index].number == number
  }

  function Fresh(gaming: bool, launched: int): Process {
    Process(Entering, Waiter(gaming, launched, None, false, false, 0, NO_HANDOFF), NoLink, 0, Accepting, NO_HANDOFF,
            false, Shutdown.NO_SESSION)
  }

  /** What one step does; a step whose moment it is not changes nothing. */
  function Take(w: World, step: Step): World {
    if step.Launch? then
      if step.g in w.processes then w else w.With(step.g, Fresh(step.gaming, step.launched))
    else if step.g !in w.processes || w.processes[step.g].phase.Over? then w
    else if w.processes[step.g].phase.Entering? then TakeEntering(w, w.processes[step.g], step)
    else TakeServing(w, w.processes[step.g], step)
  }

  function TakeEntering(w: World, p: Process, step: Step): World
    requires !step.Launch?
  {
    match step
    case TakeLock(g) => if w.lock.None? && p.link.NoLink? then w.With(g, p.(phase := Serving)).(lock := Some(g)) else w
    case AskStatus(g) =>
      if p.link.NoLink? then w.Send(g, p.(link := StatusAsked(p.exchanges + 1), exchanges := p.exchanges + 1), Request(Op.AskStatus, None))
      else w
    case HearStatus(g, index, now) =>
      if p.link.StatusAsked? && Arrived(w, g, p.link.number, index) then HeardStatus(w, g, p, w.replies[index].reply, now) else w
    case HearAnswer(g, index, now) =>
      if p.link.AnswerAsked? && Arrived(w, g, p.link.number, index) then HeardAnswer(w, g, p, w.replies[index].reply, now) else w
    case HearNothing(g) => w.With(g, p.(link := NoLink))
    case AskShutdown(g) => w.With(g, p.(shutdown := true))
    case End(g) => w.With(g, p.(phase := Over))
    case _ => w
  }

  function HeardStatus(w: World, g: Generation, p: Process, reply: Reply, now: int): World {
    var q := p.(waiter := p.waiter.HeardStatus(reply, now), link := NoLink);
    match p.waiter.NextRequest(reply)
    case None => w.With(g, q)
    case Some(request) => w.Send(g, q.(link := AnswerAsked(p.exchanges + 1), exchanges := p.exchanges + 1), request)
  }

  function HeardAnswer(w: World, g: Generation, p: Process, reply: Reply, now: int): World {
    w.With(g, p.(waiter := p.waiter.HeardAnswer(reply, now), link := NoLink,
                 phase := if reply.state.Active? then Over else p.phase))
  }

  function TakeServing(w: World, p: Process, step: Step): World
    requires !step.Launch?
  {
    match step
    case TakeRequest(g, index) =>
      if p.stage.Accepting? && index < |w.sent| then w.With(g, p.(stage := Received(index, p.shutdown))) else w
    case Decide(g) =>
      if p.stage.Received? then w.With(g, p.(stage := Decided(p.stage.index, p.stage.early, p.shutdown))) else w
    case SendReply(g) => if p.stage.Decided? && p.stage.index < |w.sent| then Replied(w, g, p, w.sent[p.stage.index]) else w
    case FinishServing(g) =>
      if p.stage.Closing? then w.With(g, p.(stage := Accepting, shutdown := p.shutdown || p.stage.shutDown)) else w
    case AskShutdown(g) => w.With(g, p.(shutdown := true))
    case RegisterSession(g, context, snapshot) =>
      w.With(g, p.(registry := p.registry.Register(context, snapshot))).(held := w.held + {snapshot})
    case UnregisterSession(g, context, retainRecovery) =>
      w.With(g, p.(registry := p.registry.Unregister(context, retainRecovery)))
    case ClearRecovery(g, context) => w.With(g, p.(registry := p.registry.ClearRecovery(context)))
    case ClearHandoff(g) => w.With(g, p.(waiter := p.waiter.(handoff := NO_HANDOFF)))
    case End(g) => w.With(g, p.(phase := Over)).(lock := None)
    case _ => w
  }

  /** The session registry is looked at only now, after the decision. */
  function Replied(w: World, g: Generation, p: Process, taken: Sent): World
    requires p.stage.Decided?
  {
    var accepted := Accepts(p.Service(g), taken.request, p.stage.late);
    var replacement :=
      if accepted then Accepted(p.Service(g), p.registry.Visible(), p.waiter.handoff).replacement else p.replacement;
    var q := p.(replacement := replacement, stage := Closing(accepted));
    w.With(g, q).(
      replies := w.replies + [Delivered(taken.from, taken.number,
                                        ReplyTo(q.Service(g), taken.request, p.stage.early, p.stage.late))],
      replaced := if accepted then w.replaced + {(g, taken.from)} else w.replaced)
  }

  function After(steps: seq<Step>): World {
    if steps == [] then NOTHING else Take(After(steps[..|steps| - 1]), steps[|steps| - 1])
  }

  // ----- who runs -----

  /** The lock is with whoever is serving. */
  ghost predicate Exclusive(w: World) {
    && (forall g | g in w.processes && w.processes[g].phase.Serving? :: w.lock == Some(g))
    && (w.lock.Some? ==> w.lock.value in w.processes && w.processes[w.lock.value].phase.Serving?)
  }

  lemma ExclusiveKept(w: World, step: Step)
    requires Exclusive(w)
    ensures Exclusive(Take(w, step))
  {
  }

  // ----- where a handoff comes from -----

  predicate Traced(held: set<Handoff>, h: Handoff) {
    h.IsValid() ==> h in held
  }

  predicate ProcessTraced(held: set<Handoff>, p: Process) {
    && Traced(held, p.waiter.handoff) && Traced(held, p.replacement)
    && Traced(held, p.registry.snapshot) && Traced(held, p.registry.recoverySnapshot)
  }

  /** Every valid handoff anywhere was once in a session registry, exactly as it is. */
  ghost predicate AllTraced(w: World) {
    && (forall g | g in w.processes :: ProcessTraced(w.held, w.processes[g]))
    && (forall i | 0 <= i < |w.replies| :: Traced(w.held, w.replies[i].reply.Carried()))
  }

  lemma TracedKept(w: World, step: Step)
    requires AllTraced(w)
    ensures AllTraced(Take(w, step))
  {
    hide AllTraced;
    if step.g in w.processes && w.processes[step.g].phase.Serving? {
      if !step.Launch? {
        ServingKeepsTraced(w, step);
      }
    } else {
      EnteringKeepsTraced(w, step);
    }
  }

  lemma EnteringKeepsTraced(w: World, step: Step)
    requires AllTraced(w) && (step.g in w.processes ==> !w.processes[step.g].phase.Serving?)
    ensures AllTraced(Take(w, step))
  {
    hide TakeServing, Waiter.HeardStatus, Waiter.HeardAnswer, Waiter.NextRequest;
    if step.g in w.processes && (step.HearStatus? || step.HearAnswer?) && step.index < |w.replies| {
      HearingKeepsTraced(w.held, w.processes[step.g].waiter, w.replies[step.index].reply, step.now);
    }
  }

  lemma HearingKeepsTraced(held: set<Handoff>, v: Waiter, reply: Reply, now: int)
    requires Traced(held, v.handoff) && Traced(held, reply.Carried())
    ensures Traced(held, v.HeardStatus(reply, now).handoff) && Traced(held, v.HeardAnswer(reply, now).handoff)
  {
  }

  lemma ServingKeepsTraced(w: World, step: Step)
    requires AllTraced(w) && step.g in w.processes && w.processes[step.g].phase.Serving? && !step.Launch?
    ensures AllTraced(Take(w, step))
  {
    hide TakeEntering;
  }

  // ----- who may be asked to make way -----

  /** Replies say what their sender was launched as. */
  ghost predicate Genuine(w: World) {
    forall i | 0 <= i < |w.replies| ::
      var r := w.replies[i].reply;
      r.generation in w.processes && r.gaming == w.processes[r.generation].waiter.gaming
      && r.started == w.processes[r.generation].waiter.launched
  }

  lemma GenuineKept(w: World, step: Step)
    requires Genuine(w)
    ensures Genuine(Take(w, step))
  {
    hide Genuine;
    if step.g in w.processes && w.processes[step.g].phase.Serving? {
      if !step.Launch? {
        ServingGenuineKept(w, step);
      }
    } else {
      EnteringGenuineKept(w, step);
    }
  }

  lemma EnteringGenuineKept(w: World, step: Step)
    requires Genuine(w) && (step.g in w.processes ==> !w.processes[step.g].phase.Serving?)
    ensures Genuine(Take(w, step))
  {
    hide TakeServing;
  }

  lemma ServingGenuineKept(w: World, step: Step)
    requires Genuine(w) && step.g in w.processes && w.processes[step.g].phase.Serving? && !step.Launch?
    ensures Genuine(Take(w, step))
  {
    hide TakeEntering;
  }

  /** `later` may ask `earlier` to make way: both are gaming, and it was launched strictly later. */
  predicate MayReplace(w: World, earlier: Generation, later: Generation) {
    && earlier in w.processes && later in w.processes
    && w.processes[earlier].waiter.gaming && w.processes[later].waiter.gaming
    && w.processes[earlier].waiter.launched < w.processes[later].waiter.launched
  }

  ghost predicate RequestsFit(w: World) {
    forall i | 0 <= i < |w.sent| ::
      w.sent[i].from in w.processes
      && (w.sent[i].request.op.Replace? ==>
            w.sent[i].request.generation.Some? && MayReplace(w, w.sent[i].request.generation.value, w.sent[i].from))
  }

  lemma RequestsKeepFitting(w: World, step: Step)
    requires RequestsFit(w) && Genuine(w)
    ensures RequestsFit(Take(w, step))
  {
    hide RequestsFit, Genuine;
    if step.g in w.processes && w.processes[step.g].phase.Serving? {
      if !step.Launch? {
        ServingRequestsKeepFitting(w, step);
      }
    } else {
      EnteringRequestsKeepFitting(w, step);
    }
  }

  lemma EnteringRequestsKeepFitting(w: World, step: Step)
    requires RequestsFit(w) && Genuine(w) && (step.g in w.processes ==> !w.processes[step.g].phase.Serving?)
    ensures RequestsFit(Take(w, step))
  {
    hide TakeServing;
  }

  lemma ServingRequestsKeepFitting(w: World, step: Step)
    requires RequestsFit(w) && Genuine(w) && step.g in w.processes && w.processes[step.g].phase.Serving? && !step.Launch?
    ensures RequestsFit(Take(w, step))
  {
    hide TakeEntering;
  }

  /** A launch that has asked has marked that it has, and its one request is the only one. */
  ghost predicate OneEach(w: World) {
    && (forall i | 0 <= i < |w.sent| && w.sent[i].request.op.Replace? ::
          w.sent[i].from in w.processes && w.processes[w.sent[i].from].waiter.replacementSent)
    && (forall i, j | 0 <= i < j < |w.sent| && w.sent[i].request.op.Replace? && w.sent[j].request.op.Replace? ::
          w.sent[i].from != w.sent[j].from)
  }

  lemma OneEachKept(w: World, step: Step)
    requires OneEach(w)
    ensures OneEach(Take(w, step))
  {
    hide OneEach;
    if step.g in w.processes && w.processes[step.g].phase.Serving? {
      if !step.Launch? {
        ServingOneEachKept(w, step);
      }
    } else {
      EnteringOneEachKept(w, step);
    }
  }

  lemma EnteringOneEachKept(w: World, step: Step)
    requires OneEach(w) && (step.g in w.processes ==> !w.processes[step.g].phase.Serving?)
    ensures OneEach(Take(w, step))
  {
    hide TakeServing;
  }

  lemma ServingOneEachKept(w: World, step: Step)
    requires OneEach(w) && step.g in w.processes && w.processes[step.g].phase.Serving? && !step.Launch?
    ensures OneEach(Take(w, step))
  {
    hide TakeEntering;
  }

  ghost predicate ReplacedFit(w: World) {
    forall e | e in w.replaced :: MayReplace(w, e.0, e.1)
  }

  lemma ReplacedKeepsFitting(w: World, step: Step)
    requires ReplacedFit(w) && RequestsFit(w)
    ensures ReplacedFit(Take(w, step))
  {
    hide ReplacedFit, RequestsFit;
    if step.g in w.processes && w.processes[step.g].phase.Serving? {
      if !step.Launch? {
        ServingReplacedKeepsFitting(w, step);
      }
    } else {
      EnteringReplacedKeepsFitting(w, step);
    }
  }

  lemma EnteringReplacedKeepsFitting(w: World, step: Step)
    requires ReplacedFit(w) && RequestsFit(w) && (step.g in w.processes ==> !w.processes[step.g].phase.Serving?)
    ensures ReplacedFit(Take(w, step))
  {
    hide TakeServing;
  }

  lemma ServingReplacedKeepsFitting(w: World, step: Step)
    requires ReplacedFit(w) && RequestsFit(w) && step.g in w.processes && w.processes[step.g].phase.Serving? && !step.Launch?
    ensures ReplacedFit(Take(w, step))
  {
    hide TakeEntering;
  }

  // ----- the handoff that has been promised -----

  predicate Bound(p: Process, promised: Reply) {
    && promised.handoff == Some(p.replacement)
    && (p.shutdown || p.stage == Closing(true))
    && (p.stage.Decided? ==> p.stage.late)
  }

  ghost predicate PromisesHold(w: World) {
    && (forall g | g in w.processes && w.processes[g].stage.Decided? && w.processes[g].stage.late :: w.processes[g].shutdown)
    && (forall i | 0 <= i < |w.replies| && Committed(w.replies[i].reply) ::
          var r := w.replies[i].reply; r.generation in w.processes && Bound(w.processes[r.generation], r))
    && (forall i, j | 0 <= i < j < |w.replies| ::
          var r, s := w.replies[i].reply, w.replies[j].reply;
          r.generation == s.generation && Committed(r) && s.handoff.Some? ==> s.handoff == r.handoff)
  }

  lemma PromisesKept(w: World, step: Step)
    requires PromisesHold(w)
    ensures PromisesHold(Take(w, step))
  {
    hide PromisesHold;
    if step.g in w.processes && w.processes[step.g].phase.Serving? {
      if step.SendReply? {
        ReplyKeepsPromises(w, step.g);
      } else if !step.Launch? {
        ServingKeepsPromises(w, step);
      }
    } else {
      EnteringKeepsPromises(w, step);
    }
  }

  lemma EnteringKeepsPromises(w: World, step: Step)
    requires PromisesHold(w) && (step.g in w.processes ==> !w.processes[step.g].phase.Serving?)
    ensures PromisesHold(Take(w, step))
  {
    hide Replied, TakeServing;
  }

  lemma ServingKeepsPromises(w: World, step: Step)
    requires PromisesHold(w) && step.g in w.processes && w.processes[step.g].phase.Serving?
    requires !step.SendReply? && !step.Launch?
    ensures PromisesHold(Take(w, step))
  {
    hide Replied, TakeEntering;
  }

  /** A new answer of a program that had promised repeats the promise. */
  lemma ReplyKeepsPromises(w: World, g: Generation)
    requires PromisesHold(w) && g in w.processes && w.processes[g].phase.Serving?
    ensures PromisesHold(Take(w, SendReply(g)))
  {
    hide TakeEntering;
    var p, v := w.processes[g], Take(w, SendReply(g));
    if p.stage.Decided? && p.stage.index < |w.sent| {
      var n := |w.replies|;
      forall i | 0 <= i < |v.replies| && Committed(v.replies[i].reply)
        ensures var r := v.replies[i].reply; r.generation in v.processes && Bound(v.processes[r.generation], r)
      {
      }
      forall i | 0 <= i < n && w.replies[i].reply.generation == g && Committed(w.replies[i].reply) && v.replies[n].reply.handoff.Some?
        ensures v.replies[n].reply.handoff == w.replies[i].reply.handoff
      {
        assert Bound(p, w.replies[i].reply);
      }
    }
  }

  // ----- every run -----

  ghost predicate Invariant(w: World) {
    Exclusive(w) && AllTraced(w) && Genuine(w) && RequestsFit(w) && OneEach(w) && ReplacedFit(w) && PromisesHold(w)
  }

  lemma {:induction false} InvariantAlways(steps: seq<Step>)
    ensures Invariant(After(steps))
  {
    hide Take, Exclusive, AllTraced, Genuine, RequestsFit, OneEach, ReplacedFit, PromisesHold;
    if steps == [] {
      NothingIsFine();
    } else {
      var w, step := After(steps[..|steps| - 1]), steps[|steps| - 1];
      InvariantAlways(steps[..|steps| - 1]);
      ExclusiveKept(w, step);
      TracedKept(w, step);
      GenuineKept(w, step);
      RequestsKeepFitting(w, step);
      OneEachKept(w, step);
      ReplacedKeepsFitting(w, step);
      PromisesKept(w, step);
    }
  }

  lemma NothingIsFine()
    ensures Invariant(NOTHING)
  {
  }

  /** At most one live process is the running one. */
  lemma OnePrimary(steps: seq<Step>, g: Generation, h: Generation)
    requires g in After(steps).processes && After(steps).processes[g].phase.Serving?
    requires h in After(steps).processes && After(steps).processes[h].phase.Serving?
    ensures g == h
  {
    InvariantAlways(steps);
  }

  /**
    A valid handoff, wherever it is after however many replacements, is one that some session
    registry held, host and app together.
   */
  lemma HandoffProvenance(steps: seq<Step>, g: Generation, h: Handoff)
    requires g in After(steps).processes && h.IsValid()
    requires h == After(steps).processes[g].waiter.handoff || h == After(steps).processes[g].replacement
    ensures h in After(steps).held
  {
    InvariantAlways(steps);
  }

  /** What was held was registered by a running process at some step. */
  lemma {:induction false} HeldWasRegistered(steps: seq<Step>, h: Handoff)
    requires h in After(steps).held
    ensures exists i | 0 <= i < |steps| :: steps[i].RegisterSession? && steps[i].snapshot == h
                                           && steps[i].g in After(steps[..i]).processes
                                           && After(steps[..i]).processes[steps[i].g].phase.Serving?
  {
    var last := |steps| - 1;
    if steps != [] {
      if h in After(steps[..last]).held {
        HeldWasRegistered(steps[..last], h);
        var i :| 0 <= i < last && steps[i].RegisterSession? && steps[i].snapshot == h
                 && steps[i].g in After(steps[..last][..i]).processes
                 && After(steps[..last][..i]).processes[steps[i].g].phase.Serving?;
        assert steps[..last][..i] == steps[..i];
      } else {
        assert steps[last].RegisterSession? && steps[last].snapshot == h;
      }
    }
  }

  /** Once a program has told a gaming launch that it makes way, its handoff is settled. */
  lemma PromiseIsFinal(steps: seq<Step>, i: nat, j: nat)
    requires i < j < |After(steps).replies|
    requires After(steps).replies[i].reply.generation == After(steps).replies[j].reply.generation
    requires Committed(After(steps).replies[i].reply) && After(steps).replies[j].reply.handoff.Some?
    ensures After(steps).replies[j].reply.handoff == After(steps).replies[i].reply.handoff
  {
    InvariantAlways(steps);
  }

  lemma OneReplaceEach(steps: seq<Step>, i: nat, j: nat)
    requires i < |After(steps).sent| && j < |After(steps).sent| && After(steps).sent[i].from == After(steps).sent[j].from
    requires After(steps).sent[i].request.op.Replace? && After(steps).sent[j].request.op.Replace?
    ensures i == j
  {
    InvariantAlways(steps);
  }

  /** A sequence of processes, each made to close by the next. */
  ghost predicate Chain(w: World, path: seq<Generation>) {
    forall i | 0 < i < |path| :: (path[i - 1], path[i]) in w.replaced
  }

  /** Along replacements the launch times rise, among gaming sessions only, so no chain returns. */
  lemma {:induction false} ChainsRise(steps: seq<Step>, path: seq<Generation>)
    requires |path| > 1 && Chain(After(steps), path)
    ensures MayReplace(After(steps), path[0], path[|path| - 1])
    ensures path[0] != path[|path| - 1]
  {
    InvariantAlways(steps);
    var last := |path| - 1;
    assert (path[last - 1], path[last]) in After(steps).replaced;
    if |path| > 2 {
      ChainsRise(steps, path[..last]);
    }
  }
}
