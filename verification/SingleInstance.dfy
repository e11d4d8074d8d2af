/**
  One running program per data directory. A second launch asks the first, over a socket, to come to
  the front or, between two gaming sessions, to make way; what was being streamed is handed on.
 */
module SingleInstance {
  import opened UpdateTypes
  import Shutdown

  /** StreamHandoff: the host and app that were being streamed. */
  type Handoff = Shutdown.Snapshot

  const NO_HANDOFF := Shutdown.NO_SNAPSHOT

  /** A launch's random identity. */
  type Generation = nat

  datatype Op = AskStatus | Replace | Activate | UnknownOp

  datatype Request = Request(op: Op, generation: Option<Generation>)

  datatype Answer = NoState | Stale | ShuttingDown | Active | Invalid

  /** A reply without host and app fields has no handoff. */
  datatype Reply = Reply(
    generation: Generation, started: int, gaming: bool, shuttingDown: bool, state: Answer, handoff: Option<Handoff>)
  {
    /** Missing fields read as an empty host and app 0. */
    function Carried(): Handoff {
      if handoff.Some? then handoff.value else NO_HANDOFF
    }

    predicate AnnouncesEnd() {
      shuttingDown || state.ShuttingDown?
    }
  }

  // ----- the program already running -----

  datatype Service = Service(generation: Generation, started: int, gaming: bool, replacement: Handoff)

  /** This request makes the running program close, for a launch that names it. */
  predicate Accepts(s: Service, request: Request, shutdown: bool) {
    request.op.Replace? && request.generation == Some(s.generation) && s.gaming && !shutdown
  }

  /** `visible` is what the session registry shows, `own` what this launch was itself handed. */
  function Accepted(s: Service, visible: Handoff, own: Handoff): Service {
    s.(replacement := if visible.IsValid() then visible else own)
  }

  /** Whether a shutdown is under way is read twice: when the reply is begun and when it is decided. */
  function ReplyTo(s: Service, request: Request, early: bool, late: bool): Reply {
    var state :=
      if request.op.AskStatus? then NoState
      else if request.generation != Some(s.generation) then Stale
      else if request.op.Replace? && s.gaming then ShuttingDown
      else if request.op.Activate? || request.op.Replace? then if late then ShuttingDown else Active
      else Invalid;
    var carries := request.op.AskStatus? || (request.op.Replace? && request.generation == Some(s.generation) && s.gaming);
    Reply(s.generation, s.started, s.gaming, early, state, if carries then Some(s.replacement) else None)
  }

  // ----- the program being launched -----

  const WAIT_MS: int := 6000
  const EXCHANGE_MS: int := 1000
  const NAP_MS: int := 25

  datatype Waiter = Waiter(
    gaming: bool, launched: int, observed: Option<Generation>, replacementSent: bool, acknowledged: bool,
    deadline: int, handoff: Handoff)
  {
    /** The running program is closing: take what it hands on, and wait anew, once. */
    function Acknowledge(reply: Reply, now: int): Waiter {
      this.(handoff := reply.Carried(), acknowledged := true, deadline := if acknowledged then deadline else now + WAIT_MS)
    }

    /** The first program seen is the only one that may be asked to make way. */
    function Observe(reply: Reply): Waiter {
      if observed.None? then this.(observed := Some(reply.generation)) else this
    }

    predicate WantsReplacement(reply: Reply) {
      && gaming && reply.gaming && !replacementSent && observed == Some(reply.generation)
      && reply.started < launched
    }

    function HeardStatus(reply: Reply, now: int): Waiter {
      var seen := Observe(reply);
      if reply.shuttingDown then seen.Acknowledge(reply, now)
      else if seen.WantsReplacement(reply) then seen.(replacementSent := true)
      else seen
    }

    /** What to ask next, if anything. */
    function NextRequest(reply: Reply): Option<Request> {
      var seen := Observe(reply);
      if reply.shuttingDown || (seen.replacementSent && seen.observed == Some(reply.generation)) then None
      else Some(Request(if seen.WantsReplacement(reply) then Replace else Activate, Some(reply.generation)))
    }

    function HeardAnswer(reply: Reply, now: int): Waiter {
      if reply.state.ShuttingDown? then Acknowledge(reply, now) else this
    }
  }

  datatype EnterResult = Primary | Activated | Failed

  function Count(sent: seq<Request>): nat {
    if sent == [] then 0 else Count(sent[..|sent| - 1]) + if sent[|sent| - 1].op.Replace? then 1 else 0
  }

  lemma CountGrows(sent: seq<Request>, request: Request)
    ensures Count(sent + [request]) == Count(sent) + if request.op.Replace? then 1 else 0
  {
    assert (sent + [request])[..|sent|] == sent;
  }

  /** A request to make way was justified by a status that had been heard. */
  ghost predicate Justified(gaming: bool, launched: int, heard: seq<Reply>, request: Request) {
    request.op.Replace? ==>
      gaming && exists s | s in heard ::
                  request.generation == Some(s.generation) && s.gaming && s.started < launched && !s.shuttingDown
  }

  ghost predicate AllJustified(gaming: bool, launched: int, heard: seq<Reply>, sent: seq<Request>) {
    forall r | r in sent :: Justified(gaming, launched, heard, r)
  }

  /** What is handed on came from a program that said it was closing. */
  ghost predicate HandedOn(before: Handoff, heard: seq<Reply>, handoff: Handoff) {
    handoff == before || exists s | s in heard :: s.AnnouncesEnd() && s.Carried() == handoff
  }

  lemma HearingMore(w: Waiter, gaming: bool, launched: int, before: Handoff, heard: seq<Reply>, sent: seq<Request>, reply: Reply)
    requires AllJustified(gaming, launched, heard, sent) && HandedOn(before, heard, w.handoff)
    ensures AllJustified(gaming, launched, heard + [reply], sent)
    ensures HandedOn(before, heard + [reply], w.handoff)
    ensures reply.AnnouncesEnd() ==> HandedOn(before, heard + [reply], reply.Carried())
  {
    assert reply in heard + [reply];
    forall r | r in sent ensures Justified(gaming, launched, heard + [reply], r) {
      assert Justified(gaming, launched, heard, r);
    }
  }

  lemma StatusIsJustified(w: Waiter, heard: seq<Reply>, sent: seq<Request>, ask: Request)
    requires AllJustified(w.gaming, w.launched, heard, sent) && ask.op.AskStatus?
    ensures AllJustified(w.gaming, w.launched, heard, sent + [ask])
  {
  }

  /** What a waiter asks next after a status may be sent. */
  lemma RequestIsJustified(w: Waiter, heard: seq<Reply>, sent: seq<Request>, status: Reply, request: Request)
    requires AllJustified(w.gaming, w.launched, heard, sent)
    requires status in heard && w.NextRequest(status) == Some(request)
    ensures AllJustified(w.gaming, w.launched, heard, sent + [request])
  {
    assert Justified(w.gaming, w.launched, heard, request);
  }

  /** The answer that makes a launch wait for this program's end. */
  predicate Committed(reply: Reply) {
    reply.state.ShuttingDown? && reply.handoff.Some?
  }

  ghost predicate Frozen(replies: seq<Reply>) {
    forall i, j | 0 <= i < j < |replies| ::
      Committed(replies[i]) && replies[j].handoff.Some? ==> replies[j].handoff == replies[i].handoff
  }

  /** A valid handoff was visible in the registry, or is the one this program was handed. */
  ghost predicate Shown(h: Handoff, shown: seq<Handoff>, own: Handoff) {
    h.IsValid() ==> h in shown || h == own
  }

  class Guard {
    var gaming: bool
    var startedNs: int
    var generation: Generation
    var handoff: Handoff
    var holdsLock: bool
    /** The monotonic clock, in milliseconds. */
    var clock: int
    ghost var sent: seq<Request>
    ghost var heard: seq<Reply>

    constructor (clock: int)
      ensures handoff == NO_HANDOFF && !holdsLock && this.clock == clock
    {
      gaming, startedNs, generation, handoff, holdsLock, this.clock := false, 0, 0, NO_HANDOFF, false, clock;
      sent, heard := [], [];
    }

    /** Sends one request; a lost, late or unreadable reply is no reply. */
    method Exchange(request: Request, until: int) returns (reply: Option<Reply>)
      modifies `clock, `sent, `heard
      ensures old(clock) <= clock <= if old(clock) < until then until else old(clock)
      ensures sent == old(sent) + [request]
      ensures heard == if reply.Some? then old(heard) + [reply.value] else old(heard)
    {
      sent := sent + [request];
      var end :| clock <= end <= if clock < until then until else clock;
      clock := end;
      reply := *;
      if reply.Some? {
        heard := heard + [reply.value];
      }
    }

    method Nap()
      modifies `clock
      ensures clock == old(clock) + NAP_MS
    {
      clock := clock + NAP_MS;
    }

    /** 1: the lock is held; 0: another process holds it; -1: it cannot be had. */
    method Acquire() returns (result: int)
      modifies `holdsLock
      ensures -1 <= result <= 1 && (result == 1 <==> holdsLock) && (old(holdsLock) ==> holdsLock)
    {
      if holdsLock {
        return 1;
      }
      result :| -1 <= result <= 1;
      holdsLock := result == 1;
    }

    /**
      Waits to become the one running program, or to have the running one come to the front. The
      wait is extended at most once and ends within 12,025 ms; at most one request to make way goes
      out, to a gaming program that started strictly earlier than this gaming launch.
     */
    method Enter(newGaming: bool, launched: int, newGeneration: Generation) returns (result: EnterResult)
      modifies this
      ensures clock <= old(clock) + 2 * WAIT_MS + NAP_MS
      ensures Count(sent) <= 1 && AllJustified(newGaming, launched, heard, sent)
      ensures HandedOn(old(handoff), heard, handoff)
      ensures result.Primary? ==> holdsLock
      ensures result.Activated? ==> exists s | s in heard :: s.state.Active?
      ensures generation == newGeneration && gaming == newGaming && startedNs == launched
    {
      gaming, startedNs, generation, sent, heard := newGaming, launched, newGeneration, [], [];
      var usable: bool := *;
      if !usable {
        return Failed;
      }
      var w := Waiter(gaming, launched, None, false, false, clock + WAIT_MS, handoff);
      while true
        invariant Sane(w, newGaming, launched)
        invariant w.handoff == handoff && HandedOn(old(handoff), heard, handoff)
        invariant InTime(w, old(clock)) && clock <= w.deadline + NAP_MS
        invariant generation == newGeneration && gaming == newGaming && startedNs == launched
        decreases (if w.acknowledged then w.deadline else w.deadline + WAIT_MS) - clock
      {
        var shutdownRequested: bool := *;
        if shutdownRequested {
          return Failed;
        }
        var lock := Acquire();
        if lock < 0 {
          return Failed;
        }
        if lock > 0 {
          var serving: bool := *;
          return if serving then Primary else Failed;
        }
        if clock >= w.deadline {
          break;
        }
        var again;
        w, again := AskOnce(w, old(handoff));
        if !again {
          return Activated;
        }
        Nap();
      }
      return Failed;
    }

    ghost predicate Sane(w: Waiter, newGaming: bool, launched: int)
      reads this
    {
      && w.gaming == newGaming && w.launched == launched
      && Count(sent) == (if w.replacementSent then 1 else 0)
      && AllJustified(newGaming, launched, heard, sent)
    }

    /** One round: ask for the status, and act on it. */
    method AskOnce(w: Waiter, ghost before: Handoff) returns (next: Waiter, again: bool)
      requires Sane(w, w.gaming, w.launched) && w.handoff == handoff && HandedOn(before, heard, handoff)
      requires clock < w.deadline
      modifies `clock, `sent, `heard, `handoff
      ensures Sane(next, w.gaming, w.launched) && next.handoff == handoff && HandedOn(before, heard, handoff)
      ensures old(clock) <= clock <= w.deadline
      ensures old(sent) <= sent && |sent| <= |old(sent)| + 2
      ensures w.acknowledged ==> next.acknowledged && next.deadline == w.deadline
      ensures !w.acknowledged && !next.acknowledged ==> next.deadline == w.deadline
      ensures !w.acknowledged && next.acknowledged ==> old(clock) + WAIT_MS <= next.deadline <= w.deadline + WAIT_MS
      ensures !again ==> exists s | s in heard :: s.state.Active?
    {
      var ask := Request(AskStatus, None);
      StatusIsJustified(w, heard, sent, ask);
      hide AllJustified, HandedOn, Justified, Count;
      next, again := w, true;
      var status := Exchange(ask, if w.deadline < clock + EXCHANGE_MS then w.deadline else clock + EXCHANGE_MS);
      CountGrows(old(sent), ask);
      if status.None? {
        return;
      }
      HearingMore(w, w.gaming, w.launched, before, old(heard), old(sent), status.value);
      next := w.HeardStatus(status.value, clock);
      handoff := next.handoff;
      var request := w.NextRequest(status.value);
      if request.Some? {
        next, again := AskAgain(w, status.value, request.value, before);
      }
    }

    /** The second exchange of a round: asks the program just heard to make way or to come forward. */
    method AskAgain(w: Waiter, status: Reply, request: Request, ghost before: Handoff) returns (next: Waiter, again: bool)
      requires Sane(w, w.gaming, w.launched) && w.handoff == handoff && HandedOn(before, heard, handoff)
      requires status in heard && w.NextRequest(status) == Some(request) && clock <= w.deadline
      modifies `clock, `sent, `heard, `handoff
      ensures Sane(next, w.gaming, w.launched) && next.handoff == handoff && HandedOn(before, heard, handoff)
      ensures old(clock) <= clock <= w.deadline
      ensures old(sent) <= sent && |sent| <= |old(sent)| + 1
      ensures w.acknowledged ==> next.acknowledged && next.deadline == w.deadline
      ensures !w.acknowledged && !next.acknowledged ==> next.deadline == w.deadline
      ensures !w.acknowledged && next.acknowledged ==> old(clock) + WAIT_MS <= next.deadline <= w.deadline + WAIT_MS
      ensures !again ==> exists s | s in heard :: s.state.Active?
    {
      RequestIsJustified(w, heard, sent, status, request);
      hide AllJustified, HandedOn, Justified, Count;
      next, again := w.HeardStatus(status, clock), true;
      var answer := Exchange(request, if w.deadline < clock + EXCHANGE_MS then w.deadline else clock + EXCHANGE_MS);
      CountGrows(old(sent), request);
      if answer.None? {
        return;
      }
      HearingMore(next, w.gaming, w.launched, before, old(heard), sent, answer.value);
      next := next.HeardAnswer(answer.value, clock);
      handoff := next.handoff;
      again := !answer.value.state.Active?;
    }

    /**
      The service thread. Once a request to make way has been answered, every later answer that
      carries a handoff carries that one; and whatever valid handoff is carried was visible in the
      session registry, `shown`, or had been handed to this program itself.
     */
    method Serve(requests: seq<Request>) returns (replies: seq<Reply>, closing: bool, ghost shown: seq<Handoff>)
      modifies `handoff
      ensures forall i | 0 <= i < |replies| && replies[i].Carried().IsValid() ::
                replies[i].Carried() in shown || replies[i].Carried() == old(handoff)
      ensures |replies| == |requests| && Frozen(replies)
      ensures forall i | 0 <= i < |replies| :: replies[i].generation == generation && replies[i].started == startedNs
      ensures (exists i | 0 <= i < |replies| :: requests[i].op.Replace? && replies[i].state.ShuttingDown? && replies[i].handoff.Some?)
              ==> closing
    {
      replies, closing, shown := [], false, [];
      var service := Service(generation, startedNs, gaming, NO_HANDOFF);
      var down := false;
      for i := 0 to |requests|
        invariant |replies| == i && Frozen(replies)
        invariant service.generation == generation && service.started == startedNs && service.gaming == gaming
        invariant closing ==> down
        invariant handoff == old(handoff) || !handoff.IsValid()
        invariant Shown(service.replacement, shown, old(handoff))
        invariant forall k | 0 <= k < i :: Shown(replies[k].Carried(), shown, old(handoff))
        invariant forall k | 0 <= k < i :: replies[k].generation == generation && replies[k].started == startedNs
        invariant forall k | 0 <= k < i :: Committed(replies[k]) ==> closing && replies[k].handoff == Some(service.replacement)
      {
        var more: bool := *;
        down := down || more;
        var early := down;
        more := *;
        down := down || more;
        var request := requests[i];
        var accepted := Accepts(service, request, down);
        // Another thread may drop this program's own handoff at any time.
        var cleared: bool := *;
        handoff := if cleared then NO_HANDOFF else handoff;
        if accepted {
          var visible: Handoff := *;
          shown := shown + [visible];
          service := Accepted(service, visible, handoff);
        }
        var reply := ReplyTo(service, request, early, down);
        replies := replies + [reply];
        closing := closing || Committed(reply);
        if accepted {
          down := true;
        }
      }
    }
  }

  /** The deadline moves at most once, by less than what it gave at first. */
  predicate InTime(w: Waiter, start: int) {
    if w.acknowledged then w.deadline <= start + 2 * WAIT_MS else w.deadline == start + WAIT_MS
  }
}
