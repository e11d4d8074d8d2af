/** The updater's transition table, and what it guarantees about every sequence of accepted events. */
module UpdateStateMachine {
  import opened UpdateTypes

  datatype State =
    | Idle
    | RestoringPending
    | Checking
    | NoUpdate
    | Available
    | Downloading
    | Verifying
    | ReadyForDesktop
    | ReadyToHandOff
    | HandingOff
    | HandOffRequested
    | HandOffError
    | CheckError
    | DownloadError
    | VerificationError
    | RestoreError
    | Cancelled
    | Installed
    | InstallationUnknown

  datatype Event =
    | BeginRestore
    | BeginCheck
    | CandidateAvailable
    | CandidateCurrent
    | BeginDownload
    | DownloadComplete
    | VerificationPassedDesktop
    | VerificationPassedNonDesktop
    | CheckFailed
    | DownloadFailed
    | VerificationFailed
    | RestoreFailed
    | BeginHandOff
    | HandOffAccepted
    | HandOffFailed
    | DiscardPending
    | Retry
    | Cancel
    | InstallCompleted
    | InstallOutcomeUnknown

  function Reduce(current: State, event: Event): UpdateResult<State> {
    match (current, event)
    case (Idle, BeginRestore) => Ok(RestoringPending)
    case (Idle, BeginCheck) => Ok(Checking)
    case (RestoringPending, VerificationPassedDesktop) => Ok(ReadyToHandOff)
    case (RestoringPending, VerificationPassedNonDesktop) => Ok(ReadyForDesktop)
    case (RestoringPending, CandidateCurrent) => Ok(NoUpdate)
    case (RestoringPending, BeginCheck) => Ok(Checking)
    case (RestoringPending, RestoreFailed) => Ok(RestoreError)
    case (RestoringPending, Cancel) => Ok(Cancelled)
    case (Checking, CandidateCurrent) => Ok(NoUpdate)
    case (Checking, CandidateAvailable) => Ok(Available)
    case (Checking, CheckFailed) => Ok(CheckError)
    case (Checking, Cancel) => Ok(Cancelled)
    case (NoUpdate, BeginCheck) => Ok(Checking)
    case (Available, BeginDownload) => Ok(Downloading)
    case (Available, BeginCheck) => Ok(Checking)
    case (Available, Cancel) => Ok(Cancelled)
    case (Downloading, DownloadComplete) => Ok(Verifying)
    case (Downloading, DownloadFailed) => Ok(DownloadError)
    case (Downloading, Cancel) => Ok(Cancelled)
    case (Verifying, VerificationPassedDesktop) => Ok(ReadyToHandOff)
    case (Verifying, VerificationPassedNonDesktop) => Ok(ReadyForDesktop)
    case (Verifying, VerificationFailed) => Ok(VerificationError)
    case (Verifying, Cancel) => Ok(Cancelled)
    case (ReadyForDesktop, Retry) => Ok(Verifying)
    case (ReadyForDesktop, BeginCheck) => Ok(Checking)
    case (ReadyForDesktop, Cancel) => Ok(Cancelled)
    case (ReadyToHandOff, BeginHandOff) => Ok(HandingOff)
    case (ReadyToHandOff, Retry) => Ok(Verifying)
    case (ReadyToHandOff, BeginCheck) => Ok(Checking)
    case (ReadyToHandOff, Cancel) => Ok(Cancelled)
    case (HandingOff, InstallCompleted) => Ok(Installed)
    case (HandingOff, InstallOutcomeUnknown) => Ok(InstallationUnknown)
    case (HandingOff, HandOffAccepted) => Ok(HandOffRequested)
    case (HandingOff, HandOffFailed) => Ok(HandOffError)
    case (HandOffRequested, BeginCheck) => Ok(Checking)
    case (HandOffRequested, Retry) => Ok(Verifying)
    case (HandOffRequested, DiscardPending) => Ok(Cancelled)
    case (HandOffError, Retry) => Ok(Verifying)
    case (HandOffError, DiscardPending) => Ok(Cancelled)
    case (CheckError, Retry) => Ok(Checking)
    case (CheckError, BeginCheck) => Ok(Checking)
    case (DownloadError, Retry) => Ok(Available)
    case (DownloadError, BeginCheck) => Ok(Checking)
    case (VerificationError, Retry) => Ok(Available)
    case (VerificationError, BeginCheck) => Ok(Checking)
    case (RestoreError, Retry) => Ok(RestoringPending)
    case (RestoreError, BeginCheck) => Ok(Checking)
    case (RestoreError, Cancel) => Ok(Cancelled)
    case (Cancelled, BeginCheck) => Ok(Checking)
    case (_, _) => Err(InvalidMetadata)
  }

  /** Every operation in progress has its own way to fail. */
  lemma FailureTransitions()
    ensures Reduce(Downloading, DownloadFailed) == Ok(DownloadError)
    ensures Reduce(Verifying, VerificationFailed) == Ok(VerificationError)
    ensures Reduce(RestoringPending, RestoreFailed) == Ok(RestoreError)
    ensures Reduce(Checking, CheckFailed) == Ok(CheckError)
  {
  }

  /** What the installer's answers lead to. */
  lemma InstallerTransitions()
    ensures Reduce(ReadyToHandOff, BeginHandOff) == Ok(HandingOff)
    ensures Reduce(HandingOff, InstallCompleted) == Ok(Installed)
    ensures Reduce(HandingOff, HandOffAccepted) == Ok(HandOffRequested)
    ensures Reduce(HandingOff, InstallOutcomeUnknown) == Ok(InstallationUnknown)
    ensures Reduce(HandingOff, HandOffFailed) == Ok(HandOffError)
  {
  }

  /** What passing verification leads to. */
  lemma PassedTransitions(state: State)
    requires state.Verifying? || state.RestoringPending?
    ensures Reduce(state, VerificationPassedDesktop) == Ok(ReadyToHandOff)
    ensures Reduce(state, VerificationPassedNonDesktop) == Ok(ReadyForDesktop)
  {
  }

  /** What trying again leads to. */
  lemma RetryTransitions()
    ensures Reduce(DownloadError, Retry) == Ok(Available) && Reduce(VerificationError, Retry) == Ok(Available)
    ensures Reduce(Available, BeginDownload) == Ok(Downloading) && Reduce(Downloading, DownloadComplete) == Ok(Verifying)
    ensures Reduce(HandOffError, Retry) == Ok(Verifying) && Reduce(HandOffRequested, Retry) == Ok(Verifying)
    ensures Reduce(ReadyForDesktop, Retry) == Ok(Verifying) && Reduce(ReadyToHandOff, Retry) == Ok(Verifying)
    ensures Reduce(RestoreError, Retry) == Ok(RestoringPending)
  {
  }

  lemma CancelTransitions(state: State)
    ensures state.Checking? || state.Available? || state.Downloading? || state.Verifying? || state.RestoringPending?
            || state.ReadyForDesktop? || state.ReadyToHandOff? || state.RestoreError? ==>
              Reduce(state, Cancel) == Ok(Cancelled)
  {
  }

  /** The states a fresh check may begin in. */
  predicate AcceptsCheck(state: State) {
    state in {Idle, RestoringPending, NoUpdate, Available, ReadyForDesktop, ReadyToHandOff, HandOffRequested,
              CheckError, DownloadError, VerificationError, RestoreError, Cancelled}
  }

  lemma CheckTransitions(state: State)
    ensures Reduce(state, BeginCheck) == if AcceptsCheck(state) then Ok(Checking) else Err(InvalidMetadata)
  {
  }

  /** The state after a sequence of events; a rejected event leaves the state alone. */
  function Run(start: State, events: seq<Event>): State {
    if events == [] then start
    else
      var before := Run(start, events[..|events| - 1]);
      match Reduce(before, events[|events| - 1])
      case Ok(next) => next
      case Err(_) => before
  }

  lemma PrefixOfPrefix(events: seq<Event>, m: nat)
    requires m <= |events|
    ensures forall k | 0 <= k <= m :: events[..m][..k] == events[..k]
  {
  }

  /** Where the current stay in ReadyToHandOff began. */
  lemma {:induction false} ReadyEntry(events: seq<Event>) returns (i: nat)
    requires Run(Idle, events) == ReadyToHandOff
    ensures i < |events| && events[i] == VerificationPassedDesktop
    ensures Run(Idle, events[..i]) in {Verifying, RestoringPending}
    ensures forall k | i < k <= |events| :: Run(Idle, events[..k]) == ReadyToHandOff
  {
    var last := |events| - 1;
    assert events[..|events|] == events;
    if Run(Idle, events[..last]) == ReadyToHandOff {
      i := ReadyEntry(events[..last]);
      PrefixOfPrefix(events, last);
    } else {
      i := last;
    }
  }

  /** Where the current stay in HandingOff began. */
  lemma {:induction false} HandOffEntry(events: seq<Event>) returns (j: nat)
    requires Run(Idle, events) == HandingOff
    ensures j < |events| && events[j] == BeginHandOff && Run(Idle, events[..j]) == ReadyToHandOff
    ensures forall k | j < k <= |events| :: Run(Idle, events[..k]) == HandingOff
  {
    var last := |events| - 1;
    assert events[..|events|] == events;
    if Run(Idle, events[..last]) == HandingOff {
      j := HandOffEntry(events[..last]);
      PrefixOfPrefix(events, last);
    } else {
      j := last;
    }
  }

  /**
    However the updater came to hand a file to the installer, it did so straight out of
    ReadyToHandOff, which it had entered by passing verification in an install-capable session.
   */
  lemma HandOffFollowsVerification(events: seq<Event>)
    requires Run(Idle, events) == HandingOff
    ensures exists i, j | 0 <= i < j < |events| ::
              && events[i] == VerificationPassedDesktop
              && Run(Idle, events[..i]) in {Verifying, RestoringPending}
              && events[j] == BeginHandOff
              && (forall k | i < k <= j :: Run(Idle, events[..k]) == ReadyToHandOff)
              && (forall k | j < k <= |events| :: Run(Idle, events[..k]) == HandingOff)
  {
    var j := HandOffEntry(events);
    var i := ReadyEntry(events[..j]);
    PrefixOfPrefix(events, j);
  }

  predicate Terminal(state: State) {
    state == Installed || state == InstallationUnknown
  }

  lemma RunStep(state: State, events: seq<Event>, event: Event, next: State)
    requires Reduce(Run(state, events), event) == Ok(next)
    ensures Run(state, events + [event]) == next
  {
    hide Reduce;
    assert (events + [event])[..|events|] == events;
  }

  lemma RunOne(state: State, first: Event, next: State)
    requires Reduce(state, first) == Ok(next)
    ensures Run(state, [first]) == next
  {
    hide Reduce;
    assert [] + [first] == [first];
    RunStep(state, [], first, next);
  }

  lemma RunTwo(state: State, first: Event, middle: State, second: Event, next: State)
    requires Reduce(state, first) == Ok(middle) && Reduce(middle, second) == Ok(next)
    ensures Run(state, [first] + [second]) == next
  {
    hide Reduce, Run;
    RunOne(state, first, middle);
    RunStep(state, [first], second, next);
  }

  /** Events that lead from a state to a fresh check. */
  function RouteToCheck(state: State): seq<Event> {
    if state == Checking then []
    else if state == Downloading || state == Verifying then [Cancel] + [BeginCheck]
    else if state == HandOffError then [DiscardPending] + [BeginCheck]
    else if state == HandingOff then [HandOffFailed] + [DiscardPending] + [BeginCheck]
    else [BeginCheck]
  }

  lemma RouteArrives(state: State)
    requires !Terminal(state)
    ensures Run(state, RouteToCheck(state)) == Checking
  {
    if state == Checking {
      assert Run(state, []) == state;
    } else {
      hide Run;
      if state == Downloading || state == Verifying {
        RunTwo(state, Cancel, Cancelled, BeginCheck, Checking);
      } else if state == HandOffError {
        RunTwo(state, DiscardPending, Cancelled, BeginCheck, Checking);
      } else if state == HandingOff {
        RunTwo(state, HandOffFailed, HandOffError, DiscardPending, Cancelled);
        RunStep(state, [HandOffFailed] + [DiscardPending], BeginCheck, Checking);
      } else {
        RunOne(state, BeginCheck, Checking);
      }
    }
  }

  /** A fresh check can still be brought about exactly when no installation has finished or been lost sight of. */
  lemma CheckStaysPossible(state: State)
    ensures !Terminal(state) <==> exists events :: Run(state, events) == Checking
  {
    if Terminal(state) {
      forall events ensures Run(state, events) == state {
        TerminalAbsorbs(state, events);
      }
    } else {
      RouteArrives(state);
    }
  }

  lemma {:induction false} TerminalAbsorbs(state: State, events: seq<Event>)
    requires Terminal(state)
    ensures Run(state, events) == state
  {
    if events != [] {
      TerminalAbsorbs(state, events[..|events| - 1]);
    }
  }
}
