/**
  The rolling updater: one object that checks for, downloads, verifies and hands over an update.
  `Valid` is what every public operation and every network or installer event keeps; `handOffs`
  records each file given to the installer, and `Rank` bounds the replies still to come.
 */
module AutoUpdate {
  import opened UpdateTypes
  import opened RollingUpdateParser
  import opened UpdateWorld
  import opened UpdateStateMachine
  import opened PendingRecordCodec
  import opened PendingUpdate

  datatype RequestStage =
    | NoRequest
    | StableReleases
    | RollingRelease
    | RollingManifest
    | RollingTagReference
    | RollingTagObjectRequest
    | RollingCompare
    | FlatpakAsset
    | RevalidateRelease
    | RevalidateManifest
    | RevalidateTagReference
    | RevalidateTagObjectRequest

  datatype RetryOrigin = NoRetry | CheckRetry | DownloadRetry | VerificationRetry | RestoreRetry | HandOffRetry

  datatype SessionMode = UnknownSession | Desktop | Gaming

  /** How a reply ended. The redirect target is already resolved against the request. */
  datatype ReplyEnd = ReplyEnd(
    available: Bytes, redirect: Option<string>, status: int, networkError: bool, rateLimited: bool)
  {
    predicate Successful() {
      200 <= status <= 299
    }

    /** The body is worth nothing. */
    predicate Discarded() {
      redirect.Some? || (status != 0 && !Successful()) || networkError
    }
  }

  /** The Content-Length header. */
  datatype Declared = NoLength | UnreadableLength | Length(bytes: uint64) {
    predicate TooLong(limit: int) {
      UnreadableLength? || (Length? && bytes > limit)
    }
  }

  datatype PortalAnswer = PortalAnswer(accepted: bool, outcomeUnknown: bool)

  /** The replies the tag chain was read from. */
  datatype TagDocuments = TagDocuments(reference: Option<Bytes>, objects: seq<Bytes>)

  const NO_TAG := TagDocuments(None, [])

  datatype TagEvidence = TagEvidence(documents: TagDocuments, resolution: TagResolution)

  /** What the publisher said since the last entry to Verifying or RestoringPending. */
  datatype Evidence = Evidence(release: Option<Bytes>, manifest: Option<Bytes>, tag: Option<TagEvidence>)

  const NO_EVIDENCE := Evidence(None, None, None)

  /** One file given to the installer, with everything known at that moment. */
  datatype HandOff = HandOff(
    file: OpenFile, expected: Candidate, mode: SessionMode, evidence: Evidence, explicit: bool, userAsked: bool)

  /** What can reach the updater between two returns to the event loop. */
  datatype Input =
    | StartUp(clock: int)
    | CheckRequest
    | DownloadRequest
    | InstallRequest
    | OpenRequest
    | CancelRequest
    | RetryRequest
    | DiscardRequest
    | MetadataArrived(declared: Declared)
    | BodyArrived(bytes: Bytes, discard: bool)
    | ReplyFinished(reply: ReplyEnd)
    | TimerFired
    | InstallerAnswered(answer: PortalAnswer)
  {
    /** Not the network, a timer or the installer. */
    predicate IsAction() {
      !MetadataArrived? && !BodyArrived? && !ReplyFinished? && !TimerFired? && !InstallerAnswered?
    }

    /** The user may be asking for an installation with this. */
    predicate MayAskToInstall() {
      InstallRequest? || OpenRequest? || RetryRequest?
    }
  }

  /** One turn of the event loop: what came, and whether a reply was outstanding then. */
  datatype Turn = Turn(input: Input, waiting: bool)

  /** Replies that have ended since the last user action. */
  function RepliesEnded(turns: seq<Turn>): nat {
    if turns == [] || turns[|turns| - 1].input.IsAction() then 0
    else
      RepliesEnded(turns[..|turns| - 1])
      + if turns[|turns| - 1].input.ReplyFinished? && turns[|turns| - 1].waiting then 1 else 0
  }

  lemma NoTurns()
    ensures RepliesEnded([]) == 0
  {
  }

  lemma OneMoreTurn(turns: seq<Turn>, turn: Turn)
    ensures RepliesEnded(turns + [turn])
            == if turn.input.IsAction() then 0
               else RepliesEnded(turns) + if turn.input.ReplyFinished? && turn.waiting then 1 else 0
  {
    assert (turns + [turn])[..|turns|] == turns;
  }

  const JSON_LIMIT: nat := 1024 * 1024
  const MANIFEST_LIMIT: nat := 64 * 1024
  const REDIRECT_LIMIT: nat := 5
  const READ_CHUNK_SIZE: nat := 16 * 1024
  const TAG_DEPTH_LIMIT: nat := 16

  const STABLE_RELEASES_URL := "https://api.github.com/repos/samelamin/vibertemis/releases"
  const ROLLING_RELEASE_URL := "https://api.github.com/repos/samelamin/vibertemis/releases/tags/steam-deck-latest"
  const ROLLING_TAG_REFERENCE_URL := "https://api.github.com/repos/samelamin/vibertemis/git/ref/tags/steam-deck-latest"
  const GIT_TAG_OBJECT_PREFIX := "https://api.github.com/repos/samelamin/vibertemis/git/tags/"

  /** The states that wait for a reply. */
  predicate Busy(state: State) {
    state.Checking? || state.Downloading? || state.Verifying? || state.RestoringPending?
  }

  /** The states in which a verified file is held for the installer. */
  predicate HoldsFile(state: State) {
    state.ReadyForDesktop? || state.ReadyToHandOff? || state.HandingOff? || state.HandOffRequested? || state.HandOffError?
  }

  /** The states that may still lead to a hand-off without another verification. */
  predicate Proven(state: State) {
    state.ReadyForDesktop? || state.ReadyToHandOff? || state.HandingOff?
  }

  /** Restoring has not opened a file yet. */
  predicate BeforeFile(state: State) {
    state.Idle? || state.RestoringPending? || state.RestoreError?
  }

  /** The states a persisted candidate's revalidation may have left its flags in. */
  predicate KeepsFlags(state: State) {
    state.Verifying? || state.VerificationError? || state.Cancelled? || state.Installed? || state.InstallationUnknown?
  }

  /** Entering one of these states ends any wish to install. */
  predicate DropsIntent(state: State) {
    state.Checking? || state.Cancelled? || state.Installed? || state.InstallationUnknown?
  }

  predicate StartsVerification(state: State) {
    state.Verifying? || state.RestoringPending?
  }

  predicate CheckedAgain(state: State) {
    state.Checking? || state.CheckError?
  }

  predicate Revalidation(stage: RequestStage) {
    stage.RevalidateRelease? || stage.RevalidateManifest?
    || stage.RevalidateTagReference? || stage.RevalidateTagObjectRequest?
  }

  /** Which work a request belongs to. */
  predicate StageFits(state: State, stage: RequestStage) {
    match stage
    case NoRequest => false
    case FlatpakAsset => state.Downloading?
    case RevalidateRelease | RevalidateManifest | RevalidateTagReference | RevalidateTagObjectRequest =>
      StartsVerification(state)
    case _ => state.Checking?
  }

  /** Requests that may still be needed from this one on, counting it. */
  function StagesLeft(stage: RequestStage, tagObjects: nat): int {
    match stage
    case NoRequest => 0
    case StableReleases => 1
    case RollingRelease => 20
    case RollingManifest => 19
    case RollingTagReference => 18
    case RollingTagObjectRequest => 17 - tagObjects
    case RollingCompare => 1
    case FlatpakAsset => 20
    case RevalidateRelease => 19
    case RevalidateManifest => 18
    case RevalidateTagReference => 17
    case RevalidateTagObjectRequest => 16 - tagObjects
  }

  /** Where a failed operation leaves the updater. */
  function FailedState(state: State): State {
    match state
    case Downloading => DownloadError
    case Verifying => VerificationError
    case RestoringPending => RestoreError
    case Checking => CheckError
    case _ => state
  }

  predicate InstallCapable(mode: SessionMode, installsDirectly: bool) {
    mode.Desktop? || (mode.Gaming? && installsDirectly)
  }

  /** The open file holds the candidate's bytes and cannot be written through. */
  predicate FileMatches(file: OpenFile, c: Candidate) {
    && |file.bytes| == c.flatpak.size
    && Sha256Hex(file.bytes) == c.flatpak.sha256
    && file.readable && !file.writable
  }

  predicate ReleaseSeen(e: Evidence, c: Candidate) {
    e.release.Some? && MatchesRelease(c, e.release.value).Ok?
  }

  predicate ManifestSeen(e: Evidence, c: Candidate) {
    e.manifest.Some? && MatchesManifest(c, e.manifest.value).Ok?
  }

  predicate ReferenceHeard(documents: TagDocuments, reference: TagObject) {
    documents.reference.Some? && ParseTagReference(documents.reference.value) == Ok(reference)
  }

  predicate ObjectsHeard(documents: TagDocuments, objects: seq<TagObject>) {
    && |documents.objects| == |objects|
    && forall i | 0 <= i < |objects| :: ParseTagObject(documents.objects[i]) == Ok(objects[i])
  }

  /** The replies, as parsed, really lead to the resolution. */
  ghost predicate TagRead(t: TagEvidence) {
    exists reference, objects ::
      ReferenceHeard(t.documents, reference) && ObjectsHeard(t.documents, objects) && ResolvesTo(reference, objects, t.resolution)
  }

  ghost predicate TagSeen(e: Evidence, c: Candidate) {
    e.tag.Some? && TagRead(e.tag.value) && MatchesTagResolution(c, e.tag.value.resolution).Ok?
  }

  ghost predicate AllSeen(e: Evidence, c: Candidate) {
    ReleaseSeen(e, c) && ManifestSeen(e, c) && TagSeen(e, c)
  }

  /**
    A hand-off anyone may rely on: the candidate's own bytes, in a session that can install, after
    release, manifest and tag all matched that candidate, and because the user asked for it.
   */
  ghost predicate SafeHandOff(installsDirectly: bool, h: HandOff) {
    && FileMatches(h.file, h.expected)
    && InstallCapable(h.mode, installsDirectly)
    && AllSeen(h.evidence, h.expected)
    && (h.explicit || h.userAsked)
  }

  /**
    What that means for the bytes: they have the size and the digest of the manifest the publisher
    served during this verification, for the release served then and for the commit the tag led to.
   */
  lemma HandOffIsWhatWasPublished(installsDirectly: bool, h: HandOff)
    requires SafeHandOff(installsDirectly, h)
    ensures h.evidence.release.Some? && h.evidence.manifest.Some? && h.evidence.tag.Some?
    ensures var release := ParseRelease(h.evidence.release.value);
            var manifest := ParseManifest(h.evidence.manifest.value, h.expected);
            && release.Ok? && manifest.Ok? && TagRead(h.evidence.tag.value)
            && |h.file.bytes| == manifest.value.flatpak.size == release.value.flatpak.size
            && Sha256Hex(h.file.bytes) == manifest.value.flatpak.sha256
            && manifest.value.releaseId == release.value.releaseId
            && manifest.value.sourceCommit == h.evidence.tag.value.resolution.commit
  {
    hide TagRead;
  }

  ghost predicate AllSafe(installsDirectly: bool, log: seq<HandOff>) {
    forall h | h in log :: SafeHandOff(installsDirectly, h)
  }

  /** The updater's fields, and two that record history for the proofs: `evidence` and `userAsked`. */
  datatype Updater = Updater(
    state: State,
    retryOrigin: RetryOrigin,
    lastError: UpdateError,
    hasReply: bool,
    stage: RequestStage,
    responseLimit: int,
    responseBody: Bytes,
    requestUrl: string,
    redirects: nat,
    release: Candidate,
    candidate: Candidate,
    expected: Candidate,
    tagReference: TagObject,
    tagObjects: seq<TagObject>,
    /* The replies `tagReference` and `tagObjects` were read from. */
    tagDocuments: TagDocuments,
    restoreRecord: PendingRecord,
    installAfterVerification: bool,
    restoring: bool,
    reloadPendingRecord: bool,
    handOffRetry: bool,
    revalidatingPersisted: bool,
    temporary: Option<Temporary>,
    verifiedFile: Option<OpenFile>,
    /* What has been fed to the running SHA-256. */
    downloadHash: Option<Bytes>,
    downloadedPath: string,
    bytesReceived: int,
    bytesTotal: int,
    /* What the publisher said since the last entry to Verifying or RestoringPending. */
    evidence: Evidence,
    /* An installation or a hand-off retry was asked for, with no error, cancellation or new check since. */
    userAsked: bool)
  {
    // ----- invariants -----

    predicate Persisted() {
      revalidatingPersisted || handOffRetry
    }

    /** The verified file always is the expected candidate's, and it is there when a state needs it. */
    ghost predicate FilesAgree() {
      && (verifiedFile.Some? ==> FileMatches(verifiedFile.value, expected))
      && (BeforeFile(state) ==> verifiedFile.None?)
      && ((state.Verifying? || state.VerificationError?) && Persisted() ==> verifiedFile.Some?)
      && (HoldsFile(state) ==> verifiedFile.Some?)
      && (Proven(state) ==> AllSeen(evidence, expected))
      && (temporary.Some? ==> state.Downloading?)
      && (downloadHash.Some? ==> state.Downloading?)
    }

    ghost predicate FlagsAgree() {
      && (Persisted() ==> KeepsFlags(state))
      && (state.VerificationError? ==> retryOrigin.VerificationRetry?)
      && (state.DownloadError? ==> retryOrigin.DownloadRetry?)
      && (installAfterVerification ==> userAsked)
      && ObjectsHeard(tagDocuments, tagObjects)
    }

    /** What holds even in the middle of an operation, between one request and the next. */
    ghost predicate Coherent() {
      FilesAgree() && FlagsAgree()
    }

    predicate Quiet() {
      !hasReply && stage.NoRequest?
    }

    predicate DownloadReady() {
      && temporary.Some? && downloadHash.Some?
      && bytesTotal == candidate.flatpak.size
      && bytesReceived == |downloadHash.value| <= bytesTotal
    }

    /** The state is prepared for a request of this stage. */
    predicate StageReady(next: RequestStage) {
      && StageFits(state, next)
      && (Revalidation(next) && !next.RevalidateRelease? ==> ReleaseSeen(evidence, expected))
      && (next.RevalidateTagReference? || next.RevalidateTagObjectRequest? ==> ManifestSeen(evidence, expected))
      && (next.RollingTagObjectRequest? || next.RevalidateTagObjectRequest? ==>
            |tagObjects| < TAG_DEPTH_LIMIT && ReferenceHeard(tagDocuments, tagReference))
      && (state.Verifying? ==> verifiedFile.Some? && !restoring)
      && (state.RestoringPending? ==> restoring)
      && (state.Downloading? ==> DownloadReady())
    }

    /** The tag is asked for before any object of its chain. */
    predicate ChainFits(next: RequestStage) {
      next.RollingTagReference? || next.RevalidateTagReference? ==> tagObjects == []
    }

    predicate RequestAgrees() {
      && StageReady(stage)
      && ChainFits(stage)
      && redirects <= REDIRECT_LIMIT
      && ApprovedUrl(requestUrl)
      && (if stage.FlatpakAsset? then responseLimit == bytesTotal else |responseBody| <= responseLimit)
    }

    /** A reply is outstanding exactly in the busy states, and it belongs to the state's work. */
    ghost predicate Settled() {
      && Coherent()
      && (if Busy(state) then hasReply && RequestAgrees() else Quiet())
    }

    /** A pending candidate that turns out to be superseded costs one fresh check on top. */
    function CheckReserve(): nat {
      if state.RestoringPending? || (state.Verifying? && Persisted()) then 120 else 0
    }

    /** No more than this many replies can still finish before the updater settles. */
    function Rank(): int {
      if hasReply then CheckReserve() + 6 * StagesLeft(stage, |tagObjects|) - redirects else 0
    }

    /** No tag has been read yet. */
    function NoTags(): Updater {
      this.(tagObjects := [], tagDocuments := NO_TAG)
    }

    function WithReleaseHeard(document: Bytes): Updater {
      this.(evidence := evidence.(release := Some(document)))
    }

    function WithManifestHeard(document: Bytes): Updater {
      this.(evidence := evidence.(manifest := Some(document)))
    }

    function WithTagResolved(resolution: TagResolution): Updater {
      this.(evidence := evidence.(tag := Some(TagEvidence(tagDocuments, resolution))))
    }

    function WithTagReference(document: Bytes, reference: TagObject): Updater {
      this.(tagReference := reference, tagDocuments := tagDocuments.(reference := Some(document)))
    }

    function WithTagObject(document: Bytes, tagObject: TagObject): Updater {
      this.(tagObjects := tagObjects + [tagObject], tagDocuments := tagDocuments.(objects := tagDocuments.objects + [document]))
    }

    /** A fresh check has begun, or could not. */
    predicate ChecksAnew() {
      CheckedAgain(state) && (hasReply ==> stage.RollingRelease?)
    }

    /** What the chain points at so far. */
    function NextTagId(): string {
      if tagObjects == [] then tagReference.targetId else tagObjects[|tagObjects| - 1].targetId
    }

    /** Waiting for the first reply to this request. */
    predicate Asks(url: string, next: RequestStage, limit: int) {
      hasReply && stage == next && requestUrl == url && responseLimit == limit && redirects == 0 && responseBody == []
    }

    /** At most `replies` more may finish from here, and no wish to install has appeared. */
    predicate Follows(before: Updater, replies: int) {
      Rank() <= replies && (userAsked ==> before.userAsked)
    }

    // ----- small steps -----

    /** Takes the transition if the table has it; a refused event changes nothing. */
    function Transition(event: Event): Updater {
      match Reduce(state, event)
      case Err(_) => this
      case Ok(next) =>
        if next == state then this
        else this.(state := next,
                   installAfterVerification := installAfterVerification && !DropsIntent(next),
                   evidence := if StartsVerification(next) then NO_EVIDENCE else evidence)
    }

    function WithError(error: UpdateError, origin: RetryOrigin): Updater {
      this.(installAfterVerification := false, userAsked := false, lastError := error, retryOrigin := origin)
    }

    function WithoutError(): Updater {
      this.(lastError := NoError)
    }

    function WithoutRequest(): Updater {
      if hasReply then this.(hasReply := false, stage := NoRequest) else this
    }

    function WithRequest(url: string, next: RequestStage, limit: int, redirectCount: nat): Updater {
      this.(hasReply := true, stage := next, responseLimit := limit, responseBody := [],
            requestUrl := url, redirects := redirectCount)
    }

    predicate Accepts(event: Event) {
      Reduce(state, event).Ok?
    }

    function FailedDownload(error: UpdateError): Updater {
      this.(temporary := None, downloadHash := None).Transition(DownloadFailed).WithError(error, DownloadRetry)
    }

    function FailedVerification(error: UpdateError): Updater {
      Transition(VerificationFailed).WithError(error, VerificationRetry)
    }

    function FailedRestoration(error: UpdateError): Updater {
      Transition(RestoreFailed).WithError(error, RestoreRetry)
    }

    function FailedCheck(error: UpdateError): Updater {
      this.(candidate := EMPTY_CANDIDATE).Transition(CheckFailed).WithError(error, CheckRetry)
    }

    /** The operation in progress ends in the error state that fits it. */
    function Failed(error: UpdateError): Updater {
      match state
      case Downloading => FailedDownload(error)
      case Verifying => FailedVerification(error)
      case RestoringPending => FailedRestoration(error)
      case Checking => FailedCheck(error)
      case _ => this
    }

    /** A candidate taken up from an earlier run that the publisher has since replaced. */
    predicate Superseded(error: UpdateError) {
      error.PublisherChanged? && (state.RestoringPending? || (state.Verifying? && Persisted()))
    }

    /** Everything about the pending update is forgotten. */
    function Forgotten(): Updater {
      WithoutRequest().(
        temporary := None, verifiedFile := None, downloadHash := None, restoreRecord := EMPTY_RECORD,
        expected := EMPTY_CANDIDATE, restoring := false, reloadPendingRecord := false, handOffRetry := false,
        revalidatingPersisted := false, downloadedPath := "", candidate := EMPTY_CANDIDATE)
    }

    /** Replies that may follow once the request of this stage has been answered. */
    function Allowance(answered: RequestStage): int {
      CheckReserve() + 6 * (StagesLeft(answered, |tagObjects|) - 1)
    }

    /** A fresh check starts from here, with the pending update forgotten. */
    function Restarted(): Updater {
      Forgotten().WithoutError().Transition(BeginCheck).(userAsked := false)
    }

    function AsHandOff(mode: SessionMode, explicit: bool): HandOff
      requires verifiedFile.Some?
    {
      HandOff(verifiedFile.value, expected, mode, evidence, explicit, userAsked)
    }

    function HandOffBegun(): Updater {
      Transition(BeginHandOff).WithoutError()
    }

    /** The installer has answered. */
    function Answered(answer: PortalAnswer, installsDirectly: bool): Updater {
      if answer.accepted then
        if installsDirectly then
          WithoutError().(verifiedFile := None, downloadedPath := "").Transition(InstallCompleted)
        else WithoutError().Transition(HandOffAccepted)
      else
        Transition(if answer.outcomeUnknown then InstallOutcomeUnknown else HandOffFailed)
        .WithError(PortalFailure, RetryOrigin.HandOffRetry)
    }

    /** Verification has produced an open file. */
    function WithVerified(file: OpenFile, path: string): Updater {
      this.(verifiedFile := Some(file), downloadedPath := path, handOffRetry := false, revalidatingPersisted := false)
    }

    /** Everything a hand-off needs has been established; only the session decides what is next. */
    ghost predicate Verified() {
      && Quiet() && StartsVerification(state)
      && verifiedFile.Some? && FileMatches(verifiedFile.value, expected) && AllSeen(evidence, expected)
      && !Persisted() && temporary.None? && downloadHash.None?
      && (installAfterVerification ==> userAsked) && ObjectsHeard(tagDocuments, tagObjects)
    }

    function Concluded(can: bool): Updater {
      this.(installAfterVerification := false)
      .Transition(if can then VerificationPassedDesktop else VerificationPassedNonDesktop)
    }

    /** The check has an answer. */
    function CheckAnswered(found: Candidate, event: Event): Updater {
      this.(candidate := found).Transition(event)
    }

    /** A chunk of a document has come in. */
    function Taken(chunk: Bytes): Updater {
      this.(responseBody := responseBody + chunk)
    }

    /** A chunk has been written, hashed and counted. */
    function Downloaded(chunk: Bytes): Updater
      requires downloadHash.Some?
    {
      this.(downloadHash := Some(downloadHash.value + chunk), bytesReceived := bytesReceived + |chunk|)
    }

    function WithRead(body: Bytes, hash: Option<Bytes>, received: int): Updater {
      this.(responseBody := body, downloadHash := hash, bytesReceived := received)
    }

    /** Some first part of what arrived has been taken in, and nothing else has changed. */
    ghost predicate ReadsOf(available: Bytes, after: Updater) {
      && after == WithRead(after.responseBody, after.downloadHash, after.bytesReceived)
      && if stage.FlatpakAsset? then
           && downloadHash.Some? && after.downloadHash.Some? && after.responseBody == responseBody
           && (exists taken :: taken <= available && after.downloadHash.value == downloadHash.value + taken)
           && after.bytesReceived == bytesReceived + |after.downloadHash.value| - |downloadHash.value|
         else
           && after.downloadHash == downloadHash && after.bytesReceived == bytesReceived
           && exists taken :: taken <= available && after.responseBody == responseBody + taken
    }

    /** The download is complete; the part file is on its way to its final name. */
    function DownloadFinished(): Updater {
      this.(temporary := None, downloadHash := None).Transition(DownloadComplete)
    }

    // ----- what the user's actions do -----

    predicate MayCheck() {
      !hasReply && !state.Downloading? && !state.Verifying? && !state.RestoringPending? && Accepts(BeginCheck)
    }

    /** A check begins. The verified file and its candidate stay behind. */
    function CheckBegun(): Updater {
      Transition(BeginCheck).WithoutError().(
        restoring := false, reloadPendingRecord := false, handOffRetry := false, revalidatingPersisted := false,
        candidate := EMPTY_CANDIDATE, userAsked := false)
    }

    function DownloadBegun(): Updater {
      Transition(BeginDownload).WithoutError()
    }

    function Receiving(part: Temporary): Updater {
      this.(temporary := Some(part), downloadHash := Some([]), bytesReceived := 0, bytesTotal := candidate.flatpak.size)
    }

    predicate Cancellable() {
      state.Checking? || state.Available? || state.Downloading? || state.Verifying? || state.RestoringPending?
      || state.ReadyForDesktop? || state.ReadyToHandOff? || state.RestoreError?
    }

    /** Cancelling here also gives up the pending update on disk. */
    predicate CancelsPending() {
      state.ReadyForDesktop? || state.ReadyToHandOff? || state.RestoringPending? || state.RestoreError?
    }

    /** Nothing of the work in progress is left. */
    function Emptied(): Updater {
      WithoutRequest().(
        temporary := None, verifiedFile := None, downloadHash := None, reloadPendingRecord := false,
        downloadedPath := if CancelsPending() then "" else downloadedPath)
    }

    function CancelledNow(): Updater {
      Emptied().Transition(Cancel).WithError(CancelledByUser, NoRetry)
    }

    function Discarded(): Updater {
      this.(verifiedFile := None, restoreRecord := EMPTY_RECORD, expected := EMPTY_CANDIDATE, downloadedPath := "",
            candidate := EMPTY_CANDIDATE, handOffRetry := false, revalidatingPersisted := false, userAsked := false)
      .WithoutError().Transition(DiscardPending)
    }

    function Retried(): Updater {
      Transition(Retry).WithoutError()
    }

    /** The file is still there: only the publisher needs asking again. */
    function VerifyingAgain(): Updater {
      Retried().Transition(BeginDownload).Transition(DownloadComplete)
    }

    function HandOffRetried(install: bool): Updater {
      Retried().(installAfterVerification := install, userAsked := true, handOffRetry := true, revalidatingPersisted := true)
    }

    function ReadyRetried(): Updater {
      Retried().(revalidatingPersisted := true)
    }

    function Wished(install: bool): Updater {
      this.(installAfterVerification := install, userAsked := true)
    }

    /** The record is taken up again. */
    function TakenUp(record: PendingRecord): Updater {
      this.(restoring := true, reloadPendingRecord := false, restoreRecord := record, expected := record.candidate,
            candidate := record.candidate)
    }

    /** A record that could not be verified is kept for later if its candidate makes sense. */
    function Salvaged(record: PendingRecord): Updater {
      if ValidCandidate(record.candidate) then
        this.(restoreRecord := record, expected := record.candidate, candidate := record.candidate)
      else this
    }

    function RestoreBegun(unread: bool): Updater {
      Transition(BeginRestore).(restoring := unread, reloadPendingRecord := unread)
    }

    /** The file, its candidate and the flags about them are as they were before. */
    predicate KeepsPending(before: Updater) {
      && verifiedFile == before.verifiedFile && expected == before.expected
      && restoreRecord == before.restoreRecord && downloadedPath == before.downloadedPath
      && handOffRetry == before.handOffRetry && revalidatingPersisted == before.revalidatingPersisted
    }

    /** What is being restored is as it was, and the candidate is too unless it was dropped. */
    predicate KeepsRestoring(before: Updater) {
      && restoring == before.restoring && reloadPendingRecord == before.reloadPendingRecord
      && (candidate == before.candidate || candidate == EMPTY_CANDIDATE)
    }

    /** No file, record, path, candidate or flag of a pending update is left. */
    predicate ForgetsPending() {
      && temporary.None? && downloadHash.None? && verifiedFile.None? && restoreRecord == EMPTY_RECORD
      && expected == EMPTY_CANDIDATE && candidate == EMPTY_CANDIDATE && downloadedPath == ""
      && !restoring && !reloadPendingRecord && !Persisted()
    }
  }

  lemma RankBound(u: Updater)
    requires u.Settled()
    ensures 0 <= u.Rank() <= 234
    ensures u.hasReply ==> u.Rank() >= 1
  {
    hide FileMatches, ObjectsHeard, AllSeen, ReleaseSeen, ManifestSeen, ApprovedUrl;
  }

  /** What every way to fail leaves behind. */
  ghost predicate EndsInError(u: Updater, f: Updater, error: UpdateError) {
    && f.Settled() && f.Quiet() && f.state == FailedState(u.state) && f.KeepsPending(u) && f.KeepsRestoring(u)
    && f.temporary == (if u.state.Downloading? then None else u.temporary)
    && (Busy(u.state) ==> f.lastError == error && !f.userAsked && !f.installAfterVerification)
  }

  lemma FailedDownloadSettles(u: Updater, error: UpdateError)
    requires u.Coherent() && u.Quiet() && u.state.Downloading?
    ensures EndsInError(u, u.FailedDownload(error), error)
  {
    hide Reduce, FileMatches, AllSeen, Updater.RequestAgrees;
    FailureTransitions();
  }

  lemma FailedVerificationSettles(u: Updater, error: UpdateError)
    requires u.Coherent() && u.Quiet() && u.state.Verifying?
    ensures EndsInError(u, u.FailedVerification(error), error)
  {
    hide Reduce, FileMatches, AllSeen, Updater.RequestAgrees;
    FailureTransitions();
  }

  lemma FailedRestorationSettles(u: Updater, error: UpdateError)
    requires u.Coherent() && u.Quiet() && u.state.RestoringPending?
    ensures EndsInError(u, u.FailedRestoration(error), error)
  {
    hide Reduce, FileMatches, AllSeen, Updater.RequestAgrees;
    FailureTransitions();
  }

  lemma FailedCheckSettles(u: Updater, error: UpdateError)
    requires u.Coherent() && u.Quiet() && u.state.Checking?
    ensures EndsInError(u, u.FailedCheck(error), error)
  {
    hide Reduce, FileMatches, AllSeen, Updater.RequestAgrees;
    FailureTransitions();
  }

  /** Failing ends the wait, keeps the invariants, and moves only to the matching error state. */
  lemma FailedSettles(u: Updater, error: UpdateError)
    requires u.Coherent() && u.Quiet()
    ensures EndsInError(u, u.Failed(error), error)
  {
    hide Updater.FilesAgree, Updater.FlagsAgree, Updater.RequestAgrees,
      Updater.FailedDownload, Updater.FailedVerification, Updater.FailedRestoration, Updater.FailedCheck;
    match u.state
    case Downloading => FailedDownloadSettles(u, error);
    case Verifying => FailedVerificationSettles(u, error);
    case RestoringPending => FailedRestorationSettles(u, error);
    case Checking => FailedCheckSettles(u, error);
    case _ =>
  }

  lemma NoPartWhenChecked(u: Updater)
    requires u.Coherent() && CheckedAgain(u.state)
    ensures u.temporary.None? && u.downloadHash.None?
  {
  }

  lemma RestartedIsReady(u: Updater)
    requires u.Coherent() && u.Quiet() && (u.state.RestoringPending? || u.state.VerificationError?)
    ensures u.Forgotten().Accepts(BeginCheck)
    ensures var r := u.Restarted();
            && r.Coherent() && r.Quiet() && r.state.Checking? && r.StageReady(RollingRelease)
            && r.ForgetsPending() && !r.userAsked
  {
    hide Reduce, FileMatches, AllSeen, ReleaseSeen, ManifestSeen, ApprovedUrl;
    CheckTransitions(u.state);
  }

  /** The tag chain read so far plays no part in the other invariants. */
  lemma TagChainIsFree(u: Updater, v: Updater, revalidation: bool)
    requires u.Coherent() && u.Quiet() && ObjectsHeard(v.tagDocuments, v.tagObjects)
    requires v == u.(tagReference := v.tagReference, tagObjects := v.tagObjects, tagDocuments := v.tagDocuments)
    ensures var stage := if revalidation then RevalidateTagReference else RollingTagReference;
            var objectStage := if revalidation then RevalidateTagObjectRequest else RollingTagObjectRequest;
            && v.Coherent() && v.Quiet() && (u.StageReady(stage) || u.StageReady(objectStage) ==> v.StageReady(stage))
            && v.CheckReserve() == u.CheckReserve() && v.temporary == u.temporary
  {
    hide FileMatches, AllSeen, ReleaseSeen, ManifestSeen, ReferenceHeard, ObjectsHeard;
  }

  /** A new reference is heard, before any object of its chain. */
  lemma ReferenceTaken(u: Updater, document: Bytes, reference: TagObject, revalidation: bool)
    requires u.Coherent() && u.Quiet() && u.StageReady(if revalidation then RevalidateTagReference else RollingTagReference)
    requires u.tagObjects == [] && ParseTagReference(document) == Ok(reference)
    ensures TakesReference(u, u.WithTagReference(document, reference), reference, revalidation)
    ensures var v := u.WithTagReference(document, reference); v.tagObjects == [] && v.NextTagId() == reference.targetId
  {
    CoherentHasHeard(u);
    hide Updater.Coherent, Updater.StageReady;
    TagChainIsFree(u, u.WithTagReference(document, reference), revalidation);
  }

  /** One more object of the chain is heard. */
  lemma ObjectTaken(u: Updater, document: Bytes, tagObject: TagObject, revalidation: bool)
    requires u.Coherent() && u.Quiet()
    requires u.StageReady(if revalidation then RevalidateTagObjectRequest else RollingTagObjectRequest)
    requires ParseTagObject(document) == Ok(tagObject)
    ensures TakesReference(u, u.WithTagObject(document, tagObject), u.tagReference, revalidation)
    ensures |u.tagObjects| < TAG_DEPTH_LIMIT
    ensures var v := u.WithTagObject(document, tagObject);
            v.tagObjects == u.tagObjects + [tagObject] && v.NextTagId() == tagObject.targetId
    ensures Busy(u.state)
  {
    CoherentHasHeard(u);
    ObjectsHeardNext(u, document, tagObject);
    hide Updater.Coherent, ReferenceHeard, ObjectsHeard;
    TagChainIsFree(u, u.WithTagObject(document, tagObject), revalidation);
  }

  lemma StageReadyFits(u: Updater, stage: RequestStage)
    requires u.StageReady(stage)
    ensures StageFits(u.state, stage) && Busy(u.state)
    ensures stage.RollingTagObjectRequest? || stage.RevalidateTagObjectRequest? ==> |u.tagObjects| < TAG_DEPTH_LIMIT
  {
  }

  ghost predicate TakesReference(u: Updater, v: Updater, reference: TagObject, revalidation: bool) {
    && v.Coherent() && v.Quiet() && v.StageReady(if revalidation then RevalidateTagReference else RollingTagReference)
    && v.tagReference == reference && ReferenceHeard(v.tagDocuments, reference)
    && v.CheckReserve() == u.CheckReserve() && v.temporary == u.temporary && v.userAsked == u.userAsked
    && v.installAfterVerification == u.installAfterVerification
  }

  lemma TagIsRead(u: Updater, resolution: TagResolution)
    requires u.Coherent() && ReferenceHeard(u.tagDocuments, u.tagReference)
    requires ResolvesTo(u.tagReference, u.tagObjects, resolution)
    ensures TagRead(TagEvidence(u.tagDocuments, resolution))
  {
    hide ReferenceHeard, ResolvesTo;
  }

  lemma CoherentHasHeard(u: Updater)
    requires u.Coherent()
    ensures ObjectsHeard(u.tagDocuments, u.tagObjects)
  {
  }

  lemma ObjectsHeardNext(u: Updater, document: Bytes, tagObject: TagObject)
    requires ObjectsHeard(u.tagDocuments, u.tagObjects) && ParseTagObject(document) == Ok(tagObject)
    ensures ObjectsHeard(u.WithTagObject(document, tagObject).tagDocuments, u.WithTagObject(document, tagObject).tagObjects)
  {
  }

  lemma TagObjectStageReady(u: Updater, revalidation: bool)
    requires u.StageReady(if revalidation then RevalidateTagReference else RollingTagReference)
    ensures |u.tagObjects| < TAG_DEPTH_LIMIT && ReferenceHeard(u.tagDocuments, u.tagReference) ==>
              u.StageReady(if revalidation then RevalidateTagObjectRequest else RollingTagObjectRequest)
    ensures Busy(u.state)
  {
    hide FileMatches, ObjectsHeard, ReleaseSeen, ManifestSeen;
  }

  lemma RevalidationBegins(u: Updater, restoring: bool)
    requires u.Coherent() && u.Quiet() && StartsVerification(u.state) && restoring == u.state.RestoringPending?
    requires u.state.Verifying? ==> u.verifiedFile.Some?
    ensures var v := u.(restoring := restoring).NoTags();
            v.Coherent() && v.Quiet() && v.StageReady(RevalidateRelease) && v.CheckReserve() == u.CheckReserve() >= 0
  {
    hide FileMatches, AllSeen, ReleaseSeen, ManifestSeen, ReferenceHeard;
  }

  lemma CheckStarts(u: Updater)
    requires u.Coherent() && u.Quiet() && u.state.Checking?
    ensures var v := u.(release := EMPTY_CANDIDATE).NoTags();
            v.Coherent() && v.Quiet() && v.StageReady(RollingRelease) && v.CheckReserve() == 0
  {
    hide FileMatches, AllSeen, ReleaseSeen, ManifestSeen, ReferenceHeard;
  }

  /** What a check has parsed so far plays no part in the invariants. */
  lemma ParsedIsFree(u: Updater, v: Updater, next: RequestStage)
    requires u.Coherent() && u.Quiet() && u.state.Checking?
    requires v == u.(release := v.release, candidate := v.candidate)
    requires next.RollingManifest? || next.RollingTagReference? || next.RollingCompare?
    ensures v.Coherent() && v.Quiet() && v.StageReady(next) && v.CheckReserve() == u.CheckReserve() == 0
  {
    hide FileMatches, ObjectsHeard, AllSeen, ReleaseSeen, ManifestSeen, ReferenceHeard;
  }

  lemma ReleaseIsHeard(u: Updater, document: Bytes)
    requires u.Coherent() && u.Quiet() && u.StageReady(RevalidateRelease) && MatchesRelease(u.expected, document).Ok?
    ensures var v := u.WithReleaseHeard(document);
            v.Coherent() && v.Quiet() && v.StageReady(RevalidateManifest) && v.CheckReserve() == u.CheckReserve()
    ensures Busy(u.state)
  {
    hide FileMatches, ObjectsHeard, AllSeen, ManifestSeen, ReferenceHeard, MatchesRelease;
  }

  lemma ManifestIsHeard(u: Updater, document: Bytes)
    requires u.Coherent() && u.Quiet() && u.StageReady(RevalidateManifest) && MatchesManifest(u.expected, document).Ok?
    ensures var v := u.WithManifestHeard(document);
            v.Coherent() && v.Quiet() && v.StageReady(RevalidateTagReference) && v.CheckReserve() == u.CheckReserve()
    ensures Busy(u.state)
  {
    hide FileMatches, ObjectsHeard, AllSeen, ReferenceHeard, MatchesRelease, MatchesManifest;
  }

  lemma TagIsResolved(u: Updater, resolution: TagResolution)
    requires u.Coherent() && u.Quiet() && u.StageReady(RevalidateTagReference)
    requires ReferenceHeard(u.tagDocuments, u.tagReference) && ResolvesTo(u.tagReference, u.tagObjects, resolution)
    requires MatchesTagResolution(u.expected, resolution).Ok?
    ensures var v := u.WithTagResolved(resolution);
            && v.Coherent() && v.Quiet() && v.StageReady(RevalidateTagReference) && v.CheckReserve() == u.CheckReserve()
            && TagSeen(v.evidence, v.expected)
  {
    TagIsRead(u, resolution);
    hide FileMatches, ObjectsHeard, AllSeen, ReferenceHeard, MatchesRelease, MatchesManifest, ResolvesTo, TagRead;
  }

  /** A request that is sent leaves the updater waiting for exactly that reply. */
  lemma RequestSettles(u: Updater, url: string, next: RequestStage, limit: int, redirectCount: nat)
    requires u.Coherent() && u.Quiet() && u.StageReady(next) && u.ChainFits(next)
    requires ApprovedUrl(url) && redirectCount <= REDIRECT_LIMIT
    requires if next.FlatpakAsset? then limit == u.bytesTotal else limit >= 0
    ensures var r := u.WithRequest(url, next, limit, redirectCount);
            && r.Settled() && r.hasReply && r.KeepsPending(u) && r.KeepsRestoring(u)
            && r.WithoutRequest().Coherent() && r.WithoutRequest().Quiet()
  {
    hide Updater.Coherent, Updater.StageReady, Updater.RequestAgrees;
    StageReadyFits(u, next);
    RequestFits(u, url, next, limit, redirectCount);
    RequestIsFree(u, u.WithRequest(url, next, limit, redirectCount));
    RequestIsFree(u, u.WithRequest(url, next, limit, redirectCount).WithoutRequest());
  }

  /** The request outstanding plays no part in the other invariants. */
  lemma RequestIsFree(u: Updater, v: Updater)
    requires u.Coherent()
    requires v == u.(hasReply := v.hasReply, stage := v.stage, responseLimit := v.responseLimit,
                     responseBody := v.responseBody, requestUrl := v.requestUrl, redirects := v.redirects)
    ensures v.Coherent()
  {
    hide FileMatches, ObjectsHeard, AllSeen;
  }

  lemma RequestFits(u: Updater, url: string, next: RequestStage, limit: int, redirectCount: nat)
    requires u.StageReady(next) && u.ChainFits(next) && ApprovedUrl(url) && redirectCount <= REDIRECT_LIMIT
    requires if next.FlatpakAsset? then limit == u.bytesTotal else limit >= 0
    ensures u.WithRequest(url, next, limit, redirectCount).RequestAgrees()
  {
    hide ReleaseSeen, ManifestSeen, ReferenceHeard, ApprovedUrl;
  }

  lemma RequestRank(u: Updater, url: string, next: RequestStage, limit: int, redirectCount: nat)
    ensures u.WithRequest(url, next, limit, redirectCount).Rank()
            == u.CheckReserve() + 6 * StagesLeft(next, |u.tagObjects|) - redirectCount
  {
    hide StagesLeft;
  }

  lemma CheckAnswerSettles(u: Updater, found: Candidate, event: Event)
    requires u.Coherent() && u.Quiet() && u.state.Checking?
    requires event.CandidateCurrent? || event.CandidateAvailable?
    ensures var r := u.CheckAnswered(found, event);
            r.Settled() && r.Quiet() && r.candidate == found && r.userAsked == u.userAsked && r.temporary == u.temporary
            && r.state == if event.CandidateCurrent? then NoUpdate else Available
  {
    hide FileMatches, ObjectsHeard, AllSeen, Updater.RequestAgrees;
  }

  lemma ConcludedSettles(u: Updater, can: bool)
    requires u.Verified()
    ensures var r := u.Concluded(can);
            && r.Settled() && r.Quiet() && r.KeepsPending(u) && r.evidence == u.evidence && r.temporary.None?
            && r.userAsked == u.userAsked
            && r.state == if can then ReadyToHandOff else ReadyForDesktop
  {
    hide FileMatches, ObjectsHeard, AllSeen, Updater.RequestAgrees, Reduce, Updater.Transition;
    PassedTransitions(u.state);
    var r := TransitionIs(u.(installAfterVerification := false),
                          if can then VerificationPassedDesktop else VerificationPassedNonDesktop,
                          if can then ReadyToHandOff else ReadyForDesktop);
  }

  /** With all three matches and a file that fits, only the session is left to ask. */
  lemma NothingLeftToProve(u: Updater, v: Updater)
    requires u.Coherent() && u.Quiet() && u.StageReady(RevalidateTagReference) && TagSeen(u.evidence, u.expected)
    requires v.verifiedFile.Some? && FileMatches(v.verifiedFile.value, u.expected) && !v.Persisted()
    requires v == u.(verifiedFile := v.verifiedFile, downloadedPath := v.downloadedPath, restoreRecord := v.restoreRecord,
                     handOffRetry := v.handOffRetry, revalidatingPersisted := v.revalidatingPersisted)
    ensures v.Verified() && u.CheckReserve() >= 0
    ensures v.expected == u.expected && v.userAsked == u.userAsked && v.temporary == u.temporary
    ensures v.installAfterVerification == u.installAfterVerification
  {
    hide FileMatches, ObjectsHeard, ReleaseSeen, ManifestSeen, TagSeen;
  }

  lemma RestoringIsMarked(u: Updater)
    requires u.StageReady(RevalidateTagReference)
    ensures !u.restoring ==> u.state.Verifying?
  {
  }

  lemma FreshFileIsThere(u: Updater)
    requires u.Coherent() && u.StageReady(RevalidateTagReference) && u.state.Verifying?
    ensures u.verifiedFile.Some? && FileMatches(u.verifiedFile.value, u.expected)
  {
    hide FileMatches, ObjectsHeard;
  }

  lemma DownloadFinishedIsCoherent(u: Updater)
    requires u.Coherent() && u.Quiet() && u.state.Downloading?
    ensures var r := u.DownloadFinished();
            r.Coherent() && r.Quiet() && r.state.Verifying? && r.temporary.None? && r.KeepsPending(u)
            && !r.Persisted() && r.candidate == u.candidate && r.downloadHash.None? && r.userAsked == u.userAsked
  {
    hide FileMatches, ObjectsHeard, AllSeen, Updater.RequestAgrees;
  }

  /** From ReadyToHandOff the file goes out safely, and the updater then waits for the installer. */
  lemma HandOffIsSafe(u: Updater, mode: SessionMode, installsDirectly: bool, explicit: bool, log: seq<HandOff>)
    requires u.Settled() && u.state.ReadyToHandOff? && InstallCapable(mode, installsDirectly)
    requires explicit || u.userAsked
    requires AllSafe(installsDirectly, log)
    ensures u.verifiedFile.Some?
    ensures AllSafe(installsDirectly, log + [u.AsHandOff(mode, explicit)])
    ensures var r := u.HandOffBegun();
            r.Settled() && r.state.HandingOff? && r.KeepsPending(u) && !r.hasReply && r.temporary == u.temporary
            && r.userAsked == u.userAsked && r.installAfterVerification == u.installAfterVerification
  {
    hide FileMatches, ObjectsHeard, AllSeen, Updater.RequestAgrees, InstallCapable, Reduce;
    InstallerTransitions();
  }

  /** What an accepted event changes. */
  lemma TransitionIs(u: Updater, event: Event, next: State) returns (v: Updater)
    requires Reduce(u.state, event) == Ok(next) && next != u.state
    ensures v == u.Transition(event)
    ensures v == u.(state := next, installAfterVerification := u.installAfterVerification && !DropsIntent(next),
                    evidence := if StartsVerification(next) then NO_EVIDENCE else u.evidence)
  {
    v := u.Transition(event);
  }

  /** A direct installer has installed by then; a portal has only taken the request. */
  function AnsweredState(answer: PortalAnswer, installsDirectly: bool): State {
    if answer.accepted then if installsDirectly then Installed else HandOffRequested
    else if answer.outcomeUnknown then InstallationUnknown
    else HandOffError
  }

  lemma AnsweredSettles(u: Updater, answer: PortalAnswer, installsDirectly: bool)
    requires u.Settled() && u.state.HandingOff?
    ensures var r := u.Answered(answer, installsDirectly);
            && r.Settled() && !r.hasReply && r.temporary == u.temporary && (r.userAsked ==> u.userAsked)
            && r.state == AnsweredState(answer, installsDirectly)
            && (r.installAfterVerification ==> u.installAfterVerification)
  {
    hide FileMatches, ObjectsHeard, AllSeen, Updater.RequestAgrees, Reduce;
    InstallerTransitions();
    hide Updater.Transition;
    var next := AnsweredState(answer, installsDirectly);
    if answer.accepted {
      if installsDirectly {
        var r := TransitionIs(u.WithoutError().(verifiedFile := None, downloadedPath := ""), InstallCompleted, next);
      } else {
        var r := TransitionIs(u.WithoutError(), HandOffAccepted, next);
      }
    } else {
      var r := TransitionIs(u, if answer.outcomeUnknown then InstallOutcomeUnknown else HandOffFailed, next);
    }
  }

  // ----- what the user's actions keep -----

  /** A check may begin next to a verified file, and neither disturbs the other. */
  lemma CheckBegins(u: Updater)
    requires u.Settled() && u.MayCheck()
    ensures var r := u.CheckBegun();
            && r.Coherent() && r.Quiet() && r.state.Checking? && r.StageReady(RollingRelease) && r.StageReady(StableReleases)
            && r.verifiedFile == u.verifiedFile && r.expected == u.expected && r.temporary == u.temporary
            && !r.userAsked && !r.Persisted() && r.candidate == EMPTY_CANDIDATE
  {
    hide Reduce, FileMatches, AllSeen, ReleaseSeen, ManifestSeen, ApprovedUrl;
    CheckTransitions(u.state);
  }

  lemma WishNeedsRequest(u: Updater)
    requires u.Settled()
    ensures u.installAfterVerification ==> u.userAsked
  {
  }

  lemma BusyMeansWaiting(u: Updater)
    requires u.Settled()
    ensures Busy(u.state) <==> u.hasReply
  {
  }

  lemma HandingOffMayNotCheck(u: Updater)
    requires u.state.HandingOff?
    ensures !u.MayCheck()
  {
  }

  lemma IdleMayCheck(u: Updater)
    requires u.Settled() && u.state.Idle?
    ensures u.MayCheck()
  {
  }

  lemma DownloadBegins(u: Updater)
    requires u.Settled() && u.state.Available?
    ensures var r := u.DownloadBegun();
            && r.Coherent() && r.Quiet() && r.state.Downloading? && r.temporary.None? && r.KeepsPending(u)
            && r.userAsked == u.userAsked && r.candidate == u.candidate
            && r.installAfterVerification == u.installAfterVerification
            && forall part :: var d := r.Receiving(part);
                              d.Coherent() && d.Quiet() && d.StageReady(FlatpakAsset) && d.KeepsPending(u)
                              && d.userAsked == u.userAsked
  {
    hide FileMatches, ObjectsHeard, AllSeen, ReleaseSeen, ManifestSeen, ApprovedUrl;
  }

  lemma CancelSettles(u: Updater)
    requires u.Settled() && u.Cancellable()
    ensures var r := u.CancelledNow();
            && r.Settled() && r.Quiet() && r.state.Cancelled? && r.temporary.None? && r.verifiedFile.None?
            && !r.userAsked && !r.installAfterVerification && r.lastError.CancelledByUser?
  {
    hide FileMatches, ObjectsHeard, AllSeen, Updater.RequestAgrees, Reduce, Updater.Emptied, Updater.CancelsPending;
    CancelTransitions(u.state);
    EmptiedHoldsNothing(u);
  }

  lemma EmptiedHoldsNothing(u: Updater)
    requires u.Settled()
    ensures var e := u.Emptied();
            && e.Quiet() && e.state == u.state && e.temporary.None? && e.verifiedFile.None? && e.downloadHash.None?
            && ObjectsHeard(e.tagDocuments, e.tagObjects)
  {
    hide Updater.FilesAgree, Updater.RequestAgrees, ObjectsHeard;
  }

  lemma DiscardSettles(u: Updater)
    requires u.Settled() && (u.state.HandOffRequested? || u.state.HandOffError?)
    ensures var r := u.Discarded();
            && r.Settled() && r.Quiet() && r.state.Cancelled? && r.temporary == u.temporary && r.verifiedFile.None?
            && !r.userAsked
  {
    hide FileMatches, ObjectsHeard, AllSeen, ReleaseSeen, ManifestSeen, ApprovedUrl, Updater.RequestAgrees;
  }

  lemma RetriedSettles(u: Updater)
    requires u.Settled() && (u.state.DownloadError? || u.state.VerificationError?)
    ensures u.verifiedFile.None? || !u.retryOrigin.VerificationRetry? ==>
              u.Retried().Settled() && u.Retried().state.Available?
    ensures u.Retried().userAsked == u.userAsked && u.Retried().temporary == u.temporary && u.Retried().KeepsPending(u)
  {
    hide FileMatches, ObjectsHeard, AllSeen, ReleaseSeen, ManifestSeen, ApprovedUrl, Updater.RequestAgrees, Reduce;
    RetryTransitions();
  }

  lemma VerifyingAgainIsReady(u: Updater)
    requires u.Settled() && u.state.VerificationError? && u.verifiedFile.Some?
    ensures var r := u.VerifyingAgain();
            && r.Coherent() && r.Quiet() && r.state.Verifying? && r.verifiedFile == u.verifiedFile
            && r.userAsked == u.userAsked && r.temporary == u.temporary && r.KeepsPending(u)
  {
    hide FileMatches, ObjectsHeard, AllSeen, ReleaseSeen, ManifestSeen, ApprovedUrl, Updater.RequestAgrees, Reduce;
    RetryTransitions();
    hide Updater.Transition;
    var available := TransitionIs(u, Retry, Available);
    var downloading := TransitionIs(available.WithoutError(), BeginDownload, Downloading);
    var verifying := TransitionIs(downloading, DownloadComplete, Verifying);
  }

  lemma HandOffRetriedIsReady(u: Updater, install: bool)
    requires u.Settled() && (u.state.HandOffRequested? || u.state.HandOffError?)
    ensures var r := u.HandOffRetried(install);
            && r.Coherent() && r.Quiet() && r.state.Verifying? && r.verifiedFile == u.verifiedFile
            && r.verifiedFile.Some? && r.temporary == u.temporary && r.expected == u.expected
            && r.installAfterVerification == install
  {
    hide FileMatches, ObjectsHeard, AllSeen, ReleaseSeen, ManifestSeen, ApprovedUrl, Updater.RequestAgrees, Reduce;
    RetryTransitions();
  }

  lemma ReadyRetriedIsReady(u: Updater)
    requires u.Settled() && (u.state.ReadyForDesktop? || u.state.ReadyToHandOff?)
    ensures var r := u.ReadyRetried();
            && r.Coherent() && r.Quiet() && r.state.Verifying? && r.verifiedFile == u.verifiedFile
            && r.verifiedFile.Some? && r.temporary == u.temporary && r.expected == u.expected
            && r.userAsked == u.userAsked && r.installAfterVerification == u.installAfterVerification
  {
    hide FileMatches, ObjectsHeard, AllSeen, ReleaseSeen, ManifestSeen, ApprovedUrl, Updater.RequestAgrees, Reduce;
    RetryTransitions();
  }

  lemma RestoreRetriedIsReady(u: Updater)
    requires u.Settled() && u.state.RestoreError?
    ensures var r := u.Retried();
            && r.Coherent() && r.Quiet() && r.state.RestoringPending? && r.temporary == u.temporary
            && r.userAsked == u.userAsked && r.reloadPendingRecord == u.reloadPendingRecord
            && r.expected == u.expected && r.restoreRecord == u.restoreRecord
  {
    hide FileMatches, ObjectsHeard, AllSeen, ReleaseSeen, ManifestSeen, ApprovedUrl, Updater.RequestAgrees, Reduce;
    RetryTransitions();
  }

  lemma RestoreBegins(u: Updater, unread: bool)
    requires u.Settled() && u.state.Idle?
    ensures var r := u.RestoreBegun(unread);
            && r.Coherent() && r.Quiet() && r.state.RestoringPending? && r.temporary == u.temporary
            && r.userAsked == u.userAsked && r.candidate == u.candidate
  {
    hide FileMatches, ObjectsHeard, AllSeen, ReleaseSeen, ManifestSeen, ApprovedUrl, Updater.RequestAgrees;
  }

  /** While no file is open yet, the expected candidate may be replaced. */
  lemma RestoringMayChange(u: Updater, record: PendingRecord)
    requires u.Coherent() && u.Quiet() && u.state.RestoringPending?
    ensures var t := u.TakenUp(record);
            t.Coherent() && t.Quiet() && t.state.RestoringPending? && t.temporary == u.temporary && t.userAsked == u.userAsked
            && t.expected == record.candidate && t.restoreRecord == record && t.candidate == record.candidate
    ensures var f := u.Salvaged(record);
            f.Coherent() && f.Quiet() && f.state.RestoringPending? && f.temporary == u.temporary && f.userAsked == u.userAsked
            && f.reloadPendingRecord == u.reloadPendingRecord
    ensures var c := u.(candidate := EMPTY_CANDIDATE, reloadPendingRecord := false).Transition(CandidateCurrent);
            c.Settled() && c.state.NoUpdate? && !c.hasReply && c.temporary == u.temporary && c.userAsked == u.userAsked
  {
    hide FileMatches, ObjectsHeard, AllSeen, ReleaseSeen, ManifestSeen, ApprovedUrl, Updater.RequestAgrees, ValidCandidate;
  }

  lemma WishedSettles(u: Updater, install: bool)
    requires u.Settled()
    ensures var r := u.Wished(install);
            r.Settled() && r.state == u.state && r.temporary == u.temporary && r.hasReply == u.hasReply
            && r.installAfterVerification == install
  {
    hide FileMatches, ObjectsHeard, AllSeen, ReleaseSeen, ManifestSeen, ApprovedUrl;
  }

  lemma PersistedMeansVerifying(u: Updater)
    requires u.Coherent() && u.Persisted() && StartsVerification(u.state)
    ensures u.state.Verifying?
  {
  }

  /** Taking in more of a body, within the limit, disturbs nothing; nor does failing after that. */
  lemma BodyIsReadOn(before: Updater, after: Updater)
    requires before.Settled() && before.hasReply && !before.stage.FlatpakAsset?
    requires after == before.(responseBody := after.responseBody) && |after.responseBody| <= after.responseLimit
    ensures after.Settled() && FailsLike(before, after)
  {
    ReadingSettles(before, after);
    hide Updater.Settled, Updater.Coherent;
    ReplyTaken(after);
  }

  lemma DownloadIsReadOn(before: Updater, after: Updater)
    requires before.Settled() && before.hasReply && before.stage.FlatpakAsset?
    requires after.downloadHash.Some? && after.bytesReceived == |after.downloadHash.value| <= after.responseLimit
    requires after == before.(downloadHash := after.downloadHash, bytesReceived := after.bytesReceived)
    ensures after.Settled() && FailsLike(before, after)
  {
    ReadingSettles(before, after);
    hide Updater.Settled, Updater.Coherent;
    ReplyTaken(after);
  }

  lemma ReadingSettles(before: Updater, after: Updater)
    requires before.Settled() && before.hasReply
    requires after == before.(responseBody := after.responseBody, downloadHash := after.downloadHash,
                              bytesReceived := after.bytesReceived)
    requires if before.stage.FlatpakAsset? then
               after.downloadHash.Some? && after.bytesReceived == |after.downloadHash.value| <= after.responseLimit
             else |after.responseBody| <= after.responseLimit && after.downloadHash == before.downloadHash
    ensures after.Settled() && after.Coherent() && Busy(after.state)
  {
    hide FileMatches, ObjectsHeard, ReferenceHeard, AllSeen, ReleaseSeen, ManifestSeen, ApprovedUrl, StagesLeft;
  }

  lemma WithoutRequestIsQuiet(u: Updater)
    requires u.Coherent() && (u.hasReply || u.stage.NoRequest?)
    ensures u.WithoutRequest().Coherent() && u.WithoutRequest().Quiet() && u.WithoutRequest().state == u.state
  {
    hide FileMatches, ObjectsHeard, AllSeen;
  }

  /** The reply is in: what is left to do has the reply's own budget. */
  lemma ReplyTaken(u: Updater)
    requires u.Settled() && u.hasReply
    ensures var r := u.WithoutRequest();
            && r.Coherent() && r.Quiet() && r.StageReady(u.stage) && r.ChainFits(u.stage) && r.Allowance(u.stage) < u.Rank()
            && r.temporary == u.temporary && r.userAsked == u.userAsked && r.state == u.state && Busy(u.state)
            && r.installAfterVerification == u.installAfterVerification && r.bytesTotal == u.bytesTotal
            && r.CheckReserve() + 6 * StagesLeft(u.stage, |r.tagObjects|) - u.redirects == u.Rank()
    ensures if u.stage.FlatpakAsset? then u.responseLimit == u.bytesTotal else u.responseLimit >= 0
    ensures u.redirects <= REDIRECT_LIMIT && u.Rank() >= 1
  {
    hide FileMatches, ObjectsHeard, AllSeen, ReleaseSeen, ManifestSeen, ApprovedUrl;
  }

  lemma ReadingKeeps(u: Updater, available: Bytes, after: Updater)
    requires u.ReadsOf(available, after)
    ensures && after.Rank() == u.Rank() && after.hasReply == u.hasReply && after.userAsked == u.userAsked
            && after.installAfterVerification == u.installAfterVerification
  {
    hide StagesLeft, Updater.Rank;
    RankOfRead(u, after.responseBody, after.downloadHash, after.bytesReceived);
  }

  lemma RankOfRead(u: Updater, body: Bytes, hash: Option<Bytes>, received: int)
    ensures u.WithRead(body, hash, received).Rank() == u.Rank()
  {
    hide StagesLeft;
  }

  lemma QuietIgnoresFailure(u: Updater, error: UpdateError)
    requires u.Settled() && !u.hasReply
    ensures u.Coherent() && u.Quiet() && u.Failed(error) == u && u.WithoutRequest() == u && !u.Superseded(error)
  {
    hide Updater.FilesAgree, Updater.FlagsAgree, Updater.RequestAgrees;
  }

  lemma DocumentWithinLimit(u: Updater)
    requires u.Settled() && u.hasReply && !u.stage.FlatpakAsset?
    ensures |u.responseBody| <= u.responseLimit && u.Taken([]) == u
  {
    assert u.responseBody + [] == u.responseBody;
  }

  lemma TakenTwice(u: Updater, first: Bytes, second: Bytes)
    ensures u.Taken(first).Taken(second) == u.Taken(first + second)
  {
    assert u.responseBody + (first + second) == u.responseBody + first + second;
  }

  lemma DownloadWithinLimit(u: Updater)
    requires u.Settled() && u.hasReply && u.stage.FlatpakAsset?
    ensures u.temporary.Some? && u.downloadHash.Some? && u.bytesReceived == |u.downloadHash.value| <= u.responseLimit
    ensures u.Downloaded([]) == u
  {
    assert u.downloadHash.value + [] == u.downloadHash.value;
  }

  lemma DownloadedIs(u: Updater, chunk: Bytes)
    requires u.downloadHash.Some?
    ensures var d := u.Downloaded(chunk);
            && d.downloadHash == Some(u.downloadHash.value + chunk) && d.bytesReceived == u.bytesReceived + |chunk|
            && d.responseLimit == u.responseLimit && d.temporary == u.temporary
            && d == u.(downloadHash := d.downloadHash, bytesReceived := d.bytesReceived)
  {
  }

  lemma DownloadedTwice(u: Updater, first: Bytes, second: Bytes)
    requires u.downloadHash.Some?
    ensures u.Downloaded(first).Downloaded(second) == u.Downloaded(first + second)
  {
    var hashed := u.downloadHash.value;
    assert hashed + (first + second) == hashed + first + second;
  }

  lemma DownloadedReads(u: Updater, available: Bytes, taken: nat)
    requires u.stage.FlatpakAsset? && u.downloadHash.Some? && taken <= |available|
    ensures u.ReadsOf(available, u.Downloaded(available[..taken]))
  {
    assert available[..taken] <= available;
  }

  lemma TakenReads(u: Updater, available: Bytes, taken: nat)
    requires !u.stage.FlatpakAsset? && taken <= |available|
    ensures u.ReadsOf(available, u.Taken(available[..taken]))
  {
    assert available[..taken] <= available;
  }

  /** Failing now ends where failing earlier would have ended. */
  ghost predicate FailsLike(before: Updater, after: Updater) {
    && after.Coherent() && after.WithoutRequest().Coherent() && after.WithoutRequest().Quiet()
    && after.state == before.state && Busy(after.state) && after.verifiedFile == before.verifiedFile
    && after.temporary == before.temporary
  }

  /** What the reading of a body leaves when it cannot go on. */
  predicate ReadingFailed(before: Updater, after: Updater) {
    && !after.hasReply && after.state == FailedState(before.state) && !after.userAsked
    && after.verifiedFile == before.verifiedFile
  }

  lemma ReadingFails(before: Updater, after: Updater, error: UpdateError)
    requires FailsLike(before, after) && !error.PublisherChanged?
    ensures ReadingFailed(before, after.WithoutRequest().Failed(error))
  {
    hide Updater.FilesAgree, Updater.FlagsAgree, Updater.RequestAgrees, Updater.Failed, Updater.Settled;
    FailedSettles(after.WithoutRequest(), error);
  }

  /** What the store verified against the record is the expected candidate's file. */
  lemma ReopenedMatches(record: PendingRecord, current: Candidate, file: OpenFile)
    requires BindsOwnCandidate(record) && SameCandidate(record.candidate, current)
    requires |file.bytes| == record.verifiedSize && Sha256Hex(file.bytes) == record.verifiedSha256
    requires file.readable && !file.writable
    ensures FileMatches(file, current)
  {
  }

  /** The log grew by nothing, or by one file the user had asked to install. */
  ghost predicate OnlyIntended(before: seq<HandOff>, after: seq<HandOff>, u: Updater) {
    after == before
    || (u.installAfterVerification && exists h :: after == before + [h] && !h.explicit)
  }

  class AutoUpdateChecker {
    const store: PendingUpdateStore
    const rollingSupported: bool
    const stableSupported: bool
    const installsDirectly: bool
    var now: Updater
    /** Every file given to the installer so far. */
    ghost var handOffs: seq<HandOff>

    constructor (store: PendingUpdateStore, rollingSupported: bool, stableSupported: bool, installsDirectly: bool)
      requires store.Contained()
      ensures Valid() && now.state.Idle? && handOffs == []
      ensures this.store == store && this.installsDirectly == installsDirectly
    {
      this.store := store;
      this.rollingSupported := rollingSupported;
      this.stableSupported := stableSupported;
      this.installsDirectly := installsDirectly;
      now := Updater(
        Idle, NoRetry, NoError, false, NoRequest, 0, [], "", 0,
        EMPTY_CANDIDATE, EMPTY_CANDIDATE, EMPTY_CANDIDATE, TagObject("", "", ""), [], NO_TAG, EMPTY_RECORD,
        false, false, false, false, false, None, None, None, "", 0, 0, NO_EVIDENCE, false);
      handOffs := [];
      new;
      hide PendingUpdateStore.Contained;
    }

    /** The disk is contained, every hand-off was safe, and the part file is the store's own. */
    ghost predicate Sound()
      reads this, store
    {
      && store.Contained()
      && AllSafe(installsDirectly, handOffs)
      && (now.temporary.Some? ==> store.PartName(now.temporary.value.path))
    }

    ghost predicate Valid()
      reads this, store
    {
      Sound() && now.Settled()
    }

    // ----- the disk -----

    method ClearStore(removePayload: bool)
      requires store.Contained()
      modifies store`files
      ensures store.Contained() && store.OnlyForgets(old(store.files), store.files, removePayload)
    {
      hide PendingUpdateStore.Contained, PendingUpdateStore.OnlyForgets;
      store.Clear(removePayload);
    }

    /** Letting go of the part file removes it from the disk. */
    method DiscardPart()
      requires Sound()
      modifies store`files
      ensures Sound()
    {
      hide PendingUpdateStore.Contained, PendingUpdateStore.PartName, AllSafe;
      store.DiscardTemporary(now.temporary);
    }

    /** The session is read afresh each time it matters. */
    method CanInstallInCurrentSession() returns (can: bool, mode: SessionMode)
      ensures can <==> InstallCapable(mode, installsDirectly)
    {
      mode := *;
      can := mode == Desktop || (mode == Gaming && installsDirectly);
    }

    // ----- requests and their failure -----

    /**
      Ends the operation in progress. A superseded candidate is forgotten together with its file and
      a fresh check begins; every other failure waits in the error state that fits the operation.
     */
    method FailForActiveOperation(error: UpdateError)
      requires Sound() && now.Coherent() && now.Quiet()
      modifies this`now, store`files
      ensures Valid()
      ensures !old(now).Superseded(error) ==> now == old(now).Failed(error)
      ensures !old(now).Superseded(error) && !old(now).state.Downloading? ==> store.files == old(store.files)
      ensures old(now).Superseded(error) ==> GivesUp(old(store.files))
      decreases if error.PublisherChanged? then 4 else 0, 0
    {
      hide PendingUpdateStore.Contained, PendingUpdateStore.PartName, AllSafe, Updater.FilesAgree,
        Updater.FlagsAgree, Updater.RequestAgrees, Updater.Failed, Updater.KeepsPending;
      FailedSettles(now, error);
      if now.state.Downloading? {
        DiscardPart();
        now := now.Failed(error);
      } else if now.state.Verifying? {
        var persisted := now.Persisted();
        now := now.Failed(error);
        if persisted && error.PublisherChanged? {
          InvalidatePendingAndCheck();
        }
      } else if now.state.RestoringPending? && error.PublisherChanged? {
        InvalidatePendingAndCheck();
      } else {
        now := now.Failed(error);
      }
    }

    /**
      The pending update has been forgotten, in memory and on disk, where nothing but its record and
      its payload is gone; a fresh check has begun, or could not.
     */
    ghost predicate GivesUp(before: FileMap)
      reads this, store
    {
      && now.ChecksAnew() && now.ForgetsPending() && !now.userAsked && now.Rank() <= 120
      && store.OnlyForgets(before, store.files, true)
    }

    /** Forgets the pending update, on disk and in memory, and checks again. */
    method InvalidatePendingAndCheck()
      requires Sound() && now.Coherent() && now.Quiet()
      requires now.state.RestoringPending? || now.state.VerificationError?
      modifies this`now, store`files
      ensures Valid() && GivesUp(old(store.files))
      decreases 3, 0
    {
      hide PendingUpdateStore.Contained, PendingUpdateStore.PartName, PendingUpdateStore.OnlyForgets, AllSafe,
        Updater.FilesAgree, Updater.FlagsAgree, Updater.RequestAgrees, Reduce;
      RestartedIsReady(now);
      ClearStore(true);
      now := now.Restarted();
      BeginRollingCheck();
      NoPartWhenChecked(now);
    }

    method BeginRollingCheck()
      requires Sound() && now.Coherent() && now.Quiet() && now.state.Checking?
      modifies this`now, store`files
      ensures Valid() && CheckedAgain(now.state)
      ensures now.hasReply ==> now.Asks(ROLLING_RELEASE_URL, RollingRelease, JSON_LIMIT) && now.tagObjects == []
      ensures now.KeepsPending(old(now)) && (now.userAsked ==> old(now).userAsked) && store.files == old(store.files)
      ensures now.KeepsRestoring(old(now))
      ensures now.Rank() <= 120
      decreases 2, 0
    {
      hide Updater.StageReady, Updater.Settled, AllSafe, PendingUpdateStore.Contained, PendingUpdateStore.PartName,
        Updater.Failed, Updater.CheckReserve;
      CheckStarts(now);
      now := now.(release := EMPTY_CANDIDATE).NoTags();
      IssueRequest(ROLLING_RELEASE_URL, RollingRelease, JSON_LIMIT, 0);
    }

    /**
      Starts one request. A request while another is active would be an error; that no caller ever
      makes one is this method's precondition. An unapproved address, too many redirects, or a declared body over
      the limit ends the operation instead.
     */
    method IssueRequest(url: string, next: RequestStage, limit: int, redirectCount: nat)
      requires Sound() && now.Coherent() && now.Quiet() && now.StageReady(next) && now.ChainFits(next)
      requires if next.FlatpakAsset? then limit == now.bytesTotal else limit >= 0
      modifies this`now, store`files
      ensures Valid() && now.KeepsPending(old(now))
      ensures !old(now).state.Downloading? ==> store.files == old(store.files)
      ensures now.hasReply ==> now == old(now).WithRequest(url, next, limit, redirectCount)
      ensures now.KeepsRestoring(old(now))
      ensures !now.hasReply ==> now.state == FailedState(old(now).state) && !now.userAsked && !now.installAfterVerification
                                && (now.lastError.RedirectRejected? || now.lastError.SizeMismatch?
                                    || now.lastError.ResponseTooLarge?)
      ensures now.Rank() <= old(now).CheckReserve() + 6 * StagesLeft(next, |old(now).tagObjects|) - redirectCount
              || !now.hasReply
      decreases 1, 0
    {
      hide Updater.Coherent, Updater.StageReady, Updater.RequestAgrees, Updater.Failed, AllSafe, StagesLeft,
        PendingUpdateStore.Contained, PendingUpdateStore.PartName, AutoUpdateChecker.GivesUp, Updater.CheckReserve, ApprovedUrl;
      StageReadyFits(now, next);
      if !ApprovedUrl(url) || redirectCount > REDIRECT_LIMIT {
        FailedSettles(now, RedirectRejected);
        FailForActiveOperation(RedirectRejected);
        return;
      }
      RequestSettles(now, url, next, limit, redirectCount);
      RequestRank(now, url, next, limit, redirectCount);
      now := now.WithRequest(url, next, limit, redirectCount);
      // The reply may already declare a body that is too long.
      var declaredTooLarge: bool := *;
      if declaredTooLarge {
        var error := if next.FlatpakAsset? then SizeMismatch else ResponseTooLarge;
        FailedSettles(now.WithoutRequest(), error);
        HandleRequestFailure(error);
      }
    }

    method HandleRequestFailure(error: UpdateError)
      requires Sound() && now.Coherent() && (now.hasReply || now.stage.NoRequest?)
      modifies this`now, store`files
      ensures Valid()
      ensures !old(now).Superseded(error) ==> now == old(now).WithoutRequest().Failed(error)
      ensures !old(now).Superseded(error) && !old(now).state.Downloading? ==> store.files == old(store.files)
      ensures old(now).Superseded(error) ==> GivesUp(old(store.files))
      decreases if error.PublisherChanged? then 4 else 0, 1
    {
      hide Updater.FilesAgree, Updater.FlagsAgree, Updater.RequestAgrees, AllSafe, PendingUpdateStore.Contained,
        PendingUpdateStore.PartName, PendingUpdateStore.OnlyForgets, Updater.Failed, AutoUpdateChecker.GivesUp;
      WithoutRequestIsQuiet(now);
      now := now.WithoutRequest();
      FailForActiveOperation(error);
    }

    // ----- answers to requests -----

    /** The reply to a request of this stage has arrived and is about to be examined. */
    ghost predicate Examining(answered: RequestStage)
      reads this, store
    {
      Sound() && now.Coherent() && now.Quiet() && now.StageReady(answered)
    }

    method BeginStableCheck()
      requires Sound() && now.Coherent() && now.Quiet() && now.state.Checking?
      modifies this`now, store`files
      ensures Valid() && CheckedAgain(now.state) && now.KeepsPending(old(now))
      ensures now.hasReply ==> now.Asks(STABLE_RELEASES_URL, StableReleases, JSON_LIMIT)
      ensures now.userAsked ==> old(now).userAsked
    {
      IssueRequest(STABLE_RELEASES_URL, StableReleases, JSON_LIMIT, 0);
    }

    method FinishStableResponse(body: Bytes)
      requires Examining(StableReleases)
      modifies this`now, store`files
      ensures Valid() && !now.hasReply && now.Follows(old(now), 0)
      ensures match SelectStable(body)
              case Malformed => now == old(now).Failed(InvalidMetadata)
              case NoRelease => now.state.NoUpdate? && now.candidate == EMPTY_CANDIDATE
              case Release(version, page, newer) =>
                if newer then now.state.Available? && now.candidate == EMPTY_CANDIDATE.(releaseLabel := version, releasePage := page)
                else now.state.NoUpdate? && now.candidate == EMPTY_CANDIDATE
    {
      hide Updater.FilesAgree, Updater.FlagsAgree, Updater.RequestAgrees, Reduce, AllSafe,
        PendingUpdateStore.Contained, PendingUpdateStore.PartName;
      match SelectStable(body)
      case Malformed =>
        FailedSettles(now, InvalidMetadata);
        FailForActiveOperation(InvalidMetadata);
      case NoRelease =>
        CheckAnswerSettles(now, EMPTY_CANDIDATE, CandidateCurrent);
        now := now.CheckAnswered(EMPTY_CANDIDATE, CandidateCurrent);
      case Release(version, page, newer) =>
        var found := if newer then EMPTY_CANDIDATE.(releaseLabel := version, releasePage := page) else EMPTY_CANDIDATE;
        var event := if newer then CandidateAvailable else CandidateCurrent;
        CheckAnswerSettles(now, found, event);
        now := now.CheckAnswered(found, event);
    }

    method FinishRollingRelease(body: Bytes)
      requires Examining(RollingRelease)
      modifies this`now, store`files
      ensures Valid() && now.Follows(old(now), old(now).Allowance(RollingRelease))
      ensures now.hasReply ==>
                && ParseRelease(body) == Ok(now.release)
                && now.Asks(now.release.manifest.apiUrl, RollingManifest, MANIFEST_LIMIT)
      ensures !now.hasReply ==> now.state.CheckError?
    {
      hide Updater.Coherent, Updater.StageReady, Updater.RequestAgrees, Updater.Failed, Updater.FailedCheck,
        AllSafe, PendingUpdateStore.Contained, PendingUpdateStore.PartName, Updater.KeepsPending;
      StageReadyFits(now, RollingRelease);
      var parsed := ParseRelease(body);
      if parsed.Err? {
        FailedSettles(now, parsed.error);
        FailForActiveOperation(parsed.error);
        return;
      }
      ParsedIsFree(now, now.(release := parsed.value), RollingManifest);
      now := now.(release := parsed.value);
      IssueRequest(now.release.manifest.apiUrl, RollingManifest, MANIFEST_LIMIT, 0);
    }

    method FinishRollingManifest(body: Bytes)
      requires Examining(RollingManifest)
      modifies this`now, store`files
      ensures Valid() && now.Follows(old(now), old(now).Allowance(RollingManifest))
      ensures now.hasReply ==>
                && ParseManifest(body, old(now).release) == Ok(now.candidate) && now.tagObjects == []
                && now.Asks(ROLLING_TAG_REFERENCE_URL, RollingTagReference, JSON_LIMIT)
      ensures !now.hasReply ==> now.state.CheckError?
    {
      hide Updater.Coherent, Updater.StageReady, Updater.RequestAgrees, Updater.Failed, Updater.FailedCheck,
        AllSafe, PendingUpdateStore.Contained, PendingUpdateStore.PartName, Updater.KeepsPending;
      StageReadyFits(now, RollingManifest);
      var parsed := ParseManifest(body, now.release);
      if parsed.Err? {
        FailedSettles(now, parsed.error);
        FailForActiveOperation(parsed.error);
        return;
      }
      ParsedIsFree(now, now.(candidate := parsed.value), RollingTagReference);
      now := now.(candidate := parsed.value);
      BeginTagResolution(false);
    }

    method BeginTagResolution(revalidation: bool)
      requires Examining(if revalidation then RevalidateTagReference else RollingTagReference)
      modifies this`now, store`files
      ensures Valid()
      ensures now.Follows(old(now), old(now).CheckReserve() + 6 * (if revalidation then 17 else 18))
      ensures now.hasReply ==>
                && now.state == old(now).state && now.candidate == old(now).candidate && now.tagObjects == []
                && now.Asks(ROLLING_TAG_REFERENCE_URL,
                            if revalidation then RevalidateTagReference else RollingTagReference, JSON_LIMIT)
      ensures !now.hasReply ==> now.state == FailedState(old(now).state)
    {
      hide Updater.FilesAgree, Updater.FlagsAgree, Updater.RequestAgrees, Updater.StageReady, AllSafe,
        PendingUpdateStore.Contained, PendingUpdateStore.PartName;
      TagChainIsFree(now, now.NoTags(), revalidation);
      now := now.NoTags();
      IssueRequest(ROLLING_TAG_REFERENCE_URL, if revalidation then RevalidateTagReference else RollingTagReference,
                   JSON_LIMIT, 0);
    }

    method FinishTagReference(body: Bytes, revalidation: bool)
      requires Examining(if revalidation then RevalidateTagReference else RollingTagReference) && now.tagObjects == []
      modifies this, store`files
      ensures Valid() && OnlyIntended(old(handOffs), handOffs, old(now))
      ensures now.Follows(old(now), old(now).Allowance(if revalidation then RevalidateTagReference else RollingTagReference))
      ensures now.hasReply && (now.stage.RollingTagObjectRequest? || now.stage.RevalidateTagObjectRequest?) ==>
                && ParseTagReference(body) == Ok(now.tagReference) && now.tagObjects == []
                && now.requestUrl == GIT_TAG_OBJECT_PREFIX + now.tagReference.targetId
    {
      hide FileMatches, ObjectsHeard, AllSeen, ReleaseSeen, ManifestSeen, AllSafe, WellFormedGraph, ReachesCommit, Reaches,
        PendingUpdateStore.Contained, PendingUpdateStore.PartName, Updater.Failed, Updater.Superseded,
        Updater.NextTagId, Updater.Coherent, Updater.Settled, Updater.CheckReserve, Updater.WithTagReference,
        Updater.StageReady, ReferenceHeard, ResolvesTo, Updater.Quiet;
      StageReadyFits(now, if revalidation then RevalidateTagReference else RollingTagReference);
      var parsed := ParseTagReference(body);
      if parsed.Err? {
        FailTag(revalidation, parsed.error);
        return;
      }
      ReferenceTaken(now, body, parsed.value, revalidation);
      now := now.WithTagReference(body, parsed.value);
      if parsed.value.kind == "commit" {
        var resolution := ResolveTagCommit(now.tagReference, now.tagObjects);
        ConcludeTag(resolution, revalidation);
        return;
      }
      ResolveCurrentTagObject(revalidation);
    }

    /** A verification has ended with PublisherChanged: a persisted candidate is given up, any other can be retried. */
    ghost predicate PublisherGone(before: Updater, files: FileMap)
      reads this, store
    {
      if before.Superseded(PublisherChanged) then GivesUp(files) else now == before.Failed(PublisherChanged)
    }

    /** While revalidating, any defect of the tag means that the publisher has changed. */
    method FailTag(revalidation: bool, error: UpdateError)
      requires Sound() && now.Coherent() && now.Quiet()
      requires StageFits(now.state, if revalidation then RevalidateTagReference else RollingTagReference)
      modifies this`now, store`files
      ensures Valid() && now.Follows(old(now), old(now).CheckReserve())
      ensures now.hasReply ==> now.stage.RollingRelease?
      ensures !revalidation ==> now == old(now).Failed(error)
      ensures revalidation ==> PublisherGone(old(now), old(store.files))
    {
      hide Updater.FilesAgree, Updater.FlagsAgree, Updater.RequestAgrees, AllSafe,
        PendingUpdateStore.Contained, PendingUpdateStore.PartName;
      var reported := if revalidation then PublisherChanged else error;
      FailedSettles(now, reported);
      FailForActiveOperation(reported);
    }

    /** Asks for the next object of the chain, up to sixteen of them. */
    method ResolveCurrentTagObject(revalidation: bool)
      requires Sound() && now.Coherent() && now.Quiet() && |now.tagObjects| <= TAG_DEPTH_LIMIT
      requires ReferenceHeard(now.tagDocuments, now.tagReference)
      requires now.StageReady(if revalidation then RevalidateTagReference else RollingTagReference)
      modifies this`now, store`files
      ensures Valid()
      ensures now.Follows(old(now), old(now).CheckReserve()
                                    + 6 * ((if revalidation then 16 else 17) - |old(now).tagObjects|))
      ensures now.hasReply ==>
                && |old(now).tagObjects| < TAG_DEPTH_LIMIT && now.tagObjects == old(now).tagObjects
                && now.tagReference == old(now).tagReference
                && now.Asks(GIT_TAG_OBJECT_PREFIX + old(now).NextTagId(),
                            if revalidation then RevalidateTagObjectRequest else RollingTagObjectRequest, JSON_LIMIT)
    {
      hide Updater.Coherent, Updater.StageReady, Updater.RequestAgrees, Updater.Failed, Updater.FailedCheck,
        AllSafe, PendingUpdateStore.Contained, PendingUpdateStore.PartName, Updater.KeepsPending, ApprovedUrl;
      TagObjectStageReady(now, revalidation);
      var objectId := now.NextTagId();
      if |now.tagObjects| >= TAG_DEPTH_LIMIT {
        FailedSettles(now, InvalidMetadata);
        FailForActiveOperation(InvalidMetadata);
        return;
      }
      IssueRequest(GIT_TAG_OBJECT_PREFIX + objectId,
                   if revalidation then RevalidateTagObjectRequest else RollingTagObjectRequest, JSON_LIMIT, 0);
    }

    method FinishTagObject(body: Bytes, revalidation: bool)
      requires Examining(if revalidation then RevalidateTagObjectRequest else RollingTagObjectRequest)
      modifies this, store`files
      ensures Valid() && OnlyIntended(old(handOffs), handOffs, old(now))
      ensures now.Follows(old(now), old(now).Allowance(if revalidation then RevalidateTagObjectRequest else RollingTagObjectRequest))
      ensures now.hasReply && (now.stage.RollingTagObjectRequest? || now.stage.RevalidateTagObjectRequest?) ==>
                && ParseTagObject(body).Ok? && now.tagObjects == old(now).tagObjects + [ParseTagObject(body).value]
                && now.tagReference == old(now).tagReference
                && now.requestUrl == GIT_TAG_OBJECT_PREFIX + ParseTagObject(body).value.targetId
    {
      hide FileMatches, ObjectsHeard, AllSeen, ReleaseSeen, ManifestSeen, AllSafe, WellFormedGraph, ReachesCommit, Reaches,
        PendingUpdateStore.Contained, PendingUpdateStore.PartName, Updater.Failed, Updater.Superseded,
        Updater.NextTagId, Updater.Coherent, Updater.Settled, Updater.CheckReserve, Updater.WithTagObject,
        Updater.StageReady, ReferenceHeard, ResolvesTo, Updater.Quiet;
      StageReadyFits(now, if revalidation then RevalidateTagObjectRequest else RollingTagObjectRequest);
      var parsed := ParseTagObject(body);
      if parsed.Err? {
        FailTag(revalidation, parsed.error);
        return;
      }
      ObjectTaken(now, body, parsed.value, revalidation);
      now := now.WithTagObject(body, parsed.value);
      if parsed.value.kind == "tag" {
        ResolveCurrentTagObject(revalidation);
        return;
      }
      var resolution := ResolveTagCommit(now.tagReference, now.tagObjects);
      ConcludeTag(resolution, revalidation);
    }

    /** The chain has ended: bind the candidate to it, or hold the expected candidate against it. */
    method ConcludeTag(resolution: UpdateResult<TagResolution>, revalidation: bool)
      requires Sound() && now.Coherent() && now.Quiet()
      requires now.StageReady(if revalidation then RevalidateTagReference else RollingTagReference)
      requires ReferenceHeard(now.tagDocuments, now.tagReference)
      requires resolution.Ok? ==> ResolvesTo(now.tagReference, now.tagObjects, resolution.value)
      modifies this, store`files
      ensures Valid() && OnlyIntended(old(handOffs), handOffs, old(now))
      ensures now.Follows(old(now), old(now).CheckReserve() + if revalidation then 0 else 6)
      ensures now.hasReply ==> now.stage.RollingRelease? || now.stage.RollingCompare?
      ensures resolution.Err? ==> handOffs == old(handOffs)
      ensures resolution.Err? && revalidation ==> PublisherGone(old(now), old(store.files))
      ensures resolution.Err? && !revalidation ==> now == old(now).Failed(resolution.error)
      ensures resolution.Ok? && revalidation && MatchesTagResolution(old(now).expected, resolution.value).Err? ==>
                handOffs == old(handOffs) && PublisherGone(old(now), old(store.files))
      ensures resolution.Ok? && !revalidation && BindTagResolution(old(now).candidate, resolution.value).Err? ==>
                handOffs == old(handOffs) && now.state.CheckError?
    {
      hide FileMatches, AllSafe, BindTagResolution, MatchesTagResolution, AutoUpdateChecker.PublisherGone,
        PendingUpdateStore.Contained, PendingUpdateStore.PartName, Updater.FilesAgree,
        Updater.FlagsAgree, Updater.RequestAgrees, Updater.Failed, ReferenceHeard, ResolvesTo;
      if resolution.Err? {
        FailTag(revalidation, resolution.error);
      } else if revalidation {
        ConcludeRevalidation(resolution.value);
      } else {
        BindAndCompare(resolution.value);
      }
    }

    method ConcludeRevalidation(resolution: TagResolution)
      requires Examining(RevalidateTagReference)
      requires ReferenceHeard(now.tagDocuments, now.tagReference) && ResolvesTo(now.tagReference, now.tagObjects, resolution)
      modifies this, store`files
      ensures Valid() && OnlyIntended(old(handOffs), handOffs, old(now))
      ensures now.hasReply ==> now.stage.RollingRelease?
      ensures now.Follows(old(now), old(now).CheckReserve())
      ensures MatchesTagResolution(old(now).expected, resolution).Err? ==>
                handOffs == old(handOffs) && PublisherGone(old(now), old(store.files))
    {
      hide AutoUpdateChecker.PublisherGone, Updater.Coherent, Updater.StageReady, Updater.RequestAgrees, Updater.Failed,
        AllSafe, PendingUpdateStore.Contained, PendingUpdateStore.PartName, ReferenceHeard, ResolvesTo, TagSeen,
        MatchesTagResolution, Updater.CheckReserve, Updater.Quiet;
      StageReadyFits(now, RevalidateTagReference);
      var matched := MatchesTagResolution(now.expected, resolution);
      if matched.Err? {
        FailTag(true, matched.error);
        return;
      }
      TagIsResolved(now, resolution);
      now := now.WithTagResolved(resolution);
      FinishRevalidation();
    }

    method BindAndCompare(resolution: TagResolution)
      requires Examining(RollingTagReference)
      modifies this`now, store`files
      ensures Valid() && now.Follows(old(now), 6)
      ensures now.hasReply ==>
                && BindTagResolution(old(now).candidate, resolution) == Ok(now.candidate)
                && now.Asks(CompareUrl(SYSTEM.runningCommit, now.candidate.sourceCommit), RollingCompare, JSON_LIMIT)
      ensures !now.hasReply ==> now.state.CheckError?
    {
      hide Updater.Coherent, Updater.StageReady, Updater.RequestAgrees, Updater.Failed, Updater.FailedCheck,
        AllSafe, PendingUpdateStore.Contained, PendingUpdateStore.PartName, Updater.KeepsPending, BindTagResolution;
      StageReadyFits(now, RollingTagReference);
      var bound := BindTagResolution(now.candidate, resolution);
      if bound.Err? {
        FailedSettles(now, bound.error);
        FailTag(false, bound.error);
        return;
      }
      ParsedIsFree(now, now.(candidate := bound.value), RollingCompare);
      now := now.(candidate := bound.value);
      IssueRequest(CompareUrl(SYSTEM.runningCommit, now.candidate.sourceCommit), RollingCompare, JSON_LIMIT, 0);
    }

    method FinishCompare(body: Bytes)
      requires Examining(RollingCompare)
      modifies this`now, store`files
      ensures Valid() && !now.hasReply && now.Follows(old(now), 0)
      ensures now.state.Available? <==>
                && ParseCommitRelation(body).CandidateAhead?
                && FullLowerHex(SYSTEM.runningCommit, 40) && FullLowerHex(old(now).candidate.sourceCommit, 40)
                && old(now).candidate.sequence > SYSTEM.runningSequence
      ensures now.state.CheckError? <==> ParseCommitRelation(body).Unknown?
      ensures now.state.Available? || now.state.NoUpdate? || now.state.CheckError?
      ensures now.candidate == if now.state.Available? then old(now).candidate else EMPTY_CANDIDATE
    {
      hide Updater.Coherent, Updater.StageReady, Updater.Settled, AllSafe, PendingUpdateStore.Contained,
        PendingUpdateStore.PartName, FullLowerHex, AutoUpdateChecker.GivesUp, Updater.CheckAnswered, Updater.KeepsPending;
      StageReadyFits(now, RollingCompare);
      var relation := ParseCommitRelation(body);
      if relation.Unknown? {
        FailedSettles(now, InvalidMetadata);
        FailForActiveOperation(InvalidMetadata);
        return;
      }
      var installable := IsInstallable(SYSTEM.runningCommit, SYSTEM.runningSequence, now.candidate, relation);
      if installable.Err? {
        CheckAnswerSettles(now, EMPTY_CANDIDATE, CandidateCurrent);
        now := now.CheckAnswered(EMPTY_CANDIDATE, CandidateCurrent);
        return;
      }
      CheckAnswerSettles(now, now.candidate, CandidateAvailable);
      now := now.CheckAnswered(now.candidate, CandidateAvailable);
    }

    // ----- verification -----

    method BeginRevalidation(restoring: bool)
      requires Sound() && now.Coherent() && now.Quiet() && StartsVerification(now.state)
      requires restoring == now.state.RestoringPending?
      requires now.state.Verifying? ==> now.verifiedFile.Some?
      modifies this`now, store`files
      ensures Valid() && now.Follows(old(now), old(now).CheckReserve() + 114)
      ensures now.KeepsPending(old(now))
      ensures now.hasReply ==> now.state == old(now).state && now.Asks(ROLLING_RELEASE_URL, RevalidateRelease, JSON_LIMIT)
                               && now.installAfterVerification == old(now).installAfterVerification
      ensures !now.hasReply ==> now.state == FailedState(old(now).state) && !now.userAsked && !now.installAfterVerification
    {
      hide Updater.StageReady, Updater.Settled, AllSafe, PendingUpdateStore.Contained, PendingUpdateStore.PartName,
        Updater.CheckReserve, Updater.Failed;
      RevalidationBegins(now, restoring);
      now := now.(restoring := restoring).NoTags();
      IssueRequest(ROLLING_RELEASE_URL, RevalidateRelease, JSON_LIMIT, 0);
    }

    /** This record's text is on disk next to its intact payload, so it is what a later run will load. */
    ghost predicate KeptOnDisk(record: PendingRecord)
      reads store
    {
      && store.Kept(record)
      && (Lawful() ==> (store.Stored() == Some(record) && store.Loadable() <==> Dated(record.candidate)))
    }

    /** Release, manifest and tag have matched: keep or reopen the file, and let the session decide. */
    method FinishRevalidation()
      requires Examining(RevalidateTagReference) && TagSeen(now.evidence, now.expected)
      modifies this, store`files
      ensures Valid() && OnlyIntended(old(handOffs), handOffs, old(now))
      ensures now.hasReply ==> now.stage.RollingRelease?
      ensures now.Follows(old(now), old(now).CheckReserve())
      ensures (now.state.ReadyToHandOff? || now.state.ReadyForDesktop?) && handOffs == old(handOffs) ==>
                && now.expected == old(now).expected && !now.Persisted()
                && (old(now).restoring || old(now).Persisted() || KeptOnDisk(now.restoreRecord))
                && (!old(now).restoring && !old(now).Persisted() ==> now.restoreRecord.candidate == now.expected)
    {
      hide FileMatches, ObjectsHeard, TagSeen, Updater.FilesAgree, Updater.FlagsAgree, Updater.RequestAgrees, Updater.Settled,
        Updater.Verified, Updater.Failed, AllSafe, PendingUpdateStore.Contained, PendingUpdateStore.PartName,
        AutoUpdateChecker.KeptOnDisk;
      if now.restoring || now.Persisted() {
        RevalidatePersisted();
      } else {
        RestoringIsMarked(now);
        SaveAndConclude();
      }
    }

    /** A fresh download: keep a record of it first. */
    method SaveAndConclude()
      requires Examining(RevalidateTagReference) && TagSeen(now.evidence, now.expected)
      requires now.state.Verifying? && !now.Persisted()
      modifies this, store`files
      ensures Valid() && !now.hasReply && OnlyIntended(old(handOffs), handOffs, old(now))
      ensures now.userAsked ==> old(now).userAsked
      ensures (now.state.ReadyToHandOff? || now.state.ReadyForDesktop?) && handOffs == old(handOffs) ==>
                && now.expected == old(now).expected && !now.Persisted()
                && KeptOnDisk(now.restoreRecord) && now.restoreRecord.candidate == now.expected
    {
      hide FileMatches, ObjectsHeard, TagSeen, Updater.FilesAgree, Updater.FlagsAgree, Updater.RequestAgrees, Updater.Settled,
        Updater.Verified, Updater.StageReady, Updater.Failed, AllSafe, PendingUpdateStore.Contained,
        PendingUpdateStore.PartName, AutoUpdateChecker.KeptOnDisk;
      FreshFileIsThere(now);
      ghost var before := now;
      SaveVerifiedPending();
      if now.state.Verifying? {
        NothingLeftToProve(before, now);
        ghost var can := ConcludeVerification();
      }
    }

    method RevalidatePersisted()
      requires Examining(RevalidateTagReference) && TagSeen(now.evidence, now.expected)
      requires now.restoring || now.Persisted()
      modifies this, store`files
      ensures Valid() && OnlyIntended(old(handOffs), handOffs, old(now))
      ensures now.hasReply ==> now.stage.RollingRelease?
      ensures now.Follows(old(now), old(now).CheckReserve())
      ensures (now.state.ReadyToHandOff? || now.state.ReadyForDesktop?) && handOffs == old(handOffs) ==>
                && now.expected == old(now).expected && !now.Persisted() && now.verifiedFile.Some?
                && Reopens(old(store.files), old(now), now.verifiedFile.value, now.downloadedPath)
      ensures handOffs != old(handOffs) ==>
                exists h, path :: handOffs == old(handOffs) + [h] && Reopens(old(store.files), old(now), h.file, path)
    {
      hide FileMatches, ObjectsHeard, TagSeen, Updater.FilesAgree, Updater.FlagsAgree, Updater.RequestAgrees, Updater.Settled,
        Updater.Verified, Updater.StageReady, Updater.Failed, AllSafe, PendingUpdateStore.Contained,
        PendingUpdateStore.PartName, AutoUpdateChecker.Reopens;
      var file, path, error := ReopenPersisted();
      if file.None? {
        StageReadyFits(now, RevalidateTagReference);
        ReopenFailed(error);
        return;
      }
      NothingLeftToProve(now, now.WithVerified(file.value, path));
      now := now.WithVerified(file.value, path);
      ghost var can := ConcludeVerification();
    }

    /** Opened under the path its record keeps, with the record's size and digest, for the expected candidate. */
    ghost predicate Reopens(files: FileMap, before: Updater, file: OpenFile, path: string) {
      var r := before.restoreRecord;
      && SameCandidate(r.candidate, before.expected)
      && Verdict(store.downloads, files, r.canonicalPath, r.verifiedSize, r.verifiedSha256)
         == Ok(OpenVerifiedFile(file, path, r.verifiedSize, r.verifiedSha256))
    }

    method ReopenPersisted() returns (file: Option<OpenFile>, path: string, error: UpdateError)
      requires Sound()
      modifies store`files
      ensures Sound()
      ensures file.Some? ==> FileMatches(file.value, now.expected) && store.files == old(store.files)
      ensures file.Some? ==> Reopens(old(store.files), now, file.value, path)
      ensures file.None? ==> error in {InvalidMetadata, PublisherChanged, UnsafePath, SizeMismatch, DigestMismatch, IoFailure}
    {
      var reopened := store.ReopenAndVerify(now.restoreRecord, now.expected);
      if reopened.Err? {
        return None, "", reopened.error;
      }
      ReopenedMatches(now.restoreRecord, now.expected, reopened.value.file);
      return Some(reopened.value.file), reopened.value.canonicalPath, NoError;
    }

    /** A payload that no longer verifies is given up; one that cannot be read may be tried again. */
    method ReopenFailed(error: UpdateError)
      requires Examining(RevalidateTagReference)
      requires now.restoring || now.Persisted()
      modifies this`now, store`files
      ensures Valid() && now.Follows(old(now), old(now).CheckReserve())
      ensures now.hasReply ==> now.stage.RollingRelease?
      ensures !error.IoFailure? ==> now.ChecksAnew() && now.verifiedFile.None? && now.expected == EMPTY_CANDIDATE
      ensures error.IoFailure? ==> now == old(now).Failed(error) && now.state == FailedState(old(now).state)
    {
      hide Updater.FilesAgree, Updater.FlagsAgree, Updater.RequestAgrees, AllSafe, Updater.FailedVerification,
        PendingUpdateStore.Contained, PendingUpdateStore.PartName, ManifestSeen, ReleaseSeen, Updater.DownloadReady;
      if error.IoFailure? {
        FailedSettles(now, error);
        FailForActiveOperation(error);
        return;
      }
      if now.Persisted() {
        PersistedMeansVerifying(now);
        FailedVerificationSettles(now, error);
        now := now.FailedVerification(error);
      }
      InvalidatePendingAndCheck();
    }

    /** Keeps a record of the file just downloaded and verified. */
    method SaveVerifiedPending()
      requires Sound() && now.Coherent() && now.Quiet() && now.state.Verifying? && !now.Persisted()
      modifies this`now, store`files
      ensures Sound()
      ensures now.state.Verifying? ==>
                exists record :: now == old(now).(restoreRecord := record) && record.candidate == old(now).expected
                                 && record.canonicalPath == old(now).downloadedPath && old(now).verifiedFile.Some?
      ensures now.state.Verifying? ==> KeptOnDisk(now.restoreRecord)
      ensures !now.state.Verifying? ==>
                && Valid() && now == old(now).Failed(IoFailure)
                && now.state.VerificationError? && !now.hasReply && !now.userAsked
    {
      hide Updater.FilesAgree, Updater.FlagsAgree, Updater.RequestAgrees, AllSafe,
        PendingUpdateStore.Contained, PendingUpdateStore.PartName, AutoUpdateChecker.KeptOnDisk, Updater.Failed;
      FailedSettles(now, IoFailure);
      if now.verifiedFile.None? {
        FailForActiveOperation(IoFailure);
        return;
      }
      var record := PendingRecord(1, now.downloadedPath, now.expected, now.expected.flatpak.size, now.expected.flatpak.sha256);
      var saved := KeepRecord(record);
      if !saved {
        FailForActiveOperation(IoFailure);
        return;
      }
      now := now.(restoreRecord := record);
    }

    method KeepRecord(record: PendingRecord) returns (kept: bool)
      requires Sound()
      modifies store`files
      ensures Sound()
      ensures kept ==> KeptOnDisk(record)
    {
      hide AllSafe, PendingUpdateStore.Contained, PendingUpdateStore.PartName, PendingUpdateStore.StoredIn,
        PendingUpdateStore.LoadableIn, PendingUpdateStore.KeptIn, SerializeRecord, Lawful, Dated;
      kept := store.Save(record);
    }

    /** `can` is what the session allowed when the verification passed. */
    method ConcludeVerification() returns (ghost can: bool)
      requires Sound() && now.Verified()
      modifies this, store`files
      ensures Valid() && !now.hasReply && OnlyIntended(old(handOffs), handOffs, old(now))
      ensures now.userAsked ==> old(now).userAsked
      ensures handOffs == old(handOffs) ==> now.state.ReadyToHandOff? || now.state.ReadyForDesktop?
      ensures now.state.ReadyForDesktop? <==> !can
      ensures handOffs != old(handOffs) ==>
                && old(now).installAfterVerification && old(now).verifiedFile.Some?
                && exists h :: handOffs == old(handOffs) + [h] && h.file == old(now).verifiedFile.value
      ensures handOffs == old(handOffs) ==> now.KeepsPending(old(now)) && store.files == old(store.files)
    {
      hide Updater.FilesAgree, Updater.FlagsAgree, Updater.RequestAgrees, AllSafe, FileMatches, AllSeen,
        PendingUpdateStore.Contained, PendingUpdateStore.PartName, Updater.Concluded, InstallCapable;
      var capable, _ := CanInstallInCurrentSession();
      can := capable;
      var installRequested := now.installAfterVerification;
      ConcludedSettles(now, capable);
      now := now.Concluded(capable);
      if installRequested && now.state.ReadyToHandOff? {
        ghost var mode := OpenInstaller(false);
      }
    }

    // ----- the download -----

    /**
      The bytes are all there: compare the running digest, move the file to its final name, and hold
      it while the publisher is asked once more. The running digest is there by `Examining`.
     */
    method FinishFlatpakDownload()
      requires Examining(FlatpakAsset)
      modifies this`now, store`files
      ensures Valid() && now.Follows(old(now), old(now).Allowance(FlatpakAsset))
      ensures now.hasReply ==>
                && now.state.Verifying? && now.stage.RevalidateRelease? && !now.Persisted()
                && now.expected == old(now).candidate && now.verifiedFile.Some?
                && Sha256Hex(old(now).downloadHash.value) == now.expected.flatpak.sha256
    {
      hide Updater.FilesAgree, Updater.FlagsAgree, Updater.RequestAgrees, AllSafe, Updater.DownloadFinished,
        PendingUpdateStore.Contained, PendingUpdateStore.PartName;
      if now.bytesReceived != now.bytesTotal {
        FailedSettles(now, SizeMismatch);
        FailForActiveOperation(SizeMismatch);
        return;
      }
      var part := now.temporary;
      var digest := Sha256Hex(now.downloadHash.value);
      DownloadFinishedIsCoherent(now);
      now := now.DownloadFinished();
      if digest != now.candidate.flatpak.sha256 {
        store.DiscardTemporary(part);
        FailedSettles(now, DigestMismatch);
        FailForActiveOperation(DigestMismatch);
        return;
      }
      VerifyDownloaded(part);
    }

    method VerifyDownloaded(part: Option<Temporary>)
      requires Sound() && now.Coherent() && now.Quiet() && now.state.Verifying? && !now.Persisted()
      requires part.Some? ==> store.PartName(part.value.path)
      modifies this`now, store`files
      ensures Valid() && now.Follows(old(now), 114)
      ensures now.hasReply ==>
                && now.state.Verifying? && now.stage.RevalidateRelease? && !now.Persisted()
                && now.expected == old(now).candidate && now.verifiedFile.Some?
    {
      hide Updater.StageReady, Updater.Settled, AllSafe, PendingUpdateStore.Contained, PendingUpdateStore.PartName,
        Updater.Failed, FileMatches;
      var file, path, error := FinalizeDownloaded(part);
      if file.None? {
        FailedSettles(now, error);
        FailForActiveOperation(error);
        return;
      }
      now := now.(verifiedFile := file, downloadedPath := path, expected := now.candidate);
      BeginRevalidation(false);
    }

    method FinalizeDownloaded(part: Option<Temporary>) returns (file: Option<OpenFile>, path: string, error: UpdateError)
      requires Sound()
      requires part.Some? ==> store.PartName(part.value.path)
      modifies store`files
      ensures Sound()
      ensures file.Some? ==> FileMatches(file.value, now.candidate)
    {
      var verified := store.FinalizeAndVerify(part, now.candidate);
      if verified.Err? {
        return None, "", verified.error;
      }
      return Some(verified.value.file), verified.value.canonicalPath, NoError;
    }

    // ----- replies -----

    /** The body of a reply that succeeded goes to the step its stage belongs to. */
    method HandleRequestSuccess(answered: RequestStage, body: Bytes)
      requires Examining(answered) && now.ChainFits(answered)
      modifies this, store`files
      ensures Valid() && OnlyIntended(old(handOffs), handOffs, old(now))
      ensures now.Follows(old(now), old(now).Allowance(answered))
    {
      hide Updater.FilesAgree, Updater.FlagsAgree, Updater.RequestAgrees, AllSafe, Updater.DownloadReady,
        PendingUpdateStore.Contained, PendingUpdateStore.PartName, ReleaseSeen, ManifestSeen;
      match answered
      case StableReleases => FinishStableResponse(body);
      case RollingRelease => FinishRollingRelease(body);
      case RevalidateRelease => FinishRevalidateRelease(body);
      case FlatpakAsset => FinishFlatpakDownload();
      case RollingCompare => FinishCompare(body);
      case RollingTagReference => FinishTagReference(body, false);
      case RevalidateTagReference => FinishTagReference(body, true);
      case RollingTagObjectRequest => FinishTagObject(body, false);
      case RevalidateTagObjectRequest => FinishTagObject(body, true);
      case RollingManifest => FinishRollingManifest(body);
      case RevalidateManifest => FinishRevalidateManifest(body);
    }

    /** The publisher no longer says what is expected. */
    method Mismatch(error: UpdateError)
      requires Sound() && now.Coherent() && now.Quiet()
      modifies this`now, store`files
      ensures Valid() && now.Follows(old(now), old(now).CheckReserve())
      ensures now.hasReply ==> now.state.Checking?
    {
      hide Updater.FilesAgree, Updater.FlagsAgree, Updater.RequestAgrees, AllSafe, PendingUpdateStore.Contained,
        PendingUpdateStore.PartName, PendingUpdateStore.OnlyForgets;
      FailedSettles(now, error);
      HandleRequestFailure(error);
    }

    method FinishRevalidateRelease(body: Bytes)
      requires Examining(RevalidateRelease)
      modifies this`now, store`files
      ensures Valid() && now.Follows(old(now), old(now).Allowance(RevalidateRelease))
      ensures now.hasReply && !now.state.Checking? ==> MatchesRelease(old(now).expected, body).Ok?
    {
      hide Updater.Coherent, Updater.StageReady, Updater.RequestAgrees, Updater.Failed, Updater.FailedCheck,
        AllSafe, PendingUpdateStore.Contained, PendingUpdateStore.PartName, Updater.KeepsPending, MatchesRelease,
        AutoUpdateChecker.GivesUp;
      StageReadyFits(now, RevalidateRelease);
      var matched := MatchesRelease(now.expected, body);
      if matched.Err? {
        Mismatch(matched.error);
        return;
      }
      ReleaseIsHeard(now, body);
      now := now.WithReleaseHeard(body);
      IssueRequest(now.expected.manifest.apiUrl, RevalidateManifest, MANIFEST_LIMIT, 0);
    }

    method FinishRevalidateManifest(body: Bytes)
      requires Examining(RevalidateManifest)
      modifies this`now, store`files
      ensures Valid() && now.Follows(old(now), old(now).Allowance(RevalidateManifest))
      ensures now.hasReply && !now.state.Checking? ==> MatchesManifest(old(now).expected, body).Ok?
    {
      hide Updater.Coherent, Updater.StageReady, Updater.RequestAgrees, Updater.Failed, Updater.FailedCheck,
        AllSafe, PendingUpdateStore.Contained, PendingUpdateStore.PartName, Updater.KeepsPending, MatchesManifest,
        AutoUpdateChecker.GivesUp;
      StageReadyFits(now, RevalidateManifest);
      var matched := MatchesManifest(now.expected, body);
      if matched.Err? {
        Mismatch(matched.error);
        return;
      }
      ManifestIsHeard(now, body);
      now := now.WithManifestHeard(body);
      BeginTagResolution(true);
    }

    /**
      Takes in what has arrived, in chunks, and never more than the limit. Redirects and errors have
      their body discarded; a part file is written, hashed and counted alike.
     */
    method ConsumeReplyBody(available: Bytes, discard: bool)
      requires Valid() && now.hasReply
      modifies this`now, store`files
      ensures Valid()
      ensures discard ==> now == old(now)
      ensures now.hasReply && !discard ==> old(now).ReadsOf(available, now)
      ensures !now.hasReply ==> ReadingFailed(old(now), now) && !now.userAsked
      ensures now.hasReply ==>
                && now.Rank() == old(now).Rank() && now.userAsked == old(now).userAsked
                && now.installAfterVerification == old(now).installAfterVerification
    {
      hide Updater.Settled, AllSafe, PendingUpdateStore.Contained, PendingUpdateStore.PartName, Updater.ReadsOf,
        Updater.Rank;
      if discard {
        return;
      }
      if now.stage.FlatpakAsset? {
        ConsumeDownload(available);
      } else {
        ConsumeDocument(available);
      }
      if now.hasReply {
        ReadingKeeps(old(now), available, now);
      }
    }

    /** The body cannot be read on. */
    method StopReading(error: UpdateError, ghost before: Updater)
      requires Sound() && FailsLike(before, now) && !error.PublisherChanged?
      modifies this`now, store`files
      ensures Valid() && !now.hasReply && ReadingFailed(before, now)
    {
      hide AllSafe, PendingUpdateStore.Contained, PendingUpdateStore.PartName,
        Updater.FilesAgree, Updater.FlagsAgree, Updater.RequestAgrees, Updater.Failed;
      ReadingFails(before, now, error);
      HandleRequestFailure(error);
    }

    method ConsumeDocument(available: Bytes)
      requires Valid() && now.hasReply && !now.stage.FlatpakAsset?
      modifies this`now, store`files
      ensures Valid()
      ensures now.hasReply ==> old(now).ReadsOf(available, now)
      ensures !now.hasReply ==> ReadingFailed(old(now), now)
    {
      hide AllSafe, PendingUpdateStore.Contained, PendingUpdateStore.PartName, Updater.StageReady, Updater.Coherent,
        Updater.Settled, FailsLike, ReadingFailed, Updater.ReadsOf;
      DocumentWithinLimit(now);
      ghost var before := now;
      assert available[..0] == [];
      var taken := 0;
      while taken < |available|
        invariant 0 <= taken <= |available|
        invariant Sound()
        invariant now == before.Taken(available[..taken])
        invariant |now.responseBody| <= now.responseLimit
      {
        var readable: bool := *;
        if !readable {
          break;
        }
        var count := ChunkSize(|available| - taken, now.responseLimit - |now.responseBody|);
        var kept := TakeChunk(available[taken..taken + count], before, available[..taken]);
        if !kept {
          return;
        }
        assert available[..taken + count] == available[..taken] + available[taken..taken + count];
        taken := taken + count;
      }
      BodyIsReadOn(before, now);
      TakenReads(before, available, taken);
    }

    /** Adds one chunk to the document, unless it is one byte too long. */
    method TakeChunk(chunk: Bytes, ghost before: Updater, ghost done: Bytes) returns (kept: bool)
      requires Sound() && before.Settled() && before.hasReply && !before.stage.FlatpakAsset?
      requires now == before.Taken(done) && |now.responseBody| <= now.responseLimit
      modifies this`now, store`files
      ensures kept ==> Sound() && now == before.Taken(done + chunk) && |now.responseBody| <= now.responseLimit
      ensures !kept ==> Valid() && !now.hasReply && ReadingFailed(before, now)
    {
      hide AllSafe, PendingUpdateStore.Contained, PendingUpdateStore.PartName, Updater.StageReady, Updater.Coherent,
        Updater.Settled, FailsLike, ReadingFailed, Updater.ReadsOf;
      if |chunk| > now.responseLimit - |now.responseBody| {
        BodyIsReadOn(before, now);
        StopReading(ResponseTooLarge, before);
        return false;
      }
      TakenTwice(before, done, chunk);
      now := now.Taken(chunk);
      kept := true;
    }

    method ConsumeDownload(available: Bytes)
      requires Valid() && now.hasReply && now.stage.FlatpakAsset?
      modifies this`now, store`files
      ensures Valid()
      ensures now.hasReply ==> old(now).ReadsOf(available, now)
      ensures !now.hasReply ==> ReadingFailed(old(now), now)
    {
      hide AllSafe, PendingUpdateStore.Contained, PendingUpdateStore.PartName, Updater.StageReady, Updater.Coherent,
        Updater.Settled, FailsLike, ReadingFailed, Updater.ReadsOf, Updater.Downloaded;
      DownloadWithinLimit(now);
      ghost var before := now;
      assert available[..0] == [];
      var taken := 0;
      while taken < |available|
        invariant 0 <= taken <= |available|
        invariant Sound()
        invariant now == before.Downloaded(available[..taken])
        invariant now.downloadHash.Some? && now.bytesReceived == |now.downloadHash.value| <= now.responseLimit
      {
        var readable: bool := *;
        if !readable {
          break;
        }
        var count := ChunkSize(|available| - taken, now.responseLimit - now.bytesReceived);
        var kept := KeepChunk(available[taken..taken + count], before, available[..taken]);
        if !kept {
          return;
        }
        assert available[..taken + count] == available[..taken] + available[taken..taken + count];
        taken := taken + count;
      }
      DownloadedIs(before, available[..taken]);
      DownloadIsReadOn(before, now);
      DownloadedReads(before, available, taken);
    }

    /** Writes, hashes and counts one chunk, unless it is one byte too long or the disk refuses it. */
    method KeepChunk(chunk: Bytes, ghost before: Updater, ghost done: Bytes) returns (kept: bool)
      requires Sound() && before.Settled() && before.hasReply && before.stage.FlatpakAsset?
      requires before.downloadHash.Some? && before.temporary.Some?
      requires now == before.Downloaded(done) && now.bytesReceived == |now.downloadHash.value| <= now.responseLimit
      modifies this`now, store`files
      ensures kept ==> Sound() && now == before.Downloaded(done + chunk)
                       && now.downloadHash.Some? && now.bytesReceived == |now.downloadHash.value| <= now.responseLimit
      ensures !kept ==> Valid() && !now.hasReply && ReadingFailed(before, now)
    {
      hide AllSafe, PendingUpdateStore.Contained, PendingUpdateStore.PartName, Updater.StageReady, Updater.Coherent,
        Updater.Settled, FailsLike, ReadingFailed, Updater.ReadsOf, Updater.Downloaded;
      DownloadedIs(before, done);
      DownloadIsReadOn(before, now);
      if |chunk| > now.responseLimit - now.bytesReceived {
        StopReading(SizeMismatch, before);
        return false;
      }
      kept := WriteChunk(now.temporary.value, chunk);
      if !kept {
        StopReading(IoFailure, before);
        return;
      }
      DownloadedTwice(before, done, chunk);
      DownloadedIs(now, chunk);
      now := now.Downloaded(chunk);
    }

    method WriteChunk(part: Temporary, chunk: Bytes) returns (written: bool)
      requires Sound() && store.PartName(part.path)
      modifies store`files
      ensures Sound()
    {
      hide AllSafe, PendingUpdateStore.Contained, PendingUpdateStore.PartName;
      written := store.AppendTemporary(part, chunk);
    }

    function ChunkSize(available: nat, remaining: int): (count: nat)
      requires available > 0 && remaining >= 0
      ensures 0 < count <= available
    {
      var most := if available < remaining + 1 then available else remaining + 1;
      if most < READ_CHUNK_SIZE then most else READ_CHUNK_SIZE
    }

    /**
      A reply has ended. Whatever it says, the number of replies that may still follow goes down, and
      the installer is given a file only if the user had asked for that.
     */
    method HandleReplyFinished(reply: ReplyEnd)
      requires Valid()
      modifies this, store`files
      ensures Valid() && OnlyIntended(old(handOffs), handOffs, old(now))
      ensures old(now).hasReply ==> now.Follows(old(now), old(now).Rank() - 1)
      ensures !old(now).hasReply ==> now == old(now) && handOffs == old(handOffs)
    {
      hide Updater.Settled, AllSafe, PendingUpdateStore.Contained, PendingUpdateStore.PartName, Updater.Coherent,
        StagesLeft, Updater.CheckReserve, Updater.StageReady, ReadingFailed, Updater.ReadsOf, Updater.Quiet;
      if !now.hasReply {
        return;
      }
      ReplyTaken(now);
      ConsumeReplyBody(reply.available, reply.Discarded());
      if !now.hasReply {
        return;
      }
      ConcludeReply(reply);
    }

    /** The body has been taken in: follow a redirect, fail, or go on to the next step. */
    method ConcludeReply(reply: ReplyEnd)
      requires Valid() && now.hasReply
      modifies this, store`files
      ensures Valid() && OnlyIntended(old(handOffs), handOffs, old(now))
      ensures now.Follows(old(now), old(now).Rank() - 1)
      ensures reply.redirect.Some? && now.hasReply ==>
                && old(now).redirects < REDIRECT_LIMIT
                && now == old(now).WithoutRequest().WithRequest(
                            reply.redirect.value, old(now).stage, old(now).responseLimit, old(now).redirects + 1)
      ensures reply.redirect.Some? && !now.hasReply ==> now.state == FailedState(old(now).state)
      ensures reply.redirect.None? && !(reply.Successful() && !reply.networkError) ==>
                now == old(now).WithoutRequest().Failed(
                         if reply.status == 403 && reply.rateLimited then RateLimited else HttpFailure)
    {
      hide Updater.Coherent, Updater.Settled, Updater.StageReady, AllSafe, PendingUpdateStore.Contained,
        PendingUpdateStore.PartName, Updater.Failed, StagesLeft, Updater.CheckReserve, Updater.KeepsPending,
        Updater.WithoutRequest, Updater.WithRequest, Updater.Rank, Updater.Allowance;
      ReplyTaken(now);
      var answered, limit, redirects, body := now.stage, now.responseLimit, now.redirects, now.responseBody;
      now := now.WithoutRequest();
      if reply.redirect.Some? {
        FollowRedirect(reply.redirect.value, answered, limit, redirects);
      } else {
        UseBody(reply, answered, body);
      }
    }

    method UseBody(reply: ReplyEnd, answered: RequestStage, body: Bytes)
      requires Examining(answered) && now.ChainFits(answered) && Busy(now.state)
      modifies this, store`files
      ensures Valid() && OnlyIntended(old(handOffs), handOffs, old(now))
      ensures now.Follows(old(now), if reply.Successful() && !reply.networkError then old(now).Allowance(answered) else 0)
      ensures !(reply.Successful() && !reply.networkError) ==>
                now == old(now).Failed(if reply.status == 403 && reply.rateLimited then RateLimited else HttpFailure)
    {
      hide Updater.Coherent, Updater.Settled, Updater.StageReady, AllSafe, PendingUpdateStore.Contained,
        PendingUpdateStore.PartName, Updater.Failed, StagesLeft, Updater.CheckReserve, Updater.KeepsPending;
      if !reply.Successful() {
        Refuse(if reply.status == 403 && reply.rateLimited then RateLimited else HttpFailure);
      } else if reply.networkError {
        Refuse(HttpFailure);
      } else {
        HandleRequestSuccess(answered, body);
      }
    }

    method FollowRedirect(target: string, answered: RequestStage, limit: int, redirects: nat)
      requires Examining(answered) && now.ChainFits(answered) && Busy(now.state)
      requires if answered.FlatpakAsset? then limit == now.bytesTotal else limit >= 0
      modifies this`now, store`files
      ensures Valid()
      ensures now.hasReply ==>
                && redirects < REDIRECT_LIMIT
                && now == old(now).WithRequest(target, answered, limit, redirects + 1)
                && now.Rank() <= old(now).CheckReserve() + 6 * StagesLeft(answered, |old(now).tagObjects|) - redirects - 1
                && now.userAsked == old(now).userAsked
      ensures !now.hasReply ==> now.state == FailedState(old(now).state) && !now.userAsked && now.Rank() <= 0
    {
      hide Updater.Coherent, Updater.Settled, Updater.StageReady, AllSafe, PendingUpdateStore.Contained,
        PendingUpdateStore.PartName, Updater.Failed, StagesLeft, Updater.CheckReserve, Updater.KeepsPending;
      if redirects >= REDIRECT_LIMIT || !ApprovedUrl(target) {
        Refuse(RedirectRejected);
      } else {
        IssueRequest(target, answered, limit, redirects + 1);
      }
    }

    /** The reply is no use. */
    method Refuse(error: UpdateError)
      requires Sound() && now.Coherent() && now.Quiet() && Busy(now.state) && !error.PublisherChanged?
      modifies this`now, store`files
      ensures Valid() && now == old(now).Failed(error)
      ensures !now.hasReply && !now.userAsked && now.state == FailedState(old(now).state)
    {
      hide Updater.FilesAgree, Updater.FlagsAgree, Updater.RequestAgrees, AllSafe, PendingUpdateStore.Contained,
        PendingUpdateStore.PartName, Updater.Failed;
      FailedSettles(now, error);
      HandleRequestFailure(error);
    }

    method HandleReplyReadyRead(available: Bytes, discard: bool)
      requires Valid()
      modifies this`now, store`files
      ensures Valid() && now.Follows(old(now), old(now).Rank())
      ensures !old(now).hasReply ==> now == old(now)
    {
      hide Updater.Settled, AllSafe, PendingUpdateStore.Contained, PendingUpdateStore.PartName, Updater.Coherent,
        StagesLeft, Updater.CheckReserve, Updater.StageReady, ReadingFailed, Updater.ReadsOf, Updater.Quiet;
      if now.hasReply {
        ReplyTaken(now);
        ConsumeReplyBody(available, discard);
      }
    }

    /** A declared body that is too long, or has no readable length, ends the request at once. */
    method HandleReplyMetadata(declared: Declared)
      requires Valid()
      modifies this`now, store`files
      ensures Valid() && now.Follows(old(now), old(now).Rank())
      ensures now == if old(now).hasReply && declared.TooLong(old(now).responseLimit) then
                       old(now).WithoutRequest().Failed(
                         if old(now).stage.FlatpakAsset? then SizeMismatch else ResponseTooLarge)
                     else old(now)
    {
      hide Updater.Coherent, Updater.Settled, Updater.StageReady, AllSafe, PendingUpdateStore.Contained,
        PendingUpdateStore.PartName, Updater.Failed, StagesLeft, Updater.CheckReserve;
      if now.hasReply && declared.TooLong(now.responseLimit) {
        ReplyTaken(now);
        var error := if now.stage.FlatpakAsset? then SizeMismatch else ResponseTooLarge;
        now := now.WithoutRequest();
        Refuse(error);
      }
    }

    /** Any of the three timers. */
    method HandleTimeout()
      requires Valid()
      modifies this`now, store`files
      ensures Valid() && now.Follows(old(now), old(now).Rank())
      ensures now == if old(now).hasReply then old(now).WithoutRequest().Failed(Timeout) else old(now)
    {
      hide Updater.Coherent, Updater.Settled, Updater.StageReady, AllSafe, PendingUpdateStore.Contained,
        PendingUpdateStore.PartName, Updater.Failed, StagesLeft, Updater.CheckReserve;
      if now.hasReply {
        ReplyTaken(now);
        now := now.WithoutRequest();
        Refuse(Timeout);
      } else {
        QuietIgnoresFailure(now, Timeout);
        HandleRequestFailure(Timeout);
      }
    }

    // ----- hand-off -----

    /**
      The one place a file is given to the installer. The session is read again here, and the file
      is open and read-only by `Valid`, so it needs no check of its own.
     */
    method OpenInstaller(ghost explicit: bool) returns (ghost mode: SessionMode)
      requires Valid() && (explicit || now.userAsked)
      modifies this, store`files
      ensures Valid() && now.hasReply == old(now).hasReply && (now.userAsked ==> old(now).userAsked)
      ensures now.installAfterVerification ==> old(now).installAfterVerification
      ensures handOffs == if old(now).state.ReadyToHandOff? && InstallCapable(mode, installsDirectly) then
                            old(handOffs) + [old(now).AsHandOff(mode, explicit)]
                          else old(handOffs)
      ensures handOffs == old(handOffs) ==> now == old(now) && store.files == old(store.files)
      ensures !now.state.ReadyForDesktop? || old(now).state.ReadyForDesktop?
    {
      mode := UnknownSession;
      if !now.state.ReadyToHandOff? {
        return;
      }
      hide Updater.FilesAgree, Updater.FlagsAgree, Updater.RequestAgrees, AllSafe, FileMatches, AllSeen,
        PendingUpdateStore.Contained, PendingUpdateStore.PartName, InstallCapable, Updater.HandOffBegun, Updater.Settled;
      var can, current := CanInstallInCurrentSession();
      mode := current;
      if !can {
        return;
      }
      GiveFile(mode, explicit);
      AwaitAnswer();
    }

    /** The installer may answer before the call to it returns. */
    method AwaitAnswer()
      requires Valid() && now.state.HandingOff?
      modifies this`now, store`files
      ensures Valid() && now.hasReply == old(now).hasReply && (now.userAsked ==> old(now).userAsked)
      ensures now.installAfterVerification ==> old(now).installAfterVerification
      ensures !now.state.ReadyForDesktop?
    {
      hide Updater.Settled, Updater.Answered, AllSafe, PendingUpdateStore.Contained, PendingUpdateStore.PartName;
      var answered: bool := *;
      if answered {
        var answer: PortalAnswer := *;
        HandlePortalResponse(answer);
      }
    }

    /** InstallerPortal::openFlatpak is called here and nowhere else. */
    method GiveFile(ghost mode: SessionMode, ghost explicit: bool)
      requires Valid() && now.state.ReadyToHandOff? && InstallCapable(mode, installsDirectly)
      requires explicit || now.userAsked
      modifies this
      ensures Valid() && now == old(now).HandOffBegun() && now.state.HandingOff? && !now.hasReply
      ensures handOffs == old(handOffs) + [old(now).AsHandOff(mode, explicit)]
      ensures now.userAsked == old(now).userAsked && now.installAfterVerification == old(now).installAfterVerification
    {
      hide Updater.FilesAgree, Updater.FlagsAgree, Updater.RequestAgrees, AllSafe, FileMatches, AllSeen,
        PendingUpdateStore.Contained, PendingUpdateStore.PartName, InstallCapable, Updater.HandOffBegun;
      HandOffIsSafe(now, mode, installsDirectly, explicit, handOffs);
      handOffs := handOffs + [now.AsHandOff(mode, explicit)];
      now := now.HandOffBegun();
    }

    method HandlePortalResponse(answer: PortalAnswer)
      requires Valid()
      modifies this`now, store`files
      ensures Valid() && now.hasReply == old(now).hasReply && (now.userAsked ==> old(now).userAsked)
      ensures now.installAfterVerification ==> old(now).installAfterVerification
      ensures now.Rank() == old(now).Rank()
      ensures now == if old(now).state.HandingOff? then old(now).Answered(answer, installsDirectly) else old(now)
      ensures old(now).state.HandingOff? ==> now.state == AnsweredState(answer, installsDirectly)
    {
      hide Updater.FilesAgree, Updater.FlagsAgree, Updater.RequestAgrees, AllSafe, Updater.Answered,
        PendingUpdateStore.Contained, PendingUpdateStore.PartName;
      if !now.state.HandingOff? {
        return;
      }
      AnsweredSettles(now, answer, installsDirectly);
      if answer.accepted && installsDirectly {
        ClearStore(true);
      }
      now := now.Answered(answer, installsDirectly);
    }

    // ----- what the user does -----

    /** A check begins, unless something else is going on; the verified file and its candidate stay. */
    method CheckNow()
      requires Valid()
      modifies this`now, store`files
      ensures Valid() && (now.userAsked ==> old(now).userAsked)
      ensures !old(now).MayCheck() ==> now == old(now)
      ensures old(now).MayCheck() ==>
                && now.verifiedFile == old(now).verifiedFile && now.expected == old(now).expected
                && !now.userAsked && !now.Persisted()
                && (CheckedAgain(now.state) || now.state.NoUpdate?)
                && (now.hasReply ==>
                      if rollingSupported then now.Asks(ROLLING_RELEASE_URL, RollingRelease, JSON_LIMIT)
                      else now.Asks(STABLE_RELEASES_URL, StableReleases, JSON_LIMIT))
                && (now.state.NoUpdate? <==> !rollingSupported && !stableSupported)
    {
      hide Updater.FilesAgree, Updater.FlagsAgree, Updater.RequestAgrees, Updater.StageReady, AllSafe,
        PendingUpdateStore.Contained, PendingUpdateStore.PartName, Updater.CheckBegun, Reduce;
      if !now.MayCheck() {
        return;
      }
      CheckBegins(now);
      now := now.CheckBegun();
      if rollingSupported {
        BeginRollingCheck();
      } else if stableSupported {
        BeginStableCheck();
      } else {
        CheckAnswerSettles(now, now.candidate, CandidateCurrent);
        now := now.CheckAnswered(now.candidate, CandidateCurrent);
      }
    }

    method DownloadUpdate()
      requires Valid()
      modifies this`now, store`files
      ensures Valid() && (now.userAsked ==> old(now).userAsked)
      ensures now.installAfterVerification ==> old(now).installAfterVerification
      ensures !(old(now).state.Available? && rollingSupported) ==> now == old(now)
      ensures old(now).state.Available? && rollingSupported ==> now.KeepsPending(old(now))
      ensures old(now).state.Available? && rollingSupported && now.hasReply ==>
                && now.state.Downloading? && now.candidate == old(now).candidate
                && now.Asks(now.candidate.flatpak.apiUrl, FlatpakAsset, now.candidate.flatpak.size)
                && now.downloadHash == Some([]) && now.bytesReceived == 0
      ensures old(now).state.Available? && rollingSupported && !now.hasReply ==> now.state.DownloadError?
    {
      hide Updater.FilesAgree, Updater.FlagsAgree, Updater.RequestAgrees, Updater.StageReady, AllSafe,
        PendingUpdateStore.Contained, PendingUpdateStore.PartName, Updater.DownloadBegun, Updater.Failed, Reduce;
      if !now.state.Available? || now.hasReply || !rollingSupported {
        return;
      }
      DownloadBegins(now);
      now := now.DownloadBegun();
      var part, error := CreatePart(now.candidate.flatpak.size);
      if part.None? {
        FailedSettles(now, error);
        now := now.Failed(error);
        return;
      }
      now := now.Receiving(part.value);
      IssueRequest(now.candidate.flatpak.apiUrl, FlatpakAsset, now.candidate.flatpak.size, 0);
    }

    method CreatePart(size: uint64) returns (part: Option<Temporary>, error: UpdateError)
      requires Sound()
      modifies store`files
      ensures Sound()
      ensures part.Some? ==> store.PartName(part.value.path)
    {
      hide AllSafe, PendingUpdateStore.Contained, PendingUpdateStore.PartName;
      var space: nat :| space <= INT64_MAX;
      var created := store.CreateDownload(size, space);
      return match created case Ok(part) => Some(part) case Err(_) => None,
             if created.Err? then created.error else NoError;
    }

    /** The user wants the update installed: fetch it, ask again about it, or hand it over. */
    method InstallUpdate() returns (ghost mode: SessionMode)
      requires Valid()
      modifies this, store`files
      ensures Valid()
      ensures !(rollingSupported && (old(now).state.Available? || old(now).state.ReadyToHandOff?)) ==>
                now == old(now) && handOffs == old(handOffs)
      ensures handOffs == old(handOffs)
              || (old(now).state.ReadyToHandOff? && exists h :: handOffs == old(handOffs) + [h] && h.explicit)
      ensures rollingSupported && old(now).state.Available? ==> now.state.Downloading? || now.state.DownloadError?
      ensures rollingSupported && (old(now).state.Available? || old(now).state.ReadyToHandOff?) && now.installAfterVerification ==>
                installsDirectly && InstallCapable(mode, installsDirectly)
    {
      hide Updater.FilesAgree, Updater.FlagsAgree, Updater.RequestAgrees, Updater.StageReady, AllSafe,
        PendingUpdateStore.Contained, PendingUpdateStore.PartName, Updater.Settled, Updater.Wished, InstallCapable;
      mode := UnknownSession;
      if !rollingSupported || (!now.state.Available? && !now.state.ReadyToHandOff?) {
        return;
      }
      var can, current := CanInstallInCurrentSession();
      mode := current;
      var install := installsDirectly && can;
      WishedSettles(now, install);
      now := now.Wished(install);
      if now.state.Available? {
        DownloadUpdate();
      } else if install {
        RetryReady();
      } else {
        ghost var _ := OpenInstaller(true);
      }
    }

    /** Work in progress stops and nothing of it is kept; a pending update is given up as well. */
    method Cancel()
      requires Valid()
      modifies this`now, store`files
      ensures Valid()
      ensures now == if old(now).Cancellable() then old(now).CancelledNow() else old(now)
      ensures old(now).Cancellable() ==> now.state.Cancelled? && now.verifiedFile.None? && !now.hasReply && !now.userAsked
    {
      hide Updater.FilesAgree, Updater.FlagsAgree, Updater.RequestAgrees, AllSafe, Updater.CancelledNow,
        PendingUpdateStore.Contained, PendingUpdateStore.PartName, Updater.Settled;
      if !now.Cancellable() {
        return;
      }
      CancelSettles(now);
      DiscardPart();
      if now.CancelsPending() {
        ClearStore(true);
      }
      now := now.CancelledNow();
    }

    method DiscardPendingUpdate()
      requires Valid()
      modifies this`now, store`files
      ensures Valid()
      ensures now == if old(now).Cancellable() then old(now).CancelledNow()
                     else if old(now).state.HandOffRequested? || old(now).state.HandOffError? then old(now).Discarded()
                     else old(now)
      ensures now.userAsked ==> old(now).userAsked
    {
      hide Updater.FilesAgree, Updater.FlagsAgree, Updater.RequestAgrees, AllSafe, Updater.CancelledNow,
        PendingUpdateStore.Contained, PendingUpdateStore.PartName, Updater.Settled, Updater.Discarded;
      if now.Cancellable() {
        Cancel();
      } else if now.state.HandOffRequested? || now.state.HandOffError? {
        DiscardSettles(now);
        ClearStore(true);
        now := now.Discarded();
      }
    }

    /** Tries again, in the way that fits what failed. */
    method RetryWork()
      requires Valid()
      modifies this`now, store`files
      ensures Valid()
      ensures now.userAsked ==> old(now).userAsked || old(now).state.HandOffRequested? || old(now).state.HandOffError?
      ensures old(now).state.HandingOff? ==> now == old(now)
    {
      hide Updater.FilesAgree, Updater.FlagsAgree, Updater.RequestAgrees, AllSafe,
        PendingUpdateStore.Contained, PendingUpdateStore.PartName, Updater.Settled;
      if now.state.CheckError?
         || ((now.state.DownloadError? || now.state.VerificationError?) && now.lastError.PublisherChanged?) {
        CheckNow();
      } else if now.state.DownloadError? || now.state.VerificationError? {
        RetryDownload();
      } else if now.state.RestoreError? {
        RetryRestoration();
      } else if now.state.HandOffError? || now.state.HandOffRequested? {
        ghost var _ := RetryHandOff();
      } else if now.state.ReadyForDesktop? || now.state.ReadyToHandOff? {
        RetryReady();
      }
    }

    /** A verified file only needs the publisher asked again; otherwise the update is on offer again. */
    method RetryDownload()
      requires Valid() && (now.state.DownloadError? || now.state.VerificationError?)
      modifies this`now, store`files
      ensures Valid() && (now.userAsked ==> old(now).userAsked) && now.KeepsPending(old(now))
      ensures if old(now).state.VerificationError? && old(now).verifiedFile.Some? then
                now.state.Verifying? || now.state.VerificationError?
              else now == old(now).Retried() && now.state.Available?
    {
      hide Updater.FilesAgree, Updater.RequestAgrees, AllSafe, Updater.Retried, Updater.VerifyingAgain,
        PendingUpdateStore.Contained, PendingUpdateStore.PartName;
      RetriedSettles(now);
      if now.retryOrigin.VerificationRetry? && now.verifiedFile.Some? {
        VerifyingAgainIsReady(now);
        now := now.VerifyingAgain();
        BeginRevalidation(false);
      } else {
        now := now.Retried();
      }
    }

    /** `mode` is the session read for the wish. */
    method RetryHandOff() returns (ghost mode: SessionMode)
      requires Valid() && (now.state.HandOffError? || now.state.HandOffRequested?)
      modifies this`now, store`files
      ensures Valid() && now.expected == old(now).expected
      ensures now.hasReply ==> now.state.Verifying? && now.Asks(ROLLING_RELEASE_URL, RevalidateRelease, JSON_LIMIT)
                               && now.Persisted()
      ensures !now.hasReply ==> now.state.VerificationError? && !now.installAfterVerification
      ensures now.hasReply ==> (now.installAfterVerification <==> installsDirectly && InstallCapable(mode, installsDirectly))
    {
      hide Updater.FilesAgree, Updater.FlagsAgree, Updater.RequestAgrees, AllSafe, Updater.Retried,
        PendingUpdateStore.Contained, PendingUpdateStore.PartName, InstallCapable;
      var can, current := CanInstallInCurrentSession();
      mode := current;
      HandOffRetriedIsReady(now, installsDirectly && can);
      now := now.HandOffRetried(installsDirectly && can);
      BeginRevalidation(false);
    }

    method RetryReady()
      requires Valid() && (now.state.ReadyForDesktop? || now.state.ReadyToHandOff?)
      modifies this`now, store`files
      ensures Valid() && now.expected == old(now).expected && (now.userAsked ==> old(now).userAsked)
      ensures now.hasReply ==> now.state.Verifying? && now.Asks(ROLLING_RELEASE_URL, RevalidateRelease, JSON_LIMIT)
                               && now.Persisted() && now.installAfterVerification == old(now).installAfterVerification
      ensures !now.hasReply ==> now.state.VerificationError? && !now.installAfterVerification
    {
      hide Updater.FilesAgree, Updater.FlagsAgree, Updater.RequestAgrees, AllSafe, Updater.Retried,
        PendingUpdateStore.Contained, PendingUpdateStore.PartName;
      ReadyRetriedIsReady(now);
      now := now.ReadyRetried();
      BeginRevalidation(false);
    }

    method RetryRestoration()
      requires Valid() && now.state.RestoreError?
      modifies this`now, store`files
      ensures Valid() && (now.userAsked ==> old(now).userAsked)
      ensures !old(now).reloadPendingRecord ==>
                && now.expected == old(now).expected && now.restoreRecord == old(now).restoreRecord
                && (now.state.RestoringPending? || now.state.RestoreError?)
      ensures now.state.RestoringPending? || now.state.RestoreError? || now.state.NoUpdate? || CheckedAgain(now.state)
    {
      hide Updater.FilesAgree, Updater.FlagsAgree, Updater.RequestAgrees, AllSafe, Updater.Retried,
        PendingUpdateStore.Contained, PendingUpdateStore.PartName;
      RestoreRetriedIsReady(now);
      now := now.Retried();
      if now.reloadPendingRecord {
        ReloadRecord();
      } else {
        BeginRevalidation(true);
      }
    }

    method ReloadRecord()
      requires Sound() && now.Coherent() && now.Quiet() && now.state.RestoringPending?
      modifies this`now, store`files
      ensures Valid() && (now.userAsked ==> old(now).userAsked)
      ensures now.state.RestoringPending? || now.state.RestoreError? || now.state.NoUpdate? || CheckedAgain(now.state)
    {
      hide Updater.FilesAgree, Updater.FlagsAgree, Updater.RequestAgrees, AllSafe, Updater.Retried,
        PendingUpdateStore.Contained, PendingUpdateStore.PartName, Updater.Salvaged;
      var loaded := LoadRecord();
      if loaded.LoadFailed? && !loaded.error.IoFailure? {
        InvalidatePendingAndCheck();
      } else {
        TakeUp(loaded);
      }
    }

    method LoadRecord() returns (loaded: LoadResult)
      requires Sound()
      modifies store`files
      ensures Sound()
      ensures loaded.Loaded? ==> store.Loadable() && store.Stored() == Some(loaded.record)
    {
      hide AllSafe, PendingUpdateStore.Contained, PendingUpdateStore.PartName;
      loaded := store.Load();
    }

    /** What a load that was not refused leads to: waiting, being up to date, or asking the publisher. */
    method TakeUp(loaded: LoadResult)
      requires Sound() && now.Coherent() && now.Quiet() && now.state.RestoringPending?
      requires loaded.LoadFailed? ==> loaded.error.IoFailure?
      modifies this`now, store`files
      ensures Valid() && (now.userAsked ==> old(now).userAsked)
      ensures loaded.LoadFailed? ==> now == old(now).Salvaged(loaded.salvaged).Failed(IoFailure) && now.state.RestoreError?
      ensures loaded.Loaded? && loaded.record.candidate.sourceCommit == SYSTEM.runningCommit ==> now.state.NoUpdate?
      ensures loaded.Loaded? && loaded.record.candidate.sourceCommit != SYSTEM.runningCommit ==>
                && (now.state.RestoringPending? || now.state.RestoreError?)
                && now.expected == loaded.record.candidate && now.restoreRecord == loaded.record
    {
      hide Updater.FilesAgree, Updater.FlagsAgree, Updater.RequestAgrees, AllSafe, Updater.Failed, Reduce,
        PendingUpdateStore.Contained, PendingUpdateStore.PartName, Updater.Salvaged, Updater.TakenUp;
      match loaded
      case LoadFailed(_, salvaged) =>
        RestoringMayChange(now, salvaged);
        now := now.Salvaged(salvaged);
        FailedSettles(now, IoFailure);
        now := now.Failed(IoFailure);
      case Loaded(record) =>
        RestoringMayChange(now, record);
        if record.candidate.sourceCommit == SYSTEM.runningCommit {
          ClearStore(false);
          now := now.(candidate := EMPTY_CANDIDATE, reloadPendingRecord := false).Transition(CandidateCurrent);
        } else {
          now := now.TakenUp(record);
          BeginRevalidation(true);
        }
    }

    /** At start-up: take up a pending update, or check for a new one. */
    method Start(clock: int)
      requires Valid()
      modifies this`now, store`files
      ensures Valid() && (now.userAsked ==> old(now).userAsked)
      ensures !old(now).state.Idle? ==> now == old(now)
      ensures old(now).state.Idle? ==>
                now.state.RestoringPending? || now.state.RestoreError? || now.state.NoUpdate? || CheckedAgain(now.state)
      ensures now.state.RestoringPending? && old(now).state.Idle? ==>
                now.expected == now.restoreRecord.candidate && now.expected.sourceCommit != SYSTEM.runningCommit
    {
      hide Updater.FilesAgree, Updater.FlagsAgree, Updater.RequestAgrees, AllSafe, Reduce,
        PendingUpdateStore.Contained, PendingUpdateStore.PartName;
      if !now.state.Idle? {
        return;
      }
      IdleMayCheck(now);
      if !rollingSupported {
        CheckNow();
        return;
      }
      CleanParts(clock);
      var loaded := LoadRecord();
      if loaded.LoadFailed? && !loaded.error.IoFailure? {
        ClearStore(false);
        CheckNow();
        return;
      }
      RestoreBegins(now, loaded.LoadFailed?);
      now := now.RestoreBegun(loaded.LoadFailed?);
      TakeUp(loaded);
    }

    method CleanParts(clock: int)
      requires Sound()
      modifies store`files
      ensures Sound()
    {
      hide AllSafe, PendingUpdateStore.Contained, PendingUpdateStore.PartName;
      store.CleanStaleParts(clock);
    }

    // ----- every run -----

    /**
      One input. Outside the user's actions the replies still to come only get fewer, one fewer with
      each that ends; without a request to install, no file goes out that was not already wanted; and
      once a file has gone out, nothing happens before the installer has answered.
     */
    method Handle(input: Input)
      requires Valid()
      modifies this, store`files
      ensures Valid()
      ensures !input.IsAction() ==>
                now.Rank() + (if input.ReplyFinished? && old(now).hasReply then 1 else 0) <= old(now).Rank()
      ensures !input.MayAskToInstall() && !old(now).userAsked ==> !now.userAsked && handOffs == old(handOffs)
      ensures old(handOffs) <= handOffs
      ensures old(now).state.HandingOff? && !input.InstallerAnswered? ==> now == old(now) && handOffs == old(handOffs)
    {
      hide Updater.FilesAgree, Updater.FlagsAgree, Updater.RequestAgrees, Updater.StageReady, AllSafe, StagesLeft,
        PendingUpdateStore.Contained, PendingUpdateStore.PartName, Updater.Settled, Updater.Answered, Updater.Discarded,
        Updater.CancelledNow, Updater.Failed, Updater.WithoutRequest, Updater.CheckReserve, Updater.MayCheck;
      WishNeedsRequest(now);
      if input.IsAction() {
        Act(input);
      } else {
        Receive(input);
      }
    }

    method Act(input: Input)
      requires Valid() && input.IsAction()
      modifies this, store`files
      ensures Valid() && old(handOffs) <= handOffs
      ensures !input.MayAskToInstall() && !old(now).userAsked ==> !now.userAsked && handOffs == old(handOffs)
      ensures old(now).state.HandingOff? ==> now == old(now) && handOffs == old(handOffs)
    {
      hide Updater.FilesAgree, Updater.FlagsAgree, Updater.RequestAgrees, Updater.StageReady, AllSafe,
        PendingUpdateStore.Contained, PendingUpdateStore.PartName, Updater.Settled, Updater.CancelledNow, Updater.MayCheck;
      if now.state.HandingOff? {
        HandingOffMayNotCheck(now);
      }
      match input
      case StartUp(clock) => Start(clock);
      case CheckRequest => CheckNow();
      case DownloadRequest => DownloadUpdate();
      case InstallRequest => ghost var mode := InstallUpdate();
      case OpenRequest => ghost var mode := OpenInstaller(true);
      case CancelRequest => Cancel();
      case RetryRequest => RetryWork();
      case DiscardRequest => DiscardPendingUpdate();
    }

    method Receive(input: Input)
      requires Valid() && !input.IsAction()
      modifies this, store`files
      ensures Valid() && old(handOffs) <= handOffs
      ensures now.Follows(old(now), old(now).Rank() - if input.ReplyFinished? && old(now).hasReply then 1 else 0)
      ensures handOffs == old(handOffs) || old(now).userAsked
      ensures old(now).state.HandingOff? && !input.InstallerAnswered? ==> now == old(now) && handOffs == old(handOffs)
    {
      hide Updater.FilesAgree, Updater.RequestAgrees, Updater.StageReady, AllSafe, StagesLeft, Updater.Failed,
        PendingUpdateStore.Contained, PendingUpdateStore.PartName, Updater.Answered, Updater.WithoutRequest,
        Updater.CheckReserve, Updater.Settled;
      WishNeedsRequest(now);
      BusyMeansWaiting(now);
      match input
      case MetadataArrived(declared) => HandleReplyMetadata(declared);
      case BodyArrived(bytes, discard) => HandleReplyReadyRead(bytes, discard);
      case ReplyFinished(reply) => HandleReplyFinished(reply);
      case TimerFired => HandleTimeout();
      case InstallerAnswered(answer) => HandlePortalResponse(answer);
    }

    /**
      Any sequence of inputs. At its end a reply is outstanding exactly in a busy state, every file
      that went out did so safely, files on disk are still contained (`Valid`), no file went out if
      nobody asked to install, and at most 234 replies have ended since the last action.
     */
    method Run(inputs: seq<Input>) returns (ghost turns: seq<Turn>)
      requires Valid()
      modifies this, store`files
      ensures Valid() && (Busy(now.state) <==> now.hasReply)
      ensures |turns| == |inputs| && forall i | 0 <= i < |inputs| :: turns[i].input == inputs[i]
      ensures RepliesEnded(turns) <= 234
      ensures (forall input | input in inputs :: !input.MayAskToInstall()) && !old(now).userAsked ==>
                handOffs == old(handOffs) && !now.userAsked
    {
      hide Updater.FilesAgree, Updater.FlagsAgree, Updater.RequestAgrees, Updater.StageReady, AllSafe, StagesLeft,
        PendingUpdateStore.Contained, PendingUpdateStore.PartName, Updater.Settled, Updater.Rank, RepliesEnded;
      turns := [];
      NoTurns();
      RankBound(now);
      for i := 0 to |inputs|
        invariant Valid()
        invariant |turns| == i && forall k | 0 <= k < i :: turns[k].input == inputs[k]
        invariant RepliesEnded(turns) + now.Rank() <= 234
        invariant (forall input | input in inputs[..i] :: !input.MayAskToInstall()) && !old(now).userAsked ==>
            handOffs == old(handOffs) && !now.userAsked
      {
        OneMoreTurn(turns, Turn(inputs[i], now.hasReply));
        turns := turns + [Turn(inputs[i], now.hasReply)];
        assert inputs[..i + 1] == inputs[..i] + [inputs[i]];
        Handle(inputs[i]);
        RankBound(now);
      }
      assert inputs[..|inputs|] == inputs;
      BusyMeansWaiting(now);
      RankBound(now);
    }
  }
}
