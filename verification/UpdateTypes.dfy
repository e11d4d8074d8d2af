/** Value types shared by the rolling updater: error codes, results, the published candidate and the pending record. */
module UpdateTypes {
  type Bytes = seq<bv8>

  datatype Option<+T> = None | Some(value: T)

  datatype UpdateError =
    | NoError
    | InvalidBuildIdentity
    | InvalidMetadata
    | UnsafeUrl
    | HttpFailure
    | RateLimited
    | Timeout
    | RedirectRejected
    | ResponseTooLarge
    | CandidateNotAhead
    | InsufficientSpace
    | UnsafePath
    | IoFailure
    | SizeMismatch
    | DigestMismatch
    | PublisherChanged
    | CancelledByUser
    | SessionNotDesktop
    | PortalFailure

  datatype UpdateResult<+T> = Ok(value: T) | Err(error: UpdateError)

  /** A point in time, or Qt's invalid date. */
  datatype Instant = NoInstant | At(ms: int)

  const UINT64_LIMIT: nat := 0x1_0000_0000_0000_0000

  /** quint64. */
  type uint64 = n: nat | n < UINT64_LIMIT

  datatype Asset = Asset(
    id: uint64,
    name: string,
    size: uint64,
    apiUrl: string,
    downloadUrl: string,
    updatedAt: Instant,
    sha256: string)

  datatype Candidate = Candidate(
    releaseId: uint64,
    releaseLabel: string,
    releasePage: string,
    releaseUpdatedAt: Instant,
    sourceCommit: string,
    sequence: uint64,
    tagRefObjectId: string,
    tagObjectId: string,
    manifestSchema: int,
    publishedAt: Instant,
    manifest: Asset,
    flatpak: Asset)

  const EMPTY_ASSET := Asset(0, "", 0, "", "", NoInstant, "")

  /** The default-constructed candidate. */
  const EMPTY_CANDIDATE :=
    Candidate(0, "", "", NoInstant, "", 0, "", "", 0, NoInstant, EMPTY_ASSET, EMPTY_ASSET)

  datatype PendingRecord = PendingRecord(
    schema: int,
    canonicalPath: string,
    candidate: Candidate,
    verifiedSize: uint64,
    verifiedSha256: string)

  const EMPTY_RECORD := PendingRecord(1, "", EMPTY_CANDIDATE, 0, "")

  datatype TagObject = TagObject(id: string, kind: string, targetId: string)

  datatype TagResolution = TagResolution(tagRefObjectId: string, tagObjectId: string, commit: string)

  datatype CommitRelation = CandidateAhead | Equal | CandidateBehind | Diverged | Unknown
}
