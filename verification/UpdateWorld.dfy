/**
  What the updater takes from libraries and from its build: SHA-256, JSON text, date text, URL
  approval and the running build's identity. They are uninterpreted; the laws the proofs use are named.
 */
module UpdateWorld {
  import opened UpdateTypes
  import opened RollingUpdateParser

  /** Member names of the record's objects; any other name is foreign. */
  datatype MemberName =
    | ApiUrl
    | BuildSequence
    | CandidateMember
    | CanonicalPath
    | DownloadUrl
    | FlatpakMember
    | Id
    | ManifestMember
    | ManifestSchema
    | Name
    | PublishedAt
    | ReleaseId
    | ReleaseLabel
    | ReleasePage
    | ReleaseUpdatedAt
    | Schema
    | Sha256
    | Size
    | SourceCommit
    | TagObjectId
    | TagRefObjectId
    | UpdatedAt
    | VerifiedSha256
    | VerifiedSize
    | Foreign(text: string)

  /** A JSON number; one that is no integer is kept as its text. */
  datatype Number = Whole(value: int) | Fractional(text: string)

  datatype Json =
    | JsonNull
    | JsonBool(flag: bool)
    | JsonNumber(number: Number)
    | JsonString(text: string)
    | JsonArray(items: seq<Json>)
    | JsonObject(members: map<MemberName, Json>)

  datatype StableOutcome = Malformed | NoRelease | Release(version: string, page: string, newer: bool)

  datatype System = System(
    sha256Hex: Bytes -> string,
    jsonText: Json -> Bytes,
    readJson: Bytes -> Option<Json>,
    dateText: Instant -> string,
    readDate: string -> Option<Instant>,
    approvedUrl: string -> bool,
    approvedReleasePage: string -> bool,
    approvedAssetUrl: (string, uint64) -> bool,
    approvedDownloadUrl: (string, string) -> bool,
    parseRelease: Bytes -> UpdateResult<Candidate>,
    parseManifest: (Bytes, Candidate) -> UpdateResult<Candidate>,
    parseTagReference: Bytes -> UpdateResult<TagObject>,
    parseTagObject: Bytes -> UpdateResult<TagObject>,
    parseCommitRelation: Bytes -> CommitRelation,
    selectStable: Bytes -> StableOutcome,
    compareUrl: (string, string) -> string,
    runningCommit: string,
    runningSequence: uint64)

  /** Left open: every proof holds whatever these functions and values are. */
  const SYSTEM: System

  function Sha256Hex(data: Bytes): string { SYSTEM.sha256Hex(data) }
  function JsonText(value: Json): Bytes { SYSTEM.jsonText(value) }
  function ReadJson(text: Bytes): Option<Json> { SYSTEM.readJson(text) }
  function DateText(t: Instant): string { SYSTEM.dateText(t) }
  function ReadDate(text: string): Option<Instant> { SYSTEM.readDate(text) }
  predicate ApprovedUrl(url: string) { SYSTEM.approvedUrl(url) }
  predicate ApprovedReleasePage(url: string) { SYSTEM.approvedReleasePage(url) }
  predicate ApprovedAssetUrl(url: string, id: uint64) { SYSTEM.approvedAssetUrl(url, id) }
  predicate ApprovedDownloadUrl(url: string, name: string) { SYSTEM.approvedDownloadUrl(url, name) }
  function ParseRelease(document: Bytes): UpdateResult<Candidate> { SYSTEM.parseRelease(document) }
  function ParseManifest(document: Bytes, release: Candidate): UpdateResult<Candidate> { SYSTEM.parseManifest(document, release) }
  function ParseTagReference(document: Bytes): UpdateResult<TagObject> { SYSTEM.parseTagReference(document) }
  function ParseTagObject(document: Bytes): UpdateResult<TagObject> { SYSTEM.parseTagObject(document) }
  function ParseCommitRelation(document: Bytes): CommitRelation { SYSTEM.parseCommitRelation(document) }
  function SelectStable(document: Bytes): StableOutcome { SYSTEM.selectStable(document) }
  function CompareUrl(base: string, head: string): string { SYSTEM.compareUrl(base, head) }

  /** From the start of year 1 to the end of year 9999, in milliseconds since 1970. */
  const FIRST_DATE: int := -62135596800000
  const LAST_DATE: int := 253402300799999

  /** ISO 8601 writes a year with four digits. */
  predicate FourDigitYear(t: Instant) {
    t.At? && FIRST_DATE <= t.ms <= LAST_DATE
  }

  /** What is required of QDateTime: exactly the UTC dates with a four-digit year print to a text that reads back. */
  ghost predicate DatesReadBack() {
    forall t: Instant :: t.At? && ReadDate(DateText(t)) == Some(t) <==> FourDigitYear(t)
  }

  const ROLLING_TAG := "steam-deck-latest"
  const MANIFEST_NAME := "artemis-steam-deck-update.json"
  const FLATPAK_NAME := "artemis-steam-deck.flatpak"

  predicate ValidAsset(asset: Asset, name: string) {
    && asset.name == name
    && asset.id != 0
    && asset.size != 0
    && asset.updatedAt.At?
    && ApprovedAssetUrl(asset.apiUrl, asset.id)
    && ApprovedDownloadUrl(asset.downloadUrl, asset.name)
  }

  /** Everything a complete candidate must show before it is trusted with a file. */
  predicate ValidCandidate(c: Candidate) {
    && c.releaseId != 0
    && c.releaseLabel == ROLLING_TAG
    && c.releaseUpdatedAt.At?
    && c.publishedAt.At?
    && ApprovedReleasePage(c.releasePage)
    && FullLowerHex(c.sourceCommit, 40)
    && c.sequence != 0
    && FullLowerHex(c.tagRefObjectId, 40)
    && (c.tagObjectId == "" || FullLowerHex(c.tagObjectId, 40))
    && c.manifestSchema == 1
    && ValidAsset(c.manifest, MANIFEST_NAME)
    && (c.manifest.sha256 == "" || FullLowerHex(c.manifest.sha256, 64))
    && ValidAsset(c.flatpak, FLATPAK_NAME)
    && FullLowerHex(c.flatpak.sha256, 64)
  }

  function MatchesRelease(expected: Candidate, document: Bytes): UpdateResult<bool> {
    match ParseRelease(document)
    case Err(_) => Err(PublisherChanged)
    case Ok(parsed) =>
      if parsed.releaseId != expected.releaseId
         || parsed.releaseLabel != expected.releaseLabel
         || parsed.releasePage != expected.releasePage
         || parsed.releaseUpdatedAt != expected.releaseUpdatedAt
         || !SameAsset(parsed.manifest, expected.manifest, false)
         || !SameAsset(parsed.flatpak, expected.flatpak, false) then Err(PublisherChanged)
      else Ok(true)
  }

  function MatchesManifest(expected: Candidate, document: Bytes): UpdateResult<bool> {
    match ParseManifest(document, expected)
    case Err(_) => Err(PublisherChanged)
    case Ok(parsed) => if SameCandidate(parsed, expected) then Ok(true) else Err(PublisherChanged)
  }
}
