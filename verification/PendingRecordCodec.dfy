/** The pending-update record as JSON: strict parsing, printing, and the proof that one undoes the other. */
module PendingRecordCodec {
  import opened UpdateTypes
  import opened RollingUpdateParser
  import opened UpdateWorld

  // ----- decimal numbers -----

  predicate Digit(c: char) {
    '0' <= c <= '9'
  }

  predicate AllDigits(s: string) {
    forall i | 0 <= i < |s| :: Digit(s[i])
  }

  /** `0`, or digits without a leading zero. */
  predicate CanonicalDecimal(s: string) {
    |s| >= 1 && AllDigits(s) && (s[0] == '0' ==> |s| == 1)
  }

  function DigitValue(c: char): nat
    requires Digit(c)
  {
    (c - '0') as nat
  }

  function DecimalValue(s: string): nat
    requires AllDigits(s)
  {
    if s == [] then 0 else 10 * DecimalValue(s[..|s| - 1]) + DigitValue(s[|s| - 1])
  }

  /** QString::number for an unsigned integer. */
  function PrintDecimal(n: nat): string {
    if n < 10 then [DigitChar(n)] else PrintDecimal(n / 10) + [DigitChar(n % 10)]
  }

  function DigitChar(d: nat): char
    requires d < 10
  {
    '0' + d as char
  }

  /** The pattern `^(0|[1-9][0-9]*)$`, whose `$` also stands before one final newline. */
  function MatchedDecimal(text: string): Option<string> {
    if CanonicalDecimal(text) then Some(text)
    else if |text| >= 1 && text[|text| - 1] == '\n' && CanonicalDecimal(text[..|text| - 1])
    then Some(text[..|text| - 1])
    else None
  }

  /** QString::toULongLong on text the pattern accepts: it trims the newline and rejects overflow. */
  function ParseDecimal(value: Json): Option<uint64> {
    if !value.JsonString? then None
    else
      match MatchedDecimal(value.text)
      case None => None
      case Some(digits) =>
        var n := DecimalValue(digits);
        if n < UINT64_LIMIT && n != 0 then Some(n) else None
  }

  lemma LastDigit(v: nat, d: nat)
    requires d < 10
    ensures (10 * v + d) / 10 == v && (10 * v + d) % 10 == d
  {
  }

  lemma ValueOfSnoc(s: string, d: nat)
    requires AllDigits(s) && d < 10
    ensures AllDigits(s + [DigitChar(d)])
    ensures DecimalValue(s + [DigitChar(d)]) == 10 * DecimalValue(s) + d
  {
    assert (s + [DigitChar(d)])[..|s|] == s;
  }

  lemma {:induction false} PrintIsCanonical(n: nat)
    ensures CanonicalDecimal(PrintDecimal(n))
    ensures DecimalValue(PrintDecimal(n)) == n
    ensures n > 0 ==> PrintDecimal(n)[0] != '0'
  {
    if n < 10 {
      assert PrintDecimal(n) == [] + [DigitChar(n)];
      ValueOfSnoc([], n);
    } else {
      PrintIsCanonical(n / 10);
      ValueOfSnoc(PrintDecimal(n / 10), n % 10);
    }
  }

  lemma {:induction false} PrintUndoesValue(s: string)
    requires CanonicalDecimal(s)
    ensures PrintDecimal(DecimalValue(s)) == s
    ensures s[0] != '0' ==> DecimalValue(s) > 0
  {
    var init, d := s[..|s| - 1], DigitValue(s[|s| - 1]);
    assert s == init + [DigitChar(d)];
    ValueOfSnoc(init, d);
    if init != [] {
      PrintUndoesValue(init);
      LastDigit(DecimalValue(init), d);
    }
  }

  /** What the pattern lets through is a canonical print, perhaps with a newline after it. */
  lemma MatchedDecimalIs(text: string, digits: string)
    requires CanonicalDecimal(digits)
    ensures MatchedDecimal(text) == Some(digits) <==> text == digits || text == digits + "\n"
  {
    if text == digits + "\n" {
      assert text[..|text| - 1] == digits;
      assert !Digit(text[|text| - 1]);
    }
  }

  /**
    The parser accepts the canonical print of each number from 1 to 2^64 - 1, and the same text
    with one newline after it, and nothing else.
   */
  lemma ParseDecimalAccepts(text: string, n: uint64)
    ensures ParseDecimal(JsonString(text)) == Some(n)
            <==> n != 0 && (text == PrintDecimal(n) || text == PrintDecimal(n) + "\n")
  {
    PrintIsCanonical(n);
    MatchedDecimalIs(text, PrintDecimal(n));
    var matched := MatchedDecimal(text);
    if matched.Some? {
      PrintUndoesValue(matched.value);
    }
  }

  /** So the accepted text is not always the printed one. */
  lemma NewlineIsAccepted()
    ensures ParseDecimal(JsonString("12\n")) == Some(12)
    ensures "12\n" != PrintDecimal(12)
  {
    assert PrintDecimal(12) == PrintDecimal(1) + [DigitChar(2)] == "12";
    ParseDecimalAccepts("12\n", 12);
  }

  // ----- dates and objects -----

  function ParseTimestamp(value: Json): Option<Instant> {
    if !value.JsonString? then None
    else
      match ReadDate(value.text)
      case None => None
      case Some(t) => if t.At? && DateText(t) == value.text then Some(t) else None
  }

  /** A text is taken for a time exactly if the time has a four-digit year and prints as this text. */
  lemma ParseTimestampAccepts(text: string, t: Instant)
    requires DatesReadBack()
    ensures ParseTimestamp(JsonString(text)) == Some(t) <==> FourDigitYear(t) && text == DateText(t)
  {
    assert t.At? && ReadDate(DateText(t)) == Some(t) <==> FourDigitYear(t);
  }

  /** As many members as wanted names, and every wanted name present. */
  predicate HasExactKeys(members: map<MemberName, Json>, keys: set<MemberName>) {
    |members| == |keys| && keys <= members.Keys
  }

  lemma SameSizeSubset(a: set<MemberName>, b: set<MemberName>)
    requires a <= b && |a| == |b|
    ensures a == b
  {
    assert b == a + (b - a);
    assert |b| == |a| + |b - a|;
  }

  lemma ExactKeysMeansSameKeys(members: map<MemberName, Json>, keys: set<MemberName>)
    ensures HasExactKeys(members, keys) <==> members.Keys == keys
  {
    if HasExactKeys(members, keys) {
      SameSizeSubset(keys, members.Keys);
    }
  }

  // ----- assets -----

  const ASSET_KEYS := {Id, Name, Size, ApiUrl, DownloadUrl, UpdatedAt, Sha256}

  function SerializeAsset(asset: Asset): Json {
    JsonObject(map[
      Id := JsonString(PrintDecimal(asset.id)),
      Name := JsonString(asset.name),
      Size := JsonString(PrintDecimal(asset.size)),
      ApiUrl := JsonString(asset.apiUrl),
      DownloadUrl := JsonString(asset.downloadUrl),
      UpdatedAt := JsonString(DateText(asset.updatedAt)),
      Sha256 := JsonString(asset.sha256)])
  }

  function ParseAsset(value: Json): Option<Asset> {
    if !value.JsonObject? || !HasExactKeys(value.members, ASSET_KEYS) then None
    else
      var m := value.members;
      var id := ParseDecimal(m[Id]);
      var size := ParseDecimal(m[Size]);
      var updatedAt := ParseTimestamp(m[UpdatedAt]);
      if id.None? || size.None? || updatedAt.None?
         || !m[Name].JsonString? || !m[ApiUrl].JsonString?
         || !m[DownloadUrl].JsonString? || !m[Sha256].JsonString? || m[Name].text == "" then None
      else Some(Asset(id.value, m[Name].text, size.value, m[ApiUrl].text,
                      m[DownloadUrl].text, updatedAt.value, m[Sha256].text))
  }

  lemma NumberRoundTrip(n: uint64)
    requires n != 0
    ensures ParseDecimal(JsonString(PrintDecimal(n))) == Some(n)
  {
    ParseDecimalAccepts(PrintDecimal(n), n);
  }

  lemma AssetMembersReadBack(asset: Asset)
    ensures var m := SerializeAsset(asset).members;
            && HasExactKeys(m, ASSET_KEYS)
            && m[Name] == JsonString(asset.name) && m[Sha256] == JsonString(asset.sha256)
            && m[ApiUrl] == JsonString(asset.apiUrl) && m[DownloadUrl] == JsonString(asset.downloadUrl)
            && m[Id] == JsonString(PrintDecimal(asset.id)) && m[Size] == JsonString(PrintDecimal(asset.size))
            && m[UpdatedAt] == JsonString(DateText(asset.updatedAt))
  {
    hide PrintDecimal, DateText, HasExactKeys;
    ExactKeysMeansSameKeys(SerializeAsset(asset).members, ASSET_KEYS);
  }

  /** An asset reads back unchanged if and only if its date has a four-digit year. */
  lemma AssetRoundTrip(asset: Asset)
    requires DatesReadBack()
    requires asset.id != 0 && asset.size != 0 && asset.name != ""
    ensures ParseAsset(SerializeAsset(asset)) == Some(asset) <==> FourDigitYear(asset.updatedAt)
  {
    hide DatesReadBack, ParseTimestamp, ParseDecimal, PrintDecimal, FourDigitYear;
    NumberRoundTrip(asset.id);
    NumberRoundTrip(asset.size);
    AssetMembersReadBack(asset);
    ParseTimestampAccepts(DateText(asset.updatedAt), asset.updatedAt);
  }

  // ----- candidates -----

  const CANDIDATE_KEYS := {
    ReleaseId, ReleaseLabel, ReleasePage, ReleaseUpdatedAt, SourceCommit, BuildSequence,
    TagRefObjectId, TagObjectId, ManifestSchema, PublishedAt, ManifestMember, FlatpakMember}

  function SerializeCandidate(c: Candidate): Json {
    JsonObject(map[
      ReleaseId := JsonString(PrintDecimal(c.releaseId)),
      ReleaseLabel := JsonString(c.releaseLabel),
      ReleasePage := JsonString(c.releasePage),
      ReleaseUpdatedAt := JsonString(DateText(c.releaseUpdatedAt)),
      SourceCommit := JsonString(c.sourceCommit),
      BuildSequence := JsonString(PrintDecimal(c.sequence)),
      TagRefObjectId := JsonString(c.tagRefObjectId),
      TagObjectId := JsonString(c.tagObjectId),
      ManifestSchema := JsonNumber(Whole(c.manifestSchema)),
      PublishedAt := JsonString(DateText(c.publishedAt)),
      ManifestMember := SerializeAsset(c.manifest),
      FlatpakMember := SerializeAsset(c.flatpak)])
  }

  predicate CandidateMembersTyped(m: map<MemberName, Json>)
    requires CANDIDATE_KEYS <= m.Keys
  {
    && m[ReleaseLabel].JsonString?
    && m[ReleasePage].JsonString?
    && m[SourceCommit].JsonString?
    && m[TagRefObjectId].JsonString?
    && m[TagObjectId].JsonString?
    && m[ManifestSchema].JsonNumber?
    && m[ManifestSchema].number == Whole(1)
  }

  function AssembleCandidate(
      m: map<MemberName, Json>, releaseId: uint64, sequence: uint64, releaseUpdatedAt: Instant,
      publishedAt: Instant, manifest: Asset, flatpak: Asset): Candidate
    requires CANDIDATE_KEYS <= m.Keys && CandidateMembersTyped(m)
  {
    Candidate(releaseId, m[ReleaseLabel].text, m[ReleasePage].text, releaseUpdatedAt, m[SourceCommit].text,
              sequence, m[TagRefObjectId].text, m[TagObjectId].text, 1, publishedAt, manifest, flatpak)
  }

  function ParseCandidate(value: Json): Option<Candidate> {
    if !value.JsonObject? || !HasExactKeys(value.members, CANDIDATE_KEYS)
       || !CandidateMembersTyped(value.members) then None
    else
      var m := value.members;
      var releaseId := ParseDecimal(m[ReleaseId]);
      var sequence := ParseDecimal(m[BuildSequence]);
      var releaseUpdatedAt := ParseTimestamp(m[ReleaseUpdatedAt]);
      var publishedAt := ParseTimestamp(m[PublishedAt]);
      var manifest := ParseAsset(m[ManifestMember]);
      var flatpak := ParseAsset(m[FlatpakMember]);
      if releaseId.None? || sequence.None? || releaseUpdatedAt.None? || publishedAt.None?
         || manifest.None? || flatpak.None? then None
      else
        var c := AssembleCandidate(m, releaseId.value, sequence.value, releaseUpdatedAt.value,
                                   publishedAt.value, manifest.value, flatpak.value);
        if ValidCandidate(c) then Some(c) else None
  }

  lemma CandidateKeysComplete(c: Candidate)
    ensures HasExactKeys(SerializeCandidate(c).members, CANDIDATE_KEYS)
  {
    ExactKeysMeansSameKeys(SerializeCandidate(c).members, CANDIDATE_KEYS);
  }

  lemma CandidateLabelReadsBack(c: Candidate)
    ensures var m := SerializeCandidate(c).members;
            && CANDIDATE_KEYS <= m.Keys
            && m[ReleaseLabel] == JsonString(c.releaseLabel)
  {
    hide PrintDecimal, DateText, SerializeAsset;
  }

  lemma CandidatePageReadsBack(c: Candidate)
    ensures var m := SerializeCandidate(c).members;
            CANDIDATE_KEYS <= m.Keys && m[ReleasePage] == JsonString(c.releasePage)
  {
    hide PrintDecimal, DateText, SerializeAsset;
  }

  lemma CandidateCommitReadsBack(c: Candidate)
    ensures var m := SerializeCandidate(c).members;
            CANDIDATE_KEYS <= m.Keys && m[SourceCommit] == JsonString(c.sourceCommit)
  {
    hide PrintDecimal, DateText, SerializeAsset;
  }

  lemma CandidateTagsReadBack(c: Candidate)
    ensures var m := SerializeCandidate(c).members;
            && CANDIDATE_KEYS <= m.Keys
            && m[TagRefObjectId] == JsonString(c.tagRefObjectId)
            && m[TagObjectId] == JsonString(c.tagObjectId)
            && m[ManifestSchema] == JsonNumber(Whole(c.manifestSchema))
  {
    hide PrintDecimal, DateText, SerializeAsset;
  }

  /** A map that holds the candidate's texts and numbers yields the candidate exactly if dates and assets read back. */
  lemma CandidateFromReadMembers(c: Candidate, m: map<MemberName, Json>)
    requires ValidCandidate(c)
    requires HasExactKeys(m, CANDIDATE_KEYS)
    requires m[ReleaseLabel] == JsonString(c.releaseLabel) && m[ReleasePage] == JsonString(c.releasePage)
    requires m[SourceCommit] == JsonString(c.sourceCommit)
    requires m[TagRefObjectId] == JsonString(c.tagRefObjectId) && m[TagObjectId] == JsonString(c.tagObjectId)
    requires m[ManifestSchema] == JsonNumber(Whole(1))
    requires ParseDecimal(m[ReleaseId]) == Some(c.releaseId) && ParseDecimal(m[BuildSequence]) == Some(c.sequence)
    ensures ParseCandidate(JsonObject(m)) == Some(c)
            <==> && ParseTimestamp(m[ReleaseUpdatedAt]) == Some(c.releaseUpdatedAt)
                 && ParseTimestamp(m[PublishedAt]) == Some(c.publishedAt)
                 && ParseAsset(m[ManifestMember]) == Some(c.manifest)
                 && ParseAsset(m[FlatpakMember]) == Some(c.flatpak)
  {
    hide ParseTimestamp, ParseAsset, ParseDecimal;
  }

  lemma CandidateNumbersReadBack(c: Candidate)
    requires c.releaseId != 0 && c.sequence != 0
    ensures var m := SerializeCandidate(c).members;
            && ParseDecimal(m[ReleaseId]) == Some(c.releaseId)
            && ParseDecimal(m[BuildSequence]) == Some(c.sequence)
  {
    NumberRoundTrip(c.releaseId);
    NumberRoundTrip(c.sequence);
  }

  lemma CandidateDatesReadBack(c: Candidate)
    requires DatesReadBack()
    ensures var m := SerializeCandidate(c).members;
            && (ParseTimestamp(m[ReleaseUpdatedAt]) == Some(c.releaseUpdatedAt) <==> FourDigitYear(c.releaseUpdatedAt))
            && (ParseTimestamp(m[PublishedAt]) == Some(c.publishedAt) <==> FourDigitYear(c.publishedAt))
  {
    hide DatesReadBack, ParseTimestamp, PrintDecimal, SerializeAsset, FourDigitYear;
    ParseTimestampAccepts(DateText(c.releaseUpdatedAt), c.releaseUpdatedAt);
    ParseTimestampAccepts(DateText(c.publishedAt), c.publishedAt);
  }

  lemma CandidateAssetsReadBack(c: Candidate)
    requires DatesReadBack() && ValidCandidate(c)
    ensures var m := SerializeCandidate(c).members;
            && (ParseAsset(m[ManifestMember]) == Some(c.manifest) <==> FourDigitYear(c.manifest.updatedAt))
            && (ParseAsset(m[FlatpakMember]) == Some(c.flatpak) <==> FourDigitYear(c.flatpak.updatedAt))
  {
    hide DatesReadBack, ParseAsset, SerializeAsset, PrintDecimal, FourDigitYear;
    AssetRoundTrip(c.manifest);
    AssetRoundTrip(c.flatpak);
    assert SerializeCandidate(c).members[ManifestMember] == SerializeAsset(c.manifest);
    assert SerializeCandidate(c).members[FlatpakMember] == SerializeAsset(c.flatpak);
  }

  /** The candidate's four dates have four-digit years. */
  predicate Dated(c: Candidate) {
    && FourDigitYear(c.releaseUpdatedAt) && FourDigitYear(c.publishedAt)
    && FourDigitYear(c.manifest.updatedAt) && FourDigitYear(c.flatpak.updatedAt)
  }

  /** A candidate reads back unchanged if and only if its dates have four-digit years. */
  lemma CandidateRoundTrip(c: Candidate)
    requires DatesReadBack() && ValidCandidate(c)
    ensures ParseCandidate(SerializeCandidate(c)) == Some(c) <==> Dated(c)
  {
    hide DatesReadBack, ParseTimestamp, ParseAsset, ParseDecimal, PrintDecimal, SerializeAsset, ParseCandidate, FourDigitYear;
    CandidateKeysComplete(c);
    CandidateLabelReadsBack(c);
    CandidatePageReadsBack(c);
    CandidateCommitReadsBack(c);
    CandidateTagsReadBack(c);
    CandidateNumbersReadBack(c);
    CandidateDatesReadBack(c);
    CandidateAssetsReadBack(c);
    CandidateFromReadMembers(c, SerializeCandidate(c).members);
  }

  // ----- records -----

  const RECORD_KEYS := {Schema, CanonicalPath, CandidateMember, VerifiedSize, VerifiedSha256}

  function RecordMembers(r: PendingRecord): map<MemberName, Json> {
    map[
      Schema := JsonNumber(Whole(1)),
      CanonicalPath := JsonString(r.canonicalPath),
      CandidateMember := SerializeCandidate(r.candidate),
      VerifiedSize := JsonString(PrintDecimal(r.verifiedSize)),
      VerifiedSha256 := JsonString(r.verifiedSha256)]
  }

  function RecordDocument(r: PendingRecord): Json {
    JsonObject(RecordMembers(r))
  }

  function SerializeRecord(r: PendingRecord): Bytes {
    JsonText(RecordDocument(r))
  }

  function ParseRecord(document: Bytes): Option<PendingRecord> {
    match ReadJson(document)
    case None => None
    case Some(value) => if value.JsonObject? then RecordFromMembers(value.members) else None
  }

  function RecordFromMembers(m: map<MemberName, Json>): Option<PendingRecord> {
    if !HasExactKeys(m, RECORD_KEYS)
       || !m[Schema].JsonNumber? || m[Schema].number != Whole(1)
       || !m[CanonicalPath].JsonString? || !m[VerifiedSha256].JsonString? then None
    else
      var size := ParseDecimal(m[VerifiedSize]);
      var candidate := ParseCandidate(m[CandidateMember]);
      if size.None? || candidate.None? then None
      else
        var r := PendingRecord(1, m[CanonicalPath].text, candidate.value, size.value, m[VerifiedSha256].text);
        if FullLowerHex(r.verifiedSha256, 64) && BindsOwnCandidate(r) then Some(r) else None
  }

  /** The record repeats the size and digest of the candidate it stores. */
  predicate BindsOwnCandidate(r: PendingRecord) {
    r.verifiedSize == r.candidate.flatpak.size && r.verifiedSha256 == r.candidate.flatpak.sha256
  }

  /** The value checks made before a record is saved. */
  predicate SavableRecord(r: PendingRecord) {
    r.schema == 1 && ValidCandidate(r.candidate) && BindsOwnCandidate(r)
  }

  lemma RecordMembersReadBack(r: PendingRecord)
    ensures var m := RecordMembers(r);
            && HasExactKeys(m, RECORD_KEYS)
            && m[Schema] == JsonNumber(Whole(1))
            && m[CanonicalPath] == JsonString(r.canonicalPath)
            && m[CandidateMember] == SerializeCandidate(r.candidate)
            && m[VerifiedSize] == JsonString(PrintDecimal(r.verifiedSize))
            && m[VerifiedSha256] == JsonString(r.verifiedSha256)
  {
    hide PrintDecimal, SerializeCandidate, HasExactKeys;
    ExactKeysMeansSameKeys(RecordMembers(r), RECORD_KEYS);
  }

  /** What is required of QJsonDocument: the text of a record that may be saved reads as the document it came from. */
  ghost predicate DocumentsReadBack() {
    forall r: PendingRecord | SavableRecord(r) :: ReadJson(JsonText(RecordDocument(r))) == Some(RecordDocument(r))
  }

  /** A map that holds the record's members yields the record exactly if the candidate reads back. */
  lemma RecordFromReadMembers(r: PendingRecord, m: map<MemberName, Json>)
    requires SavableRecord(r)
    requires HasExactKeys(m, RECORD_KEYS)
    requires m[Schema] == JsonNumber(Whole(1)) && m[CanonicalPath] == JsonString(r.canonicalPath)
    requires m[VerifiedSha256] == JsonString(r.verifiedSha256)
    requires ParseDecimal(m[VerifiedSize]) == Some(r.verifiedSize)
    ensures RecordFromMembers(m) == Some(r) <==> ParseCandidate(m[CandidateMember]) == Some(r.candidate)
  {
    hide ParseCandidate, ParseDecimal;
  }

  /** What the round trips rest on. Nothing else in the updater's safety or progress does. */
  ghost predicate Lawful() {
    DatesReadBack() && DocumentsReadBack()
  }

  /** A record that may be saved reads back unchanged if and only if its dates have four-digit years. */
  lemma RecordRoundTrip(r: PendingRecord)
    requires Lawful() && SavableRecord(r)
    ensures ParseRecord(SerializeRecord(r)) == Some(r) <==> Dated(r.candidate)
  {
    assert ReadJson(JsonText(RecordDocument(r))) == Some(RecordDocument(r));
    hide DatesReadBack, DocumentsReadBack, ParseCandidate, ParseDecimal, PrintDecimal, SerializeCandidate, Dated,
      HasExactKeys, RecordFromMembers;
    NumberRoundTrip(r.verifiedSize);
    CandidateRoundTrip(r.candidate);
    RecordMembersReadBack(r);
    RecordFromReadMembers(r, RecordMembers(r));
  }

  /** The first millisecond of year 10000 passes the checks made before saving, and does not come back. */
  lemma FarDateIsLost(r: PendingRecord)
    requires Lawful() && SavableRecord(r)
    ensures var far := r.(candidate := r.candidate.(publishedAt := At(LAST_DATE + 1)));
            SavableRecord(far) && ParseRecord(SerializeRecord(far)) != Some(far)
  {
    hide DatesReadBack, DocumentsReadBack, ParseRecord, SerializeRecord;
    RecordRoundTrip(r.(candidate := r.candidate.(publishedAt := At(LAST_DATE + 1))));
  }

  /** Every record that is read could have been saved, so it prints to a document that reads the same. */
  lemma ParsedRecordIsSavable(document: Bytes)
    requires Lawful() && ParseRecord(document).Some?
    ensures SavableRecord(ParseRecord(document).value) && Dated(ParseRecord(document).value.candidate)
    ensures ParseRecord(SerializeRecord(ParseRecord(document).value)) == ParseRecord(document)
  {
    var r := ParseRecord(document).value;
    ParsedIsDated(ReadJson(document).value.members[CandidateMember]);
    RecordRoundTrip(r);
  }

  lemma ParsedIsDated(value: Json)
    requires DatesReadBack() && ParseCandidate(value).Some?
    ensures Dated(ParseCandidate(value).value)
  {
    hide ParseDecimal, ValidCandidate;
  }
}
