/**
  The store of downloaded updates: a temporary file is verified and renamed to its final name,
  a record of it is kept in the private directory, and both are verified again before they are used.
  The file system is a map with one actor; every input or output step may also fail.
 */
module PendingUpdate {
  import opened UpdateTypes
  import opened RollingUpdateParser
  import opened UpdateWorld
  import opened PendingRecordCodec

  datatype Node = Regular(content: Bytes, modifiedSecs: int) | Symlink | Irregular

  type FileMap = map<string, Node>

  /** An open file: what it reads does not change when its name is removed or reused. */
  datatype OpenFile = OpenFile(bytes: Bytes, readable: bool, writable: bool)

  datatype OpenVerifiedFile = OpenVerifiedFile(file: OpenFile, canonicalPath: string, size: uint64, sha256: string)

  datatype Temporary = Temporary(path: string)

  /** A failed load may still carry the record it could not verify. */
  datatype LoadResult = Loaded(record: PendingRecord) | LoadFailed(error: UpdateError, salvaged: PendingRecord)

  const SAFETY_MARGIN: nat := 64 * 1024 * 1024
  const STALE_PART_SECONDS: int := 24 * 60 * 60
  const RECORD_LIMIT: nat := 64 * 1024
  const READ_CHUNK: nat := 64 * 1024
  const INT64_MAX: nat := 0x7fff_ffff_ffff_ffff

  // ----- names -----

  const FINAL_PREFIX := "/artemis-steam-deck-"
  const FINAL_SUFFIX := ".flatpak"
  const PART_PREFIX := "/.vibertemis-update-"
  const PART_SUFFIX := ".part"

  /** The directory a path lies in: everything before the last separator. */
  function ParentOf(path: string): string {
    if path == "" then ""
    else if path[|path| - 1] == '/' then path[..|path| - 1]
    else ParentOf(path[..|path| - 1])
  }

  lemma {:induction false} ParentOfChild(directory: string, name: string)
    requires '/' !in name
    ensures ParentOf(directory + "/" + name) == directory
  {
    var path := directory + "/" + name;
    if name == "" {
      assert path[..|path| - 1] == directory;
    } else {
      assert path[..|path| - 1] == directory + "/" + name[..|name| - 1];
      assert path[|path| - 1] == name[|name| - 1];
      ParentOfChild(directory, name[..|name| - 1]);
    }
  }

  predicate AlphaNumeric(c: char) {
    'a' <= c <= 'z' || 'A' <= c <= 'Z' || '0' <= c <= '9'
  }

  // ----- the verdict on a file -----

  /** What opening and hashing `path` finds when nothing fails on the way. */
  function Verdict(root: Option<string>, files: FileMap, path: string, size: uint64, sha256: string)
    : UpdateResult<OpenVerifiedFile>
  {
    if root.None? || ParentOf(path) != root.value || path !in files || !files[path].Regular? then Err(UnsafePath)
    else
      var content := files[path].content;
      if |content| != size then Err(SizeMismatch)
      else if Sha256Hex(content) != sha256 then Err(DigestMismatch)
      else Ok(OpenVerifiedFile(OpenFile(content, true, false), path, size, sha256))
  }

  class PendingUpdateStore {
    /** The canonical path of Downloads, if that directory exists. */
    const downloads: Option<string>
    const privateRoot: string
    /** The files when the store was created. */
    ghost const origin: FileMap
    var files: FileMap

    constructor (downloads: Option<string>, privateRoot: string, files: FileMap)
      ensures this.downloads == downloads && this.privateRoot == privateRoot
      ensures this.files == files && this.origin == files && Contained()
    {
      this.downloads := downloads;
      this.privateRoot := privateRoot;
      this.origin := files;
      this.files := files;
    }

    // ----- what the store may touch -----

    function RecordPath(): string {
      privateRoot + "/pending-update.json"
    }

    function FinalPath(candidate: Candidate): Option<string> {
      if !FullLowerHex(candidate.sourceCommit, 40) || downloads.None? then None
      else Some(downloads.value + FINAL_PREFIX + candidate.sourceCommit[..12] + FINAL_SUFFIX)
    }

    /** `artemis-steam-deck-<12 hex>.flatpak` directly in Downloads. */
    ghost predicate FinalName(path: string) {
      downloads.Some?
      && exists digits :: |digits| == 12 && AllHex(digits)
                          && path == downloads.value + FINAL_PREFIX + digits + FINAL_SUFFIX
    }

    /** The pattern `^\.vibertemis-update-[A-Za-z0-9]{6}\.part$`; `$` also stands before one final newline. */
    predicate PartName(path: string) {
      downloads.Some?
      && var prefix := downloads.value + PART_PREFIX;
         && |prefix| + 6 <= |path|
         && path[..|prefix|] == prefix
         && (forall i | |prefix| <= i < |prefix| + 6 :: AlphaNumeric(path[i]))
         && (path[|prefix| + 6..] == PART_SUFFIX || path[|prefix| + 6..] == PART_SUFFIX + "\n")
    }

    ghost predicate Owned(path: string) {
      path == RecordPath() || FinalName(path) || PartName(path)
    }

    /** The maps agree on every name the store does not own. */
    ghost predicate SameForeignFiles(before: FileMap, after: FileMap) {
      forall p | !Owned(p) :: (p in before <==> p in after) && (p in before ==> before[p] == after[p])
    }

    /** Whatever the store has done so far, files it does not own are as they were. */
    ghost predicate Contained()
      reads this
    {
      SameForeignFiles(origin, files)
    }

    /** The pattern `^[0-9a-f]{64}$`. */
    static predicate ValidDigest(digest: string) {
      (|digest| == 64 && AllHex(digest)) || (|digest| == 65 && digest[64] == '\n' && AllHex(digest[..64]))
    }

    predicate OwnedFinalPath(path: string, candidate: Candidate) {
      FinalPath(candidate) == Some(path) && ParentOf(path) == downloads.value
    }

    lemma FinalPathIsOwned(candidate: Candidate)
      requires FinalPath(candidate).Some?
      ensures FinalName(FinalPath(candidate).value)
      ensures OwnedFinalPath(FinalPath(candidate).value, candidate)
    {
      var digits := candidate.sourceCommit[..12];
      CommitPrefixIsHex(candidate.sourceCommit);
      var name := "artemis-steam-deck-" + digits + FINAL_SUFFIX;
      assert FINAL_PREFIX == "/" + "artemis-steam-deck-";
      assert downloads.value + FINAL_PREFIX + digits + FINAL_SUFFIX == downloads.value + "/" + name;
      ParentOfChild(downloads.value, name);
    }

    /** A payload and the record can never be the same file. */
    lemma RecordIsNotFinal(candidate: Candidate)
      requires FinalPath(candidate).Some?
      ensures FinalPath(candidate).value != RecordPath()
    {
      var p, r := FinalPath(candidate).value, RecordPath();
      assert p[|p| - 1] == FINAL_SUFFIX[|FINAL_SUFFIX| - 1] == 'k';
      assert r[|r| - 1] == 'n';
    }

    ghost function VerdictNow(path: string, size: uint64, sha256: string): UpdateResult<OpenVerifiedFile>
      reads this
    {
      Verdict(downloads, files, path, size, sha256)
    }

    // ----- small steps that may fail -----

    /** QFile::remove: takes away a file or a symbolic link. */
    method Remove(path: string) returns (removed: bool)
      requires Contained() && Owned(path)
      modifies this`files
      ensures removed ==> path in old(files) && files == old(files) - {path}
      ensures !removed ==> files == old(files)
      ensures Contained()
    {
      removed := *;
      if removed && path in files && !files[path].Irregular? {
        files := files - {path};
      } else {
        removed := false;
      }
    }

    method DiscardTemporary(temporary: Option<Temporary>)
      requires temporary.Some? ==> PartName(temporary.value.path)
      requires Contained()
      modifies this`files
      ensures files == old(files) || (temporary.Some? && files == old(files) - {temporary.value.path})
      ensures Contained()
    {
      if temporary.Some? {
        var _ := Remove(temporary.value.path);
      }
    }

    /** Reads and hashes in chunks, giving up as soon as there is too much; any read may fail. */
    method HashContent(content: Bytes, expectedSize: uint64, expectedSha256: string) returns (problem: UpdateError)
      ensures problem == IoFailure
              || problem == (if |content| != expectedSize then SizeMismatch
                             else if Sha256Hex(content) != expectedSha256 then DigestMismatch
                             else NoError)
    {
      var hashed: Bytes := [];
      while |hashed| < |content|
        invariant |hashed| <= |content| && |hashed| <= expectedSize
        invariant hashed == content[..|hashed|]
      {
        var readable: bool := *;
        if !readable {
          return IoFailure;
        }
        var count := if |content| - |hashed| < READ_CHUNK then |content| - |hashed| else READ_CHUNK;
        if |hashed| + count > expectedSize {
          return SizeMismatch;
        }
        hashed := hashed + content[|hashed|..|hashed| + count];
      }
      assert hashed == content;
      if |hashed| != expectedSize {
        return SizeMismatch;
      }
      return if Sha256Hex(hashed) != expectedSha256 then DigestMismatch else NoError;
    }

    /** Apart from I/O failure the answer is `Verdict`. */
    method OpenAndVerify(path: string, expectedSize: uint64, expectedSha256: string)
      returns (r: UpdateResult<OpenVerifiedFile>)
      ensures r == VerdictNow(path, expectedSize, expectedSha256) || r == Err(IoFailure)
    {
      if downloads.None? || ParentOf(path) != downloads.value || path !in files || !files[path].Regular? {
        return Err(UnsafePath);
      }
      var accessible: bool := *;
      if !accessible {
        return Err(IoFailure);
      }
      var content := files[path].content;
      var problem := HashContent(content, expectedSize, expectedSha256);
      if problem != NoError {
        return Err(problem);
      }
      var rewound: bool := *;
      if !rewound {
        return Err(IoFailure);
      }
      return Ok(OpenVerifiedFile(OpenFile(content, true, false), path, expectedSize, expectedSha256));
    }

    // ----- downloads -----

    /** A new, empty part file, and only when the size and the safety margin fit the free space. */
    method CreateDownload(expectedSize: uint64, bytesAvailable: nat) returns (r: UpdateResult<Temporary>)
      requires bytesAvailable <= INT64_MAX
      requires Contained()
      modifies this`files
      ensures r.Ok? ==> PartName(r.value.path) && r.value.path !in old(files)
      ensures r.Ok? ==> exists t :: files == old(files)[r.value.path := Regular([], t)]
      ensures r.Ok? ==> 0 < expectedSize && expectedSize + SAFETY_MARGIN <= bytesAvailable
      ensures r.Err? ==> files == old(files)
      ensures expectedSize == 0 || expectedSize + SAFETY_MARGIN > bytesAvailable ==> r == Err(InsufficientSpace)
      ensures Contained()
    {
      if expectedSize == 0 || expectedSize > UINT64_LIMIT - 1 - SAFETY_MARGIN
         || bytesAvailable < expectedSize + SAFETY_MARGIN {
        return Err(InsufficientSpace);
      }
      if downloads.None? {
        return Err(UnsafePath);
      }
      var path: string := *;
      var now: int := *;
      if !PartName(path) || path in files {
        return Err(IoFailure);
      }
      files := files[path := Regular([], now)];
      return Ok(Temporary(path));
    }

    /** Writes at the end of the part file; a failed write may leave any content there. */
    method AppendTemporary(temporary: Temporary, chunk: Bytes) returns (ok: bool)
      requires PartName(temporary.path)
      requires Contained()
      modifies this`files
      ensures ok ==> temporary.path in old(files) && old(files)[temporary.path].Regular?
                     && exists t :: files == old(files)[temporary.path :=
                                               Regular(old(files)[temporary.path].content + chunk, t)]
      ensures !ok ==> files == old(files) || exists content, t :: files == old(files)[temporary.path := Regular(content, t)]
      ensures Contained()
    {
      ok := *;
      if temporary.path !in files || !files[temporary.path].Regular? {
        return false;
      }
      var now: int := *;
      if !ok {
        var damaged: Bytes := *;
        files := files[temporary.path := Regular(damaged, now)];
        return;
      }
      files := files[temporary.path := Regular(files[temporary.path].content + chunk, now)];
    }

    /**
      Moves a verified download to its final name. When it succeeds, the file there holds exactly
      the candidate's bytes, whatever was there before; when it does not, what is there is either
      what was there before or the candidate's bytes.
     */
    method FinalizeAndVerify(temporary: Option<Temporary>, candidate: Candidate)
      returns (r: UpdateResult<OpenVerifiedFile>)
      requires temporary.Some? ==> PartName(temporary.value.path)
      requires Contained()
      modifies this`files
      ensures r.Ok? ==> FinalPath(candidate).Some?
                        && r == VerdictNow(FinalPath(candidate).value, candidate.flatpak.size, candidate.flatpak.sha256)
      ensures FinalPath(candidate).Some? && FinalPath(candidate).value in files ==>
                var path := FinalPath(candidate).value;
                VerdictNow(path, candidate.flatpak.size, candidate.flatpak.sha256).Ok?
                || (path in old(files) && files[path] == old(files)[path])
      ensures Contained()
    {
      var destination := FinalPath(candidate);
      if destination.None? || !ValidDigest(candidate.flatpak.sha256) || candidate.flatpak.size == 0 {
        DiscardTemporary(temporary);
        return Err(InvalidMetadata);
      }
      var path := destination.value;
      FinalPathIsOwned(candidate);
      if path in files {
        if files[path].Symlink? {
          DiscardTemporary(temporary);
          return Err(UnsafePath);
        }
        var existing := OpenAndVerify(path, candidate.flatpak.size, candidate.flatpak.sha256);
        if existing.Ok? {
          DiscardTemporary(temporary);
          return existing;
        }
        var removed := Remove(path);
        if !removed {
          DiscardTemporary(temporary);
          return existing;
        }
      }
      r := RenameVerified(temporary, path, candidate);
    }

    /** The second half of `FinalizeAndVerify`: the final name is free. */
    method RenameVerified(temporary: Option<Temporary>, path: string, candidate: Candidate)
      returns (r: UpdateResult<OpenVerifiedFile>)
      requires temporary.Some? ==> PartName(temporary.value.path)
      requires FinalPath(candidate) == Some(path) && path !in files
      requires Contained()
      modifies this`files
      ensures r.Ok? ==> r == VerdictNow(path, candidate.flatpak.size, candidate.flatpak.sha256)
      ensures path in files ==> VerdictNow(path, candidate.flatpak.size, candidate.flatpak.sha256).Ok?
      ensures Contained()
    {
      FinalPathIsOwned(candidate);
      var rewound: bool := *;
      if temporary.None? || ParentOf(temporary.value.path) != downloads.value
         || temporary.value.path !in files || !files[temporary.value.path].Regular? || !rewound {
        DiscardTemporary(temporary);
        return Err(UnsafePath);
      }
      var source := temporary.value.path;
      var problem := HashContent(files[source].content, candidate.flatpak.size, candidate.flatpak.sha256);
      if problem != NoError {
        DiscardTemporary(temporary);
        return Err(problem);
      }
      var renamed: bool := *;
      if !renamed {
        var _ := Remove(source);
        return Err(IoFailure);
      }
      files := (files - {source})[path := files[source]];
      r := OpenAndVerify(path, candidate.flatpak.size, candidate.flatpak.sha256);
      if r.Err? {
        var _ := Remove(path);
      }
    }

    // ----- the record -----

    function DocumentIn(files: FileMap): UpdateResult<Bytes> {
      if RecordPath() !in files then Err(InvalidMetadata)
      else if !files[RecordPath()].Regular? then Err(UnsafePath)
      else if |files[RecordPath()].content| > RECORD_LIMIT then Err(InvalidMetadata)
      else Ok(files[RecordPath()].content)
    }

    function OwnedRecord(document: Bytes): Option<PendingRecord> {
      match ParseRecord(document)
      case None => None
      case Some(record) => if OwnedFinalPath(record.canonicalPath, record.candidate) then Some(record) else None
    }

    function StoredIn(files: FileMap): Option<PendingRecord> {
      match DocumentIn(files)
      case Err(_) => None
      case Ok(document) => OwnedRecord(document)
    }

    /** The record on disk, if it parses and names the payload its candidate owns. */
    function Stored(): Option<PendingRecord>
      reads this
    {
      StoredIn(files)
    }

    ghost predicate PayloadIntactIn(files: FileMap, record: PendingRecord) {
      Verdict(downloads, files, record.canonicalPath, record.verifiedSize, record.verifiedSha256).Ok?
    }

    ghost function PayloadVerdict(record: PendingRecord): UpdateResult<OpenVerifiedFile>
      reads this
    {
      VerdictNow(record.canonicalPath, record.verifiedSize, record.verifiedSha256)
    }

    ghost predicate LoadableIn(files: FileMap) {
      StoredIn(files).Some? && PayloadIntactIn(files, StoredIn(files).value)
    }

    /** A record is stored and its payload is intact. */
    ghost predicate Loadable()
      reads this
    {
      LoadableIn(files)
    }

    /** The record's text is on disk, next to a payload that verifies. */
    ghost predicate KeptIn(files: FileMap, record: PendingRecord) {
      && RecordPath() in files && files[RecordPath()].Regular?
      && files[RecordPath()].content == SerializeRecord(record) && |SerializeRecord(record)| <= RECORD_LIMIT
      && SavableRecord(record) && OwnedFinalPath(record.canonicalPath, record.candidate) && PayloadIntactIn(files, record)
    }

    ghost predicate Kept(record: PendingRecord)
      reads this
    {
      KeptIn(files, record)
    }

    /** A record that is kept is what will be loaded, if and only if its dates have four-digit years. */
    lemma KeptIsStored(files: FileMap, record: PendingRecord)
      requires Lawful() && KeptIn(files, record)
      ensures StoredIn(files) == Some(record) && LoadableIn(files) <==> Dated(record.candidate)
    {
      hide ParseRecord, SerializeRecord, ValidCandidate, Lawful, Dated;
      RecordRoundTrip(record);
      assert DocumentIn(files) == Ok(files[RecordPath()].content);
    }

    /** Saving on top of what is there makes the record the stored one, if and only if its dates have four-digit years. */
    lemma SavedIsStored(before: FileMap, record: PendingRecord, node: Node)
      requires Lawful() && SavableRecord(record)
      requires OwnedFinalPath(record.canonicalPath, record.candidate) && PayloadIntactIn(before, record)
      requires node.Regular? && node.content == SerializeRecord(record) && |node.content| <= RECORD_LIMIT
      ensures var files := before[RecordPath() := node];
              StoredIn(files) == Some(record) && LoadableIn(files) <==> Dated(record.candidate)
    {
      hide *;
      SavedIsKept(before, record, node);
      KeptIsStored(before[RecordPath() := node], record);
    }

    lemma SavedIsKept(before: FileMap, record: PendingRecord, node: Node)
      requires SavableRecord(record)
      requires OwnedFinalPath(record.canonicalPath, record.candidate) && PayloadIntactIn(before, record)
      requires node.Regular? && node.content == SerializeRecord(record) && |node.content| <= RECORD_LIMIT
      ensures KeptIn(before[RecordPath() := node], record)
    {
      hide SerializeRecord, ValidCandidate;
      RecordIsNotFinal(record.candidate);
    }

    /** Taking files away never makes a stored record loadable. */
    lemma RemovalKeepsUnloadable(before: FileMap, after: FileMap)
      requires !LoadableIn(before)
      requires forall p | p in after :: p in before && after[p] == before[p]
      ensures !LoadableIn(after)
    {
      hide ParseRecord;
    }

    method ReadRecord() returns (r: UpdateResult<Bytes>)
      ensures r == DocumentIn(files) || r == Err(IoFailure)
    {
      var readable: bool := *;
      return if readable then DocumentIn(files) else Err(IoFailure);
    }

    /**
      Keeps the record, atomically, of a payload that has just been verified once more. By
      `KeptIsStored` it is then what will be loaded.
     */
    method Save(record: PendingRecord) returns (ok: bool)
      requires Contained()
      modifies this`files
      ensures ok ==> Kept(record)
      ensures ok && Lawful() ==> (Stored() == Some(record) && Loadable() <==> Dated(record.candidate))
      ensures ok ==> exists t :: files == old(files)[RecordPath() := Regular(SerializeRecord(record), t)]
      ensures !ok ==> files == old(files)
      ensures Contained()
    {
      hide ParseRecord, SerializeRecord, ValidCandidate, Lawful, Dated, PendingUpdateStore.KeptIn;
      if !SavableRecord(record) || !OwnedFinalPath(record.canonicalPath, record.candidate) {
        return false;
      }
      var verified := OpenAndVerify(record.canonicalPath, record.verifiedSize, record.verifiedSha256);
      if verified.Err? || (RecordPath() in files && !files[RecordPath()].Regular?) {
        return false;
      }
      var document := SerializeRecord(record);
      if |document| > RECORD_LIMIT {
        return false;
      }
      ok := *;
      if ok {
        var now: int := *;
        SavedIsKept(files, record, Regular(document, now));
        if Lawful() {
          SavedIsStored(files, record, Regular(document, now));
        }
        files := files[RecordPath() := Regular(document, now)];
      }
    }

    method RemoveOwnedPayload(record: PendingRecord)
      requires OwnedFinalPath(record.canonicalPath, record.candidate)
      requires Contained()
      modifies this`files
      ensures files == old(files) || files == old(files) - {record.canonicalPath}
      ensures Contained()
    {
      FinalPathIsOwned(record.candidate);
      var _ := Remove(record.canonicalPath);
    }

    /**
      Loads exactly what is stored with an intact payload. A record that cannot be trusted stays
      unloadable, and a failure to read changes nothing.
     */
    method Load() returns (r: LoadResult)
      requires Contained()
      modifies this`files
      ensures r.Loaded? ==> old(Loadable()) && old(Stored()) == Some(r.record) && files == old(files)
      ensures r.LoadFailed? && r.error != IoFailure ==> !old(Loadable()) && !Loadable()
      ensures r.LoadFailed? && r.error == IoFailure ==>
                files == old(files) && (r.salvaged == EMPTY_RECORD || Stored() == Some(r.salvaged))
      ensures Contained()
    {
      hide ParseRecord;
      var document := ReadRecord();
      if document.Err? {
        return LoadFailed(document.error, EMPTY_RECORD);
      }
      var parsed := OwnedRecord(document.value);
      if parsed.None? {
        var _ := Remove(RecordPath());
        RemovalKeepsUnloadable(old(files), files);
        return LoadFailed(InvalidMetadata, EMPTY_RECORD);
      }
      var record := parsed.value;
      var verified := OpenAndVerify(record.canonicalPath, record.verifiedSize, record.verifiedSha256);
      if verified.Err? {
        if verified.error == IoFailure {
          return LoadFailed(IoFailure, record);
        }
        RemoveOwnedPayload(record);
        var _ := Remove(RecordPath());
        RemovalKeepsUnloadable(old(files), files);
        return LoadFailed(verified.error, EMPTY_RECORD);
      }
      return Loaded(record);
    }

    /** Nothing is new on disk, and nothing is gone but the record and, on request, the payload it names. */
    ghost predicate OnlyForgets(before: FileMap, after: FileMap, removePayload: bool) {
      && (forall p | p in after :: p in before && after[p] == before[p])
      && (forall p | p in before && p !in after ::
            p == RecordPath()
            || (removePayload && StoredIn(before).Some? && p == StoredIn(before).value.canonicalPath))
    }

    /** Forgets the record and, on request, the payload that record names; nothing else. */
    method Clear(removePayload: bool)
      requires Contained()
      modifies this`files
      ensures OnlyForgets(old(files), files, removePayload)
      ensures Contained()
    {
      hide ParseRecord;
      var document := ReadRecord();
      if removePayload && document.Ok? {
        var parsed := OwnedRecord(document.value);
        if parsed.Some? {
          RemoveOwnedPayload(parsed.value);
        }
      }
      var _ := Remove(RecordPath());
    }

    /**
      Opens the recorded payload for the candidate now published. Success means the record, the
      published candidate and the bytes all agree; otherwise the file is not handed out.
     */
    method ReopenAndVerify(record: PendingRecord, current: Candidate) returns (r: UpdateResult<OpenVerifiedFile>)
      requires Contained()
      modifies this`files
      ensures r.Ok? ==> && SavableRecord(record) && OwnedFinalPath(record.canonicalPath, record.candidate)
                        && ValidCandidate(current) && SameCandidate(record.candidate, current)
                        && r == PayloadVerdict(record) && files == old(files)
      ensures r.Err? ==> r.error in {InvalidMetadata, PublisherChanged, UnsafePath, SizeMismatch, DigestMismatch, IoFailure}
      ensures r == Err(IoFailure) ==> files == old(files)
      ensures Contained()
    {
      if !SavableRecord(record) || !OwnedFinalPath(record.canonicalPath, record.candidate) {
        Clear(false);
        return Err(InvalidMetadata);
      }
      if !ValidCandidate(current) || MatchesCandidate(record.candidate, current).Err? {
        Clear(true);
        return Err(PublisherChanged);
      }
      r := OpenAndVerify(record.canonicalPath, record.verifiedSize, record.verifiedSha256);
      if r.Err? && r.error != IoFailure {
        Clear(true);
      }
    }

    /** Removes part files that have not been written for a day, and only those. */
    method CleanStaleParts(now: int)
      requires Contained()
      modifies this`files
      ensures forall p | p in files :: p in old(files) && files[p] == old(files)[p]
      ensures forall p | p in old(files) && p !in files ::
                PartName(p) && old(files)[p].Regular? && now - old(files)[p].modifiedSecs >= STALE_PART_SECONDS
      ensures Contained()
    {
      var entries := files.Keys;
      while entries != {}
        invariant forall p | p in files :: p in old(files) && files[p] == old(files)[p]
        invariant forall p | p in old(files) && p !in files ::
            PartName(p) && old(files)[p].Regular? && now - old(files)[p].modifiedSecs >= STALE_PART_SECONDS
        decreases entries
      {
        var entry :| entry in entries;
        entries := entries - {entry};
        if entry in files && files[entry].Regular? && PartName(entry)
           && now - files[entry].modifiedSecs >= STALE_PART_SECONDS {
          var _ := Remove(entry);
        }
      }
    }
  }
}
