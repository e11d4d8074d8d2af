/**
  The metadata checks of the rolling updater: hexadecimal identifiers, resolution of an
  annotated tag chain to a commit, and the comparisons that bind a download to one candidate.
  JSON documents, URLs and SHA-256 stay outside: see `UpdateWorld`.
 */
module RollingUpdateParser {
  import opened UpdateTypes

  // ----- identifiers -----

  predicate HexDigit(c: char) {
    '0' <= c <= '9' || 'a' <= c <= 'f'
  }

  predicate AllHex(s: string) {
    forall i | 0 <= i < |s| :: HexDigit(s[i])
  }

  /** What the pattern `^[0-9a-f]+$` matches: `$` also stands before one final newline. */
  predicate LowerHexText(s: string) {
    (|s| >= 1 && AllHex(s)) || (|s| >= 2 && s[|s| - 1] == '\n' && AllHex(s[..|s| - 1]))
  }

  predicate FullLowerHex(s: string, length: nat) {
    |s| == length && LowerHexText(s)
  }

  /** The first twelve characters of an accepted commit are plain digits, final newline or not. */
  lemma CommitPrefixIsHex(commit: string)
    requires FullLowerHex(commit, 40)
    ensures |commit[..12]| == 12 && AllHex(commit[..12])
  {
    if !AllHex(commit) {
      assert commit[..12] == commit[..39][..12];
    }
  }

  // ----- tag chains -----

  predicate KnownKind(kind: string) {
    kind == "tag" || kind == "commit"
  }

  predicate WellFormedObject(o: TagObject) {
    FullLowerHex(o.id, 40) && FullLowerHex(o.targetId, 40) && KnownKind(o.kind)
  }

  /** Every object is well formed and no id appears twice. */
  ghost predicate WellFormedGraph(objects: seq<TagObject>) {
    && (forall i | 0 <= i < |objects| :: WellFormedObject(objects[i]))
    && (forall i, j | 0 <= i < j < |objects| :: objects[i].id != objects[j].id)
  }

  /** `hops` tag objects lead from the object called `from` to the id `to`. */
  ghost predicate Leads(objects: seq<TagObject>, from: string, hops: nat, to: string)
    decreases hops
  {
    if hops == 0 then from == to
    else exists o | o in objects :: o.id == from && o.kind == "tag" && Leads(objects, o.targetId, hops - 1, to)
  }

  /** The object `end` is a commit-typed object, `hops` tag objects after the one called `id`. */
  ghost predicate Reaches(objects: seq<TagObject>, id: string, hops: nat, end: TagObject) {
    Leads(objects, id, hops, end.id) && end in objects && end.kind == "commit"
  }

  ghost predicate ReachesCommit(objects: seq<TagObject>, id: string) {
    exists hops: nat, end :: Reaches(objects, id, hops, end)
  }

  ghost predicate LeadsBeyond(objects: seq<TagObject>, from: string, to: string) {
    exists hops: nat :: hops > 0 && Leads(objects, from, hops, to)
  }

  /** The id determines the object. */
  ghost predicate OneObjectPerId(objects: seq<TagObject>) {
    forall o, p | o in objects && p in objects && o.id == p.id :: o == p
  }

  lemma GraphHasOneObjectPerId(objects: seq<TagObject>)
    requires WellFormedGraph(objects)
    ensures OneObjectPerId(objects)
  {
  }

  /** One more tag object lengthens a walk. */
  lemma {:induction false} WalkExtends(objects: seq<TagObject>, from: string, hops: nat, o: TagObject)
    requires Leads(objects, from, hops, o.id) && o in objects && o.kind == "tag"
    ensures Leads(objects, from, hops + 1, o.targetId)
    decreases hops
  {
    if hops == 0 {
      assert Leads(objects, o.targetId, 0, o.targetId);
    } else {
      var p :| p in objects && p.id == from && p.kind == "tag" && Leads(objects, p.targetId, hops - 1, o.id);
      WalkExtends(objects, p.targetId, hops - 1, o);
    }
  }

  /** A commit found from `from` lies beyond every id the walk from `from` passes. */
  lemma {:induction false} WalkCannotSkipCommit(
      objects: seq<TagObject>, from: string, m: nat, mid: string, n: nat, end: TagObject)
    requires OneObjectPerId(objects)
    requires Leads(objects, from, m, mid) && Reaches(objects, from, n, end)
    ensures m <= n && Reaches(objects, mid, n - m, end)
    decreases m
  {
    if m > 0 {
      var o :| o in objects && o.id == from && o.kind == "tag" && Leads(objects, o.targetId, m - 1, mid);
      if n == 0 {
        assert false;
      }
      var p :| p in objects && p.id == from && p.kind == "tag" && Leads(objects, p.targetId, n - 1, end.id);
      WalkCannotSkipCommit(objects, o.targetId, m - 1, mid, n - 1, end);
    }
  }

  /** A chain has one end, at one distance. */
  lemma ChainEndIsUnique(objects: seq<TagObject>, id: string, m: nat, e: TagObject, n: nat, f: TagObject)
    requires OneObjectPerId(objects)
    requires Reaches(objects, id, m, e) && Reaches(objects, id, n, f)
    ensures m == n && e == f
  {
    WalkCannotSkipCommit(objects, id, m, e.id, n, f);
    WalkCannotSkipCommit(objects, id, n, f.id, m, e);
  }

  /** No commit lies on or after a cycle. */
  lemma {:induction false} CycleReachesNothing(objects: seq<TagObject>, id: string, period: nat, n: nat, end: TagObject)
    requires OneObjectPerId(objects)
    requires period > 0 && Leads(objects, id, period, id)
    ensures !Reaches(objects, id, n, end)
    decreases n
  {
    if Reaches(objects, id, n, end) {
      WalkCannotSkipCommit(objects, id, period, id, n, end);
      CycleReachesNothing(objects, id, period, n - period, end);
    }
  }

  /** If the walk from `start` passes `current` and nothing is reached from there, nothing is reached at all. */
  lemma DeadEnd(objects: seq<TagObject>, start: string, current: string)
    requires OneObjectPerId(objects)
    requires start == current || LeadsBeyond(objects, start, current)
    requires !ReachesCommit(objects, current)
    ensures !ReachesCommit(objects, start)
  {
    if start != current && ReachesCommit(objects, start) {
      var n: nat, e :| Reaches(objects, start, n, e);
      var m: nat :| m > 0 && Leads(objects, start, m, current);
      WalkCannotSkipCommit(objects, start, m, current, n, e);
    }
  }

  lemma CycleIsDeadEnd(objects: seq<TagObject>, current: string)
    requires OneObjectPerId(objects)
    requires LeadsBeyond(objects, current, current)
    ensures !ReachesCommit(objects, current)
  {
    if ReachesCommit(objects, current) {
      var n: nat, e :| Reaches(objects, current, n, e);
      var period: nat :| period > 0 && Leads(objects, current, period, current);
      CycleReachesNothing(objects, current, period, n, e);
    }
  }

  lemma GapIsDeadEnd(objects: seq<TagObject>, current: string)
    requires forall o | o in objects :: o.id != current
    ensures !ReachesCommit(objects, current)
  {
    forall n: nat, e ensures !Reaches(objects, current, n, e) {
    }
  }

  lemma WalkBeyondExtends(objects: seq<TagObject>, from: string, o: TagObject)
    requires from == o.id || LeadsBeyond(objects, from, o.id)
    requires o in objects && o.kind == "tag"
    ensures LeadsBeyond(objects, from, o.targetId)
  {
    if from == o.id {
      WalkExtends(objects, from, 0, o);
    } else {
      var m: nat :| m > 0 && Leads(objects, from, m, o.id);
      WalkExtends(objects, from, m, o);
    }
  }

  lemma CommitFound(objects: seq<TagObject>, start: string, end: TagObject)
    requires end in objects && end.kind == "commit"
    requires start == end.id || LeadsBeyond(objects, start, end.id)
    ensures exists hops: nat :: Reaches(objects, start, hops, end)
  {
    if start == end.id {
      assert Reaches(objects, start, 0, end);
    } else {
      var m: nat :| m > 0 && Leads(objects, start, m, end.id);
      assert Reaches(objects, start, m, end);
    }
  }

  ghost function Ids(objects: seq<TagObject>): set<string> {
    set o | o in objects :: o.id
  }

  /** The first pass of the resolution: every object well formed, ids distinct. */
  method CollectIds(objects: seq<TagObject>) returns (ok: bool, objectIds: set<string>)
    ensures ok <==> WellFormedGraph(objects)
    ensures ok ==> objectIds == Ids(objects)
  {
    objectIds := {};
    for k := 0 to |objects|
      invariant objectIds == Ids(objects[..k])
      invariant WellFormedGraph(objects[..k])
    {
      var node := objects[k];
      if !WellFormedObject(node) {
        return false, {};
      }
      if node.id in objectIds {
        var o :| o in objects[..k] && o.id == node.id;
        var i :| 0 <= i < k && objects[i] == o;
        return false, {};
      }
      assert objects[..k + 1] == objects[..k] + [node];
      objectIds := objectIds + {node.id};
    }
    assert objects[..|objects|] == objects;
    ok := true;
  }

  /** The inner search of the resolution: the object called `current`, if there is one. */
  method FindObject(objects: seq<TagObject>, current: string) returns (r: Option<TagObject>)
    ensures r.Some? ==> r.value in objects && r.value.id == current
    ensures r.None? ==> forall o | o in objects :: o.id != current
  {
    for k := 0 to |objects|
      invariant forall i | 0 <= i < k :: objects[i].id != current
    {
      if objects[k].id == current {
        return Some(objects[k]);
      }
    }
    return None;
  }

  /** What the reference and the objects say the tag is: it is there, well formed, and this is its end. */
  ghost predicate ResolvesTo(reference: TagObject, objects: seq<TagObject>, resolution: TagResolution) {
    && WellFormedObject(reference) && WellFormedGraph(objects)
    && (reference.kind == "commit" ==> resolution == TagResolution(reference.id, "", reference.targetId))
    && (reference.kind == "tag" ==>
          exists hops: nat, end :: Reaches(objects, reference.targetId, hops, end)
                                   && resolution == TagResolution(reference.id, end.id, end.targetId))
  }

  /**
    Succeeds exactly when the reference and every object are well formed, ids are distinct, and
    following targets from the reference arrives at a commit-typed object, which is then reported.
    Cycles and gaps fail; the loop ends because each hop uses up an id.
   */
  method ResolveTagCommit(reference: TagObject, objects: seq<TagObject>) returns (r: UpdateResult<TagResolution>)
    ensures r.Ok? <==> WellFormedObject(reference) && WellFormedGraph(objects)
                       && (reference.kind == "commit" || ReachesCommit(objects, reference.targetId))
    ensures r.Ok? ==> ResolvesTo(reference, objects, r.value)
    ensures r.Err? ==> r.error == InvalidMetadata
  {
    if !WellFormedObject(reference) {
      return Err(InvalidMetadata);
    }
    var wellFormed, objectIds := CollectIds(objects);
    if !wellFormed {
      return Err(InvalidMetadata);
    }
    if reference.kind == "commit" {
      return Ok(TagResolution(reference.id, "", reference.targetId));
    }
    GraphHasOneObjectPerId(objects);
    var start := reference.targetId;
    var current := start;
    var visited: set<string> := {};
    while true
      invariant visited <= objectIds
      invariant forall v | v in visited :: LeadsBeyond(objects, v, current)
      invariant start == current || LeadsBeyond(objects, start, current)
      decreases objectIds - visited
    {
      if current in visited {
        CycleIsDeadEnd(objects, current);
        DeadEnd(objects, start, current);
        return Err(InvalidMetadata);
      }
      visited := visited + {current};
      var found := FindObject(objects, current);
      if found.None? {
        GapIsDeadEnd(objects, current);
        DeadEnd(objects, start, current);
        return Err(InvalidMetadata);
      }
      var node := found.value;
      if node.kind == "commit" {
        CommitFound(objects, start, node);
        return Ok(TagResolution(reference.id, node.id, node.targetId));
      }
      forall v | v in visited ensures LeadsBeyond(objects, v, node.targetId) {
        WalkBeyondExtends(objects, v, node);
      }
      WalkBeyondExtends(objects, start, node);
      current := node.targetId;
    }
  }

  // ----- candidate comparison -----

  predicate SameAsset(left: Asset, right: Asset, checkDigest: bool) {
    && left.id == right.id
    && left.name == right.name
    && left.size == right.size
    && left.apiUrl == right.apiUrl
    && left.downloadUrl == right.downloadUrl
    && left.updatedAt == right.updatedAt
    && (!checkDigest || left.sha256 == right.sha256)
  }

  predicate SameCandidate(left: Candidate, right: Candidate) {
    && left.releaseId == right.releaseId
    && left.releaseLabel == right.releaseLabel
    && left.releasePage == right.releasePage
    && left.releaseUpdatedAt == right.releaseUpdatedAt
    && left.sourceCommit == right.sourceCommit
    && left.sequence == right.sequence
    && left.tagRefObjectId == right.tagRefObjectId
    && left.tagObjectId == right.tagObjectId
    && left.manifestSchema == right.manifestSchema
    && left.publishedAt == right.publishedAt
    && SameAsset(left.manifest, right.manifest, false)
    && SameAsset(left.flatpak, right.flatpak, true)
  }

  function MatchesCandidate(expected: Candidate, actual: Candidate): UpdateResult<bool> {
    if SameCandidate(expected, actual) then Ok(true) else Err(PublisherChanged)
  }

  function BindTagResolution(candidate: Candidate, resolution: TagResolution): UpdateResult<Candidate> {
    if !FullLowerHex(resolution.tagRefObjectId, 40)
       || (resolution.tagObjectId != "" && !FullLowerHex(resolution.tagObjectId, 40))
       || resolution.commit != candidate.sourceCommit then Err(InvalidMetadata)
    else Ok(candidate.(tagRefObjectId := resolution.tagRefObjectId, tagObjectId := resolution.tagObjectId))
  }

  function MatchesTagResolution(expected: Candidate, resolution: TagResolution): UpdateResult<bool> {
    if resolution.tagRefObjectId != expected.tagRefObjectId
       || resolution.tagObjectId != expected.tagObjectId
       || resolution.commit != expected.sourceCommit then Err(PublisherChanged)
    else Ok(true)
  }

  /**
    Binding and matching agree: a candidate bound to one resolution is matched by a later
    resolution exactly when that resolution is the same one.
   */
  lemma BindingIsWhatMatches(candidate: Candidate, bound: TagResolution, later: TagResolution)
    requires BindTagResolution(candidate, bound).Ok?
    ensures MatchesTagResolution(BindTagResolution(candidate, bound).value, later).Ok? <==> later == bound
    ensures BindTagResolution(candidate, bound).value.flatpak == candidate.flatpak
  {
    var c := BindTagResolution(candidate, bound).value;
    assert later == TagResolution(later.tagRefObjectId, later.tagObjectId, later.commit);
  }

  function IsInstallable(runningCommit: string, runningSequence: uint64, candidate: Candidate, relation: CommitRelation)
    : UpdateResult<bool>
  {
    if !FullLowerHex(runningCommit, 40) || !FullLowerHex(candidate.sourceCommit, 40)
       || relation != CandidateAhead || candidate.sequence <= runningSequence then Err(CandidateNotAhead)
    else Ok(true)
  }
}
