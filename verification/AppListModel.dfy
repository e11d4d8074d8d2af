/**
  The visible list of apps: a new list is merged into it row by row, so that views keep their place.
  The merge is meant to end with exactly the new list; below is when it does.
 */
module AppListModel {
  import opened UpdateTypes

  datatype App = App(
    id: int, name: string, uuid: string, hdrSupported: bool, isAppCollectorGame: bool, hidden: bool, directLaunch: bool)

  /** QString::toLower, left open. */
  const LOWER: string -> string

  function Key(app: App): string {
    LOWER(app.name)
  }

  /** QString's `>`: the first differing character decides, and a longer string beats its own prefix. */
  predicate Above(a: string, b: string) {
    if a == [] then false
    else if b == [] then true
    else if a[0] != b[0] then a[0] > b[0]
    else Above(a[1..], b[1..])
  }

  lemma {:induction false} AboveIsStrict(a: string, b: string)
    ensures a == b ==> !Above(a, b)
    ensures Above(a, b) ==> !Above(b, a)
    ensures a != b ==> Above(a, b) || Above(b, a)
  {
    if a != [] && b != [] && a[0] == b[0] {
      AboveIsStrict(a[1..], b[1..]);
      assert a == [a[0]] + a[1..] && b == [b[0]] + b[1..];
    }
  }

  lemma {:induction false} AboveIsTransitive(a: string, b: string, c: string)
    requires Above(a, b) && Above(b, c)
    ensures Above(a, c)
  {
    if c != [] && a[0] == b[0] && b[0] == c[0] {
      AboveIsTransitive(a[1..], b[1..], c[1..]);
    }
  }

  predicate Later(a: App, b: App) {
    Above(Key(a), Key(b))
  }

  predicate UniqueIds(s: seq<App>) {
    forall i, j | 0 <= i < j < |s| :: s[i].id != s[j].id
  }

  /** What `sortAppList` leaves: names never fall. */
  predicate NonDecreasing(s: seq<App>) {
    forall i, j | 0 <= i < j < |s| :: !Later(s[i], s[j])
  }

  // ----- row signals -----

  datatype RowSignal = Changed(row: nat, app: App) | Removed(row: nat) | Inserted(row: nat, app: App)

  predicate Fits(s: seq<App>, signal: RowSignal) {
    match signal
    case Changed(row, app) => row < |s| && s[row] != app
    case Removed(row) => row < |s|
    case Inserted(row, _) => row <= |s|
  }

  function Follow(s: seq<App>, signal: RowSignal): seq<App>
    requires Fits(s, signal)
  {
    match signal
    case Changed(row, app) => s[row := app]
    case Removed(row) => s[..row] + s[row + 1..]
    case Inserted(row, app) => s[..row] + [app] + s[row..]
  }

  /** What a view shows that started with `start` and followed the signals in order; nothing if one did not fit. */
  function Replay(start: seq<App>, signals: seq<RowSignal>): Option<seq<App>> {
    if signals == [] then Some(start)
    else
      match Replay(start, signals[..|signals| - 1])
      case None => None
      case Some(shown) =>
        if Fits(shown, signals[|signals| - 1]) then Some(Follow(shown, signals[|signals| - 1])) else None
  }

  // ----- what the loops compute -----

  function IndexOf(s: seq<App>, id: int): (r: Option<nat>)
    ensures r.Some? ==> r.value < |s| && s[r.value].id == id && forall j | 0 <= j < r.value :: s[j].id != id
    ensures r.None? ==> forall j | 0 <= j < |s| :: s[j].id != id
  {
    if s == [] then None
    else if s[0].id == id then Some(0)
    else match IndexOf(s[1..], id) case None => None case Some(i) => Some(i + 1)
  }

  /** The old apps that are still there, as the new list describes them. */
  function Survivors(previous: seq<App>, wanted: seq<App>): seq<App> {
    if previous == [] then []
    else
      Survivors(previous[..|previous| - 1], wanted)
      + match IndexOf(wanted, previous[|previous| - 1].id) case None => [] case Some(i) => [wanted[i]]
  }

  lemma SurvivorsOfNone(wanted: seq<App>)
    ensures Survivors([], wanted) == []
  {
  }

  /** One round of the first pass: the app at the boundary is brought up to date or taken out. */
  lemma SurvivorsStep(before: seq<App>, done: nat, wanted: seq<App>, visible: seq<App>)
    requires done < |before| && visible == Survivors(before[..done], wanted) + before[done..]
    ensures var kept := Survivors(before[..done], wanted);
            var next := Survivors(before[..done + 1], wanted);
            && |kept| < |visible| && visible[|kept|] == before[done]
            && match IndexOf(wanted, before[done].id)
               case Some(k) => |next| == |kept| + 1 && visible[|kept| := wanted[k]] == next + before[done + 1..]
               case None => next == kept && visible[..|kept|] + visible[|kept| + 1..] == next + before[done + 1..]
  {
    assert before[..done + 1][..done] == before[..done];
    var kept := Survivors(before[..done], wanted);
    match IndexOf(wanted, before[done].id)
    case Some(k) =>
      assert visible[|kept| := wanted[k]] == kept + [wanted[k]] + before[done + 1..];
    case None =>
      assert visible[..|kept|] + visible[|kept| + 1..] == kept + before[done + 1..];
  }

  /** Where the scan for `app` stops: at its own id, at the first later name, or at the end. */
  function Stop(s: seq<App>, app: App): (i: nat)
    ensures i <= |s|
    ensures forall j | 0 <= j < i :: s[j].id != app.id && !Later(s[j], app)
    ensures i < |s| ==> s[i].id == app.id || Later(s[i], app)
  {
    if s == [] then 0
    else if s[0].id == app.id || Later(s[0], app) then 0
    else 1 + Stop(s[1..], app)
  }

  function Added(s: seq<App>, app: App): seq<App> {
    var i := Stop(s, app);
    if i < |s| && s[i].id == app.id then s else s[..i] + [app] + s[i..]
  }

  function Merged(s: seq<App>, wanted: seq<App>): seq<App> {
    if wanted == [] then s else Added(Merged(s, wanted[..|wanted| - 1]), wanted[|wanted| - 1])
  }

  predicate Shown(app: App, current: seq<App>, showHidden: bool) {
    showHidden || !app.hidden || IndexOf(current, app.id).Some?
  }

  function VisibleOf(apps: seq<App>, current: seq<App>, showHidden: bool): seq<App> {
    if apps == [] then []
    else
      VisibleOf(apps[..|apps| - 1], current, showHidden)
      + if Shown(apps[|apps| - 1], current, showHidden) then [apps[|apps| - 1]] else []
  }

  // ----- when the merge ends with exactly the new list -----

  function Filter(s: seq<App>, keep: set<App>): seq<App> {
    if s == [] then [] else (if s[0] in keep then [s[0]] else []) + Filter(s[1..], keep)
  }

  function Elements(s: seq<App>): set<App> {
    set x | x in s
  }

  lemma {:induction false} FilterOfSum(a: seq<App>, b: seq<App>, keep: set<App>)
    ensures Filter(a + b, keep) == Filter(a, keep) + Filter(b, keep)
  {
    if a == [] {
      assert a + b == b;
    } else {
      assert (a + b)[0] == a[0] && (a + b)[1..] == a[1..] + b;
      FilterOfSum(a[1..], b, keep);
      Regroup(if a[0] in keep then [a[0]] else [], Filter(a[1..], keep), Filter(b, keep));
    }
  }

  lemma Regroup(a: seq<App>, b: seq<App>, c: seq<App>)
    ensures a + (b + c) == a + b + c
  {
  }

  lemma {:induction false} FilterMembers(s: seq<App>, keep: set<App>)
    ensures forall x :: x in Filter(s, keep) <==> x in s && x in keep
    ensures |Filter(s, keep)| <= |s|
  {
    if s != [] {
      FilterMembers(s[1..], keep);
      assert s == [s[0]] + s[1..];
    }
  }

  lemma {:induction false} FilterSame(s: seq<App>, a: set<App>, b: set<App>)
    requires forall x | x in s :: x in a <==> x in b
    ensures Filter(s, a) == Filter(s, b)
  {
    if s != [] {
      assert forall x | x in s[1..] :: x in s;
      FilterSame(s[1..], a, b);
    }
  }

  lemma {:induction false} FilterAll(s: seq<App>, keep: set<App>)
    requires forall x | x in s :: x in keep
    ensures Filter(s, keep) == s
  {
    if s != [] {
      assert forall x | x in s[1..] :: x in s;
      FilterAll(s[1..], keep);
      assert s == [s[0]] + s[1..];
    }
  }

  lemma {:induction false} FilterTwice(s: seq<App>, a: set<App>, b: set<App>)
    ensures Filter(Filter(s, a), b) == Filter(s, a * b)
  {
    if s != [] {
      FilterTwice(s[1..], a, b);
      FilterOfSum(if s[0] in a then [s[0]] else [], Filter(s[1..], a), b);
      assert Filter([s[0]], b) == if s[0] in b then [s[0]] else [];
    }
  }

  lemma {:induction false} FilterKeepsUnique(s: seq<App>, keep: set<App>)
    requires UniqueIds(s)
    ensures UniqueIds(Filter(s, keep))
  {
    if s != [] {
      FilterKeepsUnique(s[1..], keep);
      FilterMembers(s[1..], keep);
      var rest := Filter(s[1..], keep);
      forall j | 0 <= j < |rest| ensures rest[j].id != s[0].id {
        assert rest[j] in s[1..];
      }
    }
  }

  /** The survivors stand in the new list's order. */
  predicate OrderKept(kept: seq<App>, wanted: seq<App>) {
    kept == Filter(wanted, Elements(kept))
  }

  /** No added app ties with, or follows by name, a survivor that comes after it. */
  predicate BelowSurvivors(kept: seq<App>, wanted: seq<App>) {
    forall i, j | 0 <= i < j < |wanted| && wanted[i] !in kept && wanted[j] in kept :: Later(wanted[j], wanted[i])
  }

  /** What the second pass should have after the first `k` new apps. */
  function Ideal(kept: seq<App>, wanted: seq<App>, k: nat): seq<App>
    requires k <= |wanted|
  {
    wanted[..k] + Filter(wanted[k..], Elements(kept))
  }

  lemma StopIs(s: seq<App>, app: App, k: nat)
    requires k <= |s| && forall j | 0 <= j < k :: s[j].id != app.id && !Later(s[j], app)
    requires k < |s| ==> s[k].id == app.id || Later(s[k], app)
    ensures Stop(s, app) == k
  {
  }

  lemma IdealNext(kept: seq<App>, wanted: seq<App>, k: nat)
    requires k < |wanted|
    ensures var rest := Filter(wanted[k + 1..], Elements(kept));
            && Ideal(kept, wanted, k) == (if wanted[k] in kept then wanted[..k] + [wanted[k]] + rest else wanted[..k] + rest)
            && Ideal(kept, wanted, k + 1) == wanted[..k] + [wanted[k]] + rest
            && forall x | x in rest :: x in kept && x in wanted[k + 1..]
  {
    assert wanted[k..][1..] == wanted[k + 1..];
    assert wanted[..k + 1] == wanted[..k] + [wanted[k]];
    FilterMembers(wanted[k + 1..], Elements(kept));
  }

  /** Under the conditions, each new app is found, or goes in, at its own place. */
  lemma {:induction false} MergeFollowsIdeal(kept: seq<App>, wanted: seq<App>, k: nat)
    requires UniqueIds(wanted) && OrderKept(kept, wanted) && NonDecreasing(wanted) && BelowSurvivors(kept, wanted)
    requires k <= |wanted|
    ensures Merged(kept, wanted[..k]) == Ideal(kept, wanted, k)
  {
    if k == 0 {
      assert wanted[..0] == [] && wanted[0..] == wanted;
    } else {
      MergeFollowsIdeal(kept, wanted, k - 1);
      assert wanted[..k][..k - 1] == wanted[..k - 1];
      IdealStep(kept, wanted, k - 1);
    }
  }

  lemma IdealStep(kept: seq<App>, wanted: seq<App>, k: nat)
    requires UniqueIds(wanted) && NonDecreasing(wanted) && BelowSurvivors(kept, wanted) && k < |wanted|
    ensures Added(Ideal(kept, wanted, k), wanted[k]) == Ideal(kept, wanted, k + 1)
  {
    hide Filter, Stop, Later;
    var x, s := wanted[k], Ideal(kept, wanted, k);
    IdealNext(kept, wanted, k);
    if k < |s| && x !in kept {
      assert s[k] in wanted[k + 1..] && s[k] in kept;
      assert Later(s[k], x);
    }
    StopIs(s, x, k);
    if k < |s| && x !in kept {
      var j :| 0 <= j < |wanted[k + 1..]| && wanted[k + 1..][j] == s[k];
      assert wanted[k + 1 + j] == s[k];
    }
  }

  // ----- and only then -----

  /** The list as it stands before the new app `k` is added. */
  function Stage(kept: seq<App>, wanted: seq<App>, k: nat): seq<App>
    requires k <= |wanted|
  {
    Merged(kept, wanted[..k])
  }

  lemma StageNext(kept: seq<App>, wanted: seq<App>, k: nat)
    requires k < |wanted|
    ensures Stage(kept, wanted, k + 1) == Added(Stage(kept, wanted, k), wanted[k])
  {
    assert wanted[..k + 1][..k] == wanted[..k];
  }

  /** Apps are never lost, so every stage has the survivors and what has been added so far. */
  lemma {:induction false} StageElements(kept: seq<App>, wanted: seq<App>, k: nat)
    requires UniqueIds(wanted) && k <= |wanted| && Elements(kept) <= Elements(wanted)
    ensures Elements(Stage(kept, wanted, k)) == Elements(kept) + Elements(wanted[..k])
  {
    PrefixElements(wanted, k);
    if k == 0 {
      assert Stage(kept, wanted, 0) == kept;
    } else {
      hide Stage, Added, UniqueIds, Elements;
      PrefixElements(wanted, k - 1);
      StageElements(kept, wanted, k - 1);
      StageNext(kept, wanted, k - 1);
      AddedElements(Stage(kept, wanted, k - 1), wanted, k - 1);
    }
  }

  lemma PrefixElements(wanted: seq<App>, k: nat)
    requires k <= |wanted|
    ensures Elements(wanted[..k]) <= Elements(wanted)
    ensures k < |wanted| ==> Elements(wanted[..k + 1]) == Elements(wanted[..k]) + {wanted[k]}
    ensures k == 0 ==> Elements(wanted[..k]) == {}
  {
    if k < |wanted| {
      assert wanted[..k + 1] == wanted[..k] + [wanted[k]];
      ElementsOfSum(wanted[..k], [wanted[k]]);
      OneElement(wanted[k]);
    }
  }

  lemma AddedElements(s: seq<App>, wanted: seq<App>, k: nat)
    requires UniqueIds(wanted) && k < |wanted| && Elements(s) <= Elements(wanted)
    ensures Elements(Added(s, wanted[k])) == Elements(s) + {wanted[k]}
  {
    var app := wanted[k];
    var i := Stop(s, app);
    if i < |s| && s[i].id == app.id {
      assert s[i] in Elements(s);
      assert s[i] == app;
    } else {
      assert s == s[..i] + s[i..];
      hide Elements, Stop;
      ElementsOfSum(s[..i], s[i..]);
      ElementsOfSum(s[..i] + [app], s[i..]);
      ElementsOfSum(s[..i], [app]);
      OneElement(app);
    }
  }

  lemma OneElement(app: App)
    ensures Elements([app]) == {app}
  {
  }

  /** If the list ends up in the new order, it was in that order before the last addition as well. */
  lemma AddedWasInOrder(s: seq<App>, wanted: seq<App>, app: App)
    requires UniqueIds(wanted) && OrderKept(Added(s, app), wanted)
    ensures OrderKept(s, wanted)
  {
    var i := Stop(s, app);
    if !(i < |s| && s[i].id == app.id) {
      hide Filter, Stop, Elements, UniqueIds;
      var a, b := s[..i], s[i..];
      var grown := a + [app] + b;
      FilterKeepsUnique(wanted, Elements(grown));
      assert s == a + b;
      FilterTwice(wanted, Elements(grown), Elements(s));
      AbsentByUniqueness(a, app, b);
      WithoutMiddle(a, app, b);
    }
  }

  lemma WithoutMiddle(a: seq<App>, app: App, b: seq<App>)
    requires app !in a + b
    ensures Filter(a + [app] + b, Elements(a + b)) == a + b
    ensures Elements(a + [app] + b) * Elements(a + b) == Elements(a + b)
  {
    hide Filter;
    ElementsOfSum(a, b);
    ElementsOfSum(a + [app], b);
    ElementsOfSum(a, [app]);
    FilterMiddle(a, app, b, Elements(a + b));
  }

  lemma ElementsOfSum(a: seq<App>, b: seq<App>)
    ensures Elements(a + b) == Elements(a) + Elements(b)
  {
    assert forall x | x in a + b :: x in a || x in b;
  }

  lemma FilterMiddle(a: seq<App>, app: App, b: seq<App>, keep: set<App>)
    requires app !in keep && (forall x | x in a :: x in keep) && (forall x | x in b :: x in keep)
    ensures Filter(a + [app] + b, keep) == a + b
  {
    assert Filter([app], keep) == [];
    hide Filter;
    FilterOfSum(a + [app], b, keep);
    FilterOfSum(a, [app], keep);
    FilterAll(a, keep);
    FilterAll(b, keep);
  }

  lemma AbsentByUniqueness(a: seq<App>, app: App, b: seq<App>)
    requires UniqueIds(a + [app] + b)
    ensures app !in a + b
  {
    var grown := a + [app] + b;
    assert grown[|a|] == app;
    forall j | 0 <= j < |a| ensures a[j] != app {
      assert grown[j] == a[j];
    }
    forall j | 0 <= j < |b| ensures b[j] != app {
      assert grown[|a| + 1 + j] == b[j];
    }
  }

  lemma {:induction false} StageWasInOrder(kept: seq<App>, wanted: seq<App>, k: nat)
    requires UniqueIds(wanted) && k <= |wanted| && Merged(kept, wanted) == wanted
    ensures OrderKept(Stage(kept, wanted, k), wanted)
    decreases |wanted| - k
  {
    if k == |wanted| {
      assert wanted[..k] == wanted;
      FilterAll(wanted, Elements(wanted));
    } else {
      StageWasInOrder(kept, wanted, k + 1);
      StageNext(kept, wanted, k);
      AddedWasInOrder(Stage(kept, wanted, k), wanted, wanted[k]);
    }
  }

  /** So every stage was the ideal one. */
  lemma StageWasIdeal(kept: seq<App>, wanted: seq<App>, k: nat)
    requires UniqueIds(wanted) && k <= |wanted| && Elements(kept) <= Elements(wanted) && Merged(kept, wanted) == wanted
    ensures Stage(kept, wanted, k) == Ideal(kept, wanted, k)
  {
    hide Filter, Elements, Stage, Merged, UniqueIds;
    StageWasInOrder(kept, wanted, k);
    StageElements(kept, wanted, k);
    FilterIsIdeal(kept, wanted, k);
  }

  lemma FilterIsIdeal(kept: seq<App>, wanted: seq<App>, k: nat)
    requires UniqueIds(wanted) && k <= |wanted|
    ensures Filter(wanted, Elements(kept) + Elements(wanted[..k])) == Ideal(kept, wanted, k)
  {
    hide Filter, Elements;
    var a, b, keep := wanted[..k], wanted[k..], Elements(kept);
    assert wanted == a + b;
    FilterOfSum(a, b, keep + Elements(a));
    ElementsAreMembers(a);
    FilterAll(a, keep + Elements(a));
    NothingTwice(wanted, k);
    FilterSame(b, keep + Elements(a), keep);
  }

  lemma ElementsAreMembers(s: seq<App>)
    ensures forall x | x in s :: x in Elements(s)
  {
  }

  lemma NothingTwice(wanted: seq<App>, k: nat)
    requires UniqueIds(wanted) && k <= |wanted|
    ensures forall x | x in wanted[k..] :: x !in Elements(wanted[..k])
  {
  }

  /** A step that went right did so because no name before the place was later, and the next one was. */
  lemma StepWentRight(kept: seq<App>, wanted: seq<App>, k: nat)
    requires UniqueIds(wanted) && k < |wanted|
    requires Added(Ideal(kept, wanted, k), wanted[k]) == Ideal(kept, wanted, k + 1)
    ensures forall j | 0 <= j < k :: !Later(wanted[j], wanted[k])
    ensures wanted[k] !in kept && k < |Ideal(kept, wanted, k)| ==> Later(Ideal(kept, wanted, k)[k], wanted[k])
  {
    hide Filter, Stop, Later;
    var x, s := wanted[k], Ideal(kept, wanted, k);
    var i, rest := Stop(s, x), Filter(wanted[k + 1..], Elements(kept));
    IdealNext(kept, wanted, k);
    assert wanted[..k] + [x] + rest == Ideal(kept, wanted, k + 1);
    FilterKeepsUnique(wanted[k + 1..], Elements(kept));
    PlaceIsUnique(wanted, k, rest);
    assert i < |wanted[..k] + [x] + rest| && (wanted[..k] + [x] + rest)[i].id == x.id;
    assert forall j | 0 <= j < k :: s[j] == wanted[j];
  }

  lemma PlaceIsUnique(wanted: seq<App>, k: nat, rest: seq<App>)
    requires UniqueIds(wanted) && k < |wanted| && forall x | x in rest :: x in wanted[k + 1..]
    ensures forall i | 0 <= i < |wanted[..k] + [wanted[k]] + rest| && i != k ::
              (wanted[..k] + [wanted[k]] + rest)[i].id != wanted[k].id
  {
    var whole := wanted[..k] + [wanted[k]] + rest;
    forall i | 0 <= i < |whole| && i != k ensures whole[i].id != wanted[k].id {
      if i < k {
        assert whole[i] == wanted[i];
      } else {
        assert whole[i] in rest;
        var j :| 0 <= j < |wanted[k + 1..]| && wanted[k + 1..][j] == whole[i];
        assert wanted[k + 1 + j] == whole[i];
      }
    }
  }

  /** Exact results need names that never fall, and added apps strictly before the survivors after them. */
  lemma ExactNeedsOrder(kept: seq<App>, wanted: seq<App>)
    requires UniqueIds(wanted) && Elements(kept) <= Elements(wanted) && Merged(kept, wanted) == wanted
    ensures OrderKept(kept, wanted) && NonDecreasing(wanted) && BelowSurvivors(kept, wanted)
  {
    StageWasInOrder(kept, wanted, 0);
    assert wanted[..0] == [];
    hide Merged, Later, Ideal, OrderKept;
    forall j, k | 0 <= j < k < |wanted| ensures !Later(wanted[j], wanted[k]) {
      EveryStepWentRight(kept, wanted, k);
    }
    forall i, j | 0 <= i < j < |wanted| && wanted[i] !in kept && wanted[j] in kept
      ensures Later(wanted[j], wanted[i])
    {
      EveryStepWentRight(kept, wanted, i);
      NextSurvivor(kept, wanted, i, j);
    }
  }

  lemma EveryStepWentRight(kept: seq<App>, wanted: seq<App>, k: nat)
    requires UniqueIds(wanted) && Elements(kept) <= Elements(wanted) && Merged(kept, wanted) == wanted && k < |wanted|
    ensures forall j | 0 <= j < k :: !Later(wanted[j], wanted[k])
    ensures wanted[k] !in kept && k < |Ideal(kept, wanted, k)| ==> Later(Ideal(kept, wanted, k)[k], wanted[k])
  {
    hide Merged, Stage, Ideal, UniqueIds, Added, Later;
    StageWasIdeal(kept, wanted, k);
    StageWasIdeal(kept, wanted, k + 1);
    StageNext(kept, wanted, k);
    StepWentRight(kept, wanted, k);
  }

  lemma NextSurvivor(kept: seq<App>, wanted: seq<App>, i: nat, j: nat)
    requires i < j < |wanted| && NonDecreasing(wanted) && wanted[i] !in kept && wanted[j] in kept
    requires i < |Ideal(kept, wanted, i)| ==> Later(Ideal(kept, wanted, i)[i], wanted[i])
    ensures Later(wanted[j], wanted[i])
  {
    hide Filter;
    IdealNext(kept, wanted, i);
    var rest := Filter(wanted[i + 1..], Elements(kept));
    assert wanted[i + 1..] == wanted[i + 1..j] + wanted[j..];
    FilterOfSum(wanted[i + 1..j], wanted[j..], Elements(kept));
    FilterMembers(wanted[i + 1..j], Elements(kept));
    FirstKept(wanted, j, Elements(kept));
    var next := rest[0];
    assert next == wanted[j] || next in wanted[i + 1..j];
    if next != wanted[j] {
      var m :| 0 <= m < |wanted[i + 1..j]| && wanted[i + 1..j][m] == next;
      assert wanted[i + 1 + m] == next;
    }
    AboveIsStrict(Key(next), Key(wanted[j]));
    if Key(next) != Key(wanted[j]) {
      AboveIsTransitive(Key(wanted[j]), Key(next), Key(wanted[i]));
    }
  }

  lemma FirstKept(wanted: seq<App>, j: nat, keep: set<App>)
    requires j < |wanted| && wanted[j] in keep
    ensures Filter(wanted[j..], keep) != [] && Filter(wanted[j..], keep)[0] == wanted[j]
  {
  }

  lemma SurvivorsAreNew(previous: seq<App>, wanted: seq<App>)
    ensures Elements(Survivors(previous, wanted)) <= Elements(wanted)
  {
  }

  /**
    The merge ends with exactly the new list if and only if the apps that stay keep their order, the
    new list's names never fall, and no added app ties with a survivor that comes after it.
   */
  lemma MergeIsExact(previous: seq<App>, wanted: seq<App>)
    requires UniqueIds(wanted)
    ensures var kept := Survivors(previous, wanted);
            Merged(kept, wanted) == wanted
            <==> OrderKept(kept, wanted) && NonDecreasing(wanted) && BelowSurvivors(kept, wanted)
  {
    var kept := Survivors(previous, wanted);
    SurvivorsAreNew(previous, wanted);
    if Merged(kept, wanted) == wanted {
      ExactNeedsOrder(kept, wanted);
    }
    if OrderKept(kept, wanted) && NonDecreasing(wanted) && BelowSurvivors(kept, wanted) {
      MergeFollowsIdeal(kept, wanted, |wanted|);
      assert wanted[..|wanted|] == wanted && wanted[|wanted|..] == [];
    }
  }

  /** With names that strictly rise, only the survivors' order is left to ask. */
  lemma DistinctNamesSuffice(previous: seq<App>, wanted: seq<App>)
    requires UniqueIds(wanted) && forall i, j | 0 <= i < j < |wanted| :: Later(wanted[j], wanted[i])
    ensures Merged(Survivors(previous, wanted), wanted) == wanted <==> OrderKept(Survivors(previous, wanted), wanted)
  {
    forall i, j | 0 <= i < j < |wanted| ensures !Later(wanted[i], wanted[j]) {
      AboveIsStrict(Key(wanted[i]), Key(wanted[j]));
    }
    MergeIsExact(previous, wanted);
  }

  /** `sortAppList` allows ties, and a tie is enough: an app added before its namesake ends up behind it. */
  lemma TieGoesWrong(first: App, second: App)
    requires first.id != second.id && first.name == second.name
    ensures var wanted := [first, second];
            && UniqueIds(wanted) && NonDecreasing(wanted) && OrderKept(Survivors([second], wanted), wanted)
            && Merged(Survivors([second], wanted), wanted) == [second, first] != wanted
  {
    var wanted, kept := [first, second], [second];
    AboveIsStrict(Key(first), Key(second));
    assert kept[..0] == [] && Survivors([], wanted) == [];
    assert IndexOf(wanted, second.id) == Some(1);
    assert Survivors(kept, wanted) == [] + [second];
    TwoApps(first, second, kept);
    assert wanted[..1] == [first] && [first][..0] == [];
    assert Merged(kept, []) == kept && Merged(kept, [first]) == Added(kept, first);
    StopIs(kept, first, 1);
    assert Added(kept, first) == [second] + [first] + [];
    StopIs([second, first], second, 0);
    assert Merged(kept, wanted) == Added(Added(kept, first), second);
  }

  lemma TwoApps(first: App, second: App, kept: seq<App>)
    requires first != second && kept == [second]
    ensures Filter([first, second], Elements(kept)) == kept
  {
    FilterOfSum([first], [second], Elements(kept));
    FilterAll([second], Elements(kept));
    assert [first, second] == [first] + [second];
    assert Filter([first], Elements(kept)) == [];
  }

  lemma {:induction false} VisibleMembers(apps: seq<App>, current: seq<App>, showHidden: bool)
    ensures forall x :: x in VisibleOf(apps, current, showHidden) <==> x in apps && Shown(x, current, showHidden)
  {
    if apps != [] {
      hide Shown;
      VisibleMembers(apps[..|apps| - 1], current, showHidden);
      assert apps == apps[..|apps| - 1] + [apps[|apps| - 1]];
    }
  }

  /** Apps left out keep the rest in order: a sorted list with unique ids shows as one. */
  lemma {:induction false} VisibleKeepsOrder(apps: seq<App>, current: seq<App>, showHidden: bool)
    requires UniqueIds(apps) && NonDecreasing(apps)
    ensures UniqueIds(VisibleOf(apps, current, showHidden)) && NonDecreasing(VisibleOf(apps, current, showHidden))
  {
    if apps != [] {
      var front := apps[..|apps| - 1];
      var shown := VisibleOf(front, current, showHidden);
      VisibleKeepsOrder(front, current, showHidden);
      VisibleMembers(front, current, showHidden);
      hide VisibleOf, Shown, Later;
      forall j | 0 <= j < |shown|
        ensures shown[j].id != apps[|apps| - 1].id && !Later(shown[j], apps[|apps| - 1])
      {
        assert shown[j] in front;
      }
    }
  }

  /** Every app that was visible and is still in the list stays visible, hidden or not. */
  lemma VisibleStaysVisible(apps: seq<App>, current: seq<App>, showHidden: bool, app: App)
    requires app in apps && exists i | 0 <= i < |current| :: current[i].id == app.id
    ensures app in VisibleOf(apps, current, showHidden)
  {
    VisibleMembers(apps, current, showHidden);
  }

  class AppModel {
    var visibleApps: seq<App>
    var allApps: seq<App>
    var showHiddenGames: bool
    /** Every row signal so far. */
    var signals: seq<RowSignal>

    constructor (showHiddenGames: bool)
      ensures visibleApps == [] && signals == [] && this.showHiddenGames == showHiddenGames
    {
      visibleApps, allApps, signals := [], [], [];
      this.showHiddenGames := showHiddenGames;
    }

    /** A view that showed `start` and has followed the signals since `from` shows what is visible. */
    ghost predicate InStep(start: seq<App>, from: nat)
      reads this
    {
      from <= |signals| && Replay(start, signals[from..]) == Some(visibleApps)
    }

    method IsAppCurrentlyVisible(app: App) returns (r: bool)
      ensures r <==> IndexOf(visibleApps, app.id).Some?
    {
      for i := 0 to |visibleApps|
        invariant forall j | 0 <= j < i :: visibleApps[j].id != app.id
      {
        if app.id == visibleApps[i].id {
          return true;
        }
      }
      return false;
    }

    method GetVisibleApps(appList: seq<App>) returns (visible: seq<App>)
      ensures visible == VisibleOf(appList, visibleApps, showHiddenGames)
    {
      visible := [];
      for i := 0 to |appList|
        invariant visible == VisibleOf(appList[..i], visibleApps, showHiddenGames)
      {
        assert appList[..i + 1][..i] == appList[..i];
        var current := IsAppCurrentlyVisible(appList[i]);
        if showHiddenGames || !appList[i].hidden || current {
          visible := visible + [appList[i]];
        }
      }
      assert appList[..|appList|] == appList;
    }

    /** Merges the new list in; a view that followed every signal shows the same rows. */
    method UpdateAppList(newList: seq<App>)
      modifies this
      ensures allApps == newList && showHiddenGames == old(showHiddenGames)
      ensures var wanted := VisibleOf(newList, old(visibleApps), showHiddenGames);
              visibleApps == Merged(Survivors(old(visibleApps), wanted), wanted)
      ensures old(signals) <= signals && Replay(old(visibleApps), signals[|old(signals)|..]) == Some(visibleApps)
    {
      allApps := newList;
      var newVisibleList := GetVisibleApps(newList);
      RemoveAndReplace(newVisibleList, visibleApps, |signals|);
      AddNew(newVisibleList, old(visibleApps), |old(signals)|);
    }

    /** Removals and updates first. */
    method RemoveAndReplace(newVisibleList: seq<App>, ghost start: seq<App>, ghost from: nat)
      requires InStep(start, from)
      modifies `visibleApps, `signals
      ensures visibleApps == Survivors(old(visibleApps), newVisibleList)
      ensures InStep(start, from) && old(signals) <= signals
    {
      hide Survivors, Replay;
      ghost var before, done := visibleApps, 0;
      SurvivorsOfNone(newVisibleList);
      assert before[..0] == [];
      var i := 0;
      while i < |visibleApps|
        invariant 0 <= done <= |before| && i == |Survivors(before[..done], newVisibleList)|
        invariant visibleApps == Survivors(before[..done], newVisibleList) + before[done..]
        invariant InStep(start, from) && old(signals) <= signals
        decreases |before| - done
      {
        SurvivorsStep(before, done, newVisibleList, visibleApps);
        var existing := visibleApps[i];
        var k := FindById(newVisibleList, existing.id);
        if k < |newVisibleList| {
          if existing != newVisibleList[k] {
            Emit(Changed(i, newVisibleList[k]), start, from);
          }
          i := i + 1;
        } else {
          Emit(Removed(i), start, from);
        }
        done := done + 1;
      }
      assert before[..|before|] == before;
    }

    /** The inner loop of the first pass. */
    static method FindById(s: seq<App>, id: int) returns (k: nat)
      ensures IndexOf(s, id) == if k < |s| then Some(k) else None
    {
      k := 0;
      while k < |s|
        invariant k <= |s| && forall j | 0 <= j < k :: s[j].id != id
      {
        if s[k].id == id {
          return;
        }
        k := k + 1;
      }
    }

    /** One change of a row and its signal. */
    method Emit(signal: RowSignal, ghost start: seq<App>, ghost from: nat)
      requires Fits(visibleApps, signal) && InStep(start, from)
      modifies `visibleApps, `signals
      ensures visibleApps == Follow(old(visibleApps), signal)
      ensures InStep(start, from) && old(signals) <= signals
    {
      assert (signals + [signal])[from..][..|signals| - from] == signals[from..];
      visibleApps := Follow(visibleApps, signal);
      signals := signals + [signal];
    }

    /** Additions, each before the first app with a later name. */
    method AddNew(newVisibleList: seq<App>, ghost start: seq<App>, ghost from: nat)
      requires InStep(start, from)
      modifies `visibleApps, `signals
      ensures visibleApps == Merged(old(visibleApps), newVisibleList)
      ensures InStep(start, from) && old(signals) <= signals
    {
      for n := 0 to |newVisibleList|
        invariant visibleApps == Merged(old(visibleApps), newVisibleList[..n])
        invariant InStep(start, from) && old(signals) <= signals
      {
        assert newVisibleList[..n + 1][..n] == newVisibleList[..n];
        var newApp := newVisibleList[n];
        var insertionIndex, found := Scan(newApp);
        if !found {
          Emit(Inserted(insertionIndex, newApp), start, from);
        }
      }
      assert newVisibleList[..|newVisibleList|] == newVisibleList;
    }

    method Scan(newApp: App) returns (insertionIndex: nat, found: bool)
      ensures insertionIndex == Stop(visibleApps, newApp) || found
      ensures found <==> Stop(visibleApps, newApp) < |visibleApps| && visibleApps[Stop(visibleApps, newApp)].id == newApp.id
    {
      insertionIndex, found := |visibleApps|, false;
      for i := 0 to |visibleApps|
        invariant insertionIndex == |visibleApps| && !found
        invariant forall j | 0 <= j < i :: visibleApps[j].id != newApp.id && !Later(visibleApps[j], newApp)
      {
        if visibleApps[i].id == newApp.id {
          return insertionIndex, true;
        } else if Later(visibleApps[i], newApp) {
          return i, false;
        }
      }
    }
  }
}
