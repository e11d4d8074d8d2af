/**
  Installing through the desktop portal. The portal answers a request on an object path of its own
  choosing, and may announce the user's decision on that path before it has said which path it is.
 */
module DesktopPortal {
  import opened UpdateTypes
  import opened Runs

  const REQUEST_PREFIX := "/org/freedesktop/portal/desktop/request/"

  /** Responses that may be kept until the path is known. */
  const CACHE_LIMIT: nat := 8

  // ----- request paths -----

  predicate TokenCharacter(c: char) {
    'a' <= c <= 'z' || 'A' <= c <= 'Z' || '0' <= c <= '9' || c == '_'
  }

  method IsValidHandleToken(token: string) returns (valid: bool)
    ensures valid == ValidToken(token)
  {
    if token == "" || |token| > 255 {
      return false;
    }
    for i := 0 to |token|
      invariant forall j | 0 <= j < i :: TokenCharacter(token[j])
    {
      if !TokenCharacter(token[i]) {
        return false;
      }
    }
    return true;
  }

  predicate ValidToken(token: string) {
    0 < |token| <= 255 && forall i | 0 <= i < |token| :: TokenCharacter(token[i])
  }

  /** The caller's unique bus name without its colon, dots made into underscores. */
  function Sender(callerUniqueName: string): string
    requires callerUniqueName != ""
  {
    seq(|callerUniqueName| - 1, i requires 0 <= i < |callerUniqueName| - 1 =>
      if callerUniqueName[i + 1] == '.' then '_' else callerUniqueName[i + 1])
  }

  predicate ValidCaller(callerUniqueName: string) {
    callerUniqueName != "" && callerUniqueName[0] == ':' && ValidToken(Sender(callerUniqueName))
  }

  /** Empty if the caller's name or the token will not do. */
  function RequestPath(callerUniqueName: string, handleToken: string): string {
    if !ValidCaller(callerUniqueName) || !ValidToken(handleToken) then ""
    else REQUEST_PREFIX + Sender(callerUniqueName) + "/" + handleToken
  }

  /** -1 if the character does not occur. */
  function LastIndexOf(s: string, c: char): (r: int)
    ensures -1 <= r < |s|
    ensures r >= 0 ==> s[r] == c
    ensures forall i | r < i < |s| :: s[i] != c
  {
    if s == "" then -1 else if s[|s| - 1] == c then |s| - 1 else LastIndexOf(s[..|s| - 1], c)
  }

  predicate IsValidReturnedPath(callerUniqueName: string, path: string) {
    var expected := RequestPath(callerUniqueName, "placeholder");
    var separator := LastIndexOf(expected, '/');
    separator >= 0
    && expected[..separator + 1] <= path
    && ValidToken(path[separator + 1..])
  }

  /** The paths taken for the portal's answer are exactly the caller's request paths. */
  lemma ReturnedPathIsRequestPath(callerUniqueName: string, path: string)
    ensures IsValidReturnedPath(callerUniqueName, path)
            <==> ValidCaller(callerUniqueName) && exists token :: ValidToken(token) && path == RequestPath(callerUniqueName, token)
  {
    if ValidCaller(callerUniqueName) {
      var base := REQUEST_PREFIX + Sender(callerUniqueName) + "/";
      var expected := RequestPath(callerUniqueName, "placeholder");
      assert expected == base + "placeholder";
      LastSeparator(REQUEST_PREFIX + Sender(callerUniqueName), "placeholder");
      assert expected[..LastIndexOf(expected, '/') + 1] == base;
      if IsValidReturnedPath(callerUniqueName, path) {
        var token := path[|base|..];
        assert path == base + token;
        assert path == RequestPath(callerUniqueName, token);
      }
      forall token | ValidToken(token) && path == RequestPath(callerUniqueName, token)
        ensures IsValidReturnedPath(callerUniqueName, path)
      {
        assert path == base + token && path[|base|..] == token;
      }
    }
  }

  lemma {:induction false} LastSeparator(directory: string, name: string)
    requires '/' !in name
    ensures LastIndexOf(directory + "/" + name, '/') == |directory|
  {
    var whole := directory + "/" + name;
    if name == "" {
      assert whole == directory + "/";
    } else {
      assert whole[..|whole| - 1] == directory + "/" + name[..|name| - 1];
      assert whole[|whole| - 1] == name[|name| - 1];
      LastSeparator(directory, name[..|name| - 1]);
    }
  }

  // ----- matching responses -----

  datatype Event =
    | Open(usable: bool, caller: string, token: string, monitored: bool)
    | MethodFinished(succeeded: bool, path: string, monitored: bool)
    | RequestResponse(path: string, code: nat)
    | TimedOut
    /* A failure found while opening is reported from the event loop. */
    | FailureDue

  datatype Response = Response(accepted: bool)

  datatype State = State(
    holdsFile: bool, caller: string, activePath: string, cached: map<string, nat>, validated: bool, failuresDue: nat)

  type Step = Outcome<State, Response>

  const READY := State(false, "", "", map[], false, 0)

  function Finished(s: State, accepted: bool): Step {
    Outcome(State(false, "", "", map[], false, s.failuresDue), [Response(accepted)])
  }

  function Handle(s: State, e: Event): Step {
    match e
    case Open(usable, caller, token, monitored) =>
      if s.holdsFile || !usable then Outcome(s.(failuresDue := s.failuresDue + 1), [])
      else if RequestPath(caller, token) == "" then Outcome(s.(caller := caller, failuresDue := s.failuresDue + 1), [])
      else
        Outcome(s.(holdsFile := true, caller := caller, activePath := RequestPath(caller, token),
                   failuresDue := if monitored then s.failuresDue else s.failuresDue + 1), [])
    case MethodFinished(succeeded, path, monitored) =>
      if !s.holdsFile then Outcome(s, [])
      else if !succeeded || !IsValidReturnedPath(s.caller, path) then Finished(s, false)
      else if path in s.cached then Finished(s, s.cached[path] == 0)
      else if !monitored then Finished(s, false)
      else Outcome(s.(activePath := path, validated := true, cached := map[]), [])
    case RequestResponse(path, code) =>
      if !s.holdsFile then Outcome(s, [])
      else if !s.validated then
        Outcome(if IsValidReturnedPath(s.caller, path) then s.(cached := Keep(s.cached, CACHE_LIMIT, path, code)) else s, [])
      else if path != s.activePath then Outcome(s, [])
      else Finished(s, code == 0)
    case TimedOut => if s.holdsFile then Finished(s, false) else Outcome(s, [])
    case FailureDue =>
      if s.failuresDue == 0 then Outcome(s, [])
      else Finished(s.(failuresDue := s.failuresDue - 1), false)
  }

  class DesktopInstallerPortal {
    var holdsFile: bool
    var caller: string
    var activePath: string
    var cached: map<string, nat>
    var validated: bool
    var failuresDue: nat
    var responses: seq<Response>

    constructor ()
      ensures View() == READY && responses == []
    {
      holdsFile, caller, activePath, cached, validated, failuresDue, responses := false, "", "", map[], false, 0, [];
    }

    function View(): State
      reads this
    {
      State(holdsFile, caller, activePath, cached, validated, failuresDue)
    }

    ghost predicate Handled(before: State, reported: seq<Response>, e: Event)
      reads this
    {
      View() == Handle(before, e).state && responses == reported + Handle(before, e).reported
    }

    method Finish(accepted: bool)
      modifies this
      ensures View() == Finished(old(View()), accepted).state && responses == old(responses) + [Response(accepted)]
    {
      holdsFile, caller, activePath, cached, validated := false, "", "", map[], false;
      responses := responses + [Response(accepted)];
    }

    method OpenFlatpak(usable: bool, callerUniqueName: string, handleToken: string, monitored: bool)
      modifies this
      ensures Handled(old(View()), old(responses), Open(usable, callerUniqueName, handleToken, monitored))
    {
      if holdsFile || !usable {
        failuresDue := failuresDue + 1;
        return;
      }
      caller := callerUniqueName;
      var predicted := RequestPath(caller, handleToken);
      if predicted == "" {
        failuresDue := failuresDue + 1;
        return;
      }
      holdsFile, activePath := true, predicted;
      if !monitored {
        failuresDue := failuresDue + 1;
      }
    }

    method HandleMethodFinished(succeeded: bool, returnedPath: string, monitored: bool)
      modifies this
      ensures Handled(old(View()), old(responses), MethodFinished(succeeded, returnedPath, monitored))
    {
      if !holdsFile {
        return;
      }
      if !succeeded || !IsValidReturnedPath(caller, returnedPath) {
        Finish(false);
        return;
      }
      activePath, validated := returnedPath, true;
      if activePath in cached {
        var code := cached[activePath];
        cached := map[];
        Finish(code == 0);
        return;
      }
      cached := map[];
      if !monitored {
        Finish(false);
      }
    }

    method HandleRequestResponse(requestPath: string, responseCode: nat)
      modifies this
      ensures Handled(old(View()), old(responses), RequestResponse(requestPath, responseCode))
    {
      if !holdsFile {
        return;
      }
      if !validated {
        if IsValidReturnedPath(caller, requestPath) && requestPath !in cached && |cached| < CACHE_LIMIT {
          cached := cached[requestPath := responseCode];
        }
        return;
      }
      if requestPath == activePath {
        Finish(responseCode == 0);
      }
    }

    /** The response timer, or a failure noticed while opening. */
    method HandleTimer(failure: bool)
      modifies this
      ensures Handled(old(View()), old(responses), if failure then FailureDue else TimedOut)
    {
      if failure {
        if failuresDue > 0 {
          failuresDue := failuresDue - 1;
          Finish(false);
        }
      } else if holdsFile {
        Finish(false);
      }
    }
  }

  // ----- the order does not matter -----

  predicate Unrelated(events: seq<Event>, path: string) {
    forall e | e in events :: e.RequestResponse? && e.path != path
  }

  /** The different request paths that were answered. */
  function Paths(caller: string, events: seq<Event>): set<string> {
    set e | e in events && e.RequestResponse? && IsValidReturnedPath(caller, e.path) :: e.path
  }

  predicate Waiting(s: State) {
    s.holdsFile && !s.validated
  }

  lemma {:induction false} EarlyResponsesKept(s: State, events: seq<Event>, path: string)
    requires Waiting(s) && Unrelated(events, path)
    ensures var t := After(Handle, s, events);
            && Waiting(t) && t.caller == s.caller && (path in t.cached <==> path in s.cached)
            && (path in s.cached ==> t.cached[path] == s.cached[path])
            && Reports(Handle, s, events) == []
  {
    hide IsValidReturnedPath;
    if events != [] {
      assert forall e | e in events[..|events| - 1] :: e in events;
      assert events[|events| - 1] in events;
      EarlyResponsesKept(s, events[..|events| - 1], path);
    }
  }

  lemma {:induction false} EarlyResponsesCounted(s: State, events: seq<Event>, path: string)
    requires Waiting(s) && s.cached == map[] && Unrelated(events, path)
    ensures Covers(After(Handle, s, events).cached, CACHE_LIMIT, Paths(s.caller, events))
  {
    if events == [] {
      assert Paths(s.caller, events) == {};
      NothingOffered(s.cached, CACHE_LIMIT);
    } else {
      hide IsValidReturnedPath, After, Reports, Handle, Covers, Paths;
      var front, e := events[..|events| - 1], events[|events| - 1];
      assert forall x | x in front :: x in events;
      assert e in events;
      EarlyResponsesCounted(s, front, path);
      EarlyResponsesKept(s, front, path);
      assert events == front + [e];
      EarlyResponseCounted(s, front, e);
    }
  }

  lemma EarlyResponseCounted(s: State, events: seq<Event>, e: Event)
    requires e.RequestResponse? && Waiting(After(Handle, s, events)) && After(Handle, s, events).caller == s.caller
    requires Covers(After(Handle, s, events).cached, CACHE_LIMIT, Paths(s.caller, events))
    ensures Covers(After(Handle, s, events + [e]).cached, CACHE_LIMIT, Paths(s.caller, events + [e]))
  {
    hide Covers, Paths, After, Reports, Keep, IsValidReturnedPath;
    PathsGrow(s.caller, events, e);
    OneMore(Handle, s, events, e);
    KeptNext(After(Handle, s, events).cached, CACHE_LIMIT, Paths(s.caller, events), e.path, e.code);
  }

  lemma PathsGrow(caller: string, events: seq<Event>, e: Event)
    requires e.RequestResponse?
    ensures Paths(caller, events + [e])
            == Paths(caller, events) + if IsValidReturnedPath(caller, e.path) then {e.path} else {}
  {
    hide IsValidReturnedPath;
    var grown := Paths(caller, events + [e]);
    forall p ensures p in grown <==> p in Paths(caller, events) || (p == e.path && IsValidReturnedPath(caller, e.path)) {
      if p in Paths(caller, events) {
        var x :| x in events && x.RequestResponse? && IsValidReturnedPath(caller, x.path) && x.path == p;
        assert x in events + [e];
      }
      if p == e.path && IsValidReturnedPath(caller, e.path) {
        assert e in events + [e];
      }
    }
  }

  lemma {:induction false} LaterResponsesIgnored(s: State, events: seq<Event>, path: string)
    requires Unrelated(events, path) && (s.holdsFile ==> s.validated && s.activePath == path)
    ensures After(Handle, s, events) == s && Reports(Handle, s, events) == []
  {
    hide IsValidReturnedPath;
    if events != [] {
      assert forall e | e in events[..|events| - 1] :: e in events;
      assert events[|events| - 1] in events;
      LaterResponsesIgnored(s, events[..|events| - 1], path);
    }
  }

  lemma AnswerThenResponse(s: State, first: seq<Event>, between: seq<Event>, last: seq<Event>, path: string, code: nat)
    requires Waiting(s) && s.cached == map[] && IsValidReturnedPath(s.caller, path)
    requires Unrelated(first, path) && Unrelated(between, path) && Unrelated(last, path)
    ensures Reports(Handle, s, first + [MethodFinished(true, path, true)] + between + [RequestResponse(path, code)] + last)
            == [Response(code == 0)]
  {
    hide After, Reports, IsValidReturnedPath;
    var answered, responded := MethodFinished(true, path, true), RequestResponse(path, code);
    EarlyResponsesKept(s, first, path);
    OneMore(Handle, s, first, answered);
    LaterResponsesIgnored(After(Handle, s, first + [answered]), between, path);
    Join(Handle, s, first + [answered], between);
    OneMore(Handle, s, first + [answered] + between, responded);
    LaterResponsesIgnored(After(Handle, s, first + [answered] + between + [responded]), last, path);
    Join(Handle, s, first + [answered] + between + [responded], last);
  }

  lemma ResponseThenAnswer(s: State, first: seq<Event>, between: seq<Event>, last: seq<Event>, path: string, code: nat)
    requires Waiting(s) && s.cached == map[] && IsValidReturnedPath(s.caller, path)
    requires Unrelated(first, path) && Unrelated(between, path) && Unrelated(last, path)
    ensures Reports(Handle, s, first + [RequestResponse(path, code)] + between + [MethodFinished(true, path, true)] + last)
            == if |Paths(s.caller, first)| < CACHE_LIMIT then [Response(code == 0)] else []
  {
    hide After, Reports, Paths, Covers, IsValidReturnedPath;
    var answered, responded := MethodFinished(true, path, true), RequestResponse(path, code);
    EarlyResponsesKept(s, first, path);
    EarlyResponsesCounted(s, first, path);
    RoomLeft(After(Handle, s, first).cached, CACHE_LIMIT, Paths(s.caller, first));
    OneMore(Handle, s, first, responded);
    EarlyResponsesKept(After(Handle, s, first + [responded]), between, path);
    Join(Handle, s, first + [responded], between);
    OneMore(Handle, s, first + [responded] + between, answered);
    LaterResponsesIgnored(After(Handle, s, first + [responded] + between + [answered]), last, path);
    Join(Handle, s, first + [responded] + between + [answered], last);
  }

  /**
    Whether the decision comes before or after the path is known, the updater hears the same one
    response, exactly as long as fewer than eight other request paths were answered first.
   */
  lemma OrderDoesNotMatter(s: State, first: seq<Event>, between: seq<Event>, last: seq<Event>, path: string, code: nat)
    requires Waiting(s) && s.cached == map[] && IsValidReturnedPath(s.caller, path)
    requires Unrelated(first, path) && Unrelated(between, path) && Unrelated(last, path)
    ensures Reports(Handle, s, first + [MethodFinished(true, path, true)] + between + [RequestResponse(path, code)] + last)
            == Reports(Handle, s, first + [RequestResponse(path, code)] + between + [MethodFinished(true, path, true)] + last)
            <==> |Paths(s.caller, first)| < CACHE_LIMIT
  {
    hide Reports, Paths, IsValidReturnedPath, Handle;
    AnswerThenResponse(s, first, between, last, path, code);
    ResponseThenAnswer(s, first, between, last, path, code);
  }

  // ----- failures noticed while opening -----

  /** This open becomes the request under way. */
  predicate Takes(s: State, e: Event) {
    e.Open? && !s.holdsFile && e.usable && RequestPath(e.caller, e.token) != ""
  }

  /** This open leaves a failure to be reported later: it is refused, or cannot be monitored. */
  predicate Notices(s: State, e: Event) {
    e.Open? && !(Takes(s, e) && e.monitored)
  }

  predicate Opens(s: State, e: Event) {
    e.Open?
  }

  predicate TakesUnmonitored(s: State, e: Event) {
    Takes(s, e) && !e.monitored
  }

  /** A failure noticed earlier is reported now. */
  predicate Fails(s: State, e: Event) {
    e.FailureDue? && s.failuresDue > 0
  }

  /** It ends whatever request is under way. */
  predicate CutsShort(s: State, e: Event) {
    Fails(s, e) && s.holdsFile
  }

  /** How often in a run from READY an event of this kind came. */
  function Times(kind: (State, Event) -> bool, events: seq<Event>): nat {
    if events == [] then 0
    else
      Times(kind, events[..|events| - 1])
      + if kind(After(Handle, READY, events[..|events| - 1]), events[|events| - 1]) then 1 else 0
  }

  function Underway(s: State): nat {
    if s.holdsFile then 1 else 0
  }

  lemma OneEventBalances(s: State, e: Event)
    ensures var t := Handle(s, e);
            && t.state.failuresDue + (if Fails(s, e) then 1 else 0) == s.failuresDue + (if Notices(s, e) then 1 else 0)
            && |t.reported| + Underway(t.state) + t.state.failuresDue + (if CutsShort(s, e) then 1 else 0)
               == Underway(s) + s.failuresDue + (if Opens(s, e) then 1 else 0) + (if TakesUnmonitored(s, e) then 1 else 0)
  {
    hide RequestPath, IsValidReturnedPath, Keep;
  }

  /**
    For every run: failures due are those noticed and not yet reported, and every open is answered,
    under way or waiting to fail, once, except that an unmonitored one counts twice and that a request
    cut short by a failure shares its response with it.
   */
  lemma {:induction false} ResponsesBalance(events: seq<Event>)
    ensures var s := After(Handle, READY, events);
            && s.failuresDue + Times(Fails, events) == Times(Notices, events)
            && |Reports(Handle, READY, events)| + Underway(s) + s.failuresDue + Times(CutsShort, events)
               == Times(Opens, events) + Times(TakesUnmonitored, events)
  {
    if events != [] {
      hide Handle, Fails, Notices, CutsShort, Opens, TakesUnmonitored, Underway;
      var front, last := events[..|events| - 1], events[|events| - 1];
      ResponsesBalance(front);
      OneEventBalances(After(Handle, READY, front), last);
    } else {
      hide Handle, Fails, Notices, CutsShort, Opens, TakesUnmonitored;
    }
  }

  lemma UnderwayNext(s: State, e: Event)
    requires s.holdsFile && Handle(s, e).reported == []
    ensures Handle(s, e).state.holdsFile
    ensures Handle(s, e).state.failuresDue == s.failuresDue + if e.Open? then 1 else 0
  {
    hide RequestPath, IsValidReturnedPath, Keep;
  }

  ghost predicate Opened(events: seq<Event>) {
    exists e | e in events :: e.Open?
  }

  lemma OpenedNext(events: seq<Event>)
    requires events != []
    ensures Opened(events) <==> Opened(events[..|events| - 1]) || events[|events| - 1].Open?
  {
    var front, last := events[..|events| - 1], events[|events| - 1];
    assert events == front + [last];
    assert last in events;
  }

  lemma NotOpened()
    ensures !Opened([])
  {
  }

  /** Until something is reported, the request stays under way and each further open is refused. */
  lemma {:induction false} StillUnderway(s: State, during: seq<Event>)
    requires s.holdsFile && Reports(Handle, s, during) == []
    ensures var t := After(Handle, s, during);
            t.holdsFile && (t.failuresDue > 0 <==> s.failuresDue > 0 || Opened(during))
  {
    hide Handle, Opened;
    NotOpened();
    if during != [] {
      var front, last := during[..|during| - 1], during[|during| - 1];
      StillUnderway(s, front);
      UnderwayNext(After(Handle, s, front), last);
      OpenedNext(during);
    }
  }

  /**
    For every run from READY: a request that has been taken up and not answered is ended by the next
    failure exactly if an open before it was refused, or found unmonitorable, and its failure is still
    to come; or the request could not be monitored itself; or another open has come since.
   */
  lemma FailureEndsRequest(before: seq<Event>, open: Event, during: seq<Event>)
    requires Takes(After(Handle, READY, before), open)
    requires Reports(Handle, After(Handle, READY, before + [open]), during) == []
    ensures var s := After(Handle, READY, before + [open] + during);
            && s.holdsFile
            && (Handle(s, FailureDue).reported == [Response(false)] && !Handle(s, FailureDue).state.holdsFile
                <==> || Times(Notices, before) > Times(Fails, before)
                     || !open.monitored
                     || Opened(during))
  {
    hide RequestPath, IsValidReturnedPath;
    ResponsesBalance(before);
    OneMore(Handle, READY, before, open);
    Join(Handle, READY, before + [open], during);
    StillUnderway(After(Handle, READY, before + [open]), during);
  }

  /** The input that shows it: an open without a usable file, and then a good one. */
  lemma RefusedOpenEndsTheNext()
    ensures var refused, good := Open(false, ":1", "t", true), Open(true, ":1", "t", true);
            && Takes(After(Handle, READY, [refused]), good)
            && Reports(Handle, READY, [refused, good, FailureDue]) == [Response(false)]
            && !After(Handle, READY, [refused, good, FailureDue]).holdsFile
  {
    var refused, good := Open(false, ":1", "t", true), Open(true, ":1", "t", true);
    assert Sender(":1") == "1";
    assert [refused] == [] + [refused] && [refused, good] == [refused] + [good];
    assert [refused, good, FailureDue] == [refused, good] + [FailureDue];
    OneMore(Handle, READY, [], refused);
    OneMore(Handle, READY, [refused], good);
    OneMore(Handle, READY, [refused, good], FailureDue);
  }

  // ----- one request at a time, as the updater makes them -----

  /** There has been no response since the last open. */
  predicate Waits(events: seq<Event>) {
    events != []
    && var front, e := events[..|events| - 1], events[|events| - 1];
       e.Open? || (Waits(front) && Handle(After(Handle, READY, front), e).reported == [])
  }

  /** The caller opens again only after a response. */
  ghost predicate OneAtATime(events: seq<Event>) {
    forall i | 0 <= i < |events| && events[i].Open? :: !Waits(events[..i])
  }

  /** The last open was taken up without being monitored. */
  predicate Unmonitored(events: seq<Event>) {
    events != []
    && var front, e := events[..|events| - 1], events[|events| - 1];
       if e.Open? then TakesUnmonitored(After(Handle, READY, front), e) else Unmonitored(front)
  }

  /** This event answers a request that could not be monitored, before its own failure does. */
  ghost predicate Overtakes(front: seq<Event>, e: Event) {
    Unmonitored(front) && Waits(front) && !e.FailureDue? && Handle(After(Handle, READY, front), e).reported != []
  }

  /** A request that could not be monitored is answered by its own failure, which is queued without delay. */
  ghost predicate FailsFirst(events: seq<Event>) {
    forall i | 0 <= i < |events| :: !Overtakes(events[..i], events[i])
  }

  /**
    What a caller finds that makes one request at a time: it waits exactly while its open is under way
    or has a failure to come, and both only as long as it could not be monitored.
   */
  ghost predicate Orderly(events: seq<Event>) {
    var s := After(Handle, READY, events);
    && (Waits(events) <==> s.holdsFile || s.failuresDue > 0)
    && s.failuresDue <= 1
    && (s.holdsFile && s.failuresDue > 0 <==> Unmonitored(events) && Waits(events))
  }

  lemma NextStaysOrderly(front: seq<Event>, e: Event)
    requires Orderly(front) && (e.Open? ==> !Waits(front)) && !Overtakes(front, e)
    ensures Orderly(front + [e])
  {
    hide RequestPath, IsValidReturnedPath, Keep;
    assert (front + [e])[..|front|] == front;
  }

  lemma {:induction false} StaysOrderly(events: seq<Event>)
    requires OneAtATime(events) && FailsFirst(events)
    ensures Orderly(events)
  {
    if events == [] {
      NoneIsOrderly();
    } else {
      hide Orderly, Overtakes, Waits;
      var front, last := events[..|events| - 1], events[|events| - 1];
      assert events == front + [last];
      PrefixIsLikewise(events, |events| - 1);
      StaysOrderly(front);
      NextStaysOrderly(front, last);
    }
  }

  lemma NoneIsOrderly()
    ensures Orderly([])
  {
  }

  lemma PrefixIsLikewise(events: seq<Event>, k: nat)
    requires k <= |events| && OneAtATime(events)
    ensures OneAtATime(events[..k]) && (FailsFirst(events) ==> FailsFirst(events[..k]))
  {
    hide Overtakes, Waits;
    assert forall i | 0 <= i < k :: events[..k][i] == events[i] && events[..k][..i] == events[..i];
  }

  /**
    For a caller that opens again only after a response: all stays orderly if and only if no request
    that could not be monitored is answered before its own failure.
   */
  lemma OrderlyExactly(events: seq<Event>)
    requires OneAtATime(events)
    ensures (forall k | 0 <= k <= |events| :: Orderly(events[..k])) <==> FailsFirst(events)
  {
    hide Orderly, Overtakes, Waits;
    if FailsFirst(events) {
      forall k | 0 <= k <= |events| ensures Orderly(events[..k]) {
        PrefixIsLikewise(events, k);
        StaysOrderly(events[..k]);
      }
    }
    if forall k | 0 <= k <= |events| :: Orderly(events[..k]) {
      forall i | 0 <= i < |events| ensures !Overtakes(events[..i], events[i]) {
        assert events[..i + 1] == events[..i] + [events[i]];
        assert Orderly(events[..i]) && Orderly(events[..i + 1]);
        OvertakingLeavesFailure(events[..i], events[i]);
      }
    }
  }

  lemma OvertakingLeavesFailure(front: seq<Event>, e: Event)
    requires Orderly(front) && Orderly(front + [e])
    ensures !Overtakes(front, e)
  {
    hide RequestPath, IsValidReturnedPath, Keep;
    assert (front + [e])[..|front|] == front;
  }

  /** For such a caller each open gets exactly one response, and no monitored request is ended by a failure. */
  lemma {:induction false} OneResponseEach(events: seq<Event>)
    requires OneAtATime(events) && FailsFirst(events)
    ensures |Reports(Handle, READY, events)| + (if Waits(events) then 1 else 0) == Times(Opens, events)
    ensures var s := After(Handle, READY, events);
            s.holdsFile && !Unmonitored(events) ==> Handle(s, FailureDue) == Outcome(s, [])
  {
    hide RequestPath, IsValidReturnedPath, Overtakes, Unmonitored;
    StaysOrderly(events);
    if events != [] {
      var front, last := events[..|events| - 1], events[|events| - 1];
      PrefixIsLikewise(events, |events| - 1);
      OneResponseEach(front);
      StaysOrderly(front);
      assert last.Open? ==> !Waits(events[..|events| - 1]);
    }
  }
}
