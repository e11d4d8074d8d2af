/**
  What an event-driven object does over a sequence of events, and a bounded cache of completions that
  came before anyone asked for them. Shared by the two installers.
 */
module Runs {
  import opened UpdateTypes

  /** The state after one event, and what it reported. */
  datatype Outcome<S, R> = Outcome(state: S, reported: seq<R>)

  function After<S, E, R>(handle: (S, E) -> Outcome<S, R>, s: S, events: seq<E>): S {
    if events == [] then s else handle(After(handle, s, events[..|events| - 1]), events[|events| - 1]).state
  }

  function Reports<S, E, R>(handle: (S, E) -> Outcome<S, R>, s: S, events: seq<E>): seq<R> {
    if events == [] then []
    else
      Reports(handle, s, events[..|events| - 1])
      + handle(After(handle, s, events[..|events| - 1]), events[|events| - 1]).reported
  }

  lemma OneMore<S, E, R>(handle: (S, E) -> Outcome<S, R>, s: S, events: seq<E>, e: E)
    ensures After(handle, s, events + [e]) == handle(After(handle, s, events), e).state
    ensures Reports(handle, s, events + [e]) == Reports(handle, s, events) + handle(After(handle, s, events), e).reported
  {
    assert (events + [e])[..|events|] == events;
  }

  /** A run can be cut anywhere. */
  lemma {:induction false} Join<S, E, R>(handle: (S, E) -> Outcome<S, R>, s: S, first: seq<E>, second: seq<E>)
    ensures After(handle, s, first + second) == After(handle, After(handle, s, first), second)
    ensures Reports(handle, s, first + second) == Reports(handle, s, first) + Reports(handle, After(handle, s, first), second)
  {
    if second == [] {
      assert first + [] == first;
    } else {
      var front, last := second[..|second| - 1], second[|second| - 1];
      Join(handle, s, first, front);
      assert second == front + [last];
      JoinOneMore(handle, s, first, front, last);
    }
  }

  lemma JoinOneMore<S, E, R>(handle: (S, E) -> Outcome<S, R>, s: S, first: seq<E>, front: seq<E>, last: E)
    requires After(handle, s, first + front) == After(handle, After(handle, s, first), front)
    requires Reports(handle, s, first + front) == Reports(handle, s, first) + Reports(handle, After(handle, s, first), front)
    ensures After(handle, s, first + (front + [last])) == After(handle, After(handle, s, first), front + [last])
    ensures Reports(handle, s, first + (front + [last]))
            == Reports(handle, s, first) + Reports(handle, After(handle, s, first), front + [last])
  {
    hide *;
    var middle := After(handle, s, first);
    OneMore(handle, s, first + front, last);
    OneMore(handle, middle, front, last);
    Associative(first, front, [last]);
    Associative(Reports(handle, s, first), Reports(handle, middle, front), handle(After(handle, middle, front), last).reported);
  }

  lemma Associative<T>(a: seq<T>, b: seq<T>, c: seq<T>)
    ensures a + (b + c) == a + b + c
  {
  }

  // ----- a bounded cache -----

  /** The first value for each key, for as many keys as there is room for. */
  function Keep<K(==), V>(kept: map<K, V>, limit: nat, key: K, value: V): map<K, V> {
    if |kept| < limit && key !in kept then kept[key := value] else kept
  }

  /** As long as there is room, the cache has every key it was offered. */
  ghost predicate Covers<K, V>(kept: map<K, V>, limit: nat, offered: set<K>) {
    kept.Keys <= offered && |kept| <= limit && (|kept| < limit ==> kept.Keys == offered)
  }

  lemma NothingOffered<K, V>(kept: map<K, V>, limit: nat)
    requires kept == map[]
    ensures Covers(kept, limit, {})
  {
    assert kept.Keys == {};
  }

  lemma KeptNext<K, V>(kept: map<K, V>, limit: nat, offered: set<K>, key: K, value: V)
    requires Covers(kept, limit, offered)
    ensures Covers(Keep(kept, limit, key, value), limit, offered + {key})
  {
    if |kept| < limit && key !in kept {
      var next := kept[key := value];
      assert next.Keys == kept.Keys + {key};
      assert |next| == |next.Keys| && |kept| == |kept.Keys|;
    }
  }

  /** There is room exactly as long as fewer keys than the limit were offered. */
  lemma RoomLeft<K, V>(kept: map<K, V>, limit: nat, offered: set<K>)
    requires Covers(kept, limit, offered)
    ensures |kept| < limit <==> |offered| < limit
  {
    assert |kept| == |kept.Keys|;
    SubsetIsSmaller(kept.Keys, offered);
  }

  lemma {:induction false} SubsetIsSmaller<T>(a: set<T>, b: set<T>)
    requires a <= b
    ensures |a| <= |b|
  {
    if a != {} {
      var x :| x in a;
      SubsetIsSmaller(a - {x}, b - {x});
    }
  }
}
