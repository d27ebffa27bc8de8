/** The sliding-window limiter (internal/enrollment/limiter.go) against an
    unbounded log of every event it ever allowed. */
module Limiter {
  type Key = string
  type Time = int

  /** The events after a cut, in order. */
  function After(ts: seq<Time>, cut: Time): seq<Time>
    decreases |ts|
  {
    if ts == [] then []
    else if ts[0] > cut then [ts[0]] + After(ts[1..], cut)
    else After(ts[1..], cut)
  }

  function Get(m: map<Key, seq<Time>>, k: Key): seq<Time> { if k in m then m[k] else [] }

  /** The rule the limiter is for: fewer than limit events in the window. */
  predicate Allowed(log: map<Key, seq<Time>>, limit: int, window: Time, key: Key, now: Time) {
    |After(Get(log, key), now - window)| < limit
  }

  lemma {:induction false} AfterConcat(a: seq<Time>, b: seq<Time>, cut: Time)
    ensures After(a + b, cut) == After(a, cut) + After(b, cut)
    decreases |a|
  {
    if a == [] {
      assert a + b == b;
    } else {
      assert (a + b)[1..] == a[1..] + b;
      AfterConcat(a[1..], b, cut);
    }
  }

  /** A later cut may be applied to what an earlier one left. */
  lemma {:induction false} AfterAfter(ts: seq<Time>, cut: Time, later: Time)
    requires cut <= later
    ensures After(After(ts, cut), later) == After(ts, later)
    decreases |ts|
  {
    if ts != [] {
      AfterAfter(ts[1..], cut, later);
      if ts[0] > cut { assert After(ts, cut)[1..] == After(ts[1..], cut); }
    }
  }

  lemma {:induction false} NoneAfter(ts: seq<Time>, cut: Time)
    requires forall i :: 0 <= i < |ts| ==> ts[i] <= cut
    ensures After(ts, cut) == []
    decreases |ts|
  {
    if ts != [] {
      assert forall i :: 0 <= i < |ts[1..]| ==> ts[1..][i] == ts[i + 1];
      NoneAfter(ts[1..], cut);
    }
  }

  ghost predicate Sorted(ts: seq<Time>, last: Time) {
    && (forall i, j :: 0 <= i < j < |ts| ==> ts[i] <= ts[j])
    && (forall i :: 0 <= i < |ts| ==> ts[i] <= last)
  }

  lemma {:induction false} AfterSorted(ts: seq<Time>, cut: Time, last: Time)
    requires Sorted(ts, last)
    ensures Sorted(After(ts, cut), last)
    ensures forall t :: t in After(ts, cut) ==> t in ts
    decreases |ts|
  {
    if ts != [] {
      var first, rest, kept := ts[0], ts[1..], After(ts[1..], cut);
      assert Sorted(rest, last) && ts == [first] + rest;
      AfterSorted(rest, cut, last);
      if first > cut {
        assert After(ts, cut) == [first] + kept;
        forall i | 0 <= i < |kept| ensures first <= kept[i] {
          assert kept[i] in rest;
          var j :| 0 <= j < |rest| && rest[j] == kept[i];
          assert ts[j + 1] == kept[i];
        }
      }
    }
  }

  // ---- no window ever holds more than the limit ----

  /** The events of the window that ends at t, t included. */
  function InWindow(ts: seq<Time>, window: Time, t: Time): nat
    decreases |ts|
  {
    if ts == [] then 0 else InWindow(ts[1..], window, t) + if t - window < ts[0] <= t then 1 else 0
  }

  ghost predicate Bounded(log: map<Key, seq<Time>>, limit: int, window: Time) {
    forall k, t :: k in log ==> InWindow(log[k], window, t) <= limit
  }

  lemma {:induction false} WindowConcat(a: seq<Time>, b: Time, window: Time, t: Time)
    ensures InWindow(a + [b], window, t) == InWindow(a, window, t) + if t - window < b <= t then 1 else 0
    decreases |a|
  {
    if a == [] {
      assert (a + [b])[1..] == [];
    } else {
      assert (a + [b])[1..] == a[1..] + [b];
      WindowConcat(a[1..], b, window, t);
    }
  }

  lemma {:induction false} WindowWithinCut(ts: seq<Time>, window: Time, t: Time, now: Time)
    requires now <= t
    ensures InWindow(ts, window, t) <= |After(ts, now - window)|
    decreases |ts|
  {
    if ts != [] { WindowWithinCut(ts[1..], window, t, now); }
  }

  /** Allowing an event no earlier than every other keeps every window, past or
      future, within the limit. */
  lemma AllowKeepsBounded(log: map<Key, seq<Time>>, limit: int, window: Time, key: Key, now: Time)
    requires Bounded(log, limit, window) && Allowed(log, limit, window, key, now)
    requires forall i :: 0 <= i < |Get(log, key)| ==> Get(log, key)[i] <= now
    ensures Bounded(log[key := Get(log, key) + [now]], limit, window)
  {
    var ts := Get(log, key);
    var log' := log[key := ts + [now]];
    forall k, t | k in log' ensures InWindow(log'[k], window, t) <= limit {
      if k == key {
        WindowConcat(ts, now, window, t);
        if now <= t { WindowWithinCut(ts, window, t, now); } else if key !in log { assert InWindow(ts, window, t) == 0; }
      }
    }
  }

  // ---- the rule, as counts of events ----

  /** The positions of the events after from, up to and with to. */
  function EventsIn(ts: seq<Time>, from: Time, to: Time): set<nat> { set i: nat | i < |ts| && from < ts[i] <= to }

  lemma {:induction false} WindowCounts(ts: seq<Time>, window: Time, t: Time)
    ensures InWindow(ts, window, t) == |EventsIn(ts, t - window, t)|
    decreases |ts|
  {
    if ts == [] {
      assert EventsIn(ts, t - window, t) == {};
    } else {
      var n, most := |ts| - 1, ts[..|ts| - 1];
      assert ts == most + [ts[n]];
      WindowConcat(most, ts[n], window, t);
      WindowCounts(most, window, t);
      OneMoreEvent(ts, t - window, t);
    }
  }

  lemma OneMoreEvent(ts: seq<Time>, from: Time, to: Time)
    requires ts != []
    ensures |EventsIn(ts, from, to)| == |EventsIn(ts[..|ts| - 1], from, to)| + if from < ts[|ts| - 1] <= to then 1 else 0
  {
    var n, most := |ts| - 1, ts[..|ts| - 1];
    assert EventsIn(ts, from, to) == EventsIn(most, from, to) + if from < ts[n] <= to then {n} else {};
    assert n !in EventsIn(most, from, to);
  }

  lemma {:induction false} AfterCounts(ts: seq<Time>, cut: Time, now: Time)
    requires forall i :: 0 <= i < |ts| ==> ts[i] <= now
    ensures |After(ts, cut)| == |EventsIn(ts, cut, now)|
    decreases |ts|
  {
    if ts == [] {
      assert EventsIn(ts, cut, now) == {};
    } else {
      var n, most := |ts| - 1, ts[..|ts| - 1];
      assert ts == most + [ts[n]];
      AfterConcat(most, [ts[n]], cut);
      assert After([ts[n]], cut) == if ts[n] > cut then [ts[n]] else [];
      AfterCounts(most, cut, now);
      OneMoreEvent(ts, cut, now);
    }
  }

  /** An event is allowed exactly when fewer than limit of its key were allowed in
      the window that ends with it. */
  lemma AllowedExactly(log: map<Key, seq<Time>>, limit: int, window: Time, key: Key, now: Time)
    requires forall i :: 0 <= i < |Get(log, key)| ==> Get(log, key)[i] <= now
    ensures Allowed(log, limit, window, key, now) <==>
              |EventsIn(if key in log then log[key] else [], now - window, now)| < limit
  {
    AfterCounts(Get(log, key), now - window, now);
  }

  /** The events of the window that ends at t. */
  function EventsEnding(ts: seq<Time>, window: Time, t: Time): set<nat> { EventsIn(ts, t - window, t) }

  /** And no window holds more than limit of a key. */
  lemma BoundedExactly(log: map<Key, seq<Time>>, limit: int, window: Time)
    ensures Bounded(log, limit, window) <==> forall k, t :: k in log ==> |EventsEnding(log[k], window, t)| <= limit
  {
    forall k, t | k in log ensures InWindow(log[k], window, t) == |EventsEnding(log[k], window, t)| {
      WindowCounts(log[k], window, t);
    }
    if forall k, t :: k in log ==> |EventsEnding(log[k], window, t)| <= limit {
      forall k, t | k in log ensures InWindow(log[k], window, t) <= limit { assert |EventsEnding(log[k], window, t)| <= limit; }
    }
  }

  /** From a cut on, two lists of events read the same. */
  ghost predicate SameAfter(a: seq<Time>, b: seq<Time>, from: Time) {
    forall cut :: cut >= from ==> After(a, cut) == After(b, cut)
  }

  /** From a cut on, what is remembered reads as the whole log does. */
  ghost predicate Agrees(seen: map<Key, seq<Time>>, log: map<Key, seq<Time>>, from: Time) {
    forall k :: SameAfter(Get(seen, k), Get(log, k), from)
  }

  ghost predicate AllSorted(m: map<Key, seq<Time>>, last: Time) { forall k :: k in m ==> Sorted(m[k], last) }

  /** Forgetting a key with nothing after the cut is unnoticed from then on. */
  lemma ForgetAgrees(seen: map<Key, seq<Time>>, log: map<Key, seq<Time>>, cut: Time, k: Key)
    requires Agrees(seen, log, cut) && k in seen && forall i :: 0 <= i < |seen[k]| ==> seen[k][i] <= cut
    ensures Agrees(seen - {k}, log, cut)
  {
    forall j ensures SameAfter(Get(seen - {k}, j), Get(log, j), cut) {
      assert SameAfter(Get(seen, j), Get(log, j), cut);
      if j == k {
        forall c | c >= cut ensures After([], c) == After(Get(log, k), c) { NoneAfter(seen[k], c); }
      }
    }
  }

  /** So is dropping what the cut already excludes, and adding the same events
      to both sides. */
  lemma KeepSame(a: seq<Time>, b: seq<Time>, cut: Time, more: seq<Time>)
    requires SameAfter(a, b, cut)
    ensures SameAfter(After(a, cut) + more, b + more, cut)
  {
    forall c | c >= cut ensures After(After(a, cut) + more, c) == After(b + more, c) {
      AfterAfter(a, cut, c);
      AfterConcat(After(a, cut), more, c);
      AfterConcat(b, more, c);
    }
  }

  lemma KeepAgrees(seen: map<Key, seq<Time>>, log: map<Key, seq<Time>>, cut: Time, key: Key, more: seq<Time>)
    requires Agrees(seen, log, cut)
    ensures Agrees(seen[key := After(Get(seen, key), cut) + more], log[key := Get(log, key) + more], cut)
  {
    var seen', log' := seen[key := After(Get(seen, key), cut) + more], log[key := Get(log, key) + more];
    forall k ensures SameAfter(Get(seen', k), Get(log', k), cut) {
      assert SameAfter(Get(seen, k), Get(log, k), cut);
      if k == key { KeepSame(Get(seen, key), Get(log, key), cut, more); }
    }
  }

  lemma LaterAgrees(seen: map<Key, seq<Time>>, log: map<Key, seq<Time>>, from: Time, cut: Time)
    requires Agrees(seen, log, from) && from <= cut
    ensures Agrees(seen, log, cut)
  {
    forall k ensures SameAfter(Get(seen, k), Get(log, k), cut) { assert SameAfter(Get(seen, k), Get(log, k), from); }
  }

  /** A refused event leaves the filtered list behind. */
  lemma RefuseAgrees(seen: map<Key, seq<Time>>, log: map<Key, seq<Time>>, cut: Time, key: Key)
    requires Agrees(seen, log, cut)
    ensures Agrees(seen[key := After(Get(seen, key), cut)], log, cut)
  {
    KeepAgrees(seen, log, cut, key, []);
    assert After(Get(seen, key), cut) + [] == After(Get(seen, key), cut) && Get(log, key) + [] == Get(log, key);
    var seen' := seen[key := After(Get(seen, key), cut)];
    forall k ensures SameAfter(Get(seen', k), Get(log, k), cut) {
      assert SameAfter(Get(seen', k), Get(log[key := Get(log, key) + []], k), cut);
    }
  }

  lemma SortedLater(m: map<Key, seq<Time>>, last: Time, now: Time, key: Key, ts: seq<Time>)
    requires AllSorted(m, last) && last <= now && Sorted(ts, now)
    ensures AllSorted(m, now) && AllSorted(m[key := ts], now)
  {
  }

  lemma ExtendSorted(ts: seq<Time>, last: Time, now: Time)
    requires Sorted(ts, last) && last <= now
    ensures Sorted(ts, now) && Sorted(ts + [now], now)
  {
  }

  /** A sorted log stays sorted whichever way a question at now is answered. */
  lemma StaysSorted(m: map<Key, seq<Time>>, last: Time, key: Key, now: Time, ts: seq<Time>)
    requires AllSorted(m, last) && last <= now && Sorted(ts, last)
    ensures AllSorted(m, now) && AllSorted(m[key := ts], now) && AllSorted(m[key := ts + [now]], now)
  {
    ExtendSorted(ts, last, now);
    SortedLater(m, last, now, key, ts);
    SortedLater(m, last, now, key, ts + [now]);
  }

  /** Before a question at now: both logs agree from the cut on. */
  lemma Ready(seen: map<Key, seq<Time>>, log: map<Key, seq<Time>>, last: Time, window: Time, key: Key, now: Time)
    requires Agrees(seen, log, last - window) && last <= now
    ensures Agrees(seen, log, now - window)
    ensures After(Get(seen, key), now - window) == After(Get(log, key), now - window)
  {
    LaterAgrees(seen, log, last - window, now - window);
    assert SameAfter(Get(seen, key), Get(log, key), now - window);
  }

  /** The last event is after the cut. */
  predicate LastsPast(ts: seq<Time>, cut: Time) { ts != [] && ts[|ts| - 1] > cut }

  /** All keys but these have been swept. */
  ghost predicate SweptSoFar(
    was: map<Key, seq<Time>>, seen: map<Key, seq<Time>>, log: map<Key, seq<Time>>, keys: set<Key>, last: Time, cut: Time)
  {
    && keys <= seen.Keys <= was.Keys && AllSorted(seen, last) && Agrees(seen, log, cut)
    && (forall k :: k in seen ==> seen[k] == was[k])
    && (forall k :: k in was && k !in keys ==> (k in seen <==> LastsPast(was[k], cut)))
  }

  lemma SweepTurn(
    was: map<Key, seq<Time>>, seen: map<Key, seq<Time>>, log: map<Key, seq<Time>>, keys: set<Key>, last: Time, cut: Time, k: Key)
    requires SweptSoFar(was, seen, log, keys, last, cut) && k in keys
    ensures SweptSoFar(was, if LastsPast(seen[k], cut) then seen else seen - {k}, log, keys - {k}, last, cut)
  {
    if !LastsPast(seen[k], cut) {
      ForgetAgrees(seen, log, cut, k);
      ForgetSorted(seen, last, k);
    }
  }

  lemma ForgetSorted(seen: map<Key, seq<Time>>, last: Time, k: Key)
    requires AllSorted(seen, last)
    ensures AllSorted(seen - {k}, last)
  {
  }

  class SlidingWindow {
    const limit: int
    const window: Time
    var seen: map<Key, seq<Time>>
    var swept: Time
    /** Every event ever allowed, and the last clock reading. */
    ghost var log: map<Key, seq<Time>>
    ghost var last: Time

    /** What is remembered answers every later question as the whole log does. */
    ghost predicate Valid()
      reads this
    {
      && AllSorted(log, last) && AllSorted(seen, last)
      && Agrees(seen, log, last - window)
      && Bounded(log, limit, window)
    }

    constructor (limit: int, window: Time, start: Time)
      requires limit >= 0
      ensures Valid() && log == map[] && last == start && this.limit == limit && this.window == window
    {
      this.limit, this.window := limit, window;
      seen, swept, log, last := map[], 0, map[], start;
    }

    /** The events of a key still in the window, filtered in order. */
    method Recent(key: Key, cut: Time) returns (kept: seq<Time>)
      ensures kept == After(Get(seen, key), cut)
    {
      var ts := if key in seen then seen[key] else [];
      kept := [];
      for i := 0 to |ts|
        invariant kept + After(ts[i..], cut) == After(ts, cut)
      {
        assert ts[i..][0] == ts[i] && ts[i..][1..] == ts[i + 1..];
        if ts[i] > cut {
          kept := kept + [ts[i]];
        }
      }
    }

    /** `Allow`, for a clock that does not go back: answers by the rule on the
        whole log, records exactly the allowed events, and forgets unnoticed. */
    method Allow(key: Key, now: Time) returns (ok: bool)
      requires Valid() && last <= now
      modifies this
      ensures Valid() && last == now
      ensures ok == Allowed(old(log), limit, window, key, now)
      ensures ok <==> |EventsIn(Get(old(log), key), now - window, now)| < limit
      ensures log == if ok then old(log)[key := Get(old(log), key) + [now]] else old(log)
    {
      var cut := now - window;
      var kept := Recent(key, cut);
      AllowedExactly(log, limit, window, key, now);
      Ready(seen, log, last, window, key, now);
      AfterSorted(Get(seen, key), cut, last);
      StaysSorted(seen, last, key, now, kept);
      StaysSorted(log, last, key, now, Get(log, key));
      last := now;
      if |kept| >= limit {
        Refuse(key, now, cut, kept);
        return false;
      }
      AllowKeepsBounded(log, limit, window, key, now);
      Admit(key, now, cut, kept);
      return true;
    }

    /** Keep what was filtered, and record nothing. */
    method Refuse(key: Key, now: Time, cut: Time, kept: seq<Time>)
      requires now == last && cut == now - window && kept == After(Get(seen, key), cut)
      requires Agrees(seen, log, cut) && AllSorted(seen[key := kept], now) && AllSorted(log, now) && Bounded(log, limit, window)
      modifies this`seen
      ensures Valid()
    {
      RefuseAgrees(seen, log, cut, key);
      seen := seen[key := kept];
    }

    /** Record the event, and sweep when a window has passed since the last time. */
    method Admit(key: Key, now: Time, cut: Time, kept: seq<Time>)
      requires now == last && cut == now - window && kept == After(Get(seen, key), cut)
      requires Agrees(seen, log, cut) && AllSorted(seen[key := kept + [now]], now)
      requires AllSorted(log[key := Get(log, key) + [now]], now) && Bounded(log[key := Get(log, key) + [now]], limit, window)
      modifies this`seen, this`swept, this`log
      ensures Valid() && log == old(log)[key := Get(old(log), key) + [now]]
    {
      KeepAgrees(seen, log, cut, key, [now]);
      seen := seen[key := kept + [now]];
      log := log[key := Get(log, key) + [now]];
      if now - swept >= window {
        SweepAt(cut);
        swept := now;
      }
    }

    /** The sweep: forget every key with nothing left after the cut. */
    method SweepAt(cut: Time)
      requires AllSorted(seen, last) && Agrees(seen, log, cut)
      modifies `seen
      ensures AllSorted(seen, last) && Agrees(seen, log, cut)
      ensures forall k :: k in seen <==> k in old(seen) && LastsPast(old(seen)[k], cut)
    {
      var keys := seen.Keys;
      ghost var was := seen;
      while keys != {}
        invariant SweptSoFar(was, seen, log, keys, last, cut)
        decreases |keys|
      {
        var k :| k in keys;
        SweepTurn(was, seen, log, keys, last, cut, k);
        keys := keys - {k};
        var ts := seen[k];
        if |ts| == 0 || ts[|ts| - 1] <= cut {
          seen := seen - {k};
        }
      }
    }
  }
}
