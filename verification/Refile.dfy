/** The rotating revisit of filed facts (internal/curate/refile.go): a stored
    cursor walks the pool in batches, so no fact waits for ever.

    Fact IDs are only compared, so they are modelled by their rank. */
module Refile {
  import opened Lists

  type Id = nat

  ghost predicate Ascending(pool: seq<Id>) { forall i, j :: 0 <= i < j < |pool| ==> pool[i] < pool[j] }

  /** Cursor order: the IDs after the cursor first, then the others. cursor is
      -1 while none is stored. */
  predicate Precedes(cursor: int, x: Id, y: Id) {
    if (x > cursor) == (y > cursor) then x < y else x > cursor
  }

  function Pool(pool: seq<Id>): set<Id> { set x | x in pool }

  /** How many facts of the pool come before x. */
  function Wait(pool: set<Id>, cursor: int, x: Id): nat { |set y | y in pool && Precedes(cursor, y, x)| }

  /** The walk of one run: the pool from its first ID after the cursor on. */
  function Start(pool: seq<Id>, cursor: int): (k: nat)
    ensures k <= |pool|
    decreases |pool|
  {
    if pool == [] then 0 else if pool[0] > cursor then 0 else 1 + Start(pool[1..], cursor)
  }

  function Rotated(pool: seq<Id>, cursor: int): seq<Id> {
    var k := Start(pool, cursor);
    if k == |pool| then pool else pool[k..] + pool[..k]
  }

  function Batch(pool: seq<Id>, cursor: int, m: nat): seq<Id> {
    var r := Rotated(pool, cursor);
    if |r| > m then r[..m] else r
  }

  /** `ProposeChapters` on a revisit, after a successful proposal. */
  method NextBatch(pool: seq<Id>, cursor: int, maxFacts: int) returns (batch: seq<Id>, cursor': int)
    requires Ascending(pool)
    ensures var m := if maxFacts <= 0 then 80 else maxFacts;
            batch == Batch(pool, cursor, m)
    ensures cursor' == if pool == [] then cursor else batch[|batch| - 1]
  {
    var m := if maxFacts <= 0 then 80 else maxFacts;
    if |pool| == 0 {
      return [], cursor;
    }
    var start := 0;
    var i := 0;
    while i < |pool|
      invariant 0 <= i <= |pool| && start == 0
      invariant forall j :: 0 <= j < i ==> pool[j] <= cursor
    {
      if pool[i] > cursor {
        start := i;
        break;
      }
      i := i + 1;
    }
    StartIs(pool, cursor, i);
    var rotated := pool[start..] + pool[..start];
    assert i == |pool| ==> rotated == pool;
    batch := rotated;
    if |batch| > m {
      batch := batch[..m];
    }
    cursor' := batch[|batch| - 1];
  }

  lemma {:induction false} StartIs(pool: seq<Id>, cursor: int, i: nat)
    requires i <= |pool| && (forall j :: 0 <= j < i ==> pool[j] <= cursor) && (i < |pool| ==> pool[i] > cursor)
    ensures Start(pool, cursor) == i
    decreases i
  {
    if i > 0 {
      assert forall j :: 0 <= j < i - 1 ==> pool[1..][j] == pool[j + 1];
      StartIs(pool[1..], cursor, i - 1);
    }
  }

  // ---- a batch is the m facts that have waited longest ----

  ghost predicate InOrder(r: seq<Id>, cursor: int) { forall i, j :: 0 <= i < j < |r| ==> Precedes(cursor, r[i], r[j]) }

  lemma {:induction false} StartSplits(pool: seq<Id>, cursor: int)
    requires Ascending(pool)
    ensures var k := Start(pool, cursor);
            && (forall j :: 0 <= j < k ==> pool[j] <= cursor)
            && (forall j :: k <= j < |pool| ==> pool[j] > cursor)
    decreases |pool|
  {
    if pool != [] && pool[0] <= cursor {
      assert forall i :: 0 <= i < |pool| - 1 ==> pool[1..][i] == pool[i + 1];
      StartSplits(pool[1..], cursor);
      assert forall j :: 0 < j < |pool| ==> pool[j] == pool[1..][j - 1];
    }
  }

  lemma RotatedInOrder(pool: seq<Id>, cursor: int)
    requires Ascending(pool)
    ensures var r := Rotated(pool, cursor);
            InOrder(r, cursor) && |r| == |pool| && Pool(r) == Pool(pool)
  {
    StartSplits(pool, cursor);
    var k, r := Start(pool, cursor), Rotated(pool, cursor);
    forall x ensures x in r <==> x in pool {
      if k < |pool| { assert pool == pool[..k] + pool[k..]; }
    }
  }

  /** In cursor order a fact's wait is its index. */
  lemma {:induction false} WaitIsIndex(r: seq<Id>, cursor: int, i: nat)
    requires InOrder(r, cursor) && i < |r|
    ensures Wait(Pool(r), cursor, r[i]) == i
  {
    var before := set y | y in Pool(r) && Precedes(cursor, y, r[i]);
    forall y ensures y in before <==> y in r[..i] {
      if y in before {
        var j :| 0 <= j < |r| && r[j] == y;
        assert j <= i || Precedes(cursor, r[i], r[j]);
      }
    }
    assert before == Pool(r[..i]);
    DistinctSize(r[..i], cursor);
  }

  lemma {:induction false} DistinctSize(r: seq<Id>, cursor: int)
    requires InOrder(r, cursor)
    ensures |Pool(r)| == |r|
    decreases |r|
  {
    if r != [] {
      var last := |r| - 1;
      DistinctSize(r[..last], cursor);
      assert Pool(r) == Pool(r[..last]) + {r[last]};
      assert r[last] !in Pool(r[..last]);
    }
  }

  lemma BatchIsEarliest(pool: seq<Id>, cursor: int, m: nat, x: Id)
    requires Ascending(pool) && x in pool
    ensures x in Batch(pool, cursor, m) <==> Wait(Pool(pool), cursor, x) < m
  {
    RotatedInOrder(pool, cursor);
    var r := Rotated(pool, cursor);
    assert x in Pool(r);
    var i :| 0 <= i < |r| && r[i] == x;
    WaitIsIndex(r, cursor, i);
    if x in Batch(pool, cursor, m) {
      var j :| 0 <= j < |Batch(pool, cursor, m)| && Batch(pool, cursor, m)[j] == x;
      WaitIsIndex(r, cursor, j);
    }
  }

  // ---- nobody starves ----

  function NextCursor(pool: seq<Id>, cursor: int, m: nat): int
    requires m > 0
  {
    if pool == [] then cursor
    else
      var batch := Batch(pool, cursor, m);
      if batch == [] then cursor else batch[|batch| - 1]
  }

  lemma Disjoint(a: set<Id>, b: set<Id>, c: set<Id>)
    requires a !! b && a <= c && b <= c
    ensures |a| + |b| <= |c|
  {
    assert |a + b| == |a| + |b|;
    Subset(a + b, c);
  }

  /** Moving the cursor forward to c', which precedes x, leaves before x only
      what was between c' and x. */
  lemma CursorMoves(cursor: int, c': Id, x: Id, y: Id)
    requires Precedes(cursor, c', x) && Precedes(c', y, x)
    ensures Precedes(cursor, y, x) && y != c' && !Precedes(cursor, y, c')
  {
  }

  /** A fact that misses a run waits at least m fewer in the next, whatever else
      has left the pool by then. */
  lemma MissingARunShortensTheWait(pool: seq<Id>, cursor: int, m: nat, x: Id, next: set<Id>)
    requires m > 0 && Ascending(pool) && x in pool && x !in Batch(pool, cursor, m) && next <= Pool(pool)
    ensures Wait(next, NextCursor(pool, cursor, m), x) + m <= Wait(Pool(pool), cursor, x)
  {
    RotatedInOrder(pool, cursor);
    var r := Rotated(pool, cursor);
    assert x in Pool(r);
    var i :| 0 <= i < |r| && r[i] == x;
    WaitAfterBatch(r, cursor, m, i, next);
    assert Batch(pool, cursor, m) == r[..m] && r[..m] != [];
  }

  lemma WaitAfterBatch(r: seq<Id>, cursor: int, m: nat, i: nat, next: set<Id>)
    requires InOrder(r, cursor) && 0 < m <= i < |r| && next <= Pool(r)
    ensures Wait(next, r[m - 1], r[i]) + m <= Wait(Pool(r), cursor, r[i])
  {
    var c', x, batch := r[m - 1], r[i], r[..m];
    var now := set y | y in next && Precedes(c', y, x);
    var before := set y | y in Pool(r) && Precedes(cursor, y, x);
    assert Precedes(cursor, r[m - 1], r[i]);
    forall y | y in now ensures y in before && y !in batch {
      CursorMoves(cursor, c', x, y);
      assert forall j :: 0 <= j < m - 1 ==> Precedes(cursor, r[j], r[m - 1]);
    }
    forall y | y in Pool(batch) ensures y in before {
      var j :| 0 <= j < m && r[j] == y;
      assert Precedes(cursor, r[j], r[i]);
    }
    DistinctSize(batch, cursor);
    Disjoint(now, Pool(batch), before);
  }

  /** x is in one of the batches of consecutive runs over these pools. */
  ghost predicate Considered(pools: seq<seq<Id>>, cursor: int, m: nat, x: Id)
    requires m > 0
    decreases |pools|
  {
    pools != [] && (x in Batch(pools[0], cursor, m) || Considered(pools[1..], NextCursor(pools[0], cursor, m), m, x))
  }

  /** The pools of consecutive runs: ascending, never growing, x in each. */
  ghost predicate Shrinking(pools: seq<seq<Id>>, x: Id) {
    && (forall k :: 0 <= k < |pools| ==> Ascending(pools[k]) && x in pools[k])
    && (forall k :: 0 < k < |pools| ==> Pool(pools[k]) <= Pool(pools[k - 1]))
  }

  lemma OneFewer(k: nat, m: nat)
    requires k > 0
    ensures (k - 1) * m == k * m - m
  {
  }

  lemma {:induction false} ConsideredInTime(pools: seq<seq<Id>>, cursor: int, m: nat, x: Id, capacity: int)
    requires m > 0 && pools != [] && Shrinking(pools, x) && capacity == |pools| * m
    requires Wait(Pool(pools[0]), cursor, x) < capacity
    ensures Considered(pools, cursor, m, x)
    decreases |pools|
  {
    BatchIsEarliest(pools[0], cursor, m, x);
    if x !in Batch(pools[0], cursor, m) {
      OneFewer(|pools|, m);
      if |pools| > 1 {
        MissingARunShortensTheWait(pools[0], cursor, m, x, Pool(pools[1]));
        RestShrinks(pools, x);
        ConsideredInTime(pools[1..], NextCursor(pools[0], cursor, m), m, x, capacity - m);
      }
    }
  }

  lemma RestShrinks(pools: seq<seq<Id>>, x: Id)
    requires |pools| > 1 && Shrinking(pools, x)
    ensures Shrinking(pools[1..], x)
  {
    assert forall k :: 0 <= k < |pools| - 1 ==> pools[1..][k] == pools[k + 1];
  }

  /** Refile rotation starves nobody: a fact that stays in the pool is considered
      within the first runs whose batches together could hold the whole pool,
      from any stored cursor, wrap-around included. */
  lemma NobodyStarves(pools: seq<seq<Id>>, cursor: int, m: nat, x: Id)
    requires m > 0 && pools != [] && Shrinking(pools, x)
    requires |pools| * m >= |pools[0]|
    ensures Considered(pools, cursor, m, x)
  {
    RotatedInOrder(pools[0], cursor);
    var r := Rotated(pools[0], cursor);
    assert x in Pool(r);
    var i :| 0 <= i < |r| && r[i] == x;
    WaitIsIndex(r, cursor, i);
    ConsideredInTime(pools, cursor, m, x, |pools| * m);
  }
}
