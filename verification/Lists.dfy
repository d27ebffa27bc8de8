/** Lists with some elements marked by a test: dropping them, trimming them at
    both ends, finding the first. */
module Lists {
  import opened Options

  /** The elements the test does not hold of, in order. */
  function Dropping<T>(xs: seq<T>, test: T -> bool): seq<T>
    decreases |xs|
  {
    if xs == [] then [] else (if test(xs[0]) then [] else [xs[0]]) + Dropping(xs[1..], test)
  }

  lemma {:induction false} DroppingAppend<T>(a: seq<T>, b: seq<T>, test: T -> bool)
    ensures Dropping(a + b, test) == Dropping(a, test) + Dropping(b, test)
    decreases |a|
  {
    if a == [] {
      assert a + b == b;
    } else {
      assert (a + b)[1..] == a[1..] + b;
      DroppingAppend(a[1..], b, test);
    }
  }

  lemma {:induction false} DroppingAll<T>(xs: seq<T>, test: T -> bool)
    requires forall i :: 0 <= i < |xs| ==> test(xs[i])
    ensures Dropping(xs, test) == []
    decreases |xs|
  {
    if xs != [] { DroppingAll(xs[1..], test); }
  }

  lemma DroppingOne<T>(x: T, test: T -> bool)
    ensures Dropping([x], test) == if test(x) then [] else [x]
  {
    assert [x][1..] == [];
  }

  lemma DroppingFirst<T>(xs: seq<T>, k: nat, test: T -> bool)
    requires k < |xs|
    ensures var rest := Dropping(xs[k + 1..], test);
            Dropping(xs[k..], test) == if test(xs[k]) then rest else [xs[k]] + rest
  {
    assert xs[k..][0] == xs[k] && xs[k..][1..] == xs[k + 1..];
  }

  lemma DroppingAround<T>(a: seq<T>, x: T, b: seq<T>, test: T -> bool)
    requires !test(x)
    ensures Dropping(a + [x] + b, test) == Dropping(a, test) + [x] + Dropping(b, test)
  {
    DroppingAppend(a, [x], test);
    DroppingAppend(a + [x], b, test);
    DroppingOne(x, test);
  }

  function Leading<T>(xs: seq<T>, test: T -> bool): (k: nat)
    ensures k <= |xs| && (forall i :: 0 <= i < k ==> test(xs[i])) && (k < |xs| ==> !test(xs[k]))
    decreases |xs|
  {
    if xs != [] && test(xs[0]) then Leading(xs[1..], test) + 1 else 0
  }

  function WithoutTrailing<T>(xs: seq<T>, test: T -> bool): (k: nat)
    ensures k <= |xs| && (forall i :: k <= i < |xs| ==> test(xs[i])) && (k > 0 ==> !test(xs[k - 1]))
    decreases |xs|
  {
    if xs != [] && test(xs[|xs| - 1]) then WithoutTrailing(xs[..|xs| - 1], test) else |xs|
  }

  /** Without the elements at either end that the test holds of. */
  function Trimmed<T>(xs: seq<T>, test: T -> bool): seq<T> {
    var from, to := Leading(xs, test), WithoutTrailing(xs, test);
    if from < to then xs[from..to] else []
  }

  /** Trimming drops nothing but what dropping drops anyway. */
  lemma TrimmedKeeps<T>(xs: seq<T>, test: T -> bool)
    ensures Dropping(Trimmed(xs, test), test) == Dropping(xs, test)
  {
    var from, to := Leading(xs, test), WithoutTrailing(xs, test);
    if from < to {
      DroppingAll(xs[..from], test);
      DroppingAll(xs[to..], test);
      DroppingAppend(xs[..from], xs[from..to], test);
      DroppingAppend(xs[..from] + xs[from..to], xs[to..], test);
      assert xs[..from] + xs[from..to] + xs[to..] == xs;
    } else {
      DroppingAll(xs, test);
    }
  }

  lemma {:induction false} LeadingIs<T>(xs: seq<T>, k: nat, test: T -> bool)
    requires k < |xs| && !test(xs[k]) && forall i :: 0 <= i < k ==> test(xs[i])
    ensures Leading(xs, test) == k
    decreases k
  {
    if k > 0 { LeadingIs(xs[1..], k - 1, test); }
  }

  lemma {:induction false} TrailingIs<T>(xs: seq<T>, k: nat, test: T -> bool)
    requires 0 < k <= |xs| && !test(xs[k - 1]) && forall i :: k <= i < |xs| ==> test(xs[i])
    ensures WithoutTrailing(xs, test) == k
    decreases |xs|
  {
    if k < |xs| { TrailingIs(xs[..|xs| - 1], k, test); }
  }

  lemma {:induction false} TrimmedAll<T>(xs: seq<T>, test: T -> bool)
    requires forall i :: 0 <= i < |xs| ==> test(xs[i])
    ensures Leading(xs, test) == |xs| && Trimmed(xs, test) == []
    decreases |xs|
  {
    if xs != [] { TrimmedAll(xs[1..], test); }
  }

  lemma SliceOfSlice<T>(xs: seq<T>, a: nat, b: nat, c: nat, d: nat)
    requires a <= b <= c <= d <= |xs|
    ensures xs[a..d][b - a..c - a] == xs[b..c]
  {
    var inner := xs[a..d];
    forall i | 0 <= i < c - b ensures inner[b - a..c - a][i] == xs[b..c][i] {
      assert inner[b - a + i] == xs[b + i];
    }
  }

  /** Trimming xs[from0..to0] from both ends in place. */
  lemma TrimmedRange<T>(xs: seq<T>, from0: nat, from: nat, to: nat, to0: nat, test: T -> bool)
    requires from0 <= from <= to <= to0 <= |xs|
    requires forall i :: from0 <= i < from ==> test(xs[i])
    requires forall i :: to <= i < to0 ==> test(xs[i])
    requires from < to ==> !test(xs[from]) && !test(xs[to - 1])
    ensures Trimmed(xs[from0..to0], test) == xs[from..to]
  {
    var rest := xs[from0..to0];
    forall i | 0 <= i < |rest| && (i < from - from0 || i >= to - from0) ensures test(rest[i]) {
      assert rest[i] == xs[from0 + i];
    }
    if from < to {
      LeadingIs(rest, from - from0, test);
      TrailingIs(rest, to - from0, test);
      SliceOfSlice(xs, from0, from, to, to0);
    } else {
      TrimmedAll(rest, test);
    }
  }

  /** Something is left of a list whose last element the test fails on, and it
      starts with an element the test fails on. */
  lemma TrimmedStays<T>(xs: seq<T>, test: T -> bool)
    requires xs != [] && !test(xs[|xs| - 1])
    ensures Trimmed(xs, test) != [] && !test(Trimmed(xs, test)[0])
  {
    TrailingIs(xs, |xs|, test);
  }

  /** The first element the test holds of, or the length. */
  function FirstAt<T>(xs: seq<T>, test: T -> bool): (i: nat)
    ensures i <= |xs| && (i < |xs| ==> test(xs[i])) && forall k :: 0 <= k < i ==> !test(xs[k])
    decreases |xs|
  {
    if xs == [] || test(xs[0]) then 0 else FirstAt(xs[1..], test) + 1
  }

  predicate NoneOf<T>(xs: seq<T>, test: T -> bool) { forall i :: 0 <= i < |xs| ==> !test(xs[i]) }

  /** The last element is the first exactly when there is none before. */
  lemma FirstIsLast<T>(xs: seq<T>, test: T -> bool)
    requires xs != [] && test(xs[|xs| - 1])
    ensures FirstAt(xs, test) == |xs| - 1 <==> NoneOf(xs[..|xs| - 1], test)
  {
    var n, m := |xs| - 1, FirstAt(xs, test);
    assert m <= n;
    if m == n {
      forall i | 0 <= i < n ensures !test(xs[..n][i]) { assert xs[..n][i] == xs[i]; }
    } else {
      assert xs[..n][m] == xs[m];
    }
  }

  lemma NoneInserted<T>(xs: seq<T>, block: seq<T>, k: nat, test: T -> bool)
    requires NoneOf(xs, test) && k <= |xs|
    ensures NoneOf(xs[..k] + block + xs[k..], test) <==> NoneOf(block, test)
  {
    var all := xs[..k] + block + xs[k..];
    if NoneOf(all, test) {
      forall i | 0 <= i < |block| ensures !test(block[i]) { assert all[k + i] == block[i]; }
    }
    if NoneOf(block, test) {
      forall i | 0 <= i < |all| ensures !test(all[i]) {
        if i < k { assert all[i] == xs[i]; }
        else if i < k + |block| { assert all[i] == block[i - k]; }
        else { assert all[i] == xs[i - |block|]; }
      }
    }
  }

  // ---- the last boundary in the second half of xs[..n] ----

  /** j is the last index in (n/2, n] where the test holds. */
  ghost predicate LastBoundary<T>(xs: seq<T>, n: nat, j: nat, test: T -> bool) {
    && n / 2 < j <= n < |xs| && test(xs[j])
    && forall k :: j < k <= n ==> !test(xs[k])
  }

  ghost predicate NoBoundary<T>(xs: seq<T>, n: nat, test: T -> bool)
    requires n < |xs|
  {
    forall k :: n / 2 < k <= n ==> !test(xs[k])
  }

  function SearchBack<T>(xs: seq<T>, n: nat, j: nat, test: T -> bool): (k: Option<nat>)
    requires j <= n < |xs| && forall i :: j < i <= n ==> !test(xs[i])
    ensures if k.Some? then LastBoundary(xs, n, k.value, test) else NoBoundary(xs, n, test)
    decreases j
  {
    if j <= n / 2 then None else if test(xs[j]) then Some(j) else SearchBack(xs, n, j - 1, test)
  }

  // ---- listings and sizes ----

  /** No element occurs twice. */
  predicate Once<T(==)>(xs: seq<T>)
    decreases |xs|
  {
    xs == [] || (xs[0] !in xs[1..] && Once(xs[1..]))
  }

  lemma {:induction false} Subset<T>(a: set<T>, b: set<T>)
    requires a <= b
    ensures |a| <= |b|
    decreases |a|
  {
    if a != {} {
      var x :| x in a;
      Subset(a - {x}, b - {x});
    }
  }
}
