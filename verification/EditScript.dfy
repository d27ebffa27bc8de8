/** Edit scripts: `hunk`, `diff` and `applyWithin` of internal/diff3. */
module EditScript {
  import opened Subsequence

  /** base[b1..b2] becomes repl; a pure insertion has b1 == b2. */
  datatype Hunk<T> = Hunk(b1: nat, b2: nat, repl: seq<T>) {
    ghost predicate Within(lo: nat, hi: nat) { lo <= b1 <= b2 <= hi }
    ghost predicate Effective() { b1 < b2 || repl != [] }
  }

  /** Hunks lie in base[lo..hi], none is empty, and consecutive hunks are
      separated by at least one kept line. */
  ghost predicate WellFormed<T>(hs: seq<Hunk<T>>, lo: nat, hi: nat)
    decreases |hs|
  {
    hs != [] ==> hs[0].Within(lo, hi) && hs[0].Effective() && WellFormed(hs[1..], hs[0].b2 + 1, hi)
  }

  /** A script may be read from any earlier start. */
  lemma StartEarlier<T>(hs: seq<Hunk<T>>, lo: nat, lo': nat, hi: nat)
    requires WellFormed(hs, lo, hi) && lo' <= lo
    ensures WellFormed(hs, lo', hi)
  {
  }

  /** base[c1..c2] with the hunks applied. */
  function Applied<T>(base: seq<T>, c1: nat, c2: nat, hs: seq<Hunk<T>>): seq<T>
    requires c1 <= c2 <= |base| && WellFormed(hs, c1, c2)
    decreases |hs|
  {
    if hs == [] then base[c1..c2]
    else
      StartEarlier(hs[1..], hs[0].b2 + 1, hs[0].b2, c2);
      base[c1..hs[0].b1] + hs[0].repl + Applied(base, hs[0].b2, c2, hs[1..])
  }

  /** The lines of base[c1..c2] that no hunk touches. */
  ghost function Kept<T>(base: seq<T>, c1: nat, c2: nat, hs: seq<Hunk<T>>): seq<T>
    requires c1 <= c2 <= |base| && WellFormed(hs, c1, c2)
    decreases |hs|
  {
    if hs == [] then base[c1..c2]
    else
      StartEarlier(hs[1..], hs[0].b2 + 1, hs[0].b2, c2);
      base[c1..hs[0].b1] + Kept(base, hs[0].b2, c2, hs[1..])
  }

  /** The specification of `diff`: a well-formed script that turns base into
      other and keeps as many lines as any common subsequence has. */
  ghost predicate MinimalScript<T(!new)>(base: seq<T>, other: seq<T>, hs: seq<Hunk<T>>) {
    && WellFormed(hs, 0, |base|)
    && Applied(base, 0, |base|, hs) == other
    && forall c: seq<T> :: CommonSubsequence(c, base, other) ==> |c| <= |Kept(base, 0, |base|, hs)|
  }

  // ---- the alignment walk as a function ----

  predicate Aligned<T(==)>(a: seq<T>, b: seq<T>, i: nat, j: nat) {
    i < |a| && j < |b| && a[i] == b[j]
  }

  /** Where the mismatch region that starts at (i, j) ends. */
  function RegionEnd<T(==)>(a: seq<T>, b: seq<T>, i: nat, j: nat): (e: (nat, nat))
    requires i <= |a| && j <= |b|
    ensures i <= e.0 <= |a| && j <= e.1 <= |b|
    ensures Aligned(a, b, e.0, e.1) || (e.0 == |a| && e.1 == |b|)
    decreases |a| - i + |b| - j
  {
    if (i == |a| && j == |b|) || Aligned(a, b, i, j) then (i, j)
    else if j < |b| && (i == |a| || Table(a, b, i, j + 1) >= Table(a, b, i + 1, j)) then RegionEnd(a, b, i, j + 1)
    else RegionEnd(a, b, i + 1, j)
  }

  /** The hunks `diff` finds from position (i, j) on. */
  function Script<T(==)>(a: seq<T>, b: seq<T>, i: nat, j: nat): seq<Hunk<T>>
    requires i <= |a| && j <= |b|
    decreases |a| - i + |b| - j
  {
    if i == |a| && j == |b| then []
    else if Aligned(a, b, i, j) then Script(a, b, i + 1, j + 1)
    else
      var (i2, j2) := RegionEnd(a, b, i, j);
      assert i2 + j2 > i + j;
      [Hunk(i, i2, b[j..j2])] + Script(a, b, i2, j2)
  }

  // ---- the walk meets its specification ----

  lemma {:induction false} ScriptWellFormed<T>(a: seq<T>, b: seq<T>, i: nat, j: nat)
    requires i <= |a| && j <= |b|
    ensures WellFormed(Script(a, b, i, j), if Aligned(a, b, i, j) then i + 1 else i, |a|)
    decreases |a| - i + |b| - j
  {
    if i == |a| && j == |b| {
    } else if Aligned(a, b, i, j) {
      ScriptWellFormed(a, b, i + 1, j + 1);
    } else {
      var (i2, j2) := RegionEnd(a, b, i, j);
      ScriptWellFormed(a, b, i2, j2);
    }
  }

  lemma Regroup<T>(x: T, a: seq<T>, b: seq<T>, c: seq<T>)
    ensures ([x] + a) + b + c == [x] + (a + b + c)
    ensures ([x] + a) + b == [x] + (a + b)
  {
  }

  lemma SliceFirst<T>(base: seq<T>, c1: nat, c2: nat)
    requires c1 < c2 <= |base|
    ensures base[c1..c2] == [base[c1]] + base[c1 + 1..c2]
  {
  }

  /** Applying hunks that start later keeps the first line. */
  lemma AppliedFirst<T>(base: seq<T>, c1: nat, c2: nat, hs: seq<Hunk<T>>)
    requires c1 < c2 <= |base| && WellFormed(hs, c1 + 1, c2)
    ensures WellFormed(hs, c1, c2)
    ensures Applied(base, c1, c2, hs) == [base[c1]] + Applied(base, c1 + 1, c2, hs)
    ensures Kept(base, c1, c2, hs) == [base[c1]] + Kept(base, c1 + 1, c2, hs)
  {
    StartEarlier(hs, c1 + 1, c1, c2);
    if hs == [] {
      SliceFirst(base, c1, c2);
    } else {
      var h := hs[0];
      StartEarlier(hs[1..], h.b2 + 1, h.b2, c2);
      SliceFirst(base, c1, h.b1);
      Regroup(base[c1], base[c1 + 1..h.b1], h.repl, Applied(base, h.b2, c2, hs[1..]));
      Regroup(base[c1], base[c1 + 1..h.b1], Kept(base, h.b2, c2, hs[1..]), []);
    }
  }

  /** The walk from (i, j) rebuilds b[j..], and what it keeps is as long as the
      table entry. */
  ghost predicate Aligns<T>(a: seq<T>, b: seq<T>, i: nat, j: nat, hs: seq<Hunk<T>>)
    requires i <= |a| && j <= |b|
  {
    && WellFormed(hs, i, |a|)
    && Applied(a, i, |a|, hs) == b[j..]
    && |Kept(a, i, |a|, hs)| == Table(a, b, i, j)
  }

  lemma {:induction false} ScriptAligns<T>(a: seq<T>, b: seq<T>, i: nat, j: nat)
    requires i <= |a| && j <= |b|
    ensures Aligns(a, b, i, j, Script(a, b, i, j))
    decreases |a| - i + |b| - j
  {
    ScriptWellFormed(a, b, i, j);
    if i == |a| && j == |b| {
    } else if Aligned(a, b, i, j) {
      ScriptAligns(a, b, i + 1, j + 1);
      ScriptWellFormed(a, b, i + 1, j + 1);
      AlignedStep(a, b, i, j, Script(a, b, i + 1, j + 1));
    } else {
      var (i2, j2) := RegionEnd(a, b, i, j);
      RegionKeepsTable(a, b, i, j);
      ScriptAligns(a, b, i2, j2);
      RegionStep(a, b, i, j, i2, j2, Script(a, b, i2, j2));
    }
  }

  lemma AlignedStep<T>(a: seq<T>, b: seq<T>, i: nat, j: nat, hs: seq<Hunk<T>>)
    requires Aligned(a, b, i, j) && Aligns(a, b, i + 1, j + 1, hs)
    ensures Aligns(a, b, i, j, hs)
  {
    AppliedFirst(a, i, |a|, hs);
    SliceFirst(b, j, |b|);
    assert b[j..|b|] == b[j..] && b[j + 1..|b|] == b[j + 1..];
  }

  lemma RegionStep<T>(a: seq<T>, b: seq<T>, i: nat, j: nat, i2: nat, j2: nat, rest: seq<Hunk<T>>)
    requires i <= i2 <= |a| && j <= j2 <= |b| && Aligns(a, b, i2, j2, rest) && Table(a, b, i, j) == Table(a, b, i2, j2)
    requires WellFormed([Hunk(i, i2, b[j..j2])] + rest, i, |a|)
    ensures Aligns(a, b, i, j, [Hunk(i, i2, b[j..j2])] + rest)
  {
    HunkFirst(a, i, Hunk(i, i2, b[j..j2]), rest);
    assert b[j..] == b[j..j2] + b[j2..];
  }

  /** A script that opens with a hunk at its start. */
  lemma HunkFirst<T>(base: seq<T>, i: nat, h: Hunk<T>, rest: seq<Hunk<T>>)
    requires i == h.b1 && WellFormed([h] + rest, i, |base|)
    ensures h.b1 <= h.b2 <= |base| && WellFormed(rest, h.b2, |base|)
    ensures Applied(base, i, |base|, [h] + rest) == h.repl + Applied(base, h.b2, |base|, rest)
    ensures Kept(base, i, |base|, [h] + rest) == Kept(base, h.b2, |base|, rest)
  {
    var hs := [h] + rest;
    assert hs[0] == h && hs[1..] == rest;
    StartEarlier(rest, h.b2 + 1, h.b2, |base|);
    assert base[i..h.b1] == [];
    assert [] + h.repl == h.repl && [] + Kept(base, h.b2, |base|, rest) == Kept(base, h.b2, |base|, rest);
  }

  /** Walking a mismatch region never lowers the table entry. */
  lemma {:induction false} RegionKeepsTable<T>(a: seq<T>, b: seq<T>, i: nat, j: nat)
    requires i <= |a| && j <= |b|
    ensures Table(a, b, i, j) == Table(a, b, RegionEnd(a, b, i, j).0, RegionEnd(a, b, i, j).1)
    decreases |a| - i + |b| - j
  {
    if (i == |a| && j == |b|) || Aligned(a, b, i, j) {
    } else if j < |b| && (i == |a| || Table(a, b, i, j + 1) >= Table(a, b, i + 1, j)) {
      RegionKeepsTable(a, b, i, j + 1);
    } else {
      RegionKeepsTable(a, b, i + 1, j);
    }
  }

  lemma PrependBoth<T>(head: seq<T>, extra: seq<T>, c: seq<T>, a: seq<T>)
    requires IsSubsequence(c, a)
    ensures IsSubsequence(head + c, head + extra + a)
  {
    Prepend(extra, c, a);
    Prepend(head, c, extra + a);
    assert head + extra + a == head + (extra + a);
  }

  /** The lines `diff` keeps come from both texts. */
  lemma {:induction false} KeptIsCommon<T>(base: seq<T>, c1: nat, c2: nat, hs: seq<Hunk<T>>)
    requires c1 <= c2 <= |base| && WellFormed(hs, c1, c2)
    ensures CommonSubsequence(Kept(base, c1, c2, hs), base[c1..c2], Applied(base, c1, c2, hs))
    decreases |hs|
  {
    if hs == [] {
      Reflexive(base[c1..c2]);
    } else {
      var h := hs[0];
      StartEarlier(hs[1..], h.b2 + 1, h.b2, c2);
      KeptIsCommon(base, h.b2, c2, hs[1..]);
      var head, kept, rest, applied := base[c1..h.b1], Kept(base, h.b2, c2, hs[1..]), base[h.b2..c2],
          Applied(base, h.b2, c2, hs[1..]);
      PrependBoth(head, base[h.b1..h.b2], kept, rest);
      PrependBoth(head, h.repl, kept, applied);
      assert base[c1..c2] == head + base[h.b1..h.b2] + rest;
    }
  }

  /** `diff` is minimal and invertible, against every common subsequence. */
  lemma ScriptIsMinimal<T(!new)>(base: seq<T>, other: seq<T>)
    ensures MinimalScript(base, other, Script(base, other, 0, 0))
    ensures var kept := Kept(base, 0, |base|, Script(base, other, 0, 0));
            CommonSubsequence(kept, base, other)
  {
    ScriptAligns(base, other, 0, 0);
    var hs := Script(base, other, 0, 0);
    KeptIsCommon(base, 0, |base|, hs);
    assert base[0..|base|] == base[0..] == base && other[0..] == other;
    forall c: seq<T> | CommonSubsequence(c, base, other)
      ensures |c| <= |Kept(base, 0, |base|, hs)|
    {
      TableBounds(c, base, other, 0, 0);
    }
  }

  /** A text has the empty script against itself. */
  lemma {:induction false} ScriptOfSelf<T>(a: seq<T>, i: nat)
    requires i <= |a|
    ensures Script(a, a, i, i) == []
    decreases |a| - i
  {
    if i < |a| { ScriptOfSelf(a, i + 1); }
  }

  // ---- the program ----

  /** `diff`: fill the table from the bottom right, then walk it. */
  method Diff<T(==, !new)>(base: seq<T>, other: seq<T>) returns (hunks: seq<Hunk<T>>)
    ensures hunks == Script(base, other, 0, 0)
    ensures MinimalScript(base, other, hunks)
  {
    var n, m := |base|, |other|;
    var lcs := FillTable(base, other);
    hunks := [];
    var i, j := 0, 0;
    while i < n || j < m
      invariant i <= n && j <= m
      invariant hunks + Script(base, other, i, j) == Script(base, other, 0, 0)
      decreases n - i + m - j
    {
      if i < n && j < m && base[i] == other[j] {
        i, j := i + 1, j + 1;
        continue;
      }
      var b1, o1 := i, j;
      ghost var was := hunks;
      while i < n || j < m
        invariant b1 <= i <= n && o1 <= j <= m
        invariant RegionEnd(base, other, i, j) == RegionEnd(base, other, b1, o1)
        decreases n - i + m - j
      {
        if i < n && j < m && base[i] == other[j] {
          break;
        }
        if j < m && (i >= n || lcs[i, j + 1] >= lcs[i + 1, j]) {
          j := j + 1;
        } else {
          i := i + 1;
        }
      }
      ghost var rest := Script(base, other, i, j);
      assert Script(base, other, b1, o1) == [Hunk(b1, i, other[o1..j])] + rest;
      hunks := hunks + [Hunk(b1, i, other[o1..j])];
      assert hunks + rest == was + ([Hunk(b1, i, other[o1..j])] + rest);
    }
    ScriptIsMinimal(base, other);
  }

  /** The dynamic program: lcs[i, j] is the entry for base[i..], other[j..]. */
  method FillTable<T(==)>(base: seq<T>, other: seq<T>) returns (lcs: array2<nat>)
    ensures fresh(lcs) && lcs.Length0 == |base| + 1 && lcs.Length1 == |other| + 1
    ensures forall i, j :: 0 <= i <= |base| && 0 <= j <= |other| ==> lcs[i, j] == Table(base, other, i, j)
  {
    var n, m := |base|, |other|;
    lcs := new nat[n + 1, m + 1]((i, j) => 0);
    var i := n;
    while i > 0
      invariant 0 <= i <= n
      invariant Filled(base, other, lcs, i)
      invariant forall x :: 0 <= x <= n ==> lcs[x, m] == 0
    {
      i := i - 1;
      FillRow(base, other, lcs, i);
    }
  }

  /** Rows from i on are filled. */
  ghost predicate Filled<T>(base: seq<T>, other: seq<T>, lcs: array2<nat>, i: nat)
    reads lcs
    requires i <= |base| && lcs.Length0 == |base| + 1 && lcs.Length1 == |other| + 1
  {
    forall x, y :: i <= x <= |base| && 0 <= y <= |other| ==> lcs[x, y] == Table(base, other, x, y)
  }

  /** The inner loop of `diff`'s table. */
  method FillRow<T(==)>(base: seq<T>, other: seq<T>, lcs: array2<nat>, i: nat)
    requires i < |base| && lcs.Length0 == |base| + 1 && lcs.Length1 == |other| + 1
    requires Filled(base, other, lcs, i + 1) && lcs[i, |other|] == 0
    modifies lcs
    ensures Filled(base, other, lcs, i)
    ensures forall x :: 0 <= x < i ==> lcs[x, |other|] == old(lcs[x, |other|])
  {
    var j := |other|;
    while j > 0
      invariant 0 <= j <= |other| && Filled(base, other, lcs, i + 1)
      invariant forall y :: j <= y <= |other| ==> lcs[i, y] == Table(base, other, i, y)
      invariant forall x :: 0 <= x < i ==> lcs[x, |other|] == old(lcs[x, |other|])
    {
      j := j - 1;
      var best := if base[i] == other[j] then lcs[i + 1, j + 1] + 1
                  else if lcs[i + 1, j] >= lcs[i, j + 1] then lcs[i + 1, j] else lcs[i, j + 1];
      assert best == Table(base, other, i, j);
      lcs[i, j] := best;
    }
  }
}
