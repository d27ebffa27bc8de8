/** Which edits meet in a merge: both sides share a region exactly when a local
    hunk and a hub hunk overlap, so edits that keep apart never conflict. */
module MergeTouch {
  import opened Subsequence
  import opened EditScript
  import opened Merge3

  /** Both sides changed the region, alike or not. */
  predicate Shared<T>(c: Chunk<T>) { c.kind.Agreed? || c.kind.Conflict? }

  predicate Touch<T>(g: Hunk<T>, h: Hunk<T>) { Overlaps(g, h.b1, h.b2) }

  lemma TouchIsMutual<T>(g: Hunk<T>, h: Hunk<T>)
    ensures Touch(g, h) <==> Touch(h, g)
  {
  }

  lemma {:induction false} HunkAt<T>(hs: seq<Hunk<T>>, lo: nat, hi: nat, k: nat)
    requires WellFormed(hs, lo, hi) && k < |hs|
    ensures lo <= hs[k].b1 <= hs[k].b2 <= hi && (k > 0 ==> hs[k].b1 > hs[0].b2)
    decreases k
  {
    if k > 0 { HunkAt(hs[1..], hs[0].b2 + 1, hi, k - 1); }
  }

  // ---- hunks that keep apart ----

  /** No remaining hunk of one side overlaps one of the other. */
  ghost predicate Apart<T>(hl: seq<Hunk<T>>, hh: seq<Hunk<T>>, li: nat, hi: nat) {
    forall i, j :: li <= i < |hl| && hi <= j < |hh| ==> !Touch(hl[i], hh[j])
  }

  /** A cluster is then one hunk. */
  lemma LoneRound<T>(hl: seq<Hunk<T>>, hh: seq<Hunk<T>>, li: nat, hi: nat, pos: nat, n: nat)
    requires Pending(hl, hh, li, hi, pos, n) && (li < |hl| || hi < |hh|) && Apart(hl, hh, li, hi)
    ensures var r := NextRound(hl, hh, li, hi); (r.li == li + 1 && r.hi == hi) || (r.li == li && r.hi == hi + 1)
  {
    var (c1, c2) := Opening(hl, hh, li, hi);
    NextIsLater(hl, li, pos, n);
    NextIsLater(hh, hi, pos, n);
    if hi == |hh| || (li < |hl| && hl[li].b1 <= hh[hi].b1) {
      if hi < |hh| { TouchIsMutual(hl[li], hh[hi]); }
      assert Cluster(hl, hh, li + 1, hi, c1, c2) == (li + 1, hi, c2);
    } else {
      assert Cluster(hl, hh, li, hi + 1, c1, c2) == (li, hi + 1, c2);
    }
  }

  lemma NextIsLater<T>(hs: seq<Hunk<T>>, k: nat, pos: nat, n: nat)
    requires k <= |hs| && WellFormed(hs[k..], pos, n)
    ensures k < |hs| ==> hs[k].b1 <= hs[k].b2
    ensures k + 1 < |hs| ==> hs[k + 1].b1 > hs[k].b2
  {
    if k < |hs| { HunkAt(hs[k..], pos, n, 0); }
    if k + 1 < |hs| {
      HunkAt(hs[k..], pos, n, 1);
      assert hs[k..][1] == hs[k + 1];
    }
  }

  lemma {:induction false} ApartShareNothing<T>(
    base: seq<T>, hl: seq<Hunk<T>>, hh: seq<Hunk<T>>, li: nat, hi: nat, pos: nat)
    requires Pending(hl, hh, li, hi, pos, |base|) && Proper(hl) && Proper(hh) && Apart(hl, hh, li, hi)
    ensures forall c :: c in Chunks(base, hl, hh, li, hi, pos) ==> !Shared(c)
    decreases |hl| - li + |hh| - hi
  {
    if !(li == |hl| && hi == |hh|) {
      RoundAbsorbs(hl, hh, li, hi, pos, |base|);
      LoneRound(hl, hh, li, hi, pos, |base|);
      var r := NextRound(hl, hh, li, hi);
      ApartShareNothing(base, hl, hh, r.li, r.hi, r.c2);
    }
  }

  // ---- hunks that touch ----

  /** A cluster stops only before hunks that do not overlap it. */
  lemma {:induction false} ClusterStops<T>(hl: seq<Hunk<T>>, hh: seq<Hunk<T>>, li: nat, hi: nat, c1: nat, c2: nat)
    requires li <= |hl| && hi <= |hh|
    ensures var (x, y, e) := Cluster(hl, hh, li, hi, c1, c2);
            (x < |hl| ==> !Overlaps(hl[x], c1, e)) && (y < |hh| ==> !Overlaps(hh[y], c1, e))
    decreases |hl| - li + |hh| - hi
  {
    if li < |hl| && Overlaps(hl[li], c1, c2) {
      ClusterStops(hl, hh, li + 1, hi, c1, Max(c2, hl[li].b2));
    } else if hi < |hh| && Overlaps(hh[hi], c1, c2) {
      ClusterStops(hl, hh, li, hi + 1, c1, Max(c2, hh[hi].b2));
    }
  }

  /** An absorbed hunk starts inside the cluster, or with it. */
  predicate StartsIn<T>(h: Hunk<T>, c1: nat, e: nat) { h.b1 < e || h.b1 == c1 }

  lemma {:induction false} AbsorbedStartIn<T>(hl: seq<Hunk<T>>, hh: seq<Hunk<T>>, li: nat, hi: nat, c1: nat, c2: nat, n: nat)
    requires Pending(hl, hh, li, hi, c1, n) && c1 <= c2 <= n
    ensures var (x, y, e) := Cluster(hl, hh, li, hi, c1, c2);
            && c2 <= e && x <= |hl| && y <= |hh|
            && (forall i :: li <= i < x ==> StartsIn(hl[i], c1, e)) && (forall j :: hi <= j < y ==> StartsIn(hh[j], c1, e))
    decreases |hl| - li + |hh| - hi
  {
    if li < |hl| && Overlaps(hl[li], c1, c2) {
      assert hl[li..][1..] == hl[li + 1..];
      StartEarlier(hl[li + 1..], hl[li].b2 + 1, c1, n);
      AbsorbedStartIn(hl, hh, li + 1, hi, c1, Max(c2, hl[li].b2), n);
    } else if hi < |hh| && Overlaps(hh[hi], c1, c2) {
      assert hh[hi..][1..] == hh[hi + 1..];
      StartEarlier(hh[hi + 1..], hh[hi].b2 + 1, c1, n);
      AbsorbedStartIn(hl, hh, li, hi + 1, c1, Max(c2, hh[hi].b2), n);
    }
  }

  /** An absorbed hunk does not touch one that is left. */
  lemma LeftIsApart<T>(g: Hunk<T>, h: Hunk<T>, c1: nat, c2: nat)
    requires c1 <= g.b1 <= g.b2 <= c2 <= h.b1 <= h.b2 && StartsIn(g, c1, c2)
    requires h.b1 > c2 || !Overlaps(h, c1, c2)
    ensures !Touch(g, h) && !Touch(h, g)
  {
  }

  /** Of one side's absorbed hunks and the other side's left ones. */
  lemma SidesApart<T>(gs: seq<Hunk<T>>, k: nat, k2: nat, hs: seq<Hunk<T>>, y: nat, c1: nat, c2: nat, n: nat, i: nat, j: nat)
    requires Absorbed(gs, k, k2, c1, c2, n) && y <= |hs| && WellFormed(hs[y..], c2, n) && c1 <= c2
    requires k <= i < k2 && y <= j < |hs| && StartsIn(gs[i], c1, c2) && !Overlaps(hs[y], c1, c2)
    ensures !Touch(gs[i], hs[j]) && !Touch(hs[j], gs[i])
  {
    HunkAt(gs[k..k2], c1, c2, i - k);
    HunkAt(hs[y..], c2, n, j - y);
    HunkAt(hs[y..], c2, n, 0);
    LeftIsApart(gs[i], hs[j], c1, c2);
  }

  /** Hunks that touch are absorbed in the same round. */
  lemma TouchingStayTogether<T>(hl: seq<Hunk<T>>, hh: seq<Hunk<T>>, li: nat, hi: nat, pos: nat, n: nat, i: nat, j: nat)
    requires Pending(hl, hh, li, hi, pos, n) && Proper(hl) && Proper(hh)
    requires li <= i < |hl| && hi <= j < |hh| && Touch(hl[i], hh[j])
    ensures var r := NextRound(hl, hh, li, hi); i < r.li <==> j < r.hi
  {
    var (c1, c2) := Opening(hl, hh, li, hi);
    var r := NextRound(hl, hh, li, hi);
    RoundAbsorbs(hl, hh, li, hi, pos, n);
    RoundStops(hl, hh, li, hi, pos, n);
    if i < r.li && j >= r.hi { SidesApart(hl, li, r.li, hh, r.hi, r.c1, r.c2, n, i, j); }
    if i >= r.li && j < r.hi { SidesApart(hh, hi, r.hi, hl, r.li, r.c1, r.c2, n, j, i); }
  }

  lemma RoundStops<T>(hl: seq<Hunk<T>>, hh: seq<Hunk<T>>, li: nat, hi: nat, pos: nat, n: nat)
    requires Pending(hl, hh, li, hi, pos, n) && (li < |hl| || hi < |hh|) && Proper(hl) && Proper(hh)
    ensures var r := NextRound(hl, hh, li, hi);
            && r.li <= |hl| && r.hi <= |hh|
            && (r.li < |hl| ==> !Overlaps(hl[r.li], r.c1, r.c2)) && (r.hi < |hh| ==> !Overlaps(hh[r.hi], r.c1, r.c2))
            && (forall i :: li <= i < r.li ==> StartsIn(hl[i], r.c1, r.c2))
            && (forall j :: hi <= j < r.hi ==> StartsIn(hh[j], r.c1, r.c2))
  {
    var (c1, c2) := Opening(hl, hh, li, hi);
    OpeningIsFirst(hl, hh, li, hi, pos, n);
    ClusterStops(hl, hh, li, hi, c1, c2);
    AbsorbedStartIn(hl, hh, li, hi, c1, c2, n);
  }

  /** Nothing that remains starts before the opening. */
  lemma OpeningIsFirst<T>(hl: seq<Hunk<T>>, hh: seq<Hunk<T>>, li: nat, hi: nat, pos: nat, n: nat)
    requires Pending(hl, hh, li, hi, pos, n) && (li < |hl| || hi < |hh|)
    ensures var (c1, c2) := Opening(hl, hh, li, hi); c1 <= c2 <= n && Pending(hl, hh, li, hi, c1, n)
  {
  }

  lemma {:induction false} TouchingShare<T>(
    base: seq<T>, hl: seq<Hunk<T>>, hh: seq<Hunk<T>>, li: nat, hi: nat, pos: nat, i: nat, j: nat) returns (c: Chunk<T>)
    requires Pending(hl, hh, li, hi, pos, |base|) && Proper(hl) && Proper(hh)
    requires li <= i < |hl| && hi <= j < |hh| && Touch(hl[i], hh[j])
    ensures c in Chunks(base, hl, hh, li, hi, pos) && Shared(c)
    decreases |hl| - li + |hh| - hi
  {
    RoundAbsorbs(hl, hh, li, hi, pos, |base|);
    TouchingStayTogether(hl, hh, li, hi, pos, |base|, i, j);
    var r := NextRound(hl, hh, li, hi);
    if i < r.li {
      c := RoundChunk(base, hl, hh, li, hi, r);
    } else {
      c := TouchingShare(base, hl, hh, r.li, r.hi, r.c2, i, j);
    }
  }

  // ---- the theorem ----

  /** The edit removes or replaces that base line. */
  predicate Covers<T>(h: Hunk<T>, line: nat) { h.b1 <= line < h.b2 }

  /** Two edits meet: a base line is in both, or they start at the same point and
      one is an insertion, or one is an insertion strictly inside the other. */
  ghost predicate Meet<T>(g: Hunk<T>, h: Hunk<T>) {
    || (exists line :: Covers(g, line) && Covers(h, line))
    || (g.b1 == h.b1 && (g.b1 == g.b2 || h.b1 == h.b2))
    || (g.b1 == g.b2 && h.b1 < g.b1 < h.b2)
    || (h.b1 == h.b2 && g.b1 < h.b1 < g.b2)
  }

  lemma MeetingTouch<T>(g: Hunk<T>, h: Hunk<T>)
    requires g.b1 <= g.b2 && h.b1 <= h.b2
    ensures Touch(g, h) <==> Meet(g, h)
  {
    if Touch(g, h) && g.b1 < g.b2 && h.b1 < h.b2 {
      var x := Max(g.b1, h.b1);
      assert Covers(g, x) && Covers(h, x);
    }
  }

  /** Some local edit meets some hub edit. */
  ghost predicate EditsMeet<T(!new)>(base: seq<T>, local: seq<T>, hub: seq<T>) {
    var hl, hh := Script(base, local, 0, 0), Script(base, hub, 0, 0);
    exists i, j :: 0 <= i < |hl| && 0 <= j < |hh| && Meet(hl[i], hh[j])
  }

  /** Both sides change a region together exactly when an edit of one meets an
      edit of the other. */
  lemma SharedExactly<T(!new)>(base: seq<T>, local: seq<T>, hub: seq<T>)
    ensures (exists c :: c in MergeChunks(base, local, hub) && (c.kind == Agreed || c.kind == Conflict)) <==> EditsMeet(base, local, hub)
  {
    var hl, hh := Script(base, local, 0, 0), Script(base, hub, 0, 0);
    ScriptsPending(base, local, hub);
    forall i, j | 0 <= i < |hl| && 0 <= j < |hh| ensures Touch(hl[i], hh[j]) <==> Meet(hl[i], hh[j]) {
      MeetingTouch(hl[i], hh[j]);
    }
    if EditsMeet(base, local, hub) {
      var i, j :| 0 <= i < |hl| && 0 <= j < |hh| && Meet(hl[i], hh[j]);
      var c := TouchingShare(base, hl, hh, 0, 0, 0, i, j);
      assert c.kind == Agreed || c.kind == Conflict;
    } else {
      ApartShareNothing(base, hl, hh, 0, 0, 0);
    }
  }

  lemma {:induction false} NoneConflicts<T(!new)>(cs: seq<Chunk<T>>)
    requires forall c :: c in cs ==> !Shared(c)
    ensures ConflictCount(cs) == 0
    decreases |cs|
  {
    if cs != [] {
      assert cs[0] in cs;
      NoneConflicts(cs[1..]);
    }
  }

  /** Edits that do not meet merge without conflict. */
  lemma ApartNeverConflict<T(!new)>(base: seq<T>, local: seq<T>, hub: seq<T>)
    requires !EditsMeet(base, local, hub)
    ensures ConflictCount(MergeChunks(base, local, hub)) == 0
  {
    SharedExactly(base, local, hub);
    forall c | c in MergeChunks(base, local, hub) ensures !Shared(c) { assert c.kind != Agreed && c.kind != Conflict; }
    NoneConflicts(MergeChunks(base, local, hub));
  }

  /** Both replace or remove base lines, and no line is in both ranges. */
  predicate Disjoint<T>(g: Hunk<T>, h: Hunk<T>) {
    g.b1 < g.b2 && h.b1 < h.b2 && (g.b2 <= h.b1 || h.b2 <= g.b1)
  }

  ghost predicate AllDisjoint<T>(hl: seq<Hunk<T>>, hh: seq<Hunk<T>>) {
    forall i, j :: 0 <= i < |hl| && 0 <= j < |hh| ==> Disjoint(hl[i], hh[j])
  }

  /** Edits of disjoint ranges of base lines, adjoining ones included, never
      conflict. */
  lemma DisjointRangesNeverConflict<T(!new)>(base: seq<T>, local: seq<T>, hub: seq<T>)
    requires AllDisjoint(Script(base, local, 0, 0), Script(base, hub, 0, 0))
    ensures ConflictCount(MergeChunks(base, local, hub)) == 0
  {
    var hl, hh := Script(base, local, 0, 0), Script(base, hub, 0, 0);
    assert AllDisjoint(hl, hh);
    forall i, j | 0 <= i < |hl| && 0 <= j < |hh| ensures !Meet(hl[i], hh[j]) { assert Disjoint(hl[i], hh[j]); }
    ApartNeverConflict(base, local, hub);
  }

  lemma FirstReplaced<T>(a: T, b: T, a': T)
    requires a != b && a != a' && b != a'
    ensures Script([a, b], [a', b], 0, 0) == [Hunk(0, 1, [a'])]
  {
    var x, y := [a, b], [a', b];
    assert Table(x, y, 1, 1) == 1 && Table(x, y, 0, 2) == 0 && Table(x, y, 2, 0) == 0;
    assert Table(x, y, 0, 1) == 1 && Table(x, y, 1, 0) == 1;
    assert RegionEnd(x, y, 0, 1) == (1, 1);
    assert Script(x, y, 1, 1) == Script(x, y, 2, 2) == [] && y[0..1] == [a'];
    assert Script(x, y, 0, 0) == [Hunk(0, 1, y[0..1])] + Script(x, y, 1, 1);
  }

  lemma SecondReplaced<T>(a: T, b: T, b': T)
    requires a != b && a != b' && b != b'
    ensures Script([a, b], [a, b'], 0, 0) == [Hunk(1, 2, [b'])]
  {
    var x, y := [a, b], [a, b'];
    assert Table(x, y, 1, 2) == 0 && Table(x, y, 2, 1) == 0;
    assert RegionEnd(x, y, 1, 2) == (2, 2) && RegionEnd(x, y, 1, 1) == (2, 2);
    assert Script(x, y, 2, 2) == [] && y[1..2] == [b'];
    assert Script(x, y, 1, 1) == [Hunk(1, 2, y[1..2])] + Script(x, y, 2, 2);
  }

  /** Two lines that adjoin, each replaced on one side. */
  lemma AdjoiningLinesMerge<T(!new)>(a: T, b: T, a': T, b': T)
    requires a != b && a != a' && a != b' && b != b' && b != a' && a' != b'
    ensures Script([a, b], [a', b], 0, 0) == [Hunk(0, 1, [a'])] && Script([a, b], [a, b'], 0, 0) == [Hunk(1, 2, [b'])]
    ensures ConflictCount(MergeChunks([a, b], [a', b], [a, b'])) == 0
  {
    FirstReplaced(a, b, a');
    SecondReplaced(a, b, b');
    DisjointRangesNeverConflict([a, b], [a', b], [a, b']);
  }

  /** Where two alignments keep as much, the other text's line comes first: of two
      lines that change places, the second is inserted before the first and removed
      after it. */
  lemma SwappedLines<T>(a: T, b: T)
    requires a != b
    ensures Script([a, b], [b, a], 0, 0) == [Hunk(0, 0, [b]), Hunk(1, 2, [])]
  {
    var x, y := [a, b], [b, a];
    assert Table(x, y, 2, 1) == 0 && Table(x, y, 1, 2) == 0 && Table(x, y, 1, 1) == 0;
    assert Table(x, y, 0, 1) == 1 && Table(x, y, 1, 0) == 1;
    assert RegionEnd(x, y, 0, 0) == (0, 1) && RegionEnd(x, y, 1, 2) == (2, 2);
    assert Script(x, y, 2, 2) == [] && y[2..2] == [];
    assert Script(x, y, 1, 2) == [Hunk(1, 2, y[2..2])] + Script(x, y, 2, 2);
    assert y[0..1] == [b] && Script(x, y, 0, 1) == Script(x, y, 1, 2);
    assert Script(x, y, 0, 0) == [Hunk(0, 0, y[0..1])] + Script(x, y, 0, 1);
  }
}
