/** Three-way merge: `overlaps`, the clusters and the output of `Merge` in
    internal/diff3, over lines of any type. */
module Merge3 {
  import opened Subsequence
  import opened EditScript

  // ---- clusters ----

  /** Whether a hunk touches the base range [c1, c2). */
  predicate Overlaps<T>(h: Hunk<T>, c1: nat, c2: nat) {
    (h.b1 < c2 && c1 < h.b2) || (h.b1 == c1 && (h.b1 == h.b2 || c1 == c2))
  }

  ghost predicate Proper<T>(hs: seq<Hunk<T>>) {
    forall k :: 0 <= k < |hs| ==> hs[k].b1 <= hs[k].b2
  }

  lemma {:induction false} WellFormedIsProper<T>(hs: seq<Hunk<T>>, lo: nat, hi: nat)
    requires WellFormed(hs, lo, hi)
    ensures Proper(hs)
    decreases |hs|
  {
    if hs != [] {
      WellFormedIsProper(hs[1..], hs[0].b2 + 1, hi);
      assert forall k :: 0 < k < |hs| ==> hs[k] == hs[1..][k - 1];
    }
  }

  function Max(x: nat, y: nat): nat { if x < y then y else x }

  /** The cluster grown from [c1, c2): the cursors past the absorbed hunks and
      the end of the range. */
  function Cluster<T>(hl: seq<Hunk<T>>, hh: seq<Hunk<T>>, li: nat, hi: nat, c1: nat, c2: nat): (nat, nat, nat)
    requires li <= |hl| && hi <= |hh|
    decreases |hl| - li + |hh| - hi
  {
    if li < |hl| && Overlaps(hl[li], c1, c2) then Cluster(hl, hh, li + 1, hi, c1, Max(c2, hl[li].b2))
    else if hi < |hh| && Overlaps(hh[hi], c1, c2) then Cluster(hl, hh, li, hi + 1, c1, Max(c2, hh[hi].b2))
    else (li, hi, c2)
  }

  /** The order in which overlapping hunks are absorbed does not matter. */
  lemma {:induction false} ClusterConfluent<T>(
    hl: seq<Hunk<T>>, hh: seq<Hunk<T>>, li: nat, hi: nat, c1: nat, c2: nat)
    requires li <= |hl| && hi < |hh| && Overlaps(hh[hi], c1, c2)
    requires Proper(hl) && Proper(hh)
    ensures Cluster(hl, hh, li, hi, c1, c2) == Cluster(hl, hh, li, hi + 1, c1, Max(c2, hh[hi].b2))
    decreases |hl| - li
  {
    if li < |hl| && Overlaps(hl[li], c1, c2) {
      ClusterConfluent(hl, hh, li + 1, hi, c1, Max(c2, hl[li].b2));
    }
  }

  lemma {:induction false} ClusterSwap<T>(
    hl: seq<Hunk<T>>, hh: seq<Hunk<T>>, li: nat, hi: nat, c1: nat, c2: nat)
    requires li <= |hl| && hi <= |hh| && Proper(hl) && Proper(hh)
    ensures var (x, y, e) := Cluster(hl, hh, li, hi, c1, c2);
            Cluster(hh, hl, hi, li, c1, c2) == (y, x, e)
    decreases |hl| - li + |hh| - hi
  {
    if li < |hl| && Overlaps(hl[li], c1, c2) {
      ClusterSwap(hl, hh, li + 1, hi, c1, Max(c2, hl[li].b2));
      ClusterConfluent(hh, hl, hi, li, c1, c2);
    } else if hi < |hh| && Overlaps(hh[hi], c1, c2) {
      ClusterSwap(hl, hh, li, hi + 1, c1, Max(c2, hh[hi].b2));
    }
  }

  /** What is left of both scripts starts at pos or later. */
  ghost predicate Pending<T>(hl: seq<Hunk<T>>, hh: seq<Hunk<T>>, li: nat, hi: nat, pos: nat, n: nat) {
    && li <= |hl| && hi <= |hh| && pos <= n
    && WellFormed(hl[li..], pos, n) && WellFormed(hh[hi..], pos, n)
  }

  /** Hunks k.. of a script are absorbed up to k2 into a range that ends at e. */
  ghost predicate Absorbed<T>(hs: seq<Hunk<T>>, k: nat, k2: nat, c1: nat, e: nat, n: nat) {
    && k <= k2 <= |hs|
    && WellFormed(hs[k..k2], c1, e)
    && WellFormed(hs[k2..], e, n)
  }

  lemma {:induction false} AbsorbOne<T>(hs: seq<Hunk<T>>, k: nat, k2: nat, c1: nat, e: nat, n: nat)
    requires k < |hs| && WellFormed(hs[k..], c1, n) && hs[k].b2 <= e
    requires Absorbed(hs, k + 1, k2, c1, e, n)
    ensures Absorbed(hs, k, k2, c1, e, n)
  {
    assert hs[k..][1..] == hs[k + 1..];
    assert hs[k..k2][1..] == hs[k + 1..k2];
    if k + 1 < k2 {
      assert hs[k + 1..][0] == hs[k + 1] == hs[k + 1..k2][0];
    }
  }

  lemma {:induction false} ClusterAbsorbs<T>(
    hl: seq<Hunk<T>>, hh: seq<Hunk<T>>, li: nat, hi: nat, c1: nat, c2: nat, n: nat)
    requires Pending(hl, hh, li, hi, c1, n) && c1 <= c2 <= n
    ensures var (x, y, e) := Cluster(hl, hh, li, hi, c1, c2);
            && c2 <= e <= n
            && Absorbed(hl, li, x, c1, e, n) && Absorbed(hh, hi, y, c1, e, n)
    decreases |hl| - li + |hh| - hi
  {
    var (x, y, e) := Cluster(hl, hh, li, hi, c1, c2);
    if li < |hl| && Overlaps(hl[li], c1, c2) {
      assert hl[li..][1..] == hl[li + 1..];
      StartEarlier(hl[li + 1..], hl[li].b2 + 1, c1, n);
      ClusterAbsorbs(hl, hh, li + 1, hi, c1, Max(c2, hl[li].b2), n);
      AbsorbOne(hl, li, x, c1, e, n);
    } else if hi < |hh| && Overlaps(hh[hi], c1, c2) {
      assert hh[hi..][1..] == hh[hi + 1..];
      StartEarlier(hh[hi + 1..], hh[hi].b2 + 1, c1, n);
      ClusterAbsorbs(hl, hh, li, hi + 1, c1, Max(c2, hh[hi].b2), n);
      AbsorbOne(hh, hi, y, c1, e, n);
    } else {
      assert hl[li..li] == [] && hh[hi..hi] == [];
    }
  }

  /** A cluster opens with the earliest remaining hunk; local wins a tie. */
  function Opening<T>(hl: seq<Hunk<T>>, hh: seq<Hunk<T>>, li: nat, hi: nat): (nat, nat)
    requires li <= |hl| && hi <= |hh| && (li < |hl| || hi < |hh|)
  {
    if hi == |hh| || (li < |hl| && hl[li].b1 <= hh[hi].b1) then (hl[li].b1, hl[li].b2)
    else (hh[hi].b1, hh[hi].b2)
  }

  /** One round of the outer loop: the opening range and its cluster. */
  datatype Round = Round(c1: nat, c2: nat, li: nat, hi: nat)

  function NextRound<T>(hl: seq<Hunk<T>>, hh: seq<Hunk<T>>, li: nat, hi: nat): Round
    requires li <= |hl| && hi <= |hh| && (li < |hl| || hi < |hh|)
  {
    var (c1, c2) := Opening(hl, hh, li, hi);
    var (x, y, e) := Cluster(hl, hh, li, hi, c1, c2);
    Round(c1, e, x, y)
  }

  lemma RoundAbsorbs<T>(hl: seq<Hunk<T>>, hh: seq<Hunk<T>>, li: nat, hi: nat, pos: nat, n: nat)
    requires Pending(hl, hh, li, hi, pos, n) && (li < |hl| || hi < |hh|) && Proper(hl) && Proper(hh)
    ensures var r := NextRound(hl, hh, li, hi);
            && pos <= r.c1 <= r.c2 <= n
            && Absorbed(hl, li, r.li, r.c1, r.c2, n) && Absorbed(hh, hi, r.hi, r.c1, r.c2, n)
            && Pending(hl, hh, r.li, r.hi, r.c2, n)
            && r.li + r.hi > li + hi
  {
    var (c1, c2) := Opening(hl, hh, li, hi);
    ClusterAbsorbs(hl, hh, li, hi, c1, c2, n);
    OpeningIsAbsorbed(hl, hh, li, hi);
  }

  lemma OpeningIsAbsorbed<T>(hl: seq<Hunk<T>>, hh: seq<Hunk<T>>, li: nat, hi: nat)
    requires li <= |hl| && hi <= |hh| && (li < |hl| || hi < |hh|) && Proper(hl) && Proper(hh)
    ensures var r := NextRound(hl, hh, li, hi);
            li <= r.li <= |hl| && hi <= r.hi <= |hh| && r.li + r.hi > li + hi
  {
    var (c1, c2) := Opening(hl, hh, li, hi);
    if li < |hl| && Overlaps(hl[li], c1, c2) {
      ClusterAdvances(hl, hh, li + 1, hi, c1, Max(c2, hl[li].b2));
    } else {
      ClusterAdvances(hl, hh, li, hi + 1, c1, Max(c2, hh[hi].b2));
    }
  }

  lemma {:induction false} ClusterAdvances<T>(
    hl: seq<Hunk<T>>, hh: seq<Hunk<T>>, li: nat, hi: nat, c1: nat, c2: nat)
    requires li <= |hl| && hi <= |hh|
    ensures var (x, y, e) := Cluster(hl, hh, li, hi, c1, c2); li <= x <= |hl| && hi <= y <= |hh|
    decreases |hl| - li + |hh| - hi
  {
    if li < |hl| && Overlaps(hl[li], c1, c2) {
      ClusterAdvances(hl, hh, li + 1, hi, c1, Max(c2, hl[li].b2));
    } else if hi < |hh| && Overlaps(hh[hi], c1, c2) {
      ClusterAdvances(hl, hh, li, hi + 1, c1, Max(c2, hh[hi].b2));
    }
  }

  lemma RoundSwap<T>(hl: seq<Hunk<T>>, hh: seq<Hunk<T>>, li: nat, hi: nat)
    requires li <= |hl| && hi <= |hh| && (li < |hl| || hi < |hh|)
    requires Proper(hl) && Proper(hh)
    ensures var r := NextRound(hl, hh, li, hi);
            NextRound(hh, hl, hi, li) == Round(r.c1, r.c2, r.hi, r.li)
  {
    var (c1, c2) := Opening(hl, hh, li, hi);
    var (d1, d2) := Opening(hh, hl, hi, li);
    ClusterSwap(hl, hh, li, hi, c1, c2);
    if li < |hl| && hi < |hh| && hl[li].b1 == hh[hi].b1 {
      ClusterConfluent(hl, hh, li, hi, c1, c2);
      ClusterConfluent(hl, hh, li + 1, hi, c1, d2);
      ClusterSwap(hl, hh, li, hi, d1, d2);
    }
  }

  // ---- chunks ----

  datatype Kind = Stable | LocalOnly | HubOnly | Agreed | Conflict

  /** A region of the merge with the lines each version has there. */
  datatype Chunk<T> = Chunk(kind: Kind, base: seq<T>, local: seq<T>, hub: seq<T>) {
    function Swapped(): Chunk<T> {
      Chunk(match kind case LocalOnly => HubOnly case HubOnly => LocalOnly case k => k, base, hub, local)
    }

    /** The kind says exactly which versions changed the region, and a conflict
        is genuine: both changed it, and differently. */
    ghost predicate Sound() {
      match kind
      case Stable => local == base && hub == base
      case LocalOnly => hub == base && local != base
      case HubOnly => local == base && hub != base
      case Agreed => local == hub && local != base
      case Conflict => local != base && hub != base && local != hub
    }
  }

  /** The three lines that frame a conflict block. */
  datatype Markers<T> = Markers(open: T, mid: T, close: T)

  /** The three versions, and the merge itself, read off a list of chunks. */
  datatype View<T> = BaseText | LocalText | HubText | MergedText(m: Markers<T>)

  function Lines<T>(c: Chunk<T>, v: View<T>): seq<T> {
    match v
    case BaseText => c.base
    case LocalText => c.local
    case HubText => c.hub
    case MergedText(m) =>
      match c.kind
      case Stable => c.base
      case LocalOnly => c.local
      case HubOnly => c.hub
      case Agreed => c.local
      case Conflict => [m.open] + c.local + [m.mid] + c.hub + [m.close]
  }

  ghost function Flatten<T>(cs: seq<Chunk<T>>, v: View<T>): seq<T>
    decreases |cs|
  {
    if cs == [] then [] else Lines(cs[0], v) + Flatten(cs[1..], v)
  }

  ghost function ConflictCount<T>(cs: seq<Chunk<T>>): nat
    decreases |cs|
  {
    if cs == [] then 0 else (if cs[0].kind.Conflict? then 1 else 0) + ConflictCount(cs[1..])
  }

  function Classify<T(==)>(local: seq<T>, hub: seq<T>, localHunks: nat, hubHunks: nat): Kind {
    if localHunks == 0 then HubOnly
    else if hubHunks == 0 then LocalOnly
    else if local == hub then Agreed
    else Conflict
  }

  function Unchanged<T>(lines: seq<T>): Chunk<T> { Chunk(Stable, lines, lines, lines) }

  /** The chunk a round emits after the stable lines before it. */
  ghost function RoundChunk<T>(base: seq<T>, hl: seq<Hunk<T>>, hh: seq<Hunk<T>>, li: nat, hi: nat, r: Round): Chunk<T>
    requires r.c1 <= r.c2 <= |base|
    requires Absorbed(hl, li, r.li, r.c1, r.c2, |base|) && Absorbed(hh, hi, r.hi, r.c1, r.c2, |base|)
  {
    var l := Applied(base, r.c1, r.c2, hl[li..r.li]);
    var h := Applied(base, r.c1, r.c2, hh[hi..r.hi]);
    Chunk(Classify(l, h, r.li - li, r.hi - hi), base[r.c1..r.c2], l, h)
  }

  /** All chunks from the cursors li, hi and the base position pos on. */
  ghost function Chunks<T>(base: seq<T>, hl: seq<Hunk<T>>, hh: seq<Hunk<T>>, li: nat, hi: nat, pos: nat): seq<Chunk<T>>
    requires Pending(hl, hh, li, hi, pos, |base|) && Proper(hl) && Proper(hh)
    decreases |hl| - li + |hh| - hi
  {
    if li == |hl| && hi == |hh| then [Unchanged(base[pos..])]
    else
      RoundAbsorbs(hl, hh, li, hi, pos, |base|);
      var r := NextRound(hl, hh, li, hi);
      [Unchanged(base[pos..r.c1]), RoundChunk(base, hl, hh, li, hi, r)] + Chunks(base, hl, hh, r.li, r.hi, r.c2)
  }

  lemma FlattenTwo<T>(a: Chunk<T>, b: Chunk<T>, cs: seq<Chunk<T>>, v: View<T>)
    ensures Flatten([a, b] + cs, v) == Lines(a, v) + Lines(b, v) + Flatten(cs, v)
    ensures ConflictCount([a, b] + cs) == ConflictCount([b]) + ConflictCount(cs) + ConflictCount([a])
  {
    var all := [a, b] + cs;
    assert all[1..] == [b] + cs && all[1..][1..] == cs;
    assert [a][1..] == [] && [b][1..] == [];
    assert Flatten(all[1..], v) == Lines(b, v) + Flatten(cs, v);
  }

  // ---- structure ----

  lemma {:induction false} AppliedFromLater<T>(base: seq<T>, c1: nat, e: nat, hi: nat, hs: seq<Hunk<T>>)
    requires c1 <= e <= hi <= |base| && WellFormed(hs, e, hi)
    ensures WellFormed(hs, c1, hi)
    ensures Applied(base, c1, hi, hs) == base[c1..e] + Applied(base, e, hi, hs)
    ensures Kept(base, c1, hi, hs) == base[c1..e] + Kept(base, e, hi, hs)
  {
    StartEarlier(hs, e, c1, hi);
    if hs == [] {
      assert base[c1..hi] == base[c1..e] + base[e..hi];
    } else {
      var h := hs[0];
      StartEarlier(hs[1..], h.b2 + 1, h.b2, hi);
      var p, q := base[c1..e], base[e..h.b1];
      assert base[c1..h.b1] == p + q;
      Assoc(p, q, h.repl);
      Assoc(p, q + h.repl, Applied(base, h.b2, hi, hs[1..]));
      Assoc(p, q, Kept(base, h.b2, hi, hs[1..]));
    }
  }

  /** Applying and keeping unfold at the first hunk. */
  lemma {:induction false} Unfold<T>(base: seq<T>, c1: nat, hi: nat, hs: seq<Hunk<T>>)
    requires c1 <= hi <= |base| && WellFormed(hs, c1, hi) && hs != []
    ensures WellFormed(hs[1..], hs[0].b2, hi)
    ensures Applied(base, c1, hi, hs) == base[c1..hs[0].b1] + hs[0].repl + Applied(base, hs[0].b2, hi, hs[1..])
    ensures Kept(base, c1, hi, hs) == base[c1..hs[0].b1] + Kept(base, hs[0].b2, hi, hs[1..])
  {
    StartEarlier(hs[1..], hs[0].b2 + 1, hs[0].b2, hi);
  }

  /** A script split at a point no hunk straddles applies piece by piece. */
  lemma {:induction false} AppliedConcat<T>(
    base: seq<T>, c1: nat, e: nat, hi: nat, xs: seq<Hunk<T>>, ys: seq<Hunk<T>>)
    requires c1 <= e <= hi <= |base|
    requires WellFormed(xs, c1, e) && WellFormed(ys, e, hi) && WellFormed(xs + ys, c1, hi)
    ensures Applied(base, c1, hi, xs + ys) == Applied(base, c1, e, xs) + Applied(base, e, hi, ys)
    ensures Kept(base, c1, hi, xs + ys) == Kept(base, c1, e, xs) + Kept(base, e, hi, ys)
    decreases |xs|
  {
    if xs == [] {
      assert xs + ys == ys;
      AppliedFromLater(base, c1, e, hi, ys);
    } else {
      var h := xs[0];
      assert (xs + ys)[1..] == xs[1..] + ys && (xs + ys)[0] == h;
      Unfold(base, c1, hi, xs + ys);
      Unfold(base, c1, e, xs);
      AppliedConcat(base, h.b2, e, hi, xs[1..], ys);
      Assoc(base[c1..h.b1] + h.repl, Applied(base, h.b2, e, xs[1..]), Applied(base, e, hi, ys));
      Assoc(base[c1..h.b1], Kept(base, h.b2, e, xs[1..]), Kept(base, e, hi, ys));
    }
  }

  lemma Assoc<T>(a: seq<T>, b: seq<T>, c: seq<T>)
    ensures a + (b + c) == (a + b) + c
  {
  }

  lemma SideSplits<T>(base: seq<T>, hs: seq<Hunk<T>>, k: nat, k2: nat, pos: nat, c1: nat, c2: nat)
    requires pos <= c1 <= c2 <= |base| && k <= |hs| && WellFormed(hs[k..], pos, |base|)
    requires Absorbed(hs, k, k2, c1, c2, |base|)
    ensures Applied(base, pos, |base|, hs[k..]) ==
            base[pos..c1] + Applied(base, c1, c2, hs[k..k2]) + Applied(base, c2, |base|, hs[k2..])
    ensures Kept(base, pos, |base|, hs[k..]) ==
            base[pos..c1] + Kept(base, c1, c2, hs[k..k2]) + Kept(base, c2, |base|, hs[k2..])
  {
    var n, xs, ys := |base|, hs[k..k2], hs[k2..];
    assert hs[k..] == xs + ys;
    if k < k2 { assert (xs + ys)[0] == xs[0]; } else { assert xs + ys == ys; }
    assert WellFormed(xs + ys, c1, n);
    AppliedFromLater(base, pos, c1, n, xs + ys);
    AppliedConcat(base, c1, c2, n, xs, ys);
    Assoc(base[pos..c1], Applied(base, c1, c2, xs), Applied(base, c2, n, ys));
    Assoc(base[pos..c1], Kept(base, c1, c2, xs), Kept(base, c2, n, ys));
  }

  /** What a view of the chunks from (li, hi, pos) on must read. */
  ghost function Remaining<T>(base: seq<T>, hl: seq<Hunk<T>>, hh: seq<Hunk<T>>, li: nat, hi: nat, pos: nat, v: View<T>): seq<T>
    requires Pending(hl, hh, li, hi, pos, |base|) && !v.MergedText?
  {
    match v
    case BaseText => base[pos..]
    case LocalText => Applied(base, pos, |base|, hl[li..])
    case HubText => Applied(base, pos, |base|, hh[hi..])
  }

  /** A round reads off the front of what remains. */
  lemma RemainingSplits<T>(
    base: seq<T>, hl: seq<Hunk<T>>, hh: seq<Hunk<T>>, li: nat, hi: nat, pos: nat, r: Round, v: View<T>)
    requires Pending(hl, hh, li, hi, pos, |base|) && !v.MergedText?
    requires pos <= r.c1 <= r.c2 <= |base| && Pending(hl, hh, r.li, r.hi, r.c2, |base|)
    requires Absorbed(hl, li, r.li, r.c1, r.c2, |base|) && Absorbed(hh, hi, r.hi, r.c1, r.c2, |base|)
    ensures Remaining(base, hl, hh, li, hi, pos, v) ==
            base[pos..r.c1] + Lines(RoundChunk(base, hl, hh, li, hi, r), v) + Remaining(base, hl, hh, r.li, r.hi, r.c2, v)
  {
    match v
    case BaseText => assert base[pos..] == base[pos..r.c1] + base[r.c1..r.c2] + base[r.c2..];
    case LocalText => SideSplits(base, hl, li, r.li, pos, r.c1, r.c2);
    case HubText => SideSplits(base, hh, hi, r.hi, pos, r.c1, r.c2);
  }

  /** The chunks partition all three versions. */
  lemma {:induction false} ChunksPartition<T>(
    base: seq<T>, hl: seq<Hunk<T>>, hh: seq<Hunk<T>>, li: nat, hi: nat, pos: nat, v: View<T>)
    requires Pending(hl, hh, li, hi, pos, |base|) && Proper(hl) && Proper(hh) && !v.MergedText?
    ensures Flatten(Chunks(base, hl, hh, li, hi, pos), v) == Remaining(base, hl, hh, li, hi, pos, v)
    decreases |hl| - li + |hh| - hi
  {
    if li == |hl| && hi == |hh| {
      FlattenOne(Unchanged(base[pos..]), v);
    } else {
      RoundAbsorbs(hl, hh, li, hi, pos, |base|);
      var r := NextRound(hl, hh, li, hi);
      ChunksPartition(base, hl, hh, r.li, r.hi, r.c2, v);
      FlattenTwo(Unchanged(base[pos..r.c1]), RoundChunk(base, hl, hh, li, hi, r), Chunks(base, hl, hh, r.li, r.hi, r.c2), v);
      RemainingSplits(base, hl, hh, li, hi, pos, r, v);
    }
  }

  lemma FlattenOne<T>(c: Chunk<T>, v: View<T>)
    ensures Flatten([c], v) == Lines(c, v)
  {
    assert [c][1..] == [];
  }

  // ---- a conflict is always genuine ----

  lemma {:induction false} KeptCounts<T>(base: seq<T>, c1: nat, c2: nat, hs: seq<Hunk<T>>)
    requires c1 <= c2 <= |base| && WellFormed(hs, c1, c2)
    ensures |Kept(base, c1, c2, hs)| <= c2 - c1
    ensures |Kept(base, c1, c2, hs)| <= |Applied(base, c1, c2, hs)|
    ensures hs != [] ==>
              |Kept(base, c1, c2, hs)| < c2 - c1 || |Kept(base, c1, c2, hs)| < |Applied(base, c1, c2, hs)|
    decreases |hs|
  {
    if hs != [] {
      Unfold(base, c1, c2, hs);
      KeptCounts(base, hs[0].b2, c2, hs[1..]);
    }
  }

  lemma {:induction false} WellFormedConcat<T>(xs: seq<Hunk<T>>, ys: seq<Hunk<T>>, lo: nat, m: nat, hi: nat, n: nat)
    requires m <= hi && WellFormed(xs, lo, m) && WellFormed(ys, m, hi) && WellFormed(xs + ys, lo, n)
    ensures WellFormed(xs + ys, lo, hi)
    decreases |xs|
  {
    if xs == [] {
      assert xs + ys == ys;
    } else {
      assert (xs + ys)[1..] == xs[1..] + ys;
      WellFormedConcat(xs[1..], ys, xs[0].b2 + 1, m, hi, n);
    }
  }

  lemma ScriptInThree<T>(base: seq<T>, hs: seq<Hunk<T>>, k: nat, k2: nat, c1: nat, c2: nat)
    requires k <= |hs| && c1 <= c2 <= |base| && WellFormed(hs, 0, |base|) && WellFormed(hs[..k], 0, c1)
    requires Absorbed(hs, k, k2, c1, c2, |base|)
    ensures Applied(base, 0, |base|, hs) == Applied(base, 0, c1, hs[..k]) +
            Applied(base, c1, c2, hs[k..k2]) + Applied(base, c2, |base|, hs[k2..])
    ensures |Kept(base, 0, |base|, hs)| == |Kept(base, 0, c1, hs[..k])| +
            |Kept(base, c1, c2, hs[k..k2])| + |Kept(base, c2, |base|, hs[k2..])|
  {
    assert hs == hs[..k] + hs[k..];
    TailWellFormed(hs, k, k2, c1, c2, |base|);
    AppliedConcat(base, 0, c1, |base|, hs[..k], hs[k..]);
    TailInTwo(base, hs, k, k2, c1, c2);
    Assoc(Applied(base, 0, c1, hs[..k]), Applied(base, c1, c2, hs[k..k2]), Applied(base, c2, |base|, hs[k2..]));
  }

  lemma TailInTwo<T>(base: seq<T>, hs: seq<Hunk<T>>, k: nat, k2: nat, c1: nat, c2: nat)
    requires c1 <= c2 <= |base| && Absorbed(hs, k, k2, c1, c2, |base|) && WellFormed(hs[k..], c1, |base|)
    ensures Applied(base, c1, |base|, hs[k..]) == Applied(base, c1, c2, hs[k..k2]) + Applied(base, c2, |base|, hs[k2..])
    ensures Kept(base, c1, |base|, hs[k..]) == Kept(base, c1, c2, hs[k..k2]) + Kept(base, c2, |base|, hs[k2..])
  {
    assert hs[k..] == hs[k..k2] + hs[k2..];
    AppliedConcat(base, c1, c2, |base|, hs[k..k2], hs[k2..]);
  }

  lemma TailWellFormed<T>(hs: seq<Hunk<T>>, k: nat, k2: nat, c1: nat, c2: nat, n: nat)
    requires WellFormed(hs, 0, n) && c1 <= c2 && Absorbed(hs, k, k2, c1, c2, n)
    ensures WellFormed(hs[k..], c1, n)
  {
    SuffixWellFormed(hs, 0, n, k);
    if k < k2 { assert hs[k..k2][0] == hs[k..][0]; }
  }

  /** If the hunks of a minimal script restore a range of the base, they keep
      all of it: otherwise keeping the range would beat the script. */
  lemma RestoredRangeIsKept<T(!new)>(
    base: seq<T>, other: seq<T>, hs: seq<Hunk<T>>, k: nat, k2: nat, c1: nat, c2: nat)
    requires MinimalScript(base, other, hs)
    requires c1 <= c2 <= |base| && k <= |hs| && WellFormed(hs[..k], 0, c1)
    requires Absorbed(hs, k, k2, c1, c2, |base|)
    requires Applied(base, c1, c2, hs[k..k2]) == base[c1..c2]
    ensures c2 - c1 <= |Kept(base, c1, c2, hs[k..k2])|
  {
    ScriptInThree(base, hs, k, k2, c1, c2);
    var n, xs, ys := |base|, hs[..k], hs[k2..];
    KeptIsCommon(base, 0, c1, xs);
    KeptIsCommon(base, c2, n, ys);
    var c := Bridge(Kept(base, 0, c1, xs), base[c1..c2], Kept(base, c2, n, ys),
                    base[0..c1], base[c2..n], Applied(base, 0, c1, xs), Applied(base, c2, n, ys));
    InThree(base, c1, c2);
    assert CommonSubsequence(c, base, other);
  }

  lemma InThree<T>(s: seq<T>, i: nat, j: nat)
    requires i <= j <= |s|
    ensures s == s[0..i] + s[i..j] + s[j..|s|]
  {
  }

  /** Hunks of a minimal script never add up to no change. */
  lemma EditIsGenuine<T(!new)>(
    base: seq<T>, other: seq<T>, hs: seq<Hunk<T>>, k: nat, k2: nat, c1: nat, c2: nat)
    requires MinimalScript(base, other, hs)
    requires k < k2 && c1 <= c2 <= |base| && k <= |hs| && WellFormed(hs[..k], 0, c1)
    requires Absorbed(hs, k, k2, c1, c2, |base|)
    ensures Applied(base, c1, c2, hs[k..k2]) != base[c1..c2]
  {
    KeptCounts(base, c1, c2, hs[k..k2]);
    if Applied(base, c1, c2, hs[k..k2]) == base[c1..c2] {
      RestoredRangeIsKept(base, other, hs, k, k2, c1, c2);
      assert false;
    }
  }

  /** A shared middle part extends common subsequences of the outer parts. */
  lemma Bridge<T>(k1: seq<T>, mid: seq<T>, k3: seq<T>, b1: seq<T>, b3: seq<T>, a1: seq<T>, a3: seq<T>)
    returns (c: seq<T>)
    requires CommonSubsequence(k1, b1, a1) && CommonSubsequence(k3, b3, a3)
    ensures |c| == |k1| + |mid| + |k3|
    ensures CommonSubsequence(c, b1 + mid + b3, a1 + mid + a3)
  {
    Reflexive(mid);
    Concat(k1, mid, b1, mid);
    Concat(k1 + mid, k3, b1 + mid, b3);
    Concat(k1, mid, a1, mid);
    Concat(k1 + mid, k3, a1 + mid, a3);
    c := k1 + mid + k3;
  }

  /** A suffix of a script is well formed from its own first hunk on. */
  lemma {:induction false} SuffixWellFormed<T>(hs: seq<Hunk<T>>, lo: nat, hi: nat, k: nat)
    requires k <= |hs| && WellFormed(hs, lo, hi)
    ensures WellFormed(hs[k..], lo, hi)
    decreases k
  {
    if k == 0 {
      assert hs[0..] == hs;
    } else {
      var h, rest := hs[0], hs[1..];
      assert rest[k - 1..] == hs[k..];
      SuffixWellFormed(rest, h.b2 + 1, hi, k - 1);
      StartEarlier(rest[k - 1..], h.b2 + 1, lo, hi);
    }
  }

  /** Every chunk is sound when both scripts are minimal. */
  lemma {:induction false} ChunksSound<T(!new)>(
    base: seq<T>, local: seq<T>, hub: seq<T>, hl: seq<Hunk<T>>, hh: seq<Hunk<T>>, li: nat, hi: nat, pos: nat)
    requires MinimalScript(base, local, hl) && MinimalScript(base, hub, hh)
    requires Pending(hl, hh, li, hi, pos, |base|) && Proper(hl) && Proper(hh)
    requires WellFormed(hl[..li], 0, pos) && WellFormed(hh[..hi], 0, pos)
    ensures forall c :: c in Chunks(base, hl, hh, li, hi, pos) ==> c.Sound()
    decreases |hl| - li + |hh| - hi
  {
    if !(li == |hl| && hi == |hh|) {
      RoundAbsorbs(hl, hh, li, hi, pos, |base|);
      var r := NextRound(hl, hh, li, hi);
      PrefixGrows(hl, li, r.li, pos, r.c1, r.c2, |base|);
      PrefixGrows(hh, hi, r.hi, pos, r.c1, r.c2, |base|);
      ChunksSound(base, local, hub, hl, hh, r.li, r.hi, r.c2);
      RoundSound(base, local, hub, hl, hh, li, hi, r);
    }
  }

  lemma PrefixGrows<T>(hs: seq<Hunk<T>>, k: nat, k2: nat, pos: nat, c1: nat, c2: nat, n: nat)
    requires k <= |hs| && pos <= c1 <= c2 && WellFormed(hs, 0, n)
    requires WellFormed(hs[..k], 0, pos) && Absorbed(hs, k, k2, c1, c2, n)
    ensures WellFormed(hs[..k], 0, c1) && WellFormed(hs[..k2], 0, c2)
  {
    EndLater(hs[..k], 0, pos, c1);
    var xs, ys := hs[..k], hs[k..k2];
    assert hs[..k2] == xs + ys;
    PrefixWellFormed(hs, 0, n, k2);
    WellFormedConcat(xs, ys, 0, c1, c2, n);
  }

  lemma {:induction false} EndLater<T>(hs: seq<Hunk<T>>, lo: nat, hi: nat, hi': nat)
    requires WellFormed(hs, lo, hi) && hi <= hi'
    ensures WellFormed(hs, lo, hi')
    decreases |hs|
  {
    if hs != [] { EndLater(hs[1..], hs[0].b2 + 1, hi, hi'); }
  }

  lemma {:induction false} PrefixWellFormed<T>(hs: seq<Hunk<T>>, lo: nat, hi: nat, k: nat)
    requires k <= |hs| && WellFormed(hs, lo, hi)
    ensures WellFormed(hs[..k], lo, hi)
    decreases k
  {
    if k > 0 {
      assert hs[..k][1..] == hs[1..][..k - 1];
      PrefixWellFormed(hs[1..], hs[0].b2 + 1, hi, k - 1);
    }
  }

  lemma RoundSound<T(!new)>(
    base: seq<T>, local: seq<T>, hub: seq<T>, hl: seq<Hunk<T>>, hh: seq<Hunk<T>>, li: nat, hi: nat, r: Round)
    requires MinimalScript(base, local, hl) && MinimalScript(base, hub, hh)
    requires r.c1 <= r.c2 <= |base| && li <= |hl| && hi <= |hh|
    requires WellFormed(hl[..li], 0, r.c1) && WellFormed(hh[..hi], 0, r.c1)
    requires Absorbed(hl, li, r.li, r.c1, r.c2, |base|) && Absorbed(hh, hi, r.hi, r.c1, r.c2, |base|)
    requires r.li + r.hi > li + hi
    ensures RoundChunk(base, hl, hh, li, hi, r).Sound()
  {
    if li < r.li { EditIsGenuine(base, local, hl, li, r.li, r.c1, r.c2); }
    if hi < r.hi { EditIsGenuine(base, hub, hh, hi, r.hi, r.c1, r.c2); }
  }

  // ---- the merge as a whole ----

  ghost function MergeChunks<T>(base: seq<T>, local: seq<T>, hub: seq<T>): seq<Chunk<T>> {
    ScriptsPending(base, local, hub);
    Chunks(base, Script(base, local, 0, 0), Script(base, hub, 0, 0), 0, 0, 0)
  }

  lemma ScriptsPending<T>(base: seq<T>, local: seq<T>, hub: seq<T>)
    ensures var hl, hh := Script(base, local, 0, 0), Script(base, hub, 0, 0);
            Pending(hl, hh, 0, 0, 0, |base|) && Proper(hl) && Proper(hh)
  {
    ScriptAligns(base, local, 0, 0);
    ScriptAligns(base, hub, 0, 0);
    WellFormedIsProper(Script(base, local, 0, 0), 0, |base|);
    WellFormedIsProper(Script(base, hub, 0, 0), 0, |base|);
    assert Script(base, local, 0, 0)[0..] == Script(base, local, 0, 0);
    assert Script(base, hub, 0, 0)[0..] == Script(base, hub, 0, 0);
  }

  /** Each view of the chunks reads as the whole version it is of. */
  lemma WholeVersion<T(!new)>(base: seq<T>, local: seq<T>, hub: seq<T>, v: View<T>)
    requires !v.MergedText?
    ensures Flatten(MergeChunks(base, local, hub), v) == match v case BaseText => base case LocalText => local case HubText => hub
  {
    var hl, hh := Script(base, local, 0, 0), Script(base, hub, 0, 0);
    ScriptsPending(base, local, hub);
    ScriptIsMinimal(base, local);
    ScriptIsMinimal(base, hub);
    assert hl[0..] == hl && hh[0..] == hh && base[0..] == base;
    ChunksPartition(base, hl, hh, 0, 0, 0, v);
  }

  /** The diff3 structure theorem: the chunks cut base, local and hub into
      corresponding parts, and the kind of each says exactly who changed it. */
  lemma MergeStructure<T(!new)>(base: seq<T>, local: seq<T>, hub: seq<T>)
    ensures var cs := MergeChunks(base, local, hub);
            && Flatten(cs, BaseText) == base
            && Flatten(cs, LocalText) == local
            && Flatten(cs, HubText) == hub
            && forall c :: c in cs ==> c.Sound()
  {
    WholeVersion(base, local, hub, BaseText);
    WholeVersion(base, local, hub, LocalText);
    WholeVersion(base, local, hub, HubText);
    MergeIsSound(base, local, hub);
  }

  lemma MergeIsSound<T(!new)>(base: seq<T>, local: seq<T>, hub: seq<T>)
    ensures forall c :: c in MergeChunks(base, local, hub) ==> c.Sound()
  {
    var hl, hh := Script(base, local, 0, 0), Script(base, hub, 0, 0);
    ScriptsPending(base, local, hub);
    ScriptIsMinimal(base, local);
    ScriptIsMinimal(base, hub);
    assert hl[..0] == [] && hh[..0] == [];
    ChunksSound(base, local, hub, hl, hh, 0, 0, 0);
  }
}
