/** The algebra of `Merge` in internal/diff3, over its chunks. */
module MergeLaws {
  import opened EditScript
  import opened Merge3

  ghost function SwapAll<T>(cs: seq<Chunk<T>>): seq<Chunk<T>>
    decreases |cs|
  {
    if cs == [] then [] else [cs[0].Swapped()] + SwapAll(cs[1..])
  }

  lemma SwapTwo<T>(a: Chunk<T>, b: Chunk<T>, cs: seq<Chunk<T>>)
    ensures SwapAll([a, b] + cs) == [a.Swapped(), b.Swapped()] + SwapAll(cs)
  {
    var all := [a, b] + cs;
    assert all[1..] == [b] + cs && all[1..][1..] == cs;
    assert SwapAll(all[1..]) == [b.Swapped()] + SwapAll(cs);
  }

  lemma {:induction false} ChunksSwap<T>(base: seq<T>, hl: seq<Hunk<T>>, hh: seq<Hunk<T>>, li: nat, hi: nat, pos: nat)
    requires Pending(hl, hh, li, hi, pos, |base|) && Proper(hl) && Proper(hh)
    ensures Chunks(base, hh, hl, hi, li, pos) == SwapAll(Chunks(base, hl, hh, li, hi, pos))
    decreases |hl| - li + |hh| - hi
  {
    if li == |hl| && hi == |hh| {
      assert [Unchanged(base[pos..])][1..] == [];
    } else {
      RoundAbsorbs(hl, hh, li, hi, pos, |base|);
      RoundSwap(hl, hh, li, hi);
      var r := NextRound(hl, hh, li, hi);
      var s := NextRound(hh, hl, hi, li);
      ChunksSwap(base, hl, hh, r.li, r.hi, r.c2);
      var a, b := Unchanged(base[pos..r.c1]), RoundChunk(base, hl, hh, li, hi, r);
      assert RoundChunk(base, hh, hl, hi, li, s) == b.Swapped();
      SwapTwo(a, b, Chunks(base, hl, hh, r.li, r.hi, r.c2));
    }
  }

  /** Swapping the sides swaps every chunk, and nothing else. */
  lemma MergeSwap<T>(base: seq<T>, local: seq<T>, hub: seq<T>)
    ensures MergeChunks(base, hub, local) == SwapAll(MergeChunks(base, local, hub))
  {
    ScriptsPending(base, local, hub);
    ChunksSwap(base, Script(base, local, 0, 0), Script(base, hub, 0, 0), 0, 0, 0);
  }

  lemma {:induction false} SwapKeepsMerge<T>(cs: seq<Chunk<T>>, m: Markers<T>)
    requires forall c :: c in cs && c.kind == Agreed ==> c.local == c.hub
    ensures ConflictCount(SwapAll(cs)) == ConflictCount(cs)
    ensures ConflictCount(cs) == 0 ==> Flatten(SwapAll(cs), MergedText(m)) == Flatten(cs, MergedText(m))
    decreases |cs|
  {
    if cs != [] {
      SwapKeepsMerge(cs[1..], m);
      assert SwapAll(cs)[1..] == SwapAll(cs[1..]);
    }
  }

  /** Swapping the sides keeps the conflict count and, when it is zero, the text. */
  lemma MergeIsSymmetric<T(!new)>(base: seq<T>, local: seq<T>, hub: seq<T>, m: Markers<T>)
    ensures ConflictCount(MergeChunks(base, hub, local)) == ConflictCount(MergeChunks(base, local, hub))
    ensures ConflictCount(MergeChunks(base, local, hub)) == 0 ==>
              Flatten(MergeChunks(base, hub, local), MergedText(m)) == Flatten(MergeChunks(base, local, hub), MergedText(m))
  {
    MergeStructure(base, local, hub);
    MergeSwap(base, local, hub);
    SwapKeepsMerge(MergeChunks(base, local, hub), m);
  }

  /** When every chunk offers the merge the same lines as a view, the merge
      reads like that view and has no conflict. */
  ghost predicate FollowsView<T>(c: Chunk<T>, v: View<T>, m: Markers<T>) {
    c.kind != Conflict && Lines(c, MergedText(m)) == Lines(c, v)
  }

  lemma {:induction false} MergeFollows<T>(cs: seq<Chunk<T>>, v: View<T>, m: Markers<T>)
    requires forall c :: c in cs ==> FollowsView(c, v, m)
    ensures ConflictCount(cs) == 0 && Flatten(cs, MergedText(m)) == Flatten(cs, v)
    decreases |cs|
  {
    if cs != [] {
      assert cs[0] in cs;
      MergeFollows(cs[1..], v, m);
    }
  }

  /** A view that reads the same as the base reads so in every chunk. */
  lemma {:induction false} NoLocalHunks<T>(base: seq<T>, hh: seq<Hunk<T>>, hi: nat, pos: nat)
    requires Pending([], hh, 0, hi, pos, |base|) && Proper(hh)
    ensures forall c :: c in Chunks(base, [], hh, 0, hi, pos) ==>
              c.kind == HubOnly || (c.kind == Stable && c.base == c.hub)
    decreases |hh| - hi
  {
    if hi < |hh| {
      var hl: seq<Hunk<T>> := [];
      RoundAbsorbs(hl, hh, 0, hi, pos, |base|);
      var r := NextRound(hl, hh, 0, hi);
      NoLocalHunks(base, hh, r.hi, r.c2);
    }
  }

  /** Merging an unedited side returns the other side. */
  lemma MergeUneditedLocal<T>(base: seq<T>, hub: seq<T>, m: Markers<T>)
    ensures ConflictCount(MergeChunks(base, base, hub)) == 0
    ensures Flatten(MergeChunks(base, base, hub), MergedText(m)) == hub
  {
    ScriptOfSelf(base, 0);
    ScriptsPending(base, base, hub);
    var hh, cs := Script(base, hub, 0, 0), MergeChunks(base, base, hub);
    NoLocalHunks(base, hh, 0, 0);
    forall c | c in cs ensures FollowsView(c, HubText, m) {}
    MergeFollows(cs, HubText, m);
    ChunksPartition(base, [], hh, 0, 0, 0, HubText);
    ScriptAligns(base, hub, 0, 0);
    assert hh[0..] == hh && hub[0..] == hub;
  }

  lemma MergeUneditedHub<T(!new)>(base: seq<T>, local: seq<T>, m: Markers<T>)
    ensures ConflictCount(MergeChunks(base, local, base)) == 0
    ensures Flatten(MergeChunks(base, local, base), MergedText(m)) == local
  {
    MergeUneditedLocal(base, local, m);
    MergeIsSymmetric(base, base, local, m);
  }

  /** Equal sides agree in every cluster. */
  lemma {:induction false} EqualSidesAgree<T>(base: seq<T>, hs: seq<Hunk<T>>, k: nat, pos: nat)
    requires Pending(hs, hs, k, k, pos, |base|) && Proper(hs)
    ensures forall c :: c in Chunks(base, hs, hs, k, k, pos) ==>
              c.local == c.hub && (c.kind == Agreed || (c.kind == Stable && c.local == c.base))
    decreases |hs| - k
  {
    if k < |hs| {
      RoundAbsorbs(hs, hs, k, k, pos, |base|);
      EqualCluster(hs, k, pos, |base|);
      var r := NextRound(hs, hs, k, k);
      EqualSidesAgree(base, hs, r.li, r.c2);
    }
  }

  lemma EqualCluster<T>(hs: seq<Hunk<T>>, k: nat, pos: nat, n: nat)
    requires k < |hs| && WellFormed(hs[k..], pos, n)
    ensures NextRound(hs, hs, k, k) == Round(hs[k].b1, hs[k].b2, k + 1, k + 1)
  {
    var h := hs[k];
    assert hs[k..][0] == h && hs[k..][1..] == hs[k + 1..];
    if k + 1 < |hs| {
      assert hs[k + 1..][0] == hs[k + 1];
      assert h.b2 < hs[k + 1].b1;
    }
    assert Cluster(hs, hs, k + 1, k + 1, h.b1, h.b2) == (k + 1, k + 1, h.b2);
    assert Cluster(hs, hs, k + 1, k, h.b1, h.b2) == (k + 1, k + 1, h.b2);
  }

  /** Merging two equal sides returns that side. */
  lemma MergeEqualSides<T>(base: seq<T>, side: seq<T>, m: Markers<T>)
    ensures ConflictCount(MergeChunks(base, side, side)) == 0
    ensures Flatten(MergeChunks(base, side, side), MergedText(m)) == side
  {
    ScriptsPending(base, side, side);
    var hs, cs := Script(base, side, 0, 0), MergeChunks(base, side, side);
    EqualSidesAgree(base, hs, 0, 0);
    forall c | c in cs ensures FollowsView(c, LocalText, m) {}
    MergeFollows(cs, LocalText, m);
    ChunksPartition(base, hs, hs, 0, 0, 0, LocalText);
    ScriptAligns(base, side, 0, 0);
    assert hs[0..] == hs && side[0..] == side;
  }

  // ---- no base: the two-way merge ----

  lemma {:induction false} RegionWithoutBase<T>(other: seq<T>, j: nat)
    requires j <= |other|
    ensures RegionEnd([], other, 0, j) == (0, |other|)
    decreases |other| - j
  {
    if j < |other| { RegionWithoutBase(other, j + 1); }
  }

  lemma ScriptWithoutBase<T>(other: seq<T>)
    requires other != []
    ensures Script([], other, 0, 0) == [Hunk(0, 0, other)]
  {
    RegionWithoutBase(other, 0);
    assert other[0..|other|] == other;
  }

  lemma AppliedToNothing<T>(other: seq<T>)
    requires WellFormed([Hunk(0, 0, other)], 0, 0)
    ensures Applied([], 0, 0, [Hunk(0, 0, other)]) == other
  {
    assert [Hunk(0, 0, other)][1..] == [];
  }

  lemma ChunksWithoutBase<T>(local: seq<T>, hub: seq<T>)
    requires local != [] && hub != [] && local != hub
    ensures MergeChunks([], local, hub) ==
            [Unchanged([]), Chunk(Conflict, [], local, hub)] + [Unchanged([])]
  {
    ScriptWithoutBase(local);
    ScriptWithoutBase(hub);
    ScriptsPending([], local, hub);
    var none: seq<T> := [];
    var hl, hh := [Hunk(0, 0, local)], [Hunk(0, 0, hub)];
    RoundAbsorbs(hl, hh, 0, 0, 0, 0);
    assert Cluster(hl, hh, 1, 0, 0, 0) == (1, 1, 0);
    assert NextRound(hl, hh, 0, 0) == Round(0, 0, 1, 1);
    assert hl[0..1] == hl && hh[0..1] == hh && hl[1..] == [] && hh[1..] == [];
    AppliedToNothing(local);
    AppliedToNothing(hub);
    assert none[0..0] == none[0..] == none;
    assert Chunks(none, hl, hh, 1, 1, 0) == [Unchanged(none)];
  }

  /** Without a base, two different texts are one conflict that shows both. */
  lemma MergeWithoutBase<T>(local: seq<T>, hub: seq<T>, m: Markers<T>)
    requires local != [] && hub != [] && local != hub
    ensures ConflictCount(MergeChunks([], local, hub)) == 1
    ensures Flatten(MergeChunks([], local, hub), MergedText(m)) == [m.open] + local + [m.mid] + hub + [m.close]
  {
    ChunksWithoutBase(local, hub);
    var a, b: Chunk<T> := Unchanged([]), Chunk(Conflict, [], local, hub);
    FlattenTwo(a, b, [a], MergedText(m));
    FlattenOne(a, MergedText(m));
    assert [b][1..] == [] && [a][1..] == [];
    assert ConflictCount([a]) == 0 && ConflictCount([b]) == 1;
  }
}
