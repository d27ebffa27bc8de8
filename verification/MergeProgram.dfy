/** `applyWithin`, `Merge` and `MergeText` of internal/diff3 as programs. */
module MergeProgram {
  import opened EditScript
  import opened Merge3
  import opened MergeLaws
  import opened TextLines

  /** Each input is bounded because the table has |base| * |other| cells. */
  const MAX_LINES := 4000

  datatype Outcome<T> = TooLarge | Merged(lines: seq<T>, conflicts: nat)

  /** What `Merge` answers: a refusal above the limit, else the chunks' text. */
  ghost function MergeSpec<T>(base: seq<T>, local: seq<T>, hub: seq<T>, m: Markers<T>): Outcome<T> {
    if |base| > MAX_LINES || |local| > MAX_LINES || |hub| > MAX_LINES then TooLarge
    else
      var cs := MergeChunks(base, local, hub);
      Merged(Flatten(cs, MergedText(m)), ConflictCount(cs))
  }

  method ApplyWithin<T>(base: seq<T>, c1: nat, c2: nat, hs: seq<Hunk<T>>) returns (out: seq<T>)
    requires c1 <= c2 <= |base| && WellFormed(hs, c1, c2)
    ensures out == Applied(base, c1, c2, hs)
  {
    out := [];
    var cur := c1;
    assert hs[0..] == hs;
    for k := 0 to |hs|
      invariant c1 <= cur <= c2 && WellFormed(hs[k..], cur, c2)
      invariant out + Applied(base, cur, c2, hs[k..]) == Applied(base, c1, c2, hs)
    {
      var h := hs[k];
      assert hs[k..][0] == h && hs[k..][1..] == hs[k + 1..];
      Unfold(base, cur, c2, hs[k..]);
      Assoc(out, base[cur..h.b1] + h.repl, Applied(base, h.b2, c2, hs[k + 1..]));
      Assoc(out, base[cur..h.b1], h.repl);
      out := out + base[cur..h.b1];
      out := out + h.repl;
      cur := h.b2;
    }
    out := out + base[cur..c2];
  }

  /** The inner loops: absorb every hunk that overlaps the growing range. */
  method Grow<T>(hl: seq<Hunk<T>>, hh: seq<Hunk<T>>, lStart: nat, hStart: nat, c1: nat, start: nat)
    returns (li: nat, hi: nat, c2: nat)
    requires lStart <= |hl| && hStart <= |hh| && Proper(hl) && Proper(hh)
    ensures (li, hi, c2) == Cluster(hl, hh, lStart, hStart, c1, start)
  {
    li, hi, c2 := lStart, hStart, start;
    while true
      invariant li <= |hl| && hi <= |hh|
      invariant Cluster(hl, hh, li, hi, c1, c2) == Cluster(hl, hh, lStart, hStart, c1, start)
      decreases |hl| - li + |hh| - hi
    {
      var grew := false;
      ghost var li0, hi0 := li, hi;
      while li < |hl| && Overlaps(hl[li], c1, c2)
        invariant li0 <= li <= |hl| && (grew <==> li0 < li)
        invariant Cluster(hl, hh, li, hi, c1, c2) == Cluster(hl, hh, lStart, hStart, c1, start)
      {
        if hl[li].b2 > c2 { c2 := hl[li].b2; }
        li := li + 1;
        grew := true;
      }
      while hi < |hh| && Overlaps(hh[hi], c1, c2)
        invariant hi0 <= hi <= |hh| && (grew <==> li0 < li || hi0 < hi)
        invariant !grew ==> !(li < |hl| && Overlaps(hl[li], c1, c2))
        invariant Cluster(hl, hh, li, hi, c1, c2) == Cluster(hl, hh, lStart, hStart, c1, start)
      {
        ClusterConfluent(hl, hh, li, hi, c1, c2);
        if hh[hi].b2 > c2 { c2 := hh[hi].b2; }
        hi := hi + 1;
        grew := true;
      }
      if !grew { break; }
    }
  }

  /** The switch at the end of a round. */
  method Emit<T(==)>(
    out: seq<T>, ghost base: seq<T>, lSide: seq<T>, hSide: seq<T>, localHunks: nat, hubHunks: nat, m: Markers<T>)
    returns (next: seq<T>, conflict: bool)
    ensures var c := Chunk(Classify(lSide, hSide, localHunks, hubHunks), base, lSide, hSide);
            next == out + Lines(c, MergedText(m)) && (conflict <==> c.kind == Conflict)
  {
    conflict := false;
    if localHunks == 0 {
      next := out + hSide;
    } else if hubHunks == 0 {
      next := out + lSide;
    } else if lSide == hSide {
      next := out + lSide;
    } else {
      conflict := true;
      EmittedBlock(out, lSide, hSide, m);
      next := out + [m.open] + lSide + [m.mid] + hSide + [m.close];
    }
  }

  /** One round of the outer loop of `Merge`. */
  method EmitCluster<T(==)>(
    base: seq<T>, hl: seq<Hunk<T>>, hh: seq<Hunk<T>>, lStart: nat, hStart: nat, pos: nat, was: seq<T>, m: Markers<T>)
    returns (out: seq<T>, li: nat, hi: nat, c2: nat, conflict: bool)
    requires Pending(hl, hh, lStart, hStart, pos, |base|) && Proper(hl) && Proper(hh)
    requires lStart < |hl| || hStart < |hh|
    ensures Pending(hl, hh, li, hi, c2, |base|) && li + hi > lStart + hStart
    ensures var now := Chunks(base, hl, hh, lStart, hStart, pos);
            var rest := Chunks(base, hl, hh, li, hi, c2);
            && out + Flatten(rest, MergedText(m)) == was + Flatten(now, MergedText(m))
            && ConflictCount(now) == (if conflict then 1 else 0) + ConflictCount(rest)
  {
    RoundEmits(base, hl, hh, lStart, hStart, pos, was, m);
    var c1;
    if hStart >= |hh| || (lStart < |hl| && hl[lStart].b1 <= hh[hStart].b1) {
      c1, c2 := hl[lStart].b1, hl[lStart].b2;
    } else {
      c1, c2 := hh[hStart].b1, hh[hStart].b2;
    }
    li, hi, c2 := Grow(hl, hh, lStart, hStart, c1, c2);
    assert NextRound(hl, hh, lStart, hStart) == Round(c1, c2, li, hi);
    out := was + base[pos..c1];
    var lSide := ApplyWithin(base, c1, c2, hl[lStart..li]);
    var hSide := ApplyWithin(base, c1, c2, hh[hStart..hi]);
    out, conflict := Emit(out, base[c1..c2], lSide, hSide, li - lStart, hi - hStart, m);
  }

  /** The outer loop of `Merge`, over two scripts. */
  method MergeScripts<T(==)>(base: seq<T>, hl: seq<Hunk<T>>, hh: seq<Hunk<T>>, m: Markers<T>)
    returns (out: seq<T>, conflicts: nat)
    requires Pending(hl, hh, 0, 0, 0, |base|) && Proper(hl) && Proper(hh)
    ensures out == Flatten(Chunks(base, hl, hh, 0, 0, 0), MergedText(m))
    ensures conflicts == ConflictCount(Chunks(base, hl, hh, 0, 0, 0))
  {
    out, conflicts := [], 0;
    var pos: nat, li: nat, hi: nat := 0, 0, 0;
    ghost var all := Chunks(base, hl, hh, 0, 0, 0);
    while li < |hl| || hi < |hh|
      invariant Pending(hl, hh, li, hi, pos, |base|)
      invariant out + Flatten(Chunks(base, hl, hh, li, hi, pos), MergedText(m)) == Flatten(all, MergedText(m))
      invariant conflicts + ConflictCount(Chunks(base, hl, hh, li, hi, pos)) == ConflictCount(all)
      decreases |hl| - li + |hh| - hi
    {
      var conflict;
      out, li, hi, pos, conflict := EmitCluster(base, hl, hh, li, hi, pos, out, m);
      if conflict { conflicts := conflicts + 1; }
    }
    LastChunk(base, hl, hh, pos, m);
    out := out + base[pos..];
  }

  lemma LastChunk<T>(base: seq<T>, hl: seq<Hunk<T>>, hh: seq<Hunk<T>>, pos: nat, m: Markers<T>)
    requires Pending(hl, hh, |hl|, |hh|, pos, |base|) && Proper(hl) && Proper(hh)
    ensures Flatten(Chunks(base, hl, hh, |hl|, |hh|, pos), MergedText(m)) == base[pos..]
    ensures ConflictCount(Chunks(base, hl, hh, |hl|, |hh|, pos)) == 0
  {
    FlattenOne(Unchanged(base[pos..]), MergedText(m));
    assert [Unchanged(base[pos..])][1..] == [];
  }

  method Merge<T(==, !new)>(base: seq<T>, local: seq<T>, hub: seq<T>, m: Markers<T>) returns (r: Outcome<T>)
    ensures r == MergeSpec(base, local, hub, m)
  {
    if |base| > MAX_LINES || |local| > MAX_LINES || |hub| > MAX_LINES {
      return TooLarge;
    }
    var hl := Diff(base, local);
    var hh := Diff(base, hub);
    ScriptsPending(base, local, hub);
    var out, conflicts := MergeScripts(base, hl, hh, m);
    r := Merged(out, conflicts);
  }

  /** One round's output, appended to what is out already. */
  lemma RoundEmits<T>(
    base: seq<T>, hl: seq<Hunk<T>>, hh: seq<Hunk<T>>, li: nat, hi: nat, pos: nat, out: seq<T>, m: Markers<T>)
    requires Pending(hl, hh, li, hi, pos, |base|) && Proper(hl) && Proper(hh) && (li < |hl| || hi < |hh|)
    ensures var r := NextRound(hl, hh, li, hi);
            && pos <= r.c1 <= r.c2 <= |base| && Pending(hl, hh, r.li, r.hi, r.c2, |base|)
            && Absorbed(hl, li, r.li, r.c1, r.c2, |base|) && Absorbed(hh, hi, r.hi, r.c1, r.c2, |base|)
            && r.li + r.hi > li + hi
            && var b := RoundChunk(base, hl, hh, li, hi, r);
               var rest := Chunks(base, hl, hh, r.li, r.hi, r.c2);
               var now := Chunks(base, hl, hh, li, hi, pos);
               && out + base[pos..r.c1] + Lines(b, MergedText(m)) + Flatten(rest, MergedText(m))
                  == out + Flatten(now, MergedText(m))
               && ConflictCount(now) == (if b.kind == Conflict then 1 else 0) + ConflictCount(rest)
  {
    RoundAbsorbs(hl, hh, li, hi, pos, |base|);
    var r := NextRound(hl, hh, li, hi);
    var a, b := Unchanged(base[pos..r.c1]), RoundChunk(base, hl, hh, li, hi, r);
    var rest := Chunks(base, hl, hh, r.li, r.hi, r.c2);
    FlattenTwo(a, b, rest, MergedText(m));
    AppendedRound(out, base[pos..r.c1], Lines(b, MergedText(m)), Flatten(rest, MergedText(m)));
    OneConflict(a);
    OneConflict(b);
  }

  lemma AppendedRound<T>(out: seq<T>, before: seq<T>, block: seq<T>, rest: seq<T>)
    ensures out + before + block + rest == out + (before + block + rest)
  {
  }

  lemma OneConflict<T>(c: Chunk<T>)
    ensures ConflictCount([c]) == if c.kind == Conflict then 1 else 0
  {
    assert [c][1..] == [];
  }

  lemma EmittedBlock<T>(out: seq<T>, l: seq<T>, h: seq<T>, m: Markers<T>)
    ensures out + [m.open] + l + [m.mid] + h + [m.close] == out + ([m.open] + l + [m.mid] + h + [m.close])
  {
  }

  // ---- MergeText ----

  function MarkersOf(localLabel: string, hubLabel: string): Markers<string> {
    Markers("<<<<<<< " + localLabel, "=======", ">>>>>>> " + hubLabel)
  }

  datatype TextOutcome = TextTooLarge | MergedInto(text: Text, conflicts: nat)

  ghost function MergeTextSpec(base: Text, local: Text, hub: Text, m: Markers<string>): TextOutcome {
    match MergeSpec(SplitLines(base), SplitLines(local), SplitLines(hub), m)
    case TooLarge => TextTooLarge
    case Merged(lines, conflicts) => MergedInto(JoinLines(lines), conflicts)
  }

  method MergeText(base: Text, local: Text, hub: Text, localLabel: string, hubLabel: string) returns (r: TextOutcome)
    ensures r == MergeTextSpec(base, local, hub, MarkersOf(localLabel, hubLabel))
  {
    var res := Merge(SplitLines(base), SplitLines(local), SplitLines(hub), MarkersOf(localLabel, hubLabel));
    match res {
      case TooLarge => r := TextTooLarge;
      case Merged(lines, conflicts) =>
        if |lines| == 0 { return MergedInto("", conflicts); }
        r := MergedInto(Join(lines) + "\n", conflicts);
    }
  }

  predicate Fits(s: Text) { |SplitLines(s)| <= MAX_LINES }

  /** One side unedited: the merge is the other side, byte for byte exactly
      when that side is empty or newline-terminated. */
  lemma MergeTextUnedited(base: Text, side: Text, m: Markers<string>)
    requires Fits(base) && Fits(side)
    ensures MergeTextSpec(base, base, side, m) == MergedInto(Normal(side), 0)
    ensures MergeTextSpec(base, side, base, m) == MergedInto(Normal(side), 0)
    ensures MergeTextSpec(base, side, base, m) == MergedInto(side, 0) <==> Terminated(side)
  {
    MergeUneditedLocal(SplitLines(base), SplitLines(side), m);
    MergeUneditedHub(SplitLines(base), SplitLines(side), m);
    TextRoundTrip(side);
  }

  /** Both sides equal: the merge is that side. */
  lemma MergeTextEqualSides(base: Text, side: Text, m: Markers<string>)
    requires Fits(base) && Fits(side)
    ensures MergeTextSpec(base, side, side, m) == MergedInto(Normal(side), 0)
    ensures MergeTextSpec(base, side, side, m) == MergedInto(side, 0) <==> Terminated(side)
  {
    MergeEqualSides(SplitLines(base), SplitLines(side), m);
    TextRoundTrip(side);
  }

  /** Swapping the sides: same refusal, same conflict count, and the same text
      when there is no conflict. */
  lemma MergeTextSymmetric(base: Text, local: Text, hub: Text, m: Markers<string>)
    ensures var r, s := MergeTextSpec(base, local, hub, m), MergeTextSpec(base, hub, local, m);
            && (r.TextTooLarge? <==> s.TextTooLarge?)
            && (r.MergedInto? ==> s.conflicts == r.conflicts && (r.conflicts == 0 ==> s == r))
  {
    MergeIsSymmetric(SplitLines(base), SplitLines(local), SplitLines(hub), m);
  }

  /** Without a base, two texts with different lines become one conflict
      block that shows both. */
  lemma MergeTextWithoutBase(local: Text, hub: Text, m: Markers<string>)
    requires Fits(local) && Fits(hub) && local != "" && hub != "" && Normal(local) != Normal(hub)
    ensures MergeTextSpec("", local, hub, m) ==
            MergedInto(JoinLines([m.open] + SplitLines(local) + [m.mid] + SplitLines(hub) + [m.close]), 1)
  {
    TextRoundTrip(local);
    TextRoundTrip(hub);
    MergeWithoutBase(SplitLines(local), SplitLines(hub), m);
  }

  /** A merge is refused exactly when some version has more than 4000 lines. */
  lemma RefusedExactly(base: Text, local: Text, hub: Text, m: Markers<string>)
    ensures MergeTextSpec(base, local, hub, m).TextTooLarge? <==>
              |SplitLines(base)| > 4000 || |SplitLines(local)| > 4000 || |SplitLines(hub)| > 4000
  {
  }

  lemma JoinedFirst(line: string, rest: seq<string>)
    ensures JoinLines([line] + rest) == line + "\n" + JoinLines(rest)
  {
    assert ([line] + rest)[1..] == rest;
    if rest == [] {
      assert JoinLines([line]) == line + "\n" + "";
    } else {
      assert line + "\n" + Join(rest) + "\n" == line + "\n" + (Join(rest) + "\n");
    }
  }

  lemma {:induction false} JoinedConcat(a: seq<string>, b: seq<string>)
    ensures JoinLines(a + b) == JoinLines(a) + JoinLines(b)
    decreases |a|
  {
    if a == [] {
      assert a + b == b && JoinLines(a) + JoinLines(b) == JoinLines(b);
    } else {
      var line, rest := a[0], a[1..];
      assert a == [line] + rest && a + b == [line] + (rest + b);
      JoinedFirst(line, rest);
      JoinedFirst(line, rest + b);
      JoinedConcat(rest, b);
      Assoc(line + "\n", JoinLines(rest), JoinLines(b));
    }
  }

  /** A block of two texts. */
  lemma BlockReads(first: string, l: seq<string>, mid: string, h: seq<string>, last: string)
    ensures JoinLines([first] + l + [mid] + h + [last]) ==
            (first + "\n") + JoinLines(l) + (mid + "\n") + JoinLines(h) + (last + "\n")
  {
    JoinedConcat([first] + l + [mid] + h, [last]);
    JoinedConcat([first] + l + [mid], h);
    JoinedConcat([first] + l, [mid]);
    JoinedConcat([first], l);
  }

  /** What the conflict of two texts without a base reads: each side's lines under
      its own label. */
  lemma ConflictReads(local: Text, hub: Text, localLabel: string, hubLabel: string)
    requires Fits(local) && Fits(hub) && local != "" && hub != "" && Normal(local) != Normal(hub)
    ensures MergeTextSpec("", local, hub, MarkersOf(localLabel, hubLabel)) ==
            MergedInto((("<<<<<<< " + localLabel) + "\n") + Normal(local) + ("=======" + "\n") + Normal(hub)
                       + ((">>>>>>> " + hubLabel) + "\n"), 1)
  {
    MergeTextWithoutBase(local, hub, MarkersOf(localLabel, hubLabel));
    BlockReads("<<<<<<< " + localLabel, SplitLines(local), "=======", SplitLines(hub), ">>>>>>> " + hubLabel);
    TextRoundTrip(local);
    TextRoundTrip(hub);
  }
}
