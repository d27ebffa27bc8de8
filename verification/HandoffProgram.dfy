/** The rest of `aimem handoff compact` (cmd/aimem/handoff.go): the summary
    block, where it goes, and the two writes, the archive first. */
module HandoffProgram {
  import opened Options
  import opened Lists
  import opened HandoffText
  import opened Handoff
  import opened HandoffLaws
  import TextLines

  const SUMMARY_LINES := 12
  const SUMMARY_BYTES := 1024

  function Min(a: int, b: int): int { if a <= b then a else b }

  // ---- the summary ----

  /** A line `clipSummary` drops: blank, or a code fence. */
  predicate Dropped(l: Text) { Blank(l) || "```" <= TrimSpace(l) }

  /** The longest prefix of the lines within both bounds, each line counted
      with its end. */
  function Clip(lines: seq<Text>, maxLines: int, maxBytes: int, eolLen: nat): seq<Text>
    decreases |lines|
  {
    if lines == [] || maxLines == 0 || |lines[0]| + eolLen > maxBytes then []
    else [lines[0]] + Clip(lines[1..], maxLines - 1, maxBytes - |lines[0]| - eolLen, eolLen)
  }

  /** The bytes of lines that each get an end. */
  function Size(lines: seq<Text>, eolLen: nat): nat
    decreases |lines|
  {
    if lines == [] then 0 else |lines[0]| + eolLen + Size(lines[1..], eolLen)
  }

  lemma {:induction false} ClipIsMaximal(lines: seq<Text>, maxLines: int, maxBytes: int, eolLen: nat)
    requires maxLines >= 0 && maxBytes >= 0
    ensures var kept := Clip(lines, maxLines, maxBytes, eolLen);
            && kept <= lines && |kept| <= maxLines && Size(kept, eolLen) <= maxBytes
            && (|kept| < |lines| ==> |kept| == maxLines || Size(kept, eolLen) + |lines[|kept|]| + eolLen > maxBytes)
    decreases |lines|
  {
    var kept := Clip(lines, maxLines, maxBytes, eolLen);
    if kept != [] {
      ClipIsMaximal(lines[1..], maxLines - 1, maxBytes - |lines[0]| - eolLen, eolLen);
      assert kept[1..] == Clip(lines[1..], maxLines - 1, maxBytes - |lines[0]| - eolLen, eolLen);
    }
  }

  predicate IsTail(c: char) { c == '\r' || c == ' ' || c == '\t' }

  function TrimTail(l: Text): (t: Text)
    ensures t <= l
    decreases |l|
  {
    if l != "" && IsTail(l[|l| - 1]) then TrimTail(l[..|l| - 1]) else l
  }

  function TrimTails(lines: seq<Text>): (r: seq<Text>)
    ensures |r| == |lines| && forall i :: 0 <= i < |r| ==> r[i] == TrimTail(lines[i])
  {
    seq(|lines|, i requires 0 <= i < |lines| => TrimTail(lines[i]))
  }

  /** The lines of the backend's text that may go into the summary. */
  function Usable(out: Text): seq<Text> { Dropping(TrimTails(TextLines.Split(out)), Dropped) }

  /** `clipSummary` on the backend's text. */
  method ClipSummary(out: Text, maxLines: nat, maxBytes: int, eolLen: nat) returns (kept: seq<Text>)
    ensures kept == Clip(Usable(out), maxLines, maxBytes, eolLen)
  {
    kept := ClipLines(TextLines.Split(out), maxLines, maxBytes, eolLen);
  }

  method ClipLines(raw: seq<Text>, maxLines: nat, maxBytes: int, eolLen: nat) returns (kept: seq<Text>)
    ensures kept == Clip(Dropping(TrimTails(raw), Dropped), maxLines, maxBytes, eolLen)
  {
    kept := [];
    var size := 0;
    ghost var lines, all := ClipStarts(raw, maxLines, maxBytes, eolLen);
    for k := 0 to |raw|
      invariant Clipping(lines, k, kept, size, maxLines, maxBytes, eolLen, all)
    {
      var l := TrimTail(raw[k]);
      ClipTurn(lines, k, l, kept, size, maxLines, maxBytes, eolLen, all);
      if Dropped(l) { continue; }
      if |kept| == maxLines || size + |l| + eolLen > maxBytes { return; }
      kept := kept + [l];
      size := size + |l| + eolLen;
    }
    ClipEnds(lines, kept, size, maxLines, maxBytes, eolLen, all);
  }

  lemma ClipStarts(raw: seq<Text>, maxLines: nat, maxBytes: int, eolLen: nat) returns (lines: seq<Text>, all: seq<Text>)
    ensures |lines| == |raw| && forall k :: 0 <= k < |raw| ==> lines[k] == TrimTail(raw[k])
    ensures all == Clip(Dropping(TrimTails(raw), Dropped), maxLines, maxBytes, eolLen)
    ensures Clipping(lines, 0, [], 0, maxLines, maxBytes, eolLen, all)
  {
    lines := TrimTails(raw);
    all := Clip(Dropping(lines, Dropped), maxLines, maxBytes, eolLen);
    assert lines[0..] == lines && [] + all == all;
  }

  /** After k lines: what is kept, and what the rest may still add to it. */
  ghost predicate Clipping(lines: seq<Text>, k: nat, kept: seq<Text>, size: int, maxLines: nat, maxBytes: int, eolLen: nat, all: seq<Text>) {
    k <= |lines| && |kept| <= maxLines && kept + ClipFrom(lines, k, maxLines - |kept|, maxBytes - size, eolLen) == all
  }

  lemma ClipTurn(
    lines: seq<Text>, k: nat, l: Text, kept: seq<Text>, size: int, maxLines: nat, maxBytes: int, eolLen: nat, all: seq<Text>)
    requires k < |lines| && l == lines[k] && Clipping(lines, k, kept, size, maxLines, maxBytes, eolLen, all)
    ensures if Dropped(l) then Clipping(lines, k + 1, kept, size, maxLines, maxBytes, eolLen, all)
            else if |kept| == maxLines || size + |l| + eolLen > maxBytes then kept == all
            else Clipping(lines, k + 1, kept + [l], size + |l| + eolLen, maxLines, maxBytes, eolLen, all)
  {
    DroppingFirst(lines, k, Dropped);
    if !Dropped(l) {
      var rest := Dropping(lines[k + 1..], Dropped);
      if |kept| < maxLines && size + |l| + eolLen <= maxBytes {
        ClipsFirst(kept, l, rest, size, maxLines, maxBytes, eolLen);
      } else {
        assert Clip([l] + rest, maxLines - |kept|, maxBytes - size, eolLen) == [];
      }
    }
  }

  lemma ClipsFirst(kept: seq<Text>, l: Text, rest: seq<Text>, size: int, maxLines: nat, maxBytes: int, eolLen: nat)
    requires |kept| < maxLines && size + |l| + eolLen <= maxBytes
    ensures kept + Clip([l] + rest, maxLines - |kept|, maxBytes - size, eolLen) ==
            (kept + [l]) + Clip(rest, maxLines - |kept + [l]|, maxBytes - (size + |l| + eolLen), eolLen)
  {
    assert ([l] + rest)[1..] == rest;
    Regrouped(kept, l, Clip(rest, maxLines - |kept| - 1, maxBytes - size - |l| - eolLen, eolLen));
  }

  lemma Regrouped(kept: seq<Text>, l: Text, more: seq<Text>)
    ensures kept + ([l] + more) == (kept + [l]) + more
  {
  }

  lemma ClipEnds(lines: seq<Text>, kept: seq<Text>, size: int, maxLines: nat, maxBytes: int, eolLen: nat, all: seq<Text>)
    requires Clipping(lines, |lines|, kept, size, maxLines, maxBytes, eolLen, all)
    ensures kept == all
  {
    assert lines[|lines|..] == [];
  }

  function ClipFrom(lines: seq<Text>, k: nat, maxLines: int, maxBytes: int, eolLen: nat): seq<Text>
    requires k <= |lines|
  {
    Clip(Dropping(lines[k..], Dropped), maxLines, maxBytes, eolLen)
  }

  function WithEnds(lines: seq<Text>, eol: Text): seq<Text>
    decreases |lines|
  {
    if lines == [] then [] else [lines[0] + eol] + WithEnds(lines[1..], eol)
  }

  /** The block: a heading, a blank line, the summary, a blank line. */
  function Block(title: Text, summary: seq<Text>, eol: Text): seq<Text> {
    if summary == [] then [] else [title + eol, eol] + WithEnds(summary, eol) + [eol]
  }

  lemma {:induction false} WithEndsSize(lines: seq<Text>, eol: Text)
    ensures |WithEnds(lines, eol)| == |lines| && |Cat(WithEnds(lines, eol))| == Size(lines, |eol|)
    decreases |lines|
  {
    if lines != [] { WithEndsSize(lines[1..], eol); }
  }

  lemma BlockSize(title: Text, summary: seq<Text>, eol: Text)
    requires summary != []
    ensures |Block(title, summary, eol)| == |summary| + 3
    ensures |Cat(Block(title, summary, eol))| == |title| + 3 * |eol| + Size(summary, |eol|)
  {
    WithEndsSize(summary, eol);
    CatAppend([title + eol, eol], WithEnds(summary, eol));
    CatAppend([title + eol, eol] + WithEnds(summary, eol), [eol]);
    CatOne(eol);
    assert [title + eol, eol][1..] == [eol];
  }

  /** The room left for summary lines once everything else is counted. */
  function RoomLines(kept: seq<Text>, lim: Limits): int { Min(lim.lines - |kept| - 4, SUMMARY_LINES) }

  function RoomBytes(kept: seq<Text>, title: Text, eol: Text, lim: Limits): int {
    Min(lim.bytes - |Cat(kept)| - |MARKER| - (|title| + 2 * |eol|) - 3 * |eol|, SUMMARY_BYTES)
  }

  /** A summary clipped to that room never takes the written file over a limit,
      also above a marker, where nothing was cut to size. */
  lemma SummaryFits(kept: seq<Text>, out: seq<Text>, title: Text, eol: Text, lim: Limits, k: nat)
    requires RoomLines(kept, lim) > 0 && RoomBytes(kept, title, eol, lim) > 0 && k <= |kept|
    requires Clip(out, RoomLines(kept, lim), RoomBytes(kept, title, eol, lim), |eol|) != []
    ensures var s := Clip(out, RoomLines(kept, lim), RoomBytes(kept, title, eol, lim), |eol|);
            var all := Written(kept, Block(title, s, eol), k, eol);
            |all| <= lim.lines && |Cat(all)| <= lim.bytes
  {
    var s := Clip(out, RoomLines(kept, lim), RoomBytes(kept, title, eol, lim), |eol|);
    ClipIsMaximal(out, RoomLines(kept, lim), RoomBytes(kept, title, eol, lim), |eol|);
    BlockSize(title, s, eol);
    WrittenSize(kept, Block(title, s, eol), k, eol);
  }

  lemma WrittenSize(kept: seq<Text>, block: seq<Text>, k: nat, eol: Text)
    requires k <= |kept|
    ensures |Written(kept, block, k, eol)| == |kept| + |block| + 1
    ensures |Cat(Written(kept, block, k, eol))| == |Cat(kept)| + |Cat(block)| + |MARKER| + |eol|
  {
    CatAppend(kept[..k], block);
    CatAppend(kept[..k] + block, kept[k..]);
    CatAppend(kept[..k] + block + kept[k..], [MARKER + eol]);
    CatOne(MARKER + eol);
    CatAppend(kept[..k], kept[k..]);
    assert kept[..k] + kept[k..] == kept;
  }

  // ---- where the block goes ----

  /** Without the blank lines at the end. */
  function End(lines: seq<Text>): nat { WithoutTrailing(lines, Blank) }

  /** Before the closing section among the last lines, or at the end. */
  function InsertAt(lines: seq<Text>, pick: Text -> bool): (k: nat)
    ensures k <= |lines|
  {
    var i := TailStart(lines[..End(lines)], pick);
    if i < End(lines) then i else |lines|
  }

  /** `insertBeforePickUp`: closing is a byte offset the plan gave. */
  method InsertBeforePickUp(current: Text, block: Text, closing: Option<nat>, pick: Text -> bool) returns (out: Text)
    requires closing.Some? ==> closing.value <= |current|
    ensures block == "" ==> out == current
    ensures block != "" && closing.Some? ==> out == current[..closing.value] + block + current[closing.value..]
    ensures block != "" && closing.None? ==>
              var ls := SplitAfter(current); out == Cat(ls[..InsertAt(ls, pick)]) + block + Cat(ls[InsertAt(ls, pick)..])
  {
    if block == "" { return current; }
    if closing.Some? { return current[..closing.value] + block + current[closing.value..]; }
    var lines := SplitAfter(current);
    var end := |lines|;
    assert lines[..end] == lines;
    while end > 0 && Blank(lines[end - 1])
      invariant 0 <= end <= |lines| && WithoutTrailing(lines[..end], Blank) == End(lines)
    {
      assert lines[..end][..end - 1] == lines[..end - 1];
      end := end - 1;
    }
    var i := FirstPickUp(lines[..end], pick);
    if i < end { return Cat(lines[..i]) + block + Cat(lines[i..]); }
    CatSplit(current);
    assert lines[..|lines|] == lines && lines[|lines|..] == [];
    out := current + block;
  }

  /** Between the lines of the current state, wherever the plan's offset or the
      search puts it. */
  lemma InsertedIsLines(kept: seq<Text>, block: seq<Text>, k: nat, eol: Text)
    requires k <= |kept|
    ensures Cat(kept[..k]) + Cat(block) + Cat(kept[k..]) + MARKER + eol == Cat(Written(kept, block, k, eol))
  {
    CatAppend(kept[..k], block);
    CatAppend(kept[..k] + block, kept[k..]);
    CatAppend(kept[..k] + block + kept[k..], [MARKER + eol]);
    CatOne(MARKER + eol);
  }

  // ---- the two writes ----

  function Appended(archive: Text, intro: Text, heading: Text, moved: Text, eol: Text): Text {
    if HasSuffix(TrimEnd(archive), moved) then archive
    else TrimEnd(if archive == "" then intro else archive) + eol + eol + heading + eol + eol + moved + eol
  }

  predicate IsBlock(moved: Text) { moved != "" && !IsEnd(moved[|moved| - 1]) }

  lemma AppendedEnds(archive: Text, intro: Text, heading: Text, moved: Text, eol: Text)
    requires IsBlock(moved) && IsEol(eol)
    ensures var a := Appended(archive, intro, heading, moved, eol);
            HasSuffix(TrimEnd(a), moved)
    ensures !HasSuffix(TrimEnd(archive), moved) ==>
              TrimEnd(Appended(archive, intro, heading, moved, eol)) ==
              TrimEnd(if archive == "" then intro else archive) + eol + eol + heading + eol + eol + moved
  {
    if !HasSuffix(TrimEnd(archive), moved) {
      var before := TrimEnd(if archive == "" then intro else archive) + eol + eol + heading + eol + eol;
      assert (before + moved)[|before + moved| - 1] == moved[|moved| - 1];
      TrimEndDrops(before + moved, eol);
      assert (before + moved)[|before + moved| - |moved|..] == moved;
    }
  }

  /** A run that stops after the archive write is harmless: the rerun, whatever
      its clock says, does not archive the block again. */
  lemma RerunArchivesOnce(archive: Text, intro: Text, heading: Text, intro': Text, heading': Text, moved: Text, eol: Text)
    requires IsBlock(moved) && IsEol(eol)
    ensures var a := Appended(archive, intro, heading, moved, eol);
            Appended(a, intro', heading', moved, eol) == a
  {
    AppendedEnds(archive, intro, heading, moved, eol);
  }

  /** The archive ends with the block as lines of its own. */
  predicate EndsWithBlock(archive: Text, moved: Text) {
    var t := TrimEnd(archive);
    HasSuffix(t, moved) && (|t| == |moved| || t[|t| - |moved| - 1] == '\n')
  }

  /** Exactly when the moved block stands in the archive as lines of its own:
      unless the archive already ended with its text in the middle of a line. */
  lemma BlockIsArchivedExactly(archive: Text, intro: Text, heading: Text, moved: Text, eol: Text)
    requires IsBlock(moved) && IsEol(eol)
    ensures EndsWithBlock(Appended(archive, intro, heading, moved, eol), moved) <==>
            (HasSuffix(TrimEnd(archive), moved) ==> EndsWithBlock(archive, moved))
  {
    AppendedEnds(archive, intro, heading, moved, eol);
    if !HasSuffix(TrimEnd(archive), moved) {
      var before := TrimEnd(if archive == "" then intro else archive) + eol + eol + heading + eol + eol;
      var t := before + moved;
      assert t[|t| - |moved| - 1] == before[|before| - 1] == eol[|eol| - 1];
    }
  }

  /** A history line that is the end of the archive's last line is not
      archived, and compacting drops it from the handoff. */
  lemma SuffixIsNotArchived(intro: Text, heading: Text, eol: Text)
    requires IsEol(eol)
    ensures Appended("- Done: b\n", intro, heading, "b", eol) == "- Done: b\n"
    ensures !EndsWithBlock("- Done: b\n", "b")
  {
    var a := "- Done: b\n";
    assert a[..|a| - 1] == "- Done: b";
    assert TrimEnd("- Done: b") == "- Done: b";
    assert TrimEnd(a) == "- Done: b";
    assert "- Done: b"[8..] == "b";
  }

  class Workspace {
    var handoff: Text
    var archive: Text

    constructor (handoff: Text, archive: Text)
      ensures this.handoff == handoff && this.archive == archive
    {
      this.handoff, this.archive := handoff, archive;
    }

    /** `handoff compact`; stop ends the run between the two writes. The summary
        is the title and the backend's text, when --summarize is given. */
    method Compact(lim: Limits, pick: Text -> bool, summary: Option<(Text, Text)>, intro: Text, heading: Text, stop: bool)
      returns (p: Plan)
      modifies this
      ensures Plans(old(handoff), lim, pick, p)
      ensures p.moved == "" ==> handoff == old(handoff) && archive == old(archive)
      ensures p.moved != "" ==> archive == Appended(old(archive), intro, heading, p.moved, p.eol)
      ensures p.moved != "" && stop ==> handoff == old(handoff)
      ensures p.moved != "" && !stop ==> IsCompacted(p, BlockOf(p, lim, summary), handoff)
    {
      p := PlanCompact(handoff, lim, pick);
      if p.moved == "" { return; }
      KeptHasNoMarker(handoff, lim, pick, p);
      ghost var k := InsertPoint(handoff, lim, pick, p);
      var out := CurrentState(lim, pick, p, summary, k);
      if !HasSuffix(TrimEnd(archive), p.moved) {
        var a := archive;
        if a == "" { a := intro; }
        archive := TrimEnd(a) + p.eol + p.eol + heading + p.eol + p.eol + p.moved + p.eol;
      }
      if stop { return; }
      handoff := out;
    }

    /** Stopping between the writes and running again archives the block once
        and leaves the file as an undisturbed run leaves it. */
    method StopAndRerun(
      lim: Limits, pick: Text -> bool, summary: Option<(Text, Text)>, summary': Option<(Text, Text)>,
      intro: Text, heading: Text, heading': Text)
      returns (p: Plan)
      modifies this
      ensures Plans(old(handoff), lim, pick, p)
      ensures p.moved == "" ==> handoff == old(handoff) && archive == old(archive)
      ensures p.moved != "" ==> archive == Appended(old(archive), intro, heading, p.moved, p.eol)
      ensures p.moved != "" ==> IsCompacted(p, BlockOf(p, lim, summary'), handoff)
    {
      var first := Compact(lim, pick, summary, intro, heading, true);
      p := Compact(lim, pick, summary', intro, heading', false);
      SamePlan(old(handoff), lim, pick, first, p);
      if p.moved != "" {
        MovedIsBlock(old(handoff), lim, pick, p);
        RerunArchivesOnce(old(archive), intro, heading, intro, heading', p.moved, p.eol);
      }
    }
  }

  /** The summary block that room is left for, if any. */
  function BlockOf(p: Plan, lim: Limits, summary: Option<(Text, Text)>): seq<Text> {
    if summary.None? then []
    else
      var kept, title := Lines(p.current), summary.value.0;
      var lines, bytes := RoomLines(kept, lim), RoomBytes(kept, title, p.eol, lim);
      if lines <= 0 || bytes <= 0 then []
      else Block(title, Clip(Usable(summary.value.1), lines, bytes, |p.eol|), p.eol)
  }

  /** The plan's current state with the block between two of its lines, and the
      marker line. */
  ghost predicate IsCompacted(p: Plan, block: seq<Text>, text: Text) {
    exists k :: 0 <= k <= |Lines(p.current)| && text == Cat(Written(Lines(p.current), block, k, p.eol))
  }

  lemma Compacted(p: Plan, block: seq<Text>, k: nat, text: Text)
    requires k <= |Lines(p.current)| && text == Cat(Written(Lines(p.current), block, k, p.eol))
    ensures IsCompacted(p, block, text)
  {
  }

  function Newlines(s: Text): nat
    decreases |s|
  {
    if s == "" then 0 else (if s[0] == '\n' then 1 else 0) + Newlines(s[1..])
  }

  lemma {:induction false} NewlinesOfLine(l: Text, rest: Text)
    requires Ended(l)
    ensures Newlines(l + rest) == 1 + Newlines(rest)
    decreases |l|
  {
    var s := l + rest;
    if |l| == 1 {
      assert s[1..] == rest;
    } else {
      assert l[0] == l[..|l| - 1][0] && s[1..] == l[1..] + rest;
      assert l[1..][..|l| - 2] == l[..|l| - 1][1..];
      NewlinesOfLine(l[1..], rest);
    }
  }

  lemma {:induction false} NewlinesCountLines(lines: seq<Text>)
    requires AllEnded(lines)
    ensures Newlines(Cat(lines)) == |lines|
    decreases |lines|
  {
    if lines != [] {
      assert Ended(lines[0]);
      NewlinesOfLine(lines[0], Cat(lines[1..]));
      NewlinesCountLines(lines[1..]);
    }
  }

  lemma RoomIs(p: Plan, lim: Limits, title: Text)
    requires AllEnded(Lines(p.current)) && p.current == Cat(Lines(p.current))
    ensures RoomLines(Lines(p.current), lim) == Min(lim.lines - Newlines(p.current) - 4, SUMMARY_LINES)
    ensures RoomBytes(Lines(p.current), title, p.eol, lim) ==
            Min(lim.bytes - |p.current| - |MARKER| - (|title| + 2 * |p.eol|) - 3 * |p.eol|, SUMMARY_BYTES)
  {
    NewlinesCountLines(Lines(p.current));
  }

  /** The summary block's text: no room or no summary line, no block. */
  method BuildSummary(p: Plan, lim: Limits, summary: Option<(Text, Text)>) returns (text: Text)
    requires AllEnded(Lines(p.current)) && p.current == Cat(Lines(p.current))
    ensures text == Cat(BlockOf(p, lim, summary))
  {
    if summary.None? { return ""; }
    var title := summary.value.0;
    RoomIs(p, lim, title);
    var roomLines := Min(lim.lines - Newlines(p.current) - 4, SUMMARY_LINES);
    var roomBytes := Min(lim.bytes - |p.current| - |MARKER| - (|title| + 2 * |p.eol|) - 3 * |p.eol|, SUMMARY_BYTES);
    if roomLines <= 0 || roomBytes <= 0 { return ""; }
    var kept := ClipSummary(summary.value.1, roomLines, roomBytes, |p.eol|);
    text := Cat(Block(title, kept, p.eol));
  }

  /** The plan's byte offset is between two lines of the current state. */
  lemma ClosingIsBetweenLines(body: Text, lim: Limits, pick: Text -> bool, p: Plan) returns (k: nat)
    requires Plans(body, lim, pick, p) && p.moved != "" && p.closing.Some?
    ensures k <= |Lines(p.current)| && p.closing.value <= |p.current|
    ensures p.current[..p.closing.value] == Cat(Lines(p.current)[..k])
    ensures p.current[p.closing.value..] == Cat(Lines(p.current)[k..])
  {
    var lines := Lines(body);
    LinesEnded(body);
    var s := SplitAt(lines, lim, p.eol, pick);
    k := CutIsBetweenLines(lines, s, p);
  }

  lemma CutIsBetweenLines(lines: seq<Text>, s: Split, p: Plan) returns (k: nat)
    requires AllEnded(lines) && s.head + s.rest + s.tail == lines && IsEol(p.eol)
    requires PlansCut(s, p) && p.moved != "" && p.closing.Some?
    ensures k <= |Lines(p.current)| && p.closing.value <= |p.current|
    ensures p.current[..p.closing.value] == Cat(Lines(p.current)[..k])
    ensures p.current[p.closing.value..] == Cat(Lines(p.current)[k..])
  {
    SplitEnds(lines, s);
    HeadLinesEnded(s, p.eol);
    var kept := KeptLines(s, p.eol);
    LinesOfCat(kept);
    k := |HeadLines(s, p.eol)|;
    assert kept[..k] == HeadLines(s, p.eol);
    CatAppend(kept[..k], kept[k..]);
    assert kept[..k] + kept[k..] == kept;
  }

  /** The current state is made of ended lines, and k of them come before the
      block. */
  ghost predicate Splits(p: Plan, pick: Text -> bool, k: nat) {
    var kept := Lines(p.current);
    && k <= |kept| && AllEnded(kept) && p.current == Cat(kept[..k]) + Cat(kept[k..])
    && match p.closing
       case Some(c) => c <= |p.current| && p.current[..c] == Cat(kept[..k]) && p.current[c..] == Cat(kept[k..])
       case None => SplitAfter(p.current) == kept && k == InsertAt(kept, pick)
  }

  lemma FreeSplits(p: Plan, pick: Text -> bool)
    requires p.closing.None? && AllEnded(Lines(p.current)) && p.current == Cat(Lines(p.current))
    ensures Splits(p, pick, InsertAt(Lines(p.current), pick))
  {
    SplitCat(Lines(p.current));
    CatSplits(Lines(p.current), InsertAt(Lines(p.current), pick));
  }

  lemma CatSplits(lines: seq<Text>, k: nat)
    requires k <= |lines|
    ensures Cat(lines) == Cat(lines[..k]) + Cat(lines[k..])
  {
    CatAppend(lines[..k], lines[k..]);
    assert lines[..k] + lines[k..] == lines;
  }

  lemma ClosedSplits(p: Plan, pick: Text -> bool, k: nat)
    requires p.closing.Some? && AllEnded(Lines(p.current)) && k <= |Lines(p.current)| && p.closing.value <= |p.current|
    requires p.current[..p.closing.value] == Cat(Lines(p.current)[..k])
    requires p.current[p.closing.value..] == Cat(Lines(p.current)[k..])
    ensures Splits(p, pick, k)
  {
    assert p.current == p.current[..p.closing.value] + p.current[p.closing.value..];
  }

  /** Where `insertBeforePickUp` splits a plan's current state. */
  lemma InsertPoint(body: Text, lim: Limits, pick: Text -> bool, p: Plan) returns (k: nat)
    requires Plans(body, lim, pick, p) && p.moved != ""
    ensures Splits(p, pick, k)
  {
    KeptHasNoMarker(body, lim, pick, p);
    if p.closing.Some? {
      k := ClosingIsBetweenLines(body, lim, pick, p);
      ClosedSplits(p, pick, k);
    } else {
      k := InsertAt(Lines(p.current), pick);
      FreeSplits(p, pick);
    }
  }

  /** The new current state with its summary, and the marker line. */
  method CurrentState(lim: Limits, pick: Text -> bool, p: Plan, summary: Option<(Text, Text)>, ghost k: nat)
    returns (out: Text)
    requires Splits(p, pick, k) && p.current == Cat(Lines(p.current))
    ensures IsCompacted(p, BlockOf(p, lim, summary), out)
  {
    var text := BuildSummary(p, lim, summary);
    out := Place(p, pick, text, BlockOf(p, lim, summary), k);
  }

  method Place(p: Plan, pick: Text -> bool, text: Text, ghost block: seq<Text>, ghost k: nat) returns (out: Text)
    requires Splits(p, pick, k) && text == Cat(block)
    ensures IsCompacted(p, block, out)
  {
    var current := InsertBeforePickUp(p.current, text, p.closing, pick);
    InsertedBetween(p, pick, k, text, current);
    out := current + MARKER + p.eol;
    InsertedIsLines(Lines(p.current), block, k, p.eol);
    Compacted(p, block, k, out);
  }

  lemma InsertedBetween(p: Plan, pick: Text -> bool, k: nat, text: Text, current: Text)
    requires Splits(p, pick, k)
    requires text == "" ==> current == p.current
    requires text != "" && p.closing.Some? ==> current == p.current[..p.closing.value] + text + p.current[p.closing.value..]
    requires text != "" && p.closing.None? ==>
               var ls := SplitAfter(p.current); current == Cat(ls[..InsertAt(ls, pick)]) + text + Cat(ls[InsertAt(ls, pick)..])
    ensures current == Cat(Lines(p.current)[..k]) + text + Cat(Lines(p.current)[k..])
  {
    if text == "" {
      var a, b := Cat(Lines(p.current)[..k]), Cat(Lines(p.current)[k..]);
      assert a + "" + b == a + b;
    }
  }

  lemma SamePlan(body: Text, lim: Limits, pick: Text -> bool, p: Plan, q: Plan)
    requires Plans(body, lim, pick, p) && Plans(body, lim, pick, q)
    ensures p.eol == q.eol && p.moved == q.moved && p.marker == q.marker
  {
  }

  lemma MovedIsBlock(body: Text, lim: Limits, pick: Text -> bool, p: Plan)
    requires Plans(body, lim, pick, p) && p.moved != ""
    ensures IsBlock(p.moved) && IsEol(p.eol)
  {
    var lines := Lines(body);
    if p.marker { MarkedIsBlock(lines, MarkerAt(lines), p); } else { CutIsBlock(SplitAt(lines, lim, p.eol, pick), p); }
  }

  lemma MarkedIsBlock(lines: seq<Text>, m: nat, p: Plan)
    requires m < |lines| && PlansMarked(lines, m, p) && p.moved != ""
    ensures IsBlock(p.moved)
  {
  }

  lemma CutIsBlock(s: Split, p: Plan)
    requires PlansCut(s, p) && p.moved != ""
    ensures IsBlock(p.moved)
  {
  }
}
