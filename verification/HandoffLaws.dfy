/** What compacting a handoff keeps: every non-blank line, the limits, and that
    a second compaction moves nothing. */
module HandoffLaws {
  import opened Lists
  import opened HandoffText
  import opened Handoff

  // ---- no line is lost ----

  lemma EolIsBlank(eol: Text)
    requires IsEol(eol)
    ensures Blank(eol)
  {
    assert "\r\n"[1..] == "\n" && "\n"[1..] == "";
    assert Blank("\n");
  }

  lemma AddedBlank(lines: seq<Text>, eol: Text)
    requires IsEol(eol)
    ensures NonBlank(lines + [eol]) == NonBlank(lines)
  {
    DroppingAppend(lines, [eol], Blank);
    EolIsBlank(eol);
    DroppingOne(eol, Blank);
  }

  lemma KeptIsHeadAndTail(s: Split, eol: Text)
    requires IsEol(eol)
    ensures NonBlank(KeptLines(s, eol)) == NonBlank(s.head) + NonBlank(s.tail)
  {
    AddedBlank(s.head, eol);
    DroppingAppend(HeadLines(s, eol), s.tail, Blank);
    AddedBlank(HeadLines(s, eol) + s.tail, eol);
  }

  lemma SplitNonBlank(s: Split)
    ensures NonBlank(s.head + s.rest + s.tail) == NonBlank(s.head) + NonBlank(MovedLines(s.rest)) + NonBlank(s.tail)
  {
    TrimmedKeeps(s.rest, Blank);
    DroppingAppend(s.head, s.rest, Blank);
    DroppingAppend(s.head + s.rest, s.tail, Blank);
  }

  /** Whole lines, of which the first is not blank. */
  predicate Inked(lines: seq<Text>) { lines != [] && AllEnded(lines) && !Blank(lines[0]) }

  lemma MovedAreInked(rest: seq<Text>)
    requires AllEnded(rest) && TrimEnd(Cat(MovedLines(rest))) != ""
    ensures Inked(MovedLines(rest))
  {
    MovedAreEnded(rest);
    assert MovedLines(rest) != [];
    MovedStartsWithInk(rest);
  }

  lemma MovedAreEnded(rest: seq<Text>)
    requires AllEnded(rest)
    ensures AllEnded(MovedLines(rest))
  {
    var moved := MovedLines(rest);
    forall i | 0 <= i < |moved| ensures Ended(moved[i]) { assert moved[i] == rest[Leading(rest, Blank) + i]; }
  }

  lemma MovedStartsWithInk(rest: seq<Text>)
    requires MovedLines(rest) != []
    ensures !Blank(MovedLines(rest)[0])
  {
    assert MovedLines(rest)[0] == rest[Leading(rest, Blank)];
  }

  /** The non-blank lines of the file are, in order, those kept before the
      moved part, the marker line if there was one, the moved ones, and those
      kept after it. */
  lemma NoLineIsLost(body: Text, lim: Limits, pick: Text -> bool, p: Plan)
    returns (before: seq<Text>, marker: seq<Text>, moved: seq<Text>, after: seq<Text>)
    requires Plans(body, lim, pick, p) && p.moved != ""
    ensures NonBlank(Lines(body)) == before + marker + NonBlank(moved) + after
    ensures NonBlank(Lines(p.current)) == before + after
    ensures p.moved == TrimEnd(Cat(moved)) && Inked(moved)
    ensures if p.marker then |marker| == 1 && IsMarker(marker[0]) && after == [] else marker == []
  {
    var lines := Lines(body);
    LinesEnded(body);
    if p.marker {
      before, marker, moved, after := MarkedLosesNone(lines, MarkerAt(lines), p);
    } else {
      before, moved, after := CutLosesNone(lines, SplitAt(lines, lim, p.eol, pick), p);
      marker := [];
      assert before + marker == before;
    }
  }

  lemma CutLosesNone(lines: seq<Text>, s: Split, p: Plan) returns (before: seq<Text>, moved: seq<Text>, after: seq<Text>)
    requires AllEnded(lines) && s.head + s.rest + s.tail == lines && IsEol(p.eol) && PlansCut(s, p) && p.moved != ""
    ensures NonBlank(lines) == before + NonBlank(moved) + after
    ensures NonBlank(Lines(p.current)) == before + after && p.moved == TrimEnd(Cat(moved))
    ensures Inked(moved)
  {
    SplitEnds(lines, s);
    HeadLinesEnded(s, p.eol);
    LinesOfCat(KeptLines(s, p.eol));
    KeptIsHeadAndTail(s, p.eol);
    SplitNonBlank(s);
    MovedAreInked(s.rest);
    before, moved, after := NonBlank(s.head), MovedLines(s.rest), NonBlank(s.tail);
  }

  lemma MarkerIsNotBlank(l: Text)
    requires IsMarker(l)
    ensures !Blank(l)
  {
    if Blank(l) { BlankTrims(l); }
  }

  lemma {:induction false} BlankTrims(l: Text)
    requires Blank(l)
    ensures TrimSpace(l) == ""
    decreases |l|
  {
    if l != "" { BlankTrims(l[1..]); }
  }

  lemma MarkedLosesNone(lines: seq<Text>, m: nat, p: Plan)
    returns (before: seq<Text>, marker: seq<Text>, moved: seq<Text>, after: seq<Text>)
    requires AllEnded(lines) && m < |lines| && IsMarker(lines[m]) && PlansMarked(lines, m, p) && p.moved != ""
    ensures NonBlank(lines) == before + marker + NonBlank(moved) + after
    ensures NonBlank(Lines(p.current)) == before + after && p.moved == TrimEnd(Cat(moved))
    ensures Inked(moved)
    ensures |marker| == 1 && IsMarker(marker[0]) && after == []
  {
    var a, l, b := lines[..m], lines[m], lines[m + 1..];
    assert lines == a + [l] + b;
    forall i | 0 <= i < m ensures Ended(a[i]) { assert a[i] == lines[i]; }
    LinesOfCat(a);
    MarkerIsNotBlank(l);
    DroppingAround(a, l, b, Blank);
    TrimmedKeeps(b, Blank);
    assert AllEnded(b);
    MovedAreInked(b);
    before, marker, moved, after := NonBlank(a), [l], MovedLines(b), [];
  }

  // ---- the limits ----

  lemma PrefixIsShorter(lines: seq<Text>, j: nat, n: nat)
    requires j <= n <= |lines|
    ensures |Cat(lines[..j])| <= |Cat(lines[..n])|
  {
    CatAppend(lines[..j], lines[j..n]);
    assert lines[..j] + lines[j..n] == lines[..n];
  }

  lemma HeadFits(lines: seq<Text>, lim: Limits, eol: Text, pick: Text -> bool)
    requires var t := lines[TailStart(lines, pick)..]; BudgetLines(lim, t) >= 0 && BudgetBytes(lim, t, eol) >= 0
    ensures var s := SplitAt(lines, lim, eol, pick);
            |s.head| <= BudgetLines(lim, s.tail) && |Cat(s.head)| <= BudgetBytes(lim, s.tail, eol)
  {
    var i := TailStart(lines, pick);
    var pre, tail := lines[..i], lines[i..];
    assert Cat(pre[..0]) == "";
    FillFits(pre, BudgetLines(lim, tail), BudgetBytes(lim, tail, eol), 0, 0);
    var n := Fill(pre, BudgetLines(lim, tail), BudgetBytes(lim, tail, eol), 0, 0);
    var cut := if n < |pre| then CutAt(pre, n) else n;
    PrefixIsShorter(pre, cut, n);
  }

  lemma KeptSize(s: Split, eol: Text)
    ensures |KeptLines(s, eol)| <= |s.head| + |s.tail| + 2
    ensures |Cat(KeptLines(s, eol))| <= |Cat(s.head)| + |Cat(s.tail)| + 2 * |eol|
  {
    CatAppend(s.head, [eol]);
    CatAppend(HeadLines(s, eol), s.tail);
    CatAppend(HeadLines(s, eol) + s.tail, [eol]);
    CatOne(eol);
  }

  /** Without a marker, when the closing section itself leaves room, what stays
      is within both limits less the reserve, the marker line included. */
  lemma StaysWithinLimits(body: Text, lim: Limits, pick: Text -> bool, p: Plan)
    requires Plans(body, lim, pick, p) && p.moved != "" && !p.marker
    requires var t := Lines(body)[TailStart(Lines(body), pick)..];
             BudgetLines(lim, t) >= 0 && BudgetBytes(lim, t, p.eol) >= 0
    ensures |Lines(p.current)| + 1 <= lim.lines - lim.reserveLines
    ensures |p.current| + |MARKER| + |p.eol| <= lim.bytes - lim.reserveBytes
  {
    var lines := Lines(body);
    LinesEnded(body);
    var s := SplitAt(lines, lim, p.eol, pick);
    SplitEnds(lines, s);
    HeadLinesEnded(s, p.eol);
    LinesOfCat(KeptLines(s, p.eol));
    HeadFits(lines, lim, p.eol, pick);
    KeptSize(s, p.eol);
  }

  // ---- compacting again ----

  /** The written file: the current state with a block of lines in it, then the
      marker line. */
  function Written(kept: seq<Text>, block: seq<Text>, k: nat, eol: Text): seq<Text>
    requires k <= |kept|
  {
    kept[..k] + block + kept[k..] + [MARKER + eol]
  }

  predicate NoMarker(lines: seq<Text>) { NoneOf(lines, IsMarker) }

  lemma MarkerLineEnds(eol: Text)
    requires IsEol(eol)
    ensures IsMarker(MARKER + eol) && Ended(MARKER + eol)
  {
    var l := MARKER + eol;
    assert l[0] == '<' && TrimLeft(l) == l;
    assert l[..|l| - 1] == if eol == "\n" then MARKER else MARKER + "\r";
    assert (MARKER + "\r")[..|MARKER|] == MARKER;
    assert MARKER[|MARKER| - 1] == '>' && TrimRight(MARKER) == MARKER;
    assert TrimRight(MARKER + "\r") == MARKER;
  }

  lemma WrittenEnds(kept: seq<Text>, block: seq<Text>, k: nat, eol: Text)
    requires AllEnded(kept) && AllEnded(block) && k <= |kept| && IsEol(eol)
    ensures AllEnded(Written(kept, block, k, eol))
  {
    MarkerLineEnds(eol);
    assert AllEnded(kept[..k]) && AllEnded(kept[k..]);
  }

  /** A text with more than line ends in it is not trimmed away. */
  lemma {:induction false} TrimEndKeeps(s: Text, i: nat)
    requires i < |s| && !IsEnd(s[i])
    ensures TrimEnd(s) != ""
    decreases |s|
  {
    if IsEnd(s[|s| - 1]) { TrimEndKeeps(s[..|s| - 1], i); }
  }

  lemma {:induction false} FirstNonSpace(l: Text) returns (i: nat)
    requires !Blank(l)
    ensures i < |l| && !IsSpace(l[i])
    decreases |l|
  {
    if !IsSpace(l[0]) { return 0; }
    i := FirstNonSpace(l[1..]);
    i := i + 1;
  }

  lemma MovesSomething(rest: seq<Text>)
    requires rest != [] && IsMarker(rest[|rest| - 1])
    ensures TrimEnd(Cat(MovedLines(rest))) != ""
  {
    MarkerIsNotBlank(rest[|rest| - 1]);
    TrimmedStays(rest, Blank);
    var moved := MovedLines(rest);
    var i := FirstNonSpace(moved[0]);
    assert Cat(moved) == moved[0] + Cat(moved[1..]);
    assert Cat(moved)[i] == moved[0][i];
    TrimEndKeeps(Cat(moved), i);
  }

  /** A file whose last line is the marker: it moves nothing exactly when no
      line before is one. */
  lemma MovesNothingExactly(all: seq<Text>, p: Plan)
    requires all != [] && IsMarker(all[|all| - 1]) && PlansMarked(all, MarkerAt(all), p)
    ensures var before := all[..|all| - 1];
            && (p.moved == "" <==> NoMarker(before))
            && (NoMarker(before) ==> p.current == Cat(before))
  {
    var n, m := |all| - 1, MarkerAt(all);
    FirstIsLast(all, IsMarker);
    if m == n {
      assert all[m + 1..] == [];
    } else {
      var rest := all[m + 1..];
      assert rest[|rest| - 1] == all[n];
      MovesSomething(rest);
    }
  }

  /** Compacting the written file again moves nothing, whatever the limits,
      exactly when no line of the inserted block is itself the marker line. */
  lemma CompactAgainMovesNothing(
    kept: seq<Text>, block: seq<Text>, k: nat, eol: Text, lim: Limits, pick: Text -> bool, p: Plan)
    requires AllEnded(kept) && AllEnded(block) && NoMarker(kept) && k <= |kept| && IsEol(eol)
    requires Plans(Cat(Written(kept, block, k, eol)), lim, pick, p)
    ensures p.marker && (p.moved == "" <==> NoMarker(block))
    ensures NoMarker(block) ==> p.current == Cat(kept[..k] + block + kept[k..])
  {
    var all := Written(kept, block, k, eol);
    WrittenEnds(kept, block, k, eol);
    LinesOfCat(all);
    MarkerLineEnds(eol);
    NoneInserted(kept, block, k, IsMarker);
    assert all[|all| - 1] == MARKER + eol && all[..|all| - 1] == kept[..k] + block + kept[k..];
    MovesNothingExactly(all, p);
  }

  /** No plan keeps a marker line in the current state. */
  lemma KeptHasNoMarker(body: Text, lim: Limits, pick: Text -> bool, p: Plan)
    requires Plans(body, lim, pick, p) && p.moved != ""
    ensures AllEnded(Lines(p.current)) && NoMarker(Lines(p.current)) && p.current == Cat(Lines(p.current))
  {
    var lines := Lines(body);
    LinesEnded(body);
    var m := MarkerAt(lines);
    if m < |lines| {
      assert AllEnded(lines[..m]) && NoMarker(lines[..m]);
      LinesOfCat(lines[..m]);
    } else {
      var s := SplitAt(lines, lim, p.eol, pick);
      SplitEnds(lines, s);
      HeadLinesEnded(s, p.eol);
      LinesOfCat(KeptLines(s, p.eol));
      KeptLinesNoMarker(lines, s, p.eol);
    }
  }

  lemma KeptLinesNoMarker(lines: seq<Text>, s: Split, eol: Text)
    requires NoMarker(lines) && s.head + s.rest + s.tail == lines && IsEol(eol)
    ensures NoMarker(KeptLines(s, eol))
  {
    EolIsBlank(eol);
    BlankTrims(eol);
    forall i | 0 <= i < |s.head| ensures !IsMarker(s.head[i]) { assert s.head[i] == lines[i]; }
    forall i | 0 <= i < |s.tail| ensures !IsMarker(s.tail[i]) { assert s.tail[i] == lines[|s.head| + |s.rest| + i]; }
  }
}
