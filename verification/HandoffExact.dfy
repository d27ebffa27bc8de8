/** Where `aimem handoff compact` cuts, what it keeps and where its summary goes,
    said of the file's lines and of numbers. */
module HandoffExact {
  import opened Options
  import opened Lists
  import opened HandoffText
  import opened Handoff
  import opened HandoffLaws
  import opened HandoffProgram
  import TextLines

  /** The line that marks the end of the current state. */
  predicate MarkerText(l: Text) { TrimSpace(l) == "<!-- aimem: history below -->" }

  /** With a marker line, the first one decides, whatever the limits; without one, a
      file within both limits stays. */
  lemma PlansExactly(body: Text, lim: Limits, pick: Text -> bool, p: Plan)
    requires Plans(body, lim, pick, p)
    ensures p.marker <==> exists i :: 0 <= i < |Lines(body)| && MarkerText(Lines(body)[i])
    ensures p.marker ==>
              exists m :: 0 <= m < |Lines(body)| && MarkerText(Lines(body)[m])
                       && (forall i :: 0 <= i < m ==> !MarkerText(Lines(body)[i]))
                       && p.current == Cat(Lines(body)[..m]) && p.moved == TrimEnd(Cat(Trimmed(Lines(body)[m + 1..], Blank)))
    ensures !p.marker && |Lines(body)| <= lim.lines && |body| <= lim.bytes ==> p.moved == "" && p.current == body
  {
    var lines := Lines(body);
    var m := MarkerAt(lines);
    forall l ensures MarkerText(l) <==> IsMarker(l) { }
    if m < |lines| { assert MarkerText(lines[m]); }
  }

  // ---- the closing section ----

  /** The closing section starts at line i: the first closing line among the last
      ten lines, but never the file's first line; at the end when there is none. */
  ghost predicate ClosesAt(lines: seq<Text>, pick: Text -> bool, i: nat) {
    && i <= |lines|
    && (i < |lines| ==> i >= 1 && i >= |lines| - 10 && pick(lines[i]))
    && forall k :: 1 <= k < i && k >= |lines| - 10 ==> !pick(lines[k])
  }

  lemma TailClosesAt(lines: seq<Text>, pick: Text -> bool)
    ensures ClosesAt(lines, pick, TailStart(lines, pick))
  {
  }

  // ---- the head ----

  /** The first n of the lines fit, and no more do. */
  ghost predicate FitsUpTo(pre: seq<Text>, n: nat, lines: int, bytes: int) {
    && n <= |pre|
    && (n > 0 ==> n <= lines && |Cat(pre[..n])| <= bytes)
    && (n < |pre| ==> n >= lines || |Cat(pre[..n + 1])| > bytes)
  }

  lemma {:induction false} FillIsExact(pre: seq<Text>, lines: int, bytes: int, n: nat, size: nat)
    requires n <= |pre| && size == |Cat(pre[..n])| && (n > 0 ==> n <= lines && size <= bytes)
    ensures FitsUpTo(pre, Fill(pre, lines, bytes, n, size), lines, bytes)
    decreases |pre| - n
  {
    if n < |pre| {
      CatAppend(pre[..n], [pre[n]]);
      CatOne(pre[n]);
      assert pre[..n] + [pre[n]] == pre[..n + 1];
      if n < lines && size + |pre[n]| <= bytes { FillIsExact(pre, lines, bytes, n + 1, size + |pre[n]|); }
    }
  }

  predicate Heading(l: Text) { TrimSpace(l) != "" && TrimSpace(l)[0] == '#' }

  predicate Empty(l: Text) { TrimSpace(l) == "" }

  /** Of the lines of the second half of the first n, and the one after them, line j
      is the last such. */
  ghost predicate LastSuch(pre: seq<Text>, n: nat, j: nat, such: Text -> bool)
    requires n < |pre|
  {
    n < 2 * j <= 2 * n && such(pre[j]) && forall k :: j < k <= n ==> !such(pre[k])
  }

  ghost predicate NoneSuch(pre: seq<Text>, n: nat, such: Text -> bool)
    requires n < |pre|
  {
    forall k :: n < 2 * k <= 2 * n ==> !such(pre[k])
  }

  /** The cut is before the last heading there; else before the last blank line; else
      at n. */
  ghost predicate CutsAt(pre: seq<Text>, n: nat, cut: nat)
    requires n < |pre|
  {
    || LastSuch(pre, n, cut, Heading)
    || (NoneSuch(pre, n, Heading) && LastSuch(pre, n, cut, Empty))
    || (NoneSuch(pre, n, Heading) && NoneSuch(pre, n, Empty) && cut == n)
  }

  lemma BlankIsEmpty(l: Text)
    ensures Blank(l) <==> TrimSpace(l) == ""
  {
    if Blank(l) { BlankTrims(l); } else { InkRemains(l); }
  }

  lemma {:induction false} InkRemains(l: Text)
    requires !Blank(l)
    ensures TrimSpace(l) != ""
    decreases |l|
  {
    if IsSpace(l[0]) {
      InkRemains(l[1..]);
    } else {
      TrimRightKeeps(l);
    }
  }

  lemma {:induction false} TrimRightKeeps(l: Text)
    requires l != "" && !IsSpace(l[0])
    ensures TrimRight(l) != ""
    decreases |l|
  {
    if IsSpace(l[|l| - 1]) { TrimRightKeeps(l[..|l| - 1]); }
  }

  lemma SuchAsBoundary(pre: seq<Text>, n: nat, j: nat, test: Text -> bool, such: Text -> bool)
    requires n < |pre| && forall l :: test(l) <==> such(l)
    ensures LastBoundary(pre, n, j, test) ==> LastSuch(pre, n, j, such)
    ensures NoBoundary(pre, n, test) ==> NoneSuch(pre, n, such)
  {
  }

  lemma CutIsExact(pre: seq<Text>, n: nat)
    requires n < |pre|
    ensures CutsAt(pre, n, CutAt(pre, n))
  {
    forall l ensures Blank(l) <==> Empty(l) { BlankIsEmpty(l); }
    SuchAsBoundary(pre, n, CutAt(pre, n), IsHeading, Heading);
    SuchAsBoundary(pre, n, CutAt(pre, n), Blank, Empty);
    assert IsCut(pre, n, CutAt(pre, n));
  }

  /** A blank line at the end of a text that is not empty and has none. */
  function WithBlank(s: Text, eol: Text): Text { if s != "" && !HasSuffix(s, eol + eol) then s + eol else s }

  /** A file over a limit keeps the head that fits both limits less the reserve, the
      closing section and three lines for the marker and blank lines; cut back to a
      boundary; and the closing section, set off by blank lines. All between moves. */
  lemma CutsExactly(body: Text, lim: Limits, pick: Text -> bool, p: Plan) returns (i: nat, n: nat, cut: nat)
    requires Plans(body, lim, pick, p) && !p.marker && (|Lines(body)| > lim.lines || |body| > lim.bytes)
    ensures ClosesAt(Lines(body), pick, i) && cut <= n <= i
    ensures var (lines, rest) := (Lines(body), Lines(body)[i..]);
            FitsUpTo(lines[..i], n, lim.lines - lim.reserveLines - |rest| - 3,
                     lim.bytes - lim.reserveBytes - |Cat(rest)| - |"<!-- aimem: history below -->"| - 3 * |p.eol|)
    ensures if n < i then CutsAt(Lines(body)[..i], n, cut) else cut == n
    ensures p.moved == TrimEnd(Cat(Trimmed(Lines(body)[cut..i], Blank)))
    ensures var (head, rest) := (Cat(Lines(body)[..cut]), Cat(Lines(body)[i..]));
            p.moved != "" ==> p.current == WithBlank((if rest == "" then head else WithBlank(head, p.eol)) + rest, p.eol)
  {
    var lines := Lines(body);
    LinesEnded(body);
    UnmarkedPlan(body, lim, pick, p);
    i, n, cut := SplitsExactly(lines, lim, p.eol, pick);
    var s := Split(lines[..cut], lines[cut..i], lines[i..]);
    assert s.head + s.rest + s.tail == lines;
    SplitEnds(lines, s);
    PlanReads(s, p);
  }

  lemma UnmarkedPlan(body: Text, lim: Limits, pick: Text -> bool, p: Plan)
    requires Plans(body, lim, pick, p) && !p.marker && (|Lines(body)| > lim.lines || |body| > lim.bytes)
    ensures IsEol(p.eol) && PlansCut(SplitAt(Lines(body), lim, p.eol, pick), p)
  {
  }

  lemma PlanReads(s: Split, p: Plan)
    requires PlansCut(s, p) && IsEol(p.eol) && AllEnded(s.head) && AllEnded(s.tail)
    ensures p.moved == TrimEnd(Cat(Trimmed(s.rest, Blank)))
    ensures var (head, rest) := (Cat(s.head), Cat(s.tail));
            p.moved != "" ==> p.current == WithBlank((if rest == "" then head else WithBlank(head, p.eol)) + rest, p.eol)
  {
    KeptReads(s, p.eol);
  }

  lemma SplitsExactly(lines: seq<Text>, lim: Limits, eol: Text, pick: Text -> bool) returns (i: nat, n: nat, cut: nat)
    ensures ClosesAt(lines, pick, i) && cut <= n <= i
    ensures FitsUpTo(lines[..i], n, lim.lines - lim.reserveLines - |lines[i..]| - 3,
                     lim.bytes - lim.reserveBytes - |Cat(lines[i..])| - |"<!-- aimem: history below -->"| - 3 * |eol|)
    ensures if n < i then CutsAt(lines[..i], n, cut) else cut == n
    ensures SplitAt(lines, lim, eol, pick) == Split(lines[..cut], lines[cut..i], lines[i..])
  {
    i := TailStart(lines, pick);
    TailClosesAt(lines, pick);
    var pre, tail := lines[..i], lines[i..];
    var L, B := BudgetLines(lim, tail), BudgetBytes(lim, tail, eol);
    n := Fill(pre, L, B, 0, 0);
    assert pre[..0] == [] && Cat([]) == "";
    FillIsExact(pre, L, B, 0, 0);
    cut := if n < |pre| then CutAt(pre, n) else n;
    if n < |pre| { CutIsExact(pre, n); }
    assert pre[..cut] == lines[..cut] && pre[cut..] == lines[cut..i];
  }

  lemma KeptReads(s: Split, eol: Text)
    requires AllEnded(s.head) && AllEnded(s.tail) && IsEol(eol)
    ensures var (head, rest) := (Cat(s.head), Cat(s.tail));
            Cat(KeptLines(s, eol)) == WithBlank((if rest == "" then head else WithBlank(head, eol)) + rest, eol)
  {
    KeptIsClosed(s, eol);
    CatIsEmpty(s.head);
    CatIsEmpty(s.tail);
    CatAppend(s.head, [eol]);
    CatOne(eol);
  }

  // ---- the summary ----

  /** Where the summary goes when the plan cut no closing section: before the one
      found ahead of the blank lines at the end, else last. */
  lemma InsertsExactly(lines: seq<Text>, pick: Text -> bool) returns (end: nat)
    ensures end <= |lines| && (forall k :: end <= k < |lines| ==> Blank(lines[k])) && (end > 0 ==> !Blank(lines[end - 1]))
    ensures var k := InsertAt(lines, pick);
            if k < end then ClosesAt(lines[..end], pick, k) else k == |lines| && ClosesAt(lines[..end], pick, end)
  {
    end := End(lines);
    TailClosesAt(lines[..end], pick);
  }

  /** A summary is at most twelve lines and a kilobyte, without blank lines or code
      fences, in the backend's order. */
  lemma SummaryIsShort(p: Plan, lim: Limits, title: Text, out: Text)
    ensures var summary := Clip(Usable(out), RoomLines(Lines(p.current), lim), RoomBytes(Lines(p.current), title, p.eol, lim), |p.eol|);
            RoomLines(Lines(p.current), lim) > 0 && RoomBytes(Lines(p.current), title, p.eol, lim) > 0 ==>
              && |summary| <= 12 && Size(summary, |p.eol|) <= 1024 && summary <= Usable(out)
              && forall i :: 0 <= i < |summary| ==> TrimSpace(summary[i]) != "" && !("```" <= TrimSpace(summary[i]))
  {
    var summary := Clip(Usable(out), RoomLines(Lines(p.current), lim), RoomBytes(Lines(p.current), title, p.eol, lim), |p.eol|);
    if RoomLines(Lines(p.current), lim) > 0 && RoomBytes(Lines(p.current), title, p.eol, lim) > 0 {
      ClipIsMaximal(Usable(out), RoomLines(Lines(p.current), lim), RoomBytes(Lines(p.current), title, p.eol, lim), |p.eol|);
      UsableIsInk(out);
      forall i | 0 <= i < |summary| ensures summary[i] == Usable(out)[i] { }
    }
  }

  lemma UsableIsInk(out: Text)
    ensures forall i :: 0 <= i < |Usable(out)| ==> TrimSpace(Usable(out)[i]) != "" && !("```" <= TrimSpace(Usable(out)[i]))
  {
    KeptAreNot(TrimTails(TextLines.Split(out)));
    forall l ensures Blank(l) <==> TrimSpace(l) == "" { BlankIsEmpty(l); }
  }

  lemma {:induction false} KeptAreNot(lines: seq<Text>)
    ensures forall i :: 0 <= i < |Dropping(lines, Dropped)| ==> !Dropped(Dropping(lines, Dropped)[i])
    decreases |lines|
  {
    if lines != [] { KeptAreNot(lines[1..]); }
  }
}
