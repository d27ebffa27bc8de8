/** `planCompact` of cmd/aimem/handoff.go: which lines of a handoff stay and
    which are archived. The test for a closing section's first line is the
    parameter pick. */
module Handoff {
  import opened Options
  import opened Lists
  import opened HandoffText

  const MARKER: Text := "<!-- aimem: history below -->"
  const TAIL_LINES := 10

  predicate IsMarker(l: Text) { TrimSpace(l) == MARKER }

  predicate IsHeading(l: Text) { var t := TrimSpace(l); t != "" && t[0] == '#' }

  datatype Limits = Limits(lines: int, bytes: int, reserveLines: int, reserveBytes: int)

  /** current is the new current state without the marker line, moved the
      history to archive, first and last its 1-based range. */
  datatype Plan = Plan(current: Text, moved: Text, first: nat, last: nat, eol: Text, marker: bool, closing: Option<nat>)

  // ---- the split, on lines ----

  function MarkerAt(lines: seq<Text>): (i: nat)
    ensures i <= |lines|
  {
    FirstAt(lines, IsMarker)
  }

  /** The first closing line among the last window lines, never the first
      line of the file; |lines| when there is none. */
  function PickUpAt(lines: seq<Text>, from: nat, pick: Text -> bool): (i: nat)
    requires from <= |lines|
    ensures from <= i <= |lines| && (i < |lines| ==> pick(lines[i])) && forall k :: from <= k < i ==> !pick(lines[k])
    decreases |lines| - from
  {
    if from == |lines| || pick(lines[from]) then from else PickUpAt(lines, from + 1, pick)
  }

  function WindowStart(n: nat, window: nat): nat {
    var s := if n - window > 1 then n - window else 1;
    if s <= n then s else n
  }

  /** How many lines fit both budgets, greedily from the first. */
  function Fill(pre: seq<Text>, lines: int, bytes: int, n: nat, size: nat): (k: nat)
    requires n <= |pre|
    ensures n <= k <= |pre|
    decreases |pre| - n
  {
    if n < |pre| && n < lines && size + |pre[n]| <= bytes then Fill(pre, lines, bytes, n + 1, size + |pre[n]|) else n
  }

  lemma {:induction false} FillFits(pre: seq<Text>, lines: int, bytes: int, n: nat, size: nat)
    requires n <= |pre| && size == |Cat(pre[..n])| && n <= lines && size <= bytes
    ensures var k := Fill(pre, lines, bytes, n, size);
            && k <= lines && |Cat(pre[..k])| <= bytes
            && (k < |pre| ==> k == lines || |Cat(pre[..k + 1])| > bytes)
    decreases |pre| - n
  {
    if n < |pre| {
      CatAppend(pre[..n], [pre[n]]);
      assert pre[..n] + [pre[n]] == pre[..n + 1] && Cat([pre[n]]) == pre[n] + Cat([pre[n]][1..]);
      if n < lines && size + |pre[n]| <= bytes { FillFits(pre, lines, bytes, n + 1, size + |pre[n]|); }
    }
  }

  /** Where the head ends: before its last heading, else before its last blank
      line, in its second half; else where the budget ran out. */
  ghost predicate IsCut(lines: seq<Text>, n: nat, j: nat)
    requires n < |lines|
  {
    || LastBoundary(lines, n, j, IsHeading)
    || (NoBoundary(lines, n, IsHeading) && LastBoundary(lines, n, j, Blank))
    || (NoBoundary(lines, n, IsHeading) && NoBoundary(lines, n, Blank) && j == n)
  }

  function CutAt(lines: seq<Text>, n: nat): (j: nat)
    requires n < |lines|
    ensures IsCut(lines, n, j) && j <= n
  {
    var h := SearchBack(lines, n, n, IsHeading);
    if h.Some? then h.value
    else
      var b := SearchBack(lines, n, n, Blank);
      b.UnwrapOr(n)
  }

  /** The file's lines as head, moved part and closing section. */
  datatype Split = Split(head: seq<Text>, rest: seq<Text>, tail: seq<Text>)

  function TailStart(lines: seq<Text>, pick: Text -> bool): (i: nat)
    ensures i <= |lines|
  {
    PickUpAt(lines, WindowStart(|lines|, TAIL_LINES), pick)
  }

  function BudgetLines(lim: Limits, tail: seq<Text>): int { lim.lines - lim.reserveLines - |tail| - 3 }

  function BudgetBytes(lim: Limits, tail: seq<Text>, eol: Text): int {
    lim.bytes - lim.reserveBytes - |Cat(tail)| - |MARKER| - 3 * |eol|
  }

  function SplitAt(lines: seq<Text>, lim: Limits, eol: Text, pick: Text -> bool): (s: Split)
    ensures s.head + s.rest + s.tail == lines
  {
    var i := TailStart(lines, pick);
    var pre, tail := lines[..i], lines[i..];
    var n := Fill(pre, BudgetLines(lim, tail), BudgetBytes(lim, tail, eol), 0, 0);
    var cut := if n < |pre| then CutAt(pre, n) else n;
    Split(pre[..cut], pre[cut..], tail)
  }

  /** The head, with a blank line before a closing section that follows. */
  function HeadLines(s: Split, eol: Text): seq<Text> {
    if s.head != [] && s.tail != [] && !HasSuffix(Cat(s.head), eol + eol) then s.head + [eol] else s.head
  }

  /** The current state's lines, with a blank line at the end. */
  function KeptLines(s: Split, eol: Text): seq<Text> {
    var kept := HeadLines(s, eol) + s.tail;
    if kept != [] && !HasSuffix(Cat(kept), eol + eol) then kept + [eol] else kept
  }

  // ---- the moved part ----

  /** The lines moved: all of rest without the blank lines at either end. */
  function MovedLines(rest: seq<Text>): seq<Text> { Trimmed(rest, Blank) }

  // ---- the program ----

  method FindMarker(lines: seq<Text>) returns (i: nat)
    ensures i == MarkerAt(lines)
  {
    i := 0;
    assert lines[0..] == lines;
    while i < |lines| && !IsMarker(lines[i])
      invariant i <= |lines| && i + MarkerAt(lines[i..]) == MarkerAt(lines)
    {
      assert lines[i..][0] == lines[i] && lines[i..][1..] == lines[i + 1..];
      i := i + 1;
    }
  }

  method FirstPickUp(lines: seq<Text>, pick: Text -> bool) returns (i: nat)
    ensures i == TailStart(lines, pick)
  {
    i := WindowStart(|lines|, TAIL_LINES);
    while i < |lines| && !pick(lines[i])
      invariant i <= |lines| && PickUpAt(lines, i, pick) == TailStart(lines, pick)
    {
      i := i + 1;
    }
  }

  method FillHead(pre: seq<Text>, lines: int, bytes: int) returns (n: nat)
    ensures n == Fill(pre, lines, bytes, 0, 0)
  {
    n := 0;
    var size: nat := 0;
    while n < |pre| && n < lines && size + |pre[n]| <= bytes
      invariant n <= |pre| && Fill(pre, lines, bytes, n, size) == Fill(pre, lines, bytes, 0, 0)
    {
      size := size + |pre[n]|;
      n := n + 1;
    }
  }

  method CutBoundary(lines: seq<Text>, n: nat) returns (j: nat)
    requires n < |lines|
    ensures j == CutAt(lines, n)
  {
    var at := ScanBack(lines, n, IsHeading);
    if at.None? { at := ScanBack(lines, n, Blank); }
    j := at.UnwrapOr(n);
  }

  /** The inner loop: one kind of boundary, from line n back to the middle. */
  method ScanBack<T>(lines: seq<T>, n: nat, boundary: T -> bool) returns (k: Option<nat>)
    requires n < |lines|
    ensures k == SearchBack(lines, n, n, boundary)
  {
    var j := n;
    while j > n / 2
      invariant 0 <= j <= n && forall i :: j < i <= n ==> !boundary(lines[i])
      invariant SearchBack(lines, n, j, boundary) == SearchBack(lines, n, n, boundary)
    {
      if boundary(lines[j]) { return Some(j); }
      j := j - 1;
    }
    k := None;
  }

  /** `setMoved` on lines[from..to]. */
  method SetMoved(lines: seq<Text>, from0: nat, to0: nat) returns (moved: Text, first: nat, last: nat)
    requires from0 <= to0 <= |lines|
    ensures moved == TrimEnd(Cat(MovedLines(lines[from0..to0])))
    ensures MovedLines(lines[from0..to0]) != [] ==>
              1 <= first <= last <= |lines| && lines[first - 1..last] == MovedLines(lines[from0..to0])
  {
    var from, to := from0, to0;
    while from < to && Blank(lines[from])
      invariant from0 <= from <= to && forall i :: from0 <= i < from ==> Blank(lines[i])
    {
      from := from + 1;
    }
    while to > from && Blank(lines[to - 1])
      invariant from <= to <= to0 && forall i :: to <= i < to0 ==> Blank(lines[i])
      invariant from < to ==> !Blank(lines[from])
    {
      to := to - 1;
    }
    TrimmedRange(lines, from0, from, to, to0, Blank);
    if from == to { return "", 0, 0; }
    moved := TrimEnd(Cat(lines[from..to]));
    first, last := from + 1, to;
  }

  /** What `planCompact` answers. */
  ghost predicate Plans(body: Text, lim: Limits, pick: Text -> bool, p: Plan) {
    var lines := Lines(body);
    var m := MarkerAt(lines);
    && p.eol == Eol(body)
    && if m < |lines| then PlansMarked(lines, m, p)
       else if |lines| <= lim.lines && |body| <= lim.bytes then
         !p.marker && p.current == body && p.moved == "" && p.closing.None?
       else
         !p.marker && PlansCut(SplitAt(lines, lim, p.eol, pick), p)
  }

  ghost predicate PlansMarked(lines: seq<Text>, m: nat, p: Plan)
    requires m < |lines|
  {
    p.marker && p.current == Cat(lines[..m]) && p.moved == TrimEnd(Cat(MovedLines(lines[m + 1..]))) && p.closing.None?
  }

  ghost predicate PlansCut(s: Split, p: Plan) {
    && p.moved == TrimEnd(Cat(MovedLines(s.rest)))
    && (p.moved != "" ==> p.current == Cat(KeptLines(s, p.eol)))
    && (p.moved != "" ==> p.closing == if s.tail == [] then None else Some(|Cat(HeadLines(s, p.eol))|))
  }

  method PlanMarked(lines: seq<Text>, m: nat, eol: Text) returns (p: Plan)
    requires m < |lines|
    ensures p.eol == eol && PlansMarked(lines, m, p)
  {
    var moved, first, last := SetMoved(lines, m + 1, |lines|);
    assert lines[m + 1..|lines|] == lines[m + 1..];
    p := Plan(Cat(lines[..m]), moved, first, last, eol, true, None);
  }

  method PlanCompact(body: Text, lim: Limits, pick: Text -> bool) returns (p: Plan)
    ensures Plans(body, lim, pick, p)
  {
    var eol := Eol(body);
    var lines := Lines(body);
    LinesEnded(body);
    var m := FindMarker(lines);
    if m < |lines| {
      p := PlanMarked(lines, m, eol);
      return;
    }
    if |lines| <= lim.lines && |body| <= lim.bytes { return Plan(body, "", 0, 0, eol, false, None); }
    p := PlanOver(body, lines, lim, eol, pick);
  }

  method CutLines(lines: seq<Text>, lim: Limits, eol: Text, pick: Text -> bool) returns (s: Split)
    ensures s == SplitAt(lines, lim, eol, pick)
  {
    var i := FirstPickUp(lines, pick);
    var pre, tail := lines[..i], lines[i..];
    var n := FillHead(pre, BudgetLines(lim, tail), BudgetBytes(lim, tail, eol));
    if n < |pre| { n := CutBoundary(pre, n); }
    s := Split(pre[..n], pre[n..], tail);
  }

  /** The file has no marker and is over a limit. */
  method PlanOver(body: Text, lines: seq<Text>, lim: Limits, eol: Text, pick: Text -> bool) returns (p: Plan)
    requires AllEnded(lines) && IsEol(eol)
    ensures p.eol == eol && !p.marker && PlansCut(SplitAt(lines, lim, eol, pick), p)
  {
    var s := CutLines(lines, lim, eol, pick);
    SplitEnds(lines, s);
    p := PlanCut(body, s, eol);
  }

  method PlanCut(body: Text, s: Split, eol: Text) returns (p: Plan)
    requires AllEnded(s.head) && AllEnded(s.tail) && IsEol(eol)
    ensures p.eol == eol && !p.marker && PlansCut(s, p)
  {
    var head := JoinHead(s.head, s.tail, eol, s.rest);
    var pre := s.head + s.rest;
    var moved, first, last := SetMoved(pre, |s.head|, |pre|);
    assert pre[|s.head|..|pre|] == s.rest;
    var closing := if s.tail == [] then None else Some(|head|);
    if moved == "" { return Plan(Closed(body, eol), "", first, last, eol, false, None); }
    KeptIsClosed(s, eol);
    p := Plan(Closed(head + Cat(s.tail), eol), moved, first, last, eol, false, closing);
  }

  lemma SplitEnds(lines: seq<Text>, s: Split)
    requires AllEnded(lines) && s.head + s.rest + s.tail == lines
    ensures AllEnded(s.head) && AllEnded(s.rest) && AllEnded(s.tail)
  {
    forall i | 0 <= i < |s.head| ensures Ended(s.head[i]) { assert s.head[i] == lines[i]; }
    forall i | 0 <= i < |s.rest| ensures Ended(s.rest[i]) { assert s.rest[i] == lines[|s.head| + i]; }
    forall i | 0 <= i < |s.tail| ensures Ended(s.tail[i]) { assert s.tail[i] == lines[|s.head| + |s.rest| + i]; }
  }

  /** A text that ends in a blank line, or nothing. */
  function Closed(s: Text, eol: Text): Text { if s != "" && !HasSuffix(s, eol + eol) then s + eol else s }

  lemma KeptIsClosed(s: Split, eol: Text)
    requires AllEnded(s.head) && AllEnded(s.tail) && IsEol(eol)
    ensures Cat(KeptLines(s, eol)) == Closed(Cat(HeadLines(s, eol)) + Cat(s.tail), eol)
  {
    var kept := HeadLines(s, eol) + s.tail;
    HeadLinesEnded(s, eol);
    CatAppend(HeadLines(s, eol), s.tail);
    CatIsEmpty(kept);
    CatAppend(kept, [eol]);
    CatOne(eol);
  }

  method JoinHead(head: seq<Text>, tail: seq<Text>, eol: Text, ghost rest: seq<Text>) returns (text: Text)
    requires AllEnded(head) && AllEnded(tail)
    ensures text == Cat(HeadLines(Split(head, rest, tail), eol))
  {
    text := Cat(head);
    CatIsEmpty(head);
    CatIsEmpty(tail);
    if text != "" && !HasSuffix(text, eol + eol) && Cat(tail) != "" {
      CatAppend(head, [eol]);
      CatOne(eol);
      text := text + eol;
    }
  }

  lemma CatOne(l: Text)
    ensures Cat([l]) == l
  {
    assert Cat([l]) == l + Cat([l][1..]);
  }

  lemma CatIsEmpty(lines: seq<Text>)
    requires AllEnded(lines)
    ensures Cat(lines) == "" <==> lines == []
  {
    if lines != [] { assert Ended(lines[0]); }
  }

  lemma EolEnded(eol: Text)
    requires IsEol(eol)
    ensures Ended(eol)
  {
  }

  lemma HeadLinesEnded(s: Split, eol: Text)
    requires AllEnded(s.head) && AllEnded(s.tail) && IsEol(eol)
    ensures AllEnded(HeadLines(s, eol)) && AllEnded(HeadLines(s, eol) + s.tail) && AllEnded(KeptLines(s, eol))
  {
    EolEnded(eol);
  }
}
