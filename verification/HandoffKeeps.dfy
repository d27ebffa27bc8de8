/** What one `aimem handoff compact` keeps across its two files: both limits,
    every line of the old handoff, and that compacting again changes nothing. */
module HandoffKeeps {
  import opened Options
  import opened Lists
  import opened HandoffText
  import opened Handoff
  import opened HandoffLaws
  import opened HandoffProgram
  import TextLines

  // ---- the texts of a file: its non-blank lines without their ends ----

  function TrimEnds(lines: seq<Text>): (r: seq<Text>)
    decreases |lines|
  {
    if lines == [] then [] else [TrimEnd(lines[0])] + TrimEnds(lines[1..])
  }

  lemma {:induction false} TrimEndsAppend(a: seq<Text>, b: seq<Text>)
    ensures TrimEnds(a + b) == TrimEnds(a) + TrimEnds(b)
    decreases |a|
  {
    if a == [] {
      assert a + b == b;
    } else {
      assert (a + b)[1..] == a[1..] + b;
      TrimEndsAppend(a[1..], b);
    }
  }

  /** Of lines with their ends. */
  function TextsOfLines(lines: seq<Text>): seq<Text> { TrimEnds(NonBlank(lines)) }

  function Texts(s: Text): seq<Text> { TextsOfLines(SplitAfter(s)) }

  lemma TextsOfBoth(a: seq<Text>, b: seq<Text>)
    ensures TextsOfLines(a + b) == TextsOfLines(a) + TextsOfLines(b)
  {
    DroppingAppend(a, b, Blank);
    TrimEndsAppend(NonBlank(a), NonBlank(b));
  }

  lemma TextsOfOne(l: Text)
    ensures TextsOfLines([l]) == if Blank(l) then [] else [TrimEnd(l)]
  {
    DroppingOne(l, Blank);
    assert TrimEnds([l]) == [TrimEnd(l)] + TrimEnds([l][1..]);
  }

  predicate AtLineStart(s: Text) { s == "" || s[|s| - 1] == '\n' }

  /** What follows a line's end starts a line. */
  lemma {:induction false} SplitHere(s: Text, t: Text)
    requires AtLineStart(s)
    ensures SplitAfter(s + t) == SplitAfter(s) + SplitAfter(t)
    decreases |s|
  {
    if s == "" {
      assert s + t == t;
    } else {
      assert (s + t)[1..] == s[1..] + t;
      SplitHere(s[1..], t);
      if s[0] != '\n' { assert s[1..] != ""; }
    }
  }

  lemma TextsHere(s: Text, t: Text)
    requires AtLineStart(s)
    ensures Texts(s + t) == Texts(s) + Texts(t)
  {
    SplitHere(s, t);
    TextsOfBoth(SplitAfter(s), SplitAfter(t));
  }

  lemma SplitIsEmpty(s: Text)
    ensures SplitAfter(s) == [] <==> s == ""
  {
    CatSplit(s);
  }

  /** One more character ends up in the last line, or starts one. */
  function WithMore(s: Text, ls: seq<Text>, c: char): seq<Text>
    requires s == "" <==> ls == []
  {
    if AtLineStart(s) then ls + [[c]] else ls[..|ls| - 1] + [ls[|ls| - 1] + [c]]
  }

  lemma {:induction false} SplitMore(s: Text, c: char)
    ensures SplitAfter(s) == [] <==> s == ""
    ensures SplitAfter(s + [c]) == WithMore(s, SplitAfter(s), c)
    decreases |s|
  {
    SplitIsEmpty(s);
    if s == "" {
      assert s + [c] == [c] && [c][1..] == "";
    } else {
      assert (s + [c])[1..] == s[1..] + [c];
      SplitMore(s[1..], c);
      assert s[1..] != "" ==> AtLineStart(s) == AtLineStart(s[1..]);
      MoreAtFront(s, SplitAfter(s[1..]), c);
    }
  }

  /** The step of that: the first character in front of the rest. */
  lemma MoreAtFront(s: Text, rest: seq<Text>, c: char)
    requires s != "" && (s[1..] == "" <==> rest == []) && (s[1..] != "" ==> AtLineStart(s) == AtLineStart(s[1..]))
    ensures var more := WithMore(s[1..], rest, c);
            WithMore(s, if s[0] == '\n' then ["\n"] + rest else if rest == [] then [[s[0]]] else [[s[0]] + rest[0]] + rest[1..], c) ==
            if s[0] == '\n' then ["\n"] + more else [[s[0]] + more[0]] + more[1..]
  {
    if s[0] != '\n' && rest != [] && !AtLineStart(s) && |rest| == 1 {
      assert [s[0]] + rest[0] + [c] == [s[0]] + (rest[0] + [c]);
    }
  }

  lemma {:induction false} BlankMore(l: Text, c: char)
    requires IsEnd(c)
    ensures Blank(l + [c]) == Blank(l)
    decreases |l|
  {
    if l == "" {
      assert "" + [c] == [c] && [c][1..] == "";
    } else {
      assert (l + [c])[1..] == l[1..] + [c];
      BlankMore(l[1..], c);
    }
  }

  /** A line's end says nothing about its text. */
  lemma EndSaysNothing(l: Text, c: char)
    requires IsEnd(c)
    ensures Blank(l + [c]) == Blank(l) && TrimEnd(l + [c]) == TrimEnd(l)
  {
    BlankMore(l, c);
    assert (l + [c])[..|l + [c]| - 1] == l;
  }

  /** A last line with more line ends to it. */
  lemma SameLast(front: seq<Text>, l: Text, l': Text)
    requires Blank(l) == Blank(l') && TrimEnd(l) == TrimEnd(l')
    ensures TextsOfLines(front + [l]) == TextsOfLines(front + [l'])
  {
    TextsOfBoth(front, [l]);
    TextsOfBoth(front, [l']);
    TextsOfOne(l);
    TextsOfOne(l');
  }

  /** Line ends at the end of a file add no text. */
  lemma TextsMore(s: Text, c: char)
    requires IsEnd(c)
    ensures Texts(s + [c]) == Texts(s)
  {
    var ls := SplitAfter(s);
    SplitMore(s, c);
    if AtLineStart(s) {
      assert [c][1..] == "" && Blank([c]);
      TextsOfBoth(ls, [[c]]);
      TextsOfOne([c]);
    } else {
      var front, l := ls[..|ls| - 1], ls[|ls| - 1];
      assert ls == front + [l];
      EndSaysNothing(l, c);
      SameLast(front, l, l + [c]);
    }
  }

  lemma {:induction false} TextsAndEnds(s: Text, ends: Text)
    requires forall i :: 0 <= i < |ends| ==> IsEnd(ends[i])
    ensures Texts(s + ends) == Texts(s)
    decreases |ends|
  {
    if ends == "" {
      assert s + ends == s;
    } else {
      var shorter := ends[..|ends| - 1];
      assert s + ends == (s + shorter) + [ends[|ends| - 1]];
      TextsAndEnds(s, shorter);
      TextsMore(s + shorter, ends[|ends| - 1]);
    }
  }

  lemma {:induction false} TextsTrimmed(s: Text)
    ensures Texts(TrimEnd(s)) == Texts(s)
    decreases |s|
  {
    if s != "" && IsEnd(s[|s| - 1]) {
      TextsTrimmed(s[..|s| - 1]);
      TextsMore(s[..|s| - 1], s[|s| - 1]);
      assert s == s[..|s| - 1] + [s[|s| - 1]];
    }
  }

  /** The line end a body's last line may lack makes no difference. */
  lemma TextsOfBody(body: Text)
    ensures TextsOfLines(Lines(body)) == Texts(body)
  {
    var ls := SplitAfter(body);
    if ls != [] && !HasSuffix(ls[|ls| - 1], "\n") {
      var front, l := ls[..|ls| - 1], ls[|ls| - 1];
      assert ls == front + [l];
      EolSaysNothing(l, Eol(body));
      SameLast(front, l, l + Eol(body));
    }
  }

  lemma EolSaysNothing(l: Text, eol: Text)
    requires IsEol(eol)
    ensures Blank(l + eol) == Blank(l) && TrimEnd(l + eol) == TrimEnd(l)
  {
    EndSaysNothing(l, '\n');
    EndSaysNothing(l, '\r');
    EndSaysNothing(l + "\r", '\n');
    assert l + "\r\n" == (l + "\r") + "\n";
  }

  lemma TextsOfCat(lines: seq<Text>)
    requires AllEnded(lines)
    ensures Texts(Cat(lines)) == TextsOfLines(lines)
  {
    SplitCat(lines);
  }

  // ---- the archive ----

  predicate HasTail(xs: seq<Text>, tail: seq<Text>) { |tail| <= |xs| && xs[|xs| - |tail|..] == tail }

  lemma EolIsEnd(eol: Text)
    requires IsEol(eol)
    ensures forall i :: 0 <= i < |eol| ==> IsEnd(eol[i])
    ensures eol[|eol| - 1] == '\n'
  {
  }

  /** A part that starts a line, and one or two line ends after it. */
  lemma PartAfter(before: Text, part: Text, eol: Text)
    requires AtLineStart(before) && IsEol(eol)
    ensures Texts(before + part + eol) == Texts(before) + Texts(part) && AtLineStart(before + part + eol)
    ensures Texts(before + part + eol + eol) == Texts(before) + Texts(part) && AtLineStart(before + part + eol + eol)
  {
    EolIsEnd(eol);
    TextsHere(before, part);
    TextsAndEnds(before + part, eol);
    TextsAndEnds(before + part + eol, eol);
  }

  /** A block that is appended follows the archive's texts and its heading. */
  lemma AppendedTexts(archive: Text, intro: Text, heading: Text, moved: Text, eol: Text)
    requires IsEol(eol) && !HasSuffix(TrimEnd(archive), moved)
    ensures Texts(Appended(archive, intro, heading, moved, eol)) ==
            Texts(if archive == "" then intro else archive) + Texts(heading) + Texts(moved)
  {
    var a := TrimEnd(if archive == "" then intro else archive);
    TextsTrimmed(if archive == "" then intro else archive);
    PartAfter("", a, eol);
    assert "" + a == a && Texts("") + Texts(a) == Texts(a);
    PartAfter(a + eol + eol, heading, eol);
    PartAfter(a + eol + eol + heading + eol + eol, moved, eol);
  }

  /** A line's start glued to the end of another line. */
  lemma {:induction false} SplitGlued(s: Text, t: Text)
    requires s != "" && '\n' !in s && t != ""
    ensures SplitAfter(t) != []
    ensures SplitAfter(s + t) == [s + SplitAfter(t)[0]] + SplitAfter(t)[1..]
    decreases |s|
  {
    assert (s + t)[1..] == s[1..] + t;
    CatSplit(t);
    if |s| == 1 {
      assert s[1..] == "" && s == [s[0]];
      assert (s + t)[1..] == t;
    } else {
      SplitGlued(s[1..], t);
      assert [s[0]] + (s[1..] + SplitAfter(t)[0]) == s + SplitAfter(t)[0];
    }
  }

  lemma {:induction false} TrimEndGlued(s: Text, l: Text)
    requires TrimEnd(l) != ""
    ensures TrimEnd(s + l) == s + TrimEnd(l)
    decreases |l|
  {
    assert (s + l)[..|s + l| - 1] == s + l[..|l| - 1];
    if IsEnd(l[|l| - 1]) { TrimEndGlued(s, l[..|l| - 1]); }
  }

  lemma {:induction false} BlankGlued(s: Text, l: Text)
    requires !Blank(l)
    ensures !Blank(s + l)
    decreases |s|
  {
    if s == "" {
      assert s + l == l;
    } else {
      assert (s + l)[1..] == s[1..] + l;
      BlankGlued(s[1..], l);
    }
  }

  /** Where the last line of a text starts. */
  lemma {:induction false} LastLine(s: Text) returns (front: Text, last: Text)
    ensures s == front + last && AtLineStart(front) && '\n' !in last
    decreases |s|
  {
    if AtLineStart(s) { return s, ""; }
    front, last := LastLine(s[..|s| - 1]);
    assert s == s[..|s| - 1] + [s[|s| - 1]];
    last := last + [s[|s| - 1]];
  }

  /** A block that starts in the middle of a line changes that line. */
  lemma GluedTexts(last: Text, moved: Text) returns (text: Text, rest: seq<Text>)
    requires last != "" && '\n' !in last && moved != "" && StartsInk(moved)
    ensures Texts(moved) == [text] + rest && Texts(last + moved) == [last + text] + rest
  {
    var ls := SplitAfter(moved);
    SplitGlued(last, moved);
    assert ls == [ls[0]] + ls[1..];
    TextsOfBoth([ls[0]], ls[1..]);
    TextsOfBoth([last + ls[0]], ls[1..]);
    TextsOfOne(ls[0]);
    TextsOfOne(last + ls[0]);
    BlankGlued(last, ls[0]);
    TrimEndGlued(last, ls[0]);
    text, rest := TrimEnd(ls[0]), TextsOfLines(ls[1..]);
  }

  lemma OtherTail(front: seq<Text>, x: Text, y: Text, rest: seq<Text>)
    requires x != y
    ensures !HasTail(front + ([x] + rest), [y] + rest)
  {
    var all := front + ([x] + rest);
    assert all[|all| - |rest| - 1..][0] == x;
  }

  lemma GluedIsNoTail(before: Text, moved: Text)
    requires !AtLineStart(before) && moved != "" && StartsInk(moved)
    ensures !HasTail(Texts(before + moved), Texts(moved))
  {
    var front, last := LastLine(before);
    assert front + "" == front;
    var text, rest := GluedTexts(last, moved);
    GluedReads(before, front, last, moved);
    OtherTail(Texts(front), last + text, text, rest);
  }

  lemma GluedReads(before: Text, front: Text, last: Text, moved: Text)
    requires before == front + last && AtLineStart(front)
    ensures Texts(before + moved) == Texts(front) + Texts(last + moved)
  {
    assert before + moved == front + (last + moved);
    TextsHere(front, last + moved);
  }

  /** The first line is not blank. */
  predicate StartsInk(moved: Text) {
    var ls := SplitAfter(moved);
    ls != [] && !Blank(ls[0]) && TrimEnd(ls[0]) != ""
  }

  /** After the archive has been written, its last texts are the moved ones,
      exactly unless it already ended with their characters inside a line. */
  lemma ArchiveEndsWithMoved(archive: Text, intro: Text, heading: Text, moved: Text, eol: Text)
    requires IsBlock(moved) && IsEol(eol) && StartsInk(moved)
    ensures HasTail(Texts(Appended(archive, intro, heading, moved, eol)), Texts(moved)) <==>
            (HasSuffix(TrimEnd(archive), moved) ==> EndsWithBlock(archive, moved))
  {
    if HasSuffix(TrimEnd(archive), moved) {
      EndsInMoved(archive, moved);
    } else {
      AppendedTexts(archive, intro, heading, moved, eol);
      TailIsTail(Texts(if archive == "" then intro else archive) + Texts(heading), Texts(moved));
    }
  }

  lemma TailIsTail(front: seq<Text>, tail: seq<Text>)
    ensures HasTail(front + tail, tail)
  {
  }

  lemma EndsInMoved(archive: Text, moved: Text)
    requires IsBlock(moved) && StartsInk(moved) && HasSuffix(TrimEnd(archive), moved)
    ensures HasTail(Texts(archive), Texts(moved)) <==> EndsWithBlock(archive, moved)
  {
    var t := TrimEnd(archive);
    var before := t[..|t| - |moved|];
    assert t == before + moved;
    TextsTrimmed(archive);
    EndsAtLineStart(archive, before, moved);
    TailsTell(before, moved);
  }

  lemma EndsAtLineStart(archive: Text, before: Text, moved: Text)
    requires TrimEnd(archive) == before + moved
    ensures EndsWithBlock(archive, moved) <==> AtLineStart(before)
  {
    var t := TrimEnd(archive);
    if before != "" { assert t[|t| - |moved| - 1] == before[|before| - 1]; }
  }

  lemma TailsTell(before: Text, moved: Text)
    requires moved != "" && StartsInk(moved)
    ensures HasTail(Texts(before + moved), Texts(moved)) <==> AtLineStart(before)
  {
    if AtLineStart(before) {
      TextsHere(before, moved);
      TailIsTail(Texts(before), Texts(moved));
    } else {
      GluedIsNoTail(before, moved);
    }
  }

  // ---- the moved part ----

  lemma {:induction false} InkStays(l: Text)
    requires !Blank(l)
    ensures TrimEnd(l) != "" && !Blank(TrimEnd(l))
    decreases |l|
  {
    if IsEnd(l[|l| - 1]) {
      assert l == l[..|l| - 1] + [l[|l| - 1]];
      BlankMore(l[..|l| - 1], l[|l| - 1]);
      InkStays(l[..|l| - 1]);
    }
  }

  /** Trimming a text that starts with a non-blank line leaves its start. */
  lemma TrimmedStartsInk(l: Text, rest: Text)
    requires Ended(l) && !Blank(l)
    ensures StartsInk(TrimEnd(l + rest))
  {
    var t := TrimEnd(l + rest);
    InkStays(l);
    TrimEndCovers(TrimEnd(l), (l + rest)[|TrimEnd(l)|..]);
    assert l + rest == TrimEnd(l) + (l + rest)[|TrimEnd(l)|..];
    var more := t[|TrimEnd(l)|..];
    assert t == TrimEnd(l) + more;
    FirstLineIs(l, rest, t);
  }

  lemma {:induction false} TrimEndCovers(s: Text, more: Text)
    requires s != "" && !IsEnd(s[|s| - 1])
    ensures |TrimEnd(s + more)| >= |s| && TrimEnd(s + more)[..|s|] == s
    decreases |more|
  {
    if more == "" {
      assert s + more == s;
    } else if IsEnd(more[|more| - 1]) {
      assert (s + more)[..|s + more| - 1] == s + more[..|more| - 1];
      TrimEndCovers(s, more[..|more| - 1]);
    }
  }

  /** The first line of a prefix that is at least as long as the line's text. */
  lemma FirstLineIs(l: Text, rest: Text, t: Text)
    requires Ended(l) && !Blank(l) && t <= l + rest && |TrimEnd(l)| <= |t|
    ensures StartsInk(t)
  {
    InkStays(l);
    if |l| <= |t| {
      assert t[..|l|] == l;
      SplitFirst(l, t[|l|..]);
      assert t == l + t[|l|..];
    } else {
      assert t <= l;
      PartOfLine(l, t);
    }
  }

  lemma PartOfLine(l: Text, t: Text)
    requires Ended(l) && !Blank(l) && t <= l && |TrimEnd(l)| <= |t| < |l|
    ensures StartsInk(t)
  {
    InkStays(l);
    var ends := t[|TrimEnd(l)|..];
    assert t == TrimEnd(l) + ends;
    OnlyEndsFollow(l, ends);
    PartHasNoEnd(l, t);
    OneLine(t);
  }

  lemma PartHasNoEnd(l: Text, t: Text)
    requires Ended(l) && t <= l && |t| < |l|
    ensures '\n' !in t
  {
    assert t == l[..|l| - 1][..|t|];
  }

  lemma {:induction false} OneLine(t: Text)
    requires t != "" && '\n' !in t
    ensures SplitAfter(t) == [t]
    decreases |t|
  {
    assert t[0] in t && [t[0]] + t[1..] == t;
    if |t| > 1 { OneLine(t[1..]); } else { assert t[1..] == "" && [t[0]] == t && SplitAfter(t) == [[t[0]]]; }
  }

  /** A prefix of a line that keeps its text is as inked as the line. */
  lemma OnlyEndsFollow(l: Text, ends: Text)
    requires !Blank(l) && TrimEnd(l) + ends <= l
    ensures !Blank(TrimEnd(l) + ends) && TrimEnd(TrimEnd(l) + ends) != ""
  {
    InkStays(l);
    TrimEndCovers(TrimEnd(l), ends);
    InkAtFront(TrimEnd(l), ends);
  }

  lemma {:induction false} InkAtFront(s: Text, more: Text)
    requires !Blank(s)
    ensures !Blank(s + more)
    decreases |s|
  {
    assert (s + more)[1..] == s[1..] + more;
    if IsSpace(s[0]) { InkAtFront(s[1..], more); }
  }

  /** The moved lines as the text of the plan. */
  lemma MovedText(moved: seq<Text>)
    requires Inked(moved)
    ensures StartsInk(TrimEnd(Cat(moved))) && Texts(TrimEnd(Cat(moved))) == TextsOfLines(moved)
  {
    assert Cat(moved) == moved[0] + Cat(moved[1..]);
    TrimmedStartsInk(moved[0], Cat(moved[1..]));
    TextsTrimmed(Cat(moved));
    TextsOfCat(moved);
  }

  // ---- conservation across both files ----

  /** How the texts of a handoff are divided, and what the new handoff holds. */
  datatype Division = Division(before: seq<Text>, marker: seq<Text>, moved: seq<Text>, after: seq<Text>, front: seq<Text>, back: seq<Text>)

  ghost predicate Divides(d: Division, p: Plan, block: seq<Text>, body: Text, out: Text) {
    && Texts(body) == d.before + d.marker + d.moved + d.after && d.moved == Texts(p.moved)
    && (if p.marker then |d.marker| == 1 && IsMarker(d.marker[0]) && d.after == [] else d.marker == [])
    && d.front + d.back == d.before + d.after && Texts(out) == d.front + TextsOfLines(block) + d.back + [MARKER]
  }

  /** Nothing is lost across the two files. The texts of the old handoff are, in
      order, those kept, its marker line if it had one, and those moved; the new
      handoff is those kept, the summary between them, and the marker line; and
      the archive ends with those moved exactly unless it already ended with
      their characters inside a line. */
  lemma CompactKeepsAllTexts(
    body: Text, archive: Text, lim: Limits, pick: Text -> bool, p: Plan, block: seq<Text>, out: Text, intro: Text, heading: Text)
    returns (d: Division)
    requires Plans(body, lim, pick, p) && p.moved != "" && AllEnded(block) && IsCompacted(p, block, out)
    ensures Divides(d, p, block, body, out)
    ensures HasTail(Texts(Appended(archive, intro, heading, p.moved, p.eol)), d.moved) <==>
            (HasSuffix(TrimEnd(archive), p.moved) ==> EndsWithBlock(archive, p.moved))
  {
    var before, marker, moved, after := NoLineIsLost(body, lim, pick, p);
    MovedIsBlock(body, lim, pick, p);
    MovedText(moved);
    ArchiveEndsWithMoved(archive, intro, heading, p.moved, p.eol);
    var front, back := WrittenTexts(body, lim, pick, p, block, out);
    TextsOfBody(body);
    TrimEndsAppend(before + marker + NonBlank(moved), after);
    TrimEndsAppend(before + marker, NonBlank(moved));
    TrimEndsAppend(before, marker);
    TrimEndsAppend(before, after);
    if p.marker { MarkerTrimmed(marker[0]); assert TrimEnds(marker) == [TrimEnd(marker[0])] + TrimEnds(marker[1..]); }
    d := Division(TrimEnds(before), TrimEnds(marker), Texts(p.moved), TrimEnds(after), front, back);
  }

  lemma {:induction false} TrimRightEnds(l: Text)
    ensures TrimRight(TrimEnd(l)) == TrimRight(l)
    decreases |l|
  {
    if l != "" && IsEnd(l[|l| - 1]) { TrimRightEnds(l[..|l| - 1]); }
  }

  lemma {:induction false} TrimLeftEnds(l: Text)
    requires !Blank(l)
    ensures TrimLeft(TrimEnd(l)) == TrimEnd(TrimLeft(l))
    decreases |l|
  {
    InkStays(l);
    if IsSpace(l[0]) {
      TrimLeftEnds(l[1..]);
      InkStays(l[1..]);
      TrimEndGlued([l[0]], l[1..]);
      assert l == [l[0]] + l[1..];
    } else {
      TrimEndCovers([l[0]], l[1..]);
      assert l == [l[0]] + l[1..];
    }
  }

  /** The marker line is one without its end too. */
  lemma MarkerTrimmed(l: Text)
    requires IsMarker(l)
    ensures IsMarker(TrimEnd(l))
  {
    MarkerIsNotBlank(l);
    TrimLeftEnds(l);
    TrimRightEnds(TrimLeft(l));
  }

  lemma WrittenTexts(body: Text, lim: Limits, pick: Text -> bool, p: Plan, block: seq<Text>, out: Text)
    returns (front: seq<Text>, back: seq<Text>)
    requires Plans(body, lim, pick, p) && p.moved != "" && AllEnded(block) && IsCompacted(p, block, out)
    ensures front + back == TextsOfLines(Lines(p.current))
    ensures Texts(out) == front + TextsOfLines(block) + back + [MARKER]
  {
    var kept := Lines(p.current);
    KeptHasNoMarker(body, lim, pick, p);
    MovedIsBlock(body, lim, pick, p);
    var k: nat :| k <= |kept| && out == Cat(Written(kept, block, k, p.eol));
    front, back := TextsOfLines(kept[..k]), TextsOfLines(kept[k..]);
    TextsOfWritten(kept, block, k, p.eol);
  }

  lemma TextsOfWritten(kept: seq<Text>, block: seq<Text>, k: nat, eol: Text)
    requires AllEnded(kept) && AllEnded(block) && k <= |kept| && IsEol(eol)
    ensures TextsOfLines(kept[..k]) + TextsOfLines(kept[k..]) == TextsOfLines(kept)
    ensures Texts(Cat(Written(kept, block, k, eol))) ==
            TextsOfLines(kept[..k]) + TextsOfLines(block) + TextsOfLines(kept[k..]) + [MARKER]
  {
    WrittenEnds(kept, block, k, eol);
    TextsOfCat(Written(kept, block, k, eol));
    TextsOfBoth(kept[..k], kept[k..]);
    assert kept[..k] + kept[k..] == kept;
    TextsOfBoth(kept[..k], block);
    TextsOfBoth(kept[..k] + block, kept[k..]);
    TextsOfBoth(kept[..k] + block + kept[k..], [MARKER + eol]);
    MarkerLineTexts(eol);
  }

  lemma MarkerLineTexts(eol: Text)
    requires IsEol(eol)
    ensures TextsOfLines([MARKER + eol]) == [MARKER]
  {
    MarkerLineEnds(eol);
    MarkerIsNotBlank(MARKER + eol);
    TextsOfOne(MARKER + eol);
    TrimEndDrops(MARKER, eol);
  }

  // ---- the summary block is made of lines ----

  predicate OneLiner(l: Text) { '\n' !in l }

  lemma UsableAreLines(out: Text)
    ensures forall i :: 0 <= i < |Usable(out)| ==> OneLiner(Usable(out)[i])
  {
    var lines := TrimTails(TextLines.Split(out));
    forall i | 0 <= i < |lines| ensures OneLiner(lines[i]) { assert TextLines.LineFree(TextLines.Split(out)[i]); }
    DroppedFrom(lines);
  }

  lemma {:induction false} DroppedFrom(lines: seq<Text>)
    requires forall i :: 0 <= i < |lines| ==> OneLiner(lines[i])
    ensures forall i :: 0 <= i < |Dropping(lines, Dropped)| ==> OneLiner(Dropping(lines, Dropped)[i])
    decreases |lines|
  {
    if lines != [] { DroppedFrom(lines[1..]); }
  }

  lemma OneLineEnds(l: Text, eol: Text)
    requires OneLiner(l) && IsEol(eol)
    ensures Ended(l + eol)
  {
    assert (l + eol)[..|l + eol| - 1] == if eol == "\n" then l else l + "\r";
  }

  lemma {:induction false} SummaryEnds(lines: seq<Text>, eol: Text)
    requires IsEol(eol) && forall i :: 0 <= i < |lines| ==> OneLiner(lines[i])
    ensures AllEnded(WithEnds(lines, eol))
    decreases |lines|
  {
    if lines != [] {
      OneLineEnds(lines[0], eol);
      SummaryEnds(lines[1..], eol);
    }
  }

  /** Whatever the backend answers, the block is whole lines. */
  lemma BlockEnds(p: Plan, lim: Limits, summary: Option<(Text, Text)>)
    requires IsEol(p.eol) && (summary.Some? ==> OneLiner(summary.value.0))
    ensures AllEnded(BlockOf(p, lim, summary))
  {
    if summary.Some? {
      var kept, title := Lines(p.current), summary.value.0;
      var lines, bytes := RoomLines(kept, lim), RoomBytes(kept, title, p.eol, lim);
      if lines > 0 && bytes > 0 {
        ClipIsLines(summary.value.1, lines, bytes, |p.eol|);
        BlockIsLines(title, Clip(Usable(summary.value.1), lines, bytes, |p.eol|), p.eol);
      }
    }
  }

  predicate OneLiners(lines: seq<Text>) { forall i :: 0 <= i < |lines| ==> OneLiner(lines[i]) }

  lemma ClipIsLines(out: Text, maxLines: int, maxBytes: int, eolLen: nat)
    requires maxLines >= 0 && maxBytes >= 0
    ensures OneLiners(Clip(Usable(out), maxLines, maxBytes, eolLen))
  {
    ClipIsMaximal(Usable(out), maxLines, maxBytes, eolLen);
    UsableAreLines(out);
  }

  lemma BlockIsLines(title: Text, summary: seq<Text>, eol: Text)
    requires IsEol(eol) && OneLiner(title) && OneLiners(summary)
    ensures AllEnded(Block(title, summary, eol))
  {
    SummaryEnds(summary, eol);
    OneLineEnds(title, eol);
    EolEnded(eol);
  }

  // ---- the limits ----

  predicate Within(text: Text, lim: Limits) { |Lines(text)| <= lim.lines && |text| <= lim.bytes }

  /** The plan's current state and the marker line fit. */
  predicate CurrentFits(p: Plan, lim: Limits) {
    |Lines(p.current)| + 1 <= lim.lines && |p.current| + |MARKER| + |p.eol| <= lim.bytes
  }

  /** The written file, summary and marker included, is within both limits
      exactly when the current state with its marker line is. */
  lemma WrittenWithinExactly(body: Text, lim: Limits, pick: Text -> bool, p: Plan, summary: Option<(Text, Text)>, out: Text)
    requires Plans(body, lim, pick, p) && p.moved != "" && (summary.Some? ==> OneLiner(summary.value.0))
    requires IsCompacted(p, BlockOf(p, lim, summary), out)
    ensures Within(out, lim) <==> CurrentFits(p, lim)
  {
    MovedIsBlock(body, lim, pick, p);
    KeptHasNoMarker(body, lim, pick, p);
    BlockEnds(p, lim, summary);
    CompactedSize(p, BlockOf(p, lim, summary), out);
    BlockFits(p, lim, summary);
  }

  lemma CompactedSize(p: Plan, block: seq<Text>, out: Text)
    requires IsEol(p.eol) && AllEnded(Lines(p.current)) && AllEnded(block) && IsCompacted(p, block, out)
    ensures |Lines(out)| == |Lines(p.current)| + |block| + 1
    ensures |out| == |Cat(Lines(p.current))| + |Cat(block)| + |MARKER| + |p.eol|
  {
    var kept := Lines(p.current);
    var k: nat :| k <= |kept| && out == Cat(Written(kept, block, k, p.eol));
    WrittenEnds(kept, block, k, p.eol);
    LinesOfCat(Written(kept, block, k, p.eol));
    WrittenSize(kept, block, k, p.eol);
  }

  /** A block never breaks a limit. */
  lemma BlockFits(p: Plan, lim: Limits, summary: Option<(Text, Text)>)
    ensures var kept, block := Lines(p.current), BlockOf(p, lim, summary);
            if block == [] then Cat(block) == ""
            else |kept| + |block| + 1 <= lim.lines && |Cat(kept)| + |Cat(block)| + |MARKER| + |p.eol| <= lim.bytes
  {
    var kept, block := Lines(p.current), BlockOf(p, lim, summary);
    if block != [] {
      SummaryFits(kept, Usable(summary.value.1), summary.value.0, p.eol, lim, 0);
      WrittenSize(kept, block, 0, p.eol);
    }
  }

  /** Hence always, when the file had no marker and its closing section leaves
      room for a head. */
  lemma WrittenStaysWithin(body: Text, lim: Limits, pick: Text -> bool, p: Plan, summary: Option<(Text, Text)>, out: Text)
    requires Plans(body, lim, pick, p) && p.moved != "" && !p.marker && (summary.Some? ==> OneLiner(summary.value.0))
    requires lim.reserveLines >= 0 && lim.reserveBytes >= 0
    requires var t := Lines(body)[TailStart(Lines(body), pick)..];
             BudgetLines(lim, t) >= 0 && BudgetBytes(lim, t, p.eol) >= 0
    requires IsCompacted(p, BlockOf(p, lim, summary), out)
    ensures Within(out, lim)
  {
    StaysWithinLimits(body, lim, pick, p);
    WrittenWithinExactly(body, lim, pick, p, summary, out);
  }

  // ---- compacting again ----

  /** A plan for the compacted file, whatever its limits, moves nothing exactly
      when no line of the block is the marker line. */
  lemma AgainMovesNothingExactly(
    body: Text, lim: Limits, pick: Text -> bool, p: Plan, block: seq<Text>, out: Text, lim': Limits, pick': Text -> bool, q: Plan)
    requires Plans(body, lim, pick, p) && p.moved != "" && AllEnded(block) && IsCompacted(p, block, out)
    requires Plans(out, lim', pick', q)
    ensures q.moved == "" <==> NoMarker(block)
  {
    var kept := Lines(p.current);
    MovedIsBlock(body, lim, pick, p);
    KeptHasNoMarker(body, lim, pick, p);
    var k: nat :| k <= |kept| && out == Cat(Written(kept, block, k, p.eol));
    CompactAgainMovesNothing(kept, block, k, p.eol, lim', pick', q);
  }

  /** `handoff compact`, and then again with any limits and summary: the second
      run changes neither file when the block has no marker line, and otherwise
      it moves something. */
  method CompactTwice(
    ws: Workspace, lim: Limits, pick: Text -> bool, summary: Option<(Text, Text)>, intro: Text, heading: Text,
    lim': Limits, pick': Text -> bool, summary': Option<(Text, Text)>, intro': Text, heading': Text)
    returns (p: Plan, q: Plan)
    requires summary.Some? ==> OneLiner(summary.value.0)
    modifies ws
    ensures Plans(old(ws.handoff), lim, pick, p)
    ensures p.moved != "" ==> (q.moved == "" <==> NoMarker(BlockOf(p, lim, summary)))
    ensures p.moved != "" && q.moved == "" ==>
              && ws.archive == Appended(old(ws.archive), intro, heading, p.moved, p.eol)
              && IsCompacted(p, BlockOf(p, lim, summary), ws.handoff)
  {
    p := ws.Compact(lim, pick, summary, intro, heading, false);
    ghost var body, out := old(ws.handoff), ws.handoff;
    q := ws.Compact(lim', pick', summary', intro', heading', false);
    if p.moved != "" {
      MovedIsBlock(body, lim, pick, p);
      BlockEnds(p, lim, summary);
      AgainMovesNothingExactly(body, lim, pick, p, BlockOf(p, lim, summary), out, lim', pick', q);
    }
  }

  /** Which summaries have one: those in which a line is the marker itself. */
  lemma BlockMarkers(title: Text, summary: seq<Text>, eol: Text)
    requires IsEol(eol) && !IsMarker(title)
    ensures NoMarker(Block(title, summary, eol)) <==> NoMarker(summary)
  {
    if summary != [] {
      var block := Block(title, summary, eol);
      EolIsBlank(eol);
      BlankTrims(eol);
      MarkerWithEnd(title, eol);
      assert block[0] == title + eol && block[1] == eol && block[|block| - 1] == eol;
      MarkersWithEnds(summary, eol);
      forall i | 0 <= i < |summary| ensures block[i + 2] == summary[i] + eol { }
      forall i | 0 <= i < |block| && IsMarker(block[i]) ensures 0 <= i - 2 < |summary| && IsMarker(summary[i - 2]) {
        MarkerWithEnd(summary[i - 2], eol);
      }
      if !NoMarker(summary) {
        var i :| 0 <= i < |summary| && IsMarker(summary[i]);
        MarkerWithEnd(summary[i], eol);
        assert IsMarker(block[i + 2]);
      }
    }
  }

  lemma {:induction false} MarkersWithEnds(summary: seq<Text>, eol: Text)
    ensures |WithEnds(summary, eol)| == |summary|
    ensures forall i :: 0 <= i < |summary| ==> WithEnds(summary, eol)[i] == summary[i] + eol
    decreases |summary|
  {
    if summary != [] { MarkersWithEnds(summary[1..], eol); }
  }

  lemma MarkerWithEnd(l: Text, eol: Text)
    requires IsEol(eol)
    ensures IsMarker(l + eol) <==> IsMarker(l)
  {
    TrimSpaceMore(l, '\n');
    TrimSpaceMore(l, '\r');
    TrimSpaceMore(l + "\r", '\n');
    assert l + "\r\n" == (l + "\r") + "\n";
  }

  lemma {:induction false} TrimSpaceMore(l: Text, c: char)
    requires IsEnd(c)
    ensures TrimSpace(l + [c]) == TrimSpace(l)
    decreases |l|
  {
    if l == "" {
      assert [c][1..] == "" && "" + [c] == [c];
    } else if IsSpace(l[0]) {
      assert (l + [c])[1..] == l[1..] + [c];
      TrimSpaceMore(l[1..], c);
    } else {
      assert (l + [c])[..|l + [c]| - 1] == l;
    }
  }

  /** A line without space at either end, and no code fence, is usable. */
  lemma PlainLineIsUsable(l: Text)
    requires l != "" && OneLiner(l) && !IsSpace(l[0]) && l[0] != '`' && !IsSpace(l[|l| - 1])
    ensures Usable(l) == [l]
  {
    TextLines.SplitOneLine(l);
    assert TrimTails([l]) == [l];
    assert TrimSpace(l) == l && !("```" <= l);
    DroppingOne(l, Dropped);
  }

  lemma ClipOne(l: Text, lines: int, bytes: int, eolLen: nat)
    requires lines >= 1 && bytes >= |l| + eolLen
    ensures Clip([l], lines, bytes, eolLen) == [l]
  {
    assert [l][1..] == [];
  }

  lemma BlockShows(title: Text, l: Text, eol: Text)
    requires IsMarker(l + eol)
    ensures !NoMarker(Block(title, [l], eol))
  {
    MarkersWithEnds([l], eol);
    var block := Block(title, [l], eol);
    assert block[2] == l + eol;
  }

  /** The backend may answer with just that line, and it gets through. */
  lemma MarkerSummaryPasses(title: Text, eol: Text, lines: int, bytes: int)
    requires IsEol(eol) && lines >= 1 && bytes >= |MARKER| + |eol|
    ensures var summary := Clip(Usable(MARKER), lines, bytes, |eol|);
            summary == [MARKER] && !NoMarker(Block(title, summary, eol))
  {
    PlainLineIsUsable(MARKER);
    ClipOne(MARKER, lines, bytes, |eol|);
    MarkerLineEnds(eol);
    BlockShows(title, MARKER, eol);
  }
}
