/** Lines of a handoff file, each with its line end, as the compactor of
    cmd/aimem/handoff.go splits and joins them. */
module HandoffText {
  import opened Lists

  type Text = string

  predicate IsSpace(c: char) {
    c == ' ' || c == '\t' || c == '\n' || c == '\r' || c == 11 as char || c == 12 as char || c == 0x85 as char || c == 0xA0 as char
  }

  /** Nothing but white space: the trimmed line is empty. */
  predicate Blank(l: Text)
    decreases |l|
  {
    l == "" || (IsSpace(l[0]) && Blank(l[1..]))
  }

  function TrimLeft(l: Text): Text
    decreases |l|
  {
    if l != "" && IsSpace(l[0]) then TrimLeft(l[1..]) else l
  }

  function TrimRight(l: Text): Text
    decreases |l|
  {
    if l != "" && IsSpace(l[|l| - 1]) then TrimRight(l[..|l| - 1]) else l
  }

  function TrimSpace(l: Text): Text { TrimRight(TrimLeft(l)) }

  predicate IsEnd(c: char) { c == '\r' || c == '\n' }

  /** Without the carriage returns and newlines at the end. */
  function TrimEnd(s: Text): (t: Text)
    ensures |t| <= |s| && t == s[..|t|] && (t == "" || !IsEnd(t[|t| - 1]))
    decreases |s|
  {
    if s != "" && IsEnd(s[|s| - 1]) then TrimEnd(s[..|s| - 1]) else s
  }

  lemma {:induction false} TrimEndDrops(s: Text, ends: Text)
    requires (s == "" || !IsEnd(s[|s| - 1])) && forall i :: 0 <= i < |ends| ==> IsEnd(ends[i])
    ensures TrimEnd(s + ends) == s
    decreases |ends|
  {
    if ends == "" {
      assert s + ends == s;
    } else {
      var shorter := ends[..|ends| - 1];
      assert (s + ends)[..|s + ends| - 1] == s + shorter;
      TrimEndDrops(s, shorter);
    }
  }

  predicate HasSuffix(s: Text, suffix: Text) { |suffix| <= |s| && s[|s| - |suffix|..] == suffix }

  // ---- lines ----

  predicate Ended(l: Text) { l != "" && l[|l| - 1] == '\n' && '\n' !in l[..|l| - 1] }

  predicate AllEnded(lines: seq<Text>) { forall i :: 0 <= i < |lines| ==> Ended(lines[i]) }

  /** Split after every newline; nothing follows the last one. */
  function SplitAfter(s: Text): seq<Text>
    decreases |s|
  {
    if s == "" then []
    else if s[0] == '\n' then ["\n"] + SplitAfter(s[1..])
    else
      var rest := SplitAfter(s[1..]);
      if rest == [] then [[s[0]]] else [[s[0]] + rest[0]] + rest[1..]
  }

  function Cat(lines: seq<Text>): Text
    decreases |lines|
  {
    if lines == [] then "" else lines[0] + Cat(lines[1..])
  }

  lemma {:induction false} CatSplit(s: Text)
    ensures Cat(SplitAfter(s)) == s
    decreases |s|
  {
    if s != "" {
      CatSplit(s[1..]);
      var rest := SplitAfter(s[1..]);
      assert s == [s[0]] + s[1..];
      if s[0] != '\n' && rest == [] { assert s[1..] == ""; }
    }
  }

  lemma {:induction false} CatAppend(a: seq<Text>, b: seq<Text>)
    ensures Cat(a + b) == Cat(a) + Cat(b)
    decreases |a|
  {
    if a == [] {
      assert a + b == b;
    } else {
      assert (a + b)[1..] == a[1..] + b;
      CatAppend(a[1..], b);
    }
  }

  lemma {:induction false} SplitFirst(l: Text, rest: Text)
    requires Ended(l)
    ensures SplitAfter(l + rest) == [l] + SplitAfter(rest)
    decreases |l|
  {
    var s := l + rest;
    if |l| == 1 {
      assert l == "\n" && s[1..] == rest;
    } else {
      assert l[0] == l[..|l| - 1][0] && l[0] != '\n';
      assert s[1..] == l[1..] + rest && l[1..][..|l| - 2] == l[..|l| - 1][1..];
      SplitFirst(l[1..], rest);
      assert [l[0]] + l[1..] == l;
    }
  }

  lemma {:induction false} SplitCat(lines: seq<Text>)
    requires AllEnded(lines)
    ensures SplitAfter(Cat(lines)) == lines
    decreases |lines|
  {
    if lines != [] {
      assert Ended(lines[0]);
      SplitFirst(lines[0], Cat(lines[1..]));
      SplitCat(lines[1..]);
    }
  }

  /** All lines of a split are ended, but perhaps the last. */
  lemma {:induction false} SplitEnded(s: Text)
    ensures var ls := SplitAfter(s);
            && (forall i :: 0 <= i < |ls| - 1 ==> Ended(ls[i]))
            && (ls != [] ==> ls[|ls| - 1] != "" && '\n' !in ls[|ls| - 1][..|ls[|ls| - 1]| - 1])
    decreases |s|
  {
    if s != "" {
      SplitEnded(s[1..]);
      var rest := SplitAfter(s[1..]);
      if s[0] != '\n' && rest != [] {
        var l := [s[0]] + rest[0];
        assert l[..|l| - 1] == [s[0]] + rest[0][..|rest[0]| - 1];
      }
    }
  }

  // ---- line ends ----

  predicate IsEol(eol: Text) { eol == "\n" || eol == "\r\n" }

  function Eol(body: Text): (eol: Text)
    ensures IsEol(eol)
  {
    if exists i :: 0 <= i < |body| - 1 && body[i] == '\r' && body[i + 1] == '\n' then "\r\n" else "\n"
  }

  /** The lines of a body; an unended last line gets the file's line end. */
  function Lines(body: Text): seq<Text> {
    var ls := SplitAfter(body);
    if ls == [] || HasSuffix(ls[|ls| - 1], "\n") then ls
    else ls[..|ls| - 1] + [ls[|ls| - 1] + Eol(body)]
  }

  lemma EndingALine(l: Text, eol: Text)
    requires l != "" && '\n' !in l[..|l| - 1] && !HasSuffix(l, "\n") && IsEol(eol)
    ensures Ended(l + eol)
  {
    assert l[|l| - 1..] == [l[|l| - 1]];
    assert l == l[..|l| - 1] + [l[|l| - 1]];
    assert (l + eol)[..|l + eol| - 1] == if eol == "\n" then l else l + "\r";
  }

  lemma LinesEnded(body: Text)
    ensures AllEnded(Lines(body))
  {
    SplitEnded(body);
    var ls := SplitAfter(body);
    if ls != [] {
      var l := ls[|ls| - 1];
      if HasSuffix(l, "\n") { LastIsEnded(l); } else { EndingALine(l, Eol(body)); }
    }
  }

  lemma LastIsEnded(l: Text)
    requires HasSuffix(l, "\n") && '\n' !in l[..|l| - 1]
    ensures Ended(l)
  {
    assert l[|l| - 1] == l[|l| - 1..][0];
  }

  /** A text of ended lines splits into just those. */
  lemma LinesOfCat(lines: seq<Text>)
    requires AllEnded(lines)
    ensures Lines(Cat(lines)) == lines
  {
    SplitCat(lines);
    if lines != [] { assert Ended(lines[|lines| - 1]); }
  }

  function NonBlank(lines: seq<Text>): seq<Text> { Dropping(lines, Blank) }
}
