/** Texts and their lines: `splitLines` and the joining in `MergeText`. */
module TextLines {
  type Text = string

  predicate LineFree(line: string) { '\n' !in line }

  /** Empty, or ending in a newline. */
  predicate Terminated(s: Text) { s == "" || s[|s| - 1] == '\n' }

  function Split(s: Text): (lines: seq<string>)
    ensures lines != [] && forall k :: 0 <= k < |lines| ==> LineFree(lines[k])
  {
    if s == "" then [""]
    else
      var rest := Split(s[1..]);
      if s[0] == '\n' then [""] + rest else [[s[0]] + rest[0]] + rest[1..]
  }

  function Join(lines: seq<string>): Text {
    if lines == [] then "" else if |lines| == 1 then lines[0] else lines[0] + "\n" + Join(lines[1..])
  }

  function SplitLines(s: Text): (lines: seq<string>)
    ensures forall k :: 0 <= k < |lines| ==> LineFree(lines[k])
  {
    if s == "" then [] else Split(if s[|s| - 1] == '\n' then s[..|s| - 1] else s)
  }

  function JoinLines(lines: seq<string>): (s: Text)
    ensures Terminated(s)
  {
    if lines == [] then "" else Join(lines) + "\n"
  }

  lemma {:induction false} JoinSplit(s: Text)
    ensures Join(Split(s)) == s
  {
    if s != "" {
      JoinSplit(s[1..]);
      var rest := Split(s[1..]);
      if s[0] == '\n' {
        assert ([""] + rest)[1..] == rest;
        assert s == "\n" + s[1..];
      } else {
        var lines := [[s[0]] + rest[0]] + rest[1..];
        assert lines[1..] == rest[1..];
        assert s == [s[0]] + s[1..];
      }
    }
  }

  lemma {:induction false} SplitAtNewline(line: string, s: Text)
    requires LineFree(line)
    ensures Split(line + "\n" + s) == [line] + Split(s)
    decreases |line|
  {
    var t := line + "\n" + s;
    if line == "" {
      assert t[1..] == s;
    } else {
      assert t[1..] == line[1..] + "\n" + s && t[0] == line[0];
      SplitAtNewline(line[1..], s);
      assert [line[0]] + line[1..] == line;
    }
  }

  lemma {:induction false} SplitOneLine(line: string)
    requires LineFree(line)
    ensures Split(line) == [line]
  {
    if line != "" {
      SplitOneLine(line[1..]);
      assert [line[0]] + line[1..] == line;
    }
  }

  lemma {:induction false} SplitJoin(lines: seq<string>)
    requires lines != [] && forall k :: 0 <= k < |lines| ==> LineFree(lines[k])
    ensures Split(Join(lines)) == lines
    decreases |lines|
  {
    if |lines| == 1 {
      SplitOneLine(lines[0]);
    } else {
      SplitJoin(lines[1..]);
      SplitAtNewline(lines[0], Join(lines[1..]));
      assert lines == [lines[0]] + lines[1..];
    }
  }

  /** Lines come back from the text they are joined to. */
  lemma LinesRoundTrip(lines: seq<string>)
    requires forall k :: 0 <= k < |lines| ==> LineFree(lines[k])
    ensures SplitLines(JoinLines(lines)) == lines
  {
    if lines != [] {
      var s := JoinLines(lines);
      assert s[..|s| - 1] == Join(lines);
      SplitJoin(lines);
    }
  }

  /** The text plus the final newline it may lack. */
  function Normal(s: Text): Text { if Terminated(s) then s else s + "\n" }

  /** A text comes back from its lines exactly when it is terminated;
      otherwise it comes back with the newline it lacked. */
  lemma TextRoundTrip(s: Text)
    ensures JoinLines(SplitLines(s)) == Normal(s)
    ensures JoinLines(SplitLines(s)) == s <==> Terminated(s)
  {
    if s != "" {
      var body := if s[|s| - 1] == '\n' then s[..|s| - 1] else s;
      JoinSplit(body);
      assert Terminated(s) ==> body + "\n" == s;
    }
  }

  /** Two texts have the same lines exactly when they differ at most in the
      last newline. */
  lemma SameLines(s: Text, t: Text)
    ensures SplitLines(s) == SplitLines(t) <==> Normal(s) == Normal(t)
  {
    TextRoundTrip(s);
    TextRoundTrip(t);
    LinesRoundTrip(SplitLines(s));
    LinesRoundTrip(SplitLines(t));
  }
}
