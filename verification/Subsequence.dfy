/** Subsequences of a sequence, and the length of a longest common one.

    `CommonSubsequence` is the reference notion that the alignment table of
    internal/diff3 is measured against: it never mentions a table. */
module Subsequence {

  /** c is obtained from a by deleting elements. */
  ghost predicate IsSubsequence<T>(c: seq<T>, a: seq<T>)
    decreases |a|
  {
    if c == [] then true
    else if a == [] then false
    else (c[0] == a[0] && IsSubsequence(c[1..], a[1..])) || IsSubsequence(c, a[1..])
  }

  ghost predicate CommonSubsequence<T>(c: seq<T>, a: seq<T>, b: seq<T>) {
    IsSubsequence(c, a) && IsSubsequence(c, b)
  }

  lemma {:induction false} Reflexive<T>(a: seq<T>)
    ensures IsSubsequence(a, a)
    decreases |a|
  {
    if a != [] { Reflexive(a[1..]); }
  }

  lemma {:induction false} NoLonger<T>(c: seq<T>, a: seq<T>)
    requires IsSubsequence(c, a)
    ensures |c| <= |a|
    decreases |a|
  {
    if c != [] {
      if IsSubsequence(c, a[1..]) { NoLonger(c, a[1..]); } else { NoLonger(c[1..], a[1..]); }
    }
  }

  /** Dropping the first element of both sides keeps the relation. */
  lemma {:induction false} Tails<T>(c: seq<T>, a: seq<T>)
    requires c != [] && a != [] && IsSubsequence(c, a)
    ensures IsSubsequence(c[1..], a[1..])
    decreases |a|
  {
    if !(c[0] == a[0] && IsSubsequence(c[1..], a[1..])) {
      assert IsSubsequence(c, a[1..]);
      Tails(c, a[1..]);
      if c[1..] != [] { assert IsSubsequence(c[1..], a[1..][1..]); }
    }
  }

  /** Subsequences concatenate. */
  lemma {:induction false} Concat<T>(c: seq<T>, d: seq<T>, a: seq<T>, b: seq<T>)
    requires IsSubsequence(c, a) && IsSubsequence(d, b)
    ensures IsSubsequence(c + d, a + b)
    decreases |a|
  {
    if a == [] {
      assert c + d == d && a + b == b;
    } else {
      assert (a + b)[1..] == a[1..] + b;
      if c == [] {
        assert IsSubsequence(c, a[1..]);
        Concat(c, d, a[1..], b);
        assert c + d == d;
      } else if c[0] == a[0] && IsSubsequence(c[1..], a[1..]) {
        Concat(c[1..], d, a[1..], b);
        assert (c + d)[1..] == c[1..] + d;
      } else {
        Concat(c, d, a[1..], b);
      }
    }
  }

  lemma Prepend<T>(p: seq<T>, c: seq<T>, a: seq<T>)
    requires IsSubsequence(c, a)
    ensures IsSubsequence(c, p + a)
    ensures IsSubsequence(p + c, p + a)
  {
    Concat([], c, p, a);
    assert [] + c == c;
    Reflexive(p);
    Concat(p, c, p, a);
  }

  /** The recurrence of the alignment table: lcs[i][j] in internal/diff3. */
  function Table<T(==)>(a: seq<T>, b: seq<T>, i: nat, j: nat): nat
    requires i <= |a| && j <= |b|
    decreases |a| - i + |b| - j
  {
    if i == |a| || j == |b| then 0
    else if a[i] == b[j] then Table(a, b, i + 1, j + 1) + 1
    else if Table(a, b, i + 1, j) >= Table(a, b, i, j + 1) then Table(a, b, i + 1, j)
    else Table(a, b, i, j + 1)
  }

  /** No common subsequence of the two suffixes is longer than the table entry. */
  lemma {:induction false} TableBounds<T>(c: seq<T>, a: seq<T>, b: seq<T>, i: nat, j: nat)
    requires i <= |a| && j <= |b|
    requires CommonSubsequence(c, a[i..], b[j..])
    ensures |c| <= Table(a, b, i, j)
    decreases |a| - i + |b| - j
  {
    if c != [] {
      NoLonger(c, a[i..]);
      NoLonger(c, b[j..]);
      assert a[i..][1..] == a[i + 1..] && b[j..][1..] == b[j + 1..];
      if a[i] == b[j] {
        Tails(c, a[i..]);
        Tails(c, b[j..]);
        TableBounds(c[1..], a, b, i + 1, j + 1);
      } else if c[0] != a[i] {
        TableBounds(c, a, b, i + 1, j);
      } else {
        TableBounds(c, a, b, i, j + 1);
      }
    }
  }
}
