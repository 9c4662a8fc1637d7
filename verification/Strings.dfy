/** Go's string helpers: cutting at a separator, replacing, trimming white space. */
module Strings {

  // What is before the first separator and after it, and whether there is one; without one, all of
  // it and nothing.
  function Cut(s: string, sep: char): (r: (string, string, bool))
    ensures sep !in r.0 && |r.1| <= |s| && (r.2 ==> |r.1| < |s|)
    ensures s == if r.2 then r.0 + [sep] + r.1 else r.0
  {
    if s == "" then ("", "", false)
    else if s[0] == sep then ("", s[1..], true)
    else
      var (a, b, found) := Cut(s[1..], sep);
      assert s == [s[0]] + s[1..];
      ([s[0]] + a, b, found)
  }

  lemma {:induction false} CutAfter(a: string, sep: char, b: string)
    requires sep !in a
    ensures Cut(a + [sep] + b, sep) == (a, b, true)
  {
    if a == "" {
      assert a + [sep] + b == [sep] + b;
    } else {
      var t := a[1..] + [sep] + b;
      assert a + [sep] + b == [a[0]] + t && a == [a[0]] + a[1..];
      CutAfter(a[1..], sep, b);
      assert Cut([a[0]] + t, sep) == ([a[0]] + Cut(t, sep).0, Cut(t, sep).1, Cut(t, sep).2);
    }
  }

  lemma {:induction false} NothingToCut(s: string, sep: char)
    requires sep !in s
    ensures Cut(s, sep) == (s, "", false)
  {
    if s != "" {
      NothingToCut(s[1..], sep);
      assert s == [s[0]] + s[1..];
    }
  }

  // Every occurrence, from the left.
  function ReplaceAll(s: string, what: string, with_: string): string
    requires what != ""
    decreases |s|
  {
    if |s| < |what| then s
    else if s[..|what|] == what then with_ + ReplaceAll(s[|what|..], what, with_)
    else [s[0]] + ReplaceAll(s[1..], what, with_)
  }

  predicate OccursAt(s: string, what: string, i: nat) {
    i + |what| <= |s| && s[i..i + |what|] == what
  }

  ghost predicate Absent(s: string, what: string) {
    forall i: nat :: !OccursAt(s, what, i)
  }

  lemma {:induction false} NothingToReplace(s: string, what: string, with_: string)
    requires what != "" && Absent(s, what)
    ensures ReplaceAll(s, what, with_) == s
    decreases |s|
  {
    if |s| >= |what| {
      assert !OccursAt(s, what, 0);
      forall i: nat ensures !OccursAt(s[1..], what, i) { assert !OccursAt(s, what, i + 1); }
      NothingToReplace(s[1..], what, with_);
    }
  }

  lemma ReplaceWhole(what: string, with_: string)
    requires what != ""
    ensures ReplaceAll(what, what, with_) == with_
  {}

  // No occurrence goes across a character that is not part of what is replaced.
  lemma {:induction false} ReplaceAcross(a: string, sep: char, b: string, what: string, with_: string)
    requires what != "" && sep !in what
    ensures ReplaceAll(a + [sep] + b, what, with_) == ReplaceAll(a, what, with_) + [sep] + ReplaceAll(b, what, with_)
    decreases |a|
  {
    var s, n := a + [sep] + b, |what|;
    if |a| >= n && a[..n] == what {
      assert s[..n] == what && s[n..] == a[n..] + [sep] + b;
      ReplaceAcross(a[n..], sep, b, what, with_);
      FourParts(with_, ReplaceAll(a[n..], what, with_), [sep], ReplaceAll(b, what, with_));
    } else {
      NoCrossing(a, sep, b, what);
      if a == "" {
        assert s[0] == sep && s[1..] == b && ReplaceAll(a, what, with_) == "";
        OneMoreChar(s, what, with_);
      } else {
        assert s[0] == a[0] && s[1..] == a[1..] + [sep] + b;
        ReplaceAcross(a[1..], sep, b, what, with_);
        OneMoreChar(a, what, with_);
        FourParts([a[0]], ReplaceAll(a[1..], what, with_), [sep], ReplaceAll(b, what, with_));
        OneMoreChar(s, what, with_);
      }
    }
  }

  lemma ReplaceAfter(sep: char, b: string, what: string, with_: string)
    requires what != "" && sep !in what
    ensures ReplaceAll([sep] + b, what, with_) == [sep] + ReplaceAll(b, what, with_)
  {}

  lemma NoCrossing(a: string, sep: char, b: string, what: string)
    requires what != "" && sep !in what && !OccursAt(a, what, 0)
    ensures !OccursAt(a + [sep] + b, what, 0)
  {
    var s, n := a + [sep] + b, |what|;
    if n <= |a| {
      assert s[..n] == a[..n];
    } else if n <= |s| {
      assert s[..n][|a|] == sep;
    }
  }

  lemma FourParts(a: string, b: string, c: string, d: string)
    ensures a + (b + c + d) == a + b + c + d
  {}

  lemma OneMoreChar(s: string, what: string, with_: string)
    requires what != "" && s != "" && !OccursAt(s, what, 0)
    ensures ReplaceAll(s, what, with_) == [s[0]] + ReplaceAll(s[1..], what, with_)
  {}

  // ---------------------------------------------------------------- trimming

  // The characters strings.TrimSpace removes.
  predicate IsGoSpace(c: char) {
    var n := c as int;
    0x09 <= n <= 0x0d || n == 0x20 || n == 0x85 || n == 0xa0 || n == 0x1680
    || 0x2000 <= n <= 0x200a || n == 0x2028 || n == 0x2029 || n == 0x202f || n == 0x205f || n == 0x3000
  }

  function TrimLeft(s: string): string {
    if s != "" && IsGoSpace(s[0]) then TrimLeft(s[1..]) else s
  }

  function TrimRight(s: string): string {
    if s != "" && IsGoSpace(s[|s| - 1]) then TrimRight(s[..|s| - 1]) else s
  }

  function TrimSpace(s: string): string { TrimRight(TrimLeft(s)) }

  lemma {:induction false} TrimEnds(v: string, c: char)
    requires IsGoSpace(c)
    ensures TrimSpace(v + [c]) == TrimSpace(v)
  {
    if v == "" {
      assert v + [c] == [c] && [c][1..] == "";
    } else if IsGoSpace(v[0]) {
      assert (v + [c])[0] == v[0] && (v + [c])[1..] == v[1..] + [c];
      TrimEnds(v[1..], c);
    } else {
      assert (v + [c])[0] == v[0] && (v + [c])[..|v|] == v;
      assert TrimLeft(v + [c]) == v + [c] && TrimLeft(v) == v;
    }
  }
}
