/** Text files as lines: how the Go side scans them, how the Python reader strips them, and which
    strings survive being written as one line. */
module TextLines {
  import opened Sequences

  // Position of the first newline, or the length of the text.
  function LineEnd(text: string): (n: nat)
    ensures n <= |text|
    ensures n < |text| ==> text[n] == '\n'
    ensures '\n' !in text[..n]
    ensures '\n' in text <==> n < |text|
  {
    if text == "" then 0
    else if text[0] == '\n' then 0
    else
      var n := 1 + LineEnd(text[1..]);
      assert text[..n] == [text[0]] + text[1..][..n - 1];
      n
  }

  // The complete lines of a text, and what follows the last newline.
  function Lines(text: string): seq<string>
    decreases |text|
  {
    var n := LineEnd(text);
    if n == |text| then [] else [text[..n]] + Lines(text[n + 1..])
  }

  function Tail(text: string): (t: string)
    ensures |t| <= |text| && '\n' !in t
    decreases |text|
  {
    var n := LineEnd(text);
    if n == |text| then text else Tail(text[n + 1..])
  }

  ghost predicate Terminated(text: string) { Tail(text) == "" }

  lemma {:induction false} LineEndAt(t: string, n: nat)
    requires n < |t| && t[n] == '\n' && '\n' !in t[..n]
    ensures LineEnd(t) == n
  {}

  lemma FirstLine(s: string, rest: string)
    requires '\n' !in s
    ensures LineEnd(s + "\n" + rest) == |s|
    ensures Lines(s + "\n" + rest) == [s] + Lines(rest)
    ensures Tail(s + "\n" + rest) == Tail(rest)
  {
    var t := s + "\n" + rest;
    assert t[..|s|] == s && t[|s| + 1..] == rest;
    LineEndAt(t, |s|);
  }

  lemma CutAtLine(a: string, b: string, n: nat)
    requires n < |a| && a[n] == '\n'
    ensures a == a[..n] + "\n" + a[n + 1..] && a + b == a[..n] + "\n" + (a[n + 1..] + b)
  {}

  // Reading a text in two parts, split anywhere.
  lemma {:induction false} LinesSplit(a: string, b: string)
    ensures Lines(a + b) == Lines(a) + Lines(Tail(a) + b)
    ensures Tail(a + b) == Tail(Tail(a) + b)
    decreases |a|
  {
    var n := LineEnd(a);
    if n < |a| {
      var s, rest := a[..n], a[n + 1..];
      CutAtLine(a, b, n);
      FirstLine(s, rest);
      FirstLine(s, rest + b);
      LinesSplit(rest, b);
      Reassociate([s], Lines(rest), Lines(Tail(rest) + b));
    }
  }

  lemma OneLine(s: string)
    requires '\n' !in s
    ensures Lines(s + "\n") == [s] && Terminated(s + "\n")
  {}

  lemma LinesAppend(a: string, b: string)
    requires Terminated(a)
    ensures Lines(a + b) == Lines(a) + Lines(b) && Tail(a + b) == Tail(b)
  {
    LinesSplit(a, b);
    assert Tail(a) + b == b;
  }

  lemma AppendLine(text: string, s: string)
    requires Terminated(text) && '\n' !in s
    ensures Lines(text + (s + "\n")) == Lines(text) + [s] && Terminated(text + (s + "\n"))
  {
    OneLine(s);
    LinesAppend(text, s + "\n");
  }

  function JoinLines(ss: seq<string>): string {
    if ss == [] then "" else ss[0] + "\n" + JoinLines(ss[1..])
  }

  lemma {:induction false} LinesOfJoin(ss: seq<string>)
    requires forall s :: s in ss ==> '\n' !in s
    ensures Lines(JoinLines(ss)) == ss && Terminated(JoinLines(ss))
  {
    if ss != [] {
      var rest := JoinLines(ss[1..]);
      LinesOfJoin(ss[1..]);
      assert ss[0] in ss;
      FirstLine(ss[0], rest);
      HeadMoves([], ss);
      assert JoinLines(ss) == ss[0] + "\n" + rest;
    }
  }

  lemma {:induction false} NoBreakInside(text: string)
    ensures forall l :: l in Lines(text) ==> '\n' !in l
    decreases |text|
  {
    var n := LineEnd(text);
    if n < |text| { NoBreakInside(text[n + 1..]); }
  }

  // ---------------------------------------------------------------- stripping

  // The characters Python's str.rstrip removes.
  predicate IsSpace(c: char) {
    var n := c as int;
    0x09 <= n <= 0x0d || 0x1c <= n <= 0x20 || n == 0x85 || n == 0xa0 || n == 0x1680
    || 0x2000 <= n <= 0x200a || n == 0x2028 || n == 0x2029 || n == 0x202f || n == 0x205f || n == 0x3000
  }

  function RStrip(s: string): (r: string)
    ensures r <= s
    ensures r == "" || !IsSpace(r[|r| - 1])
  {
    if s != "" && IsSpace(s[|s| - 1]) then RStrip(s[..|s| - 1]) else s
  }

  // What the Go scanner removes from the end of a line.
  function DropCR(s: string): string {
    if s != "" && s[|s| - 1] == '\r' then s[..|s| - 1] else s
  }

  function ScanLines(text: string): seq<string> {
    Map(DropCR, Lines(text)) + (if Tail(text) == "" then [] else [DropCR(Tail(text))])
  }

  // The Python reader takes complete lines only.
  function ReaderLines(text: string): seq<string> {
    Map(RStrip, Lines(text))
  }

  // No newline inside, no white space at the end.
  predicate Clean(s: string) {
    '\n' !in s && (s == "" || !IsSpace(s[|s| - 1]))
  }

  lemma CleanIsKept(s: string)
    ensures RStrip(s) == s <==> s == "" || !IsSpace(s[|s| - 1])
    ensures Clean(s) ==> DropCR(s) == s
  {}

  lemma NewlineBreaks(s: string)
    requires '\n' in s
    ensures |Lines(s + "\n")| >= 2
  {
    var n := LineEnd(s);
    var rest := s[n + 1..];
    assert s + "\n" == s[..n] + "\n" + (rest + "\n");
    FirstLine(s[..n], rest + "\n");
    LinesSplit(rest, "\n");
    OneLine(Tail(rest));
  }

  // Written as a line of its own, a string is read back as itself if and only if it is clean.
  lemma SurvivesIffClean(s: string)
    ensures ReaderLines(s + "\n") == [s] <==> Clean(s)
  {
    CleanIsKept(s);
    if '\n' in s {
      NewlineBreaks(s);
    } else {
      OneLine(s);
      assert ReaderLines(s + "\n") == [RStrip(s)];
      assert [RStrip(s)] == [s] <==> RStrip(s) == s by {
        if [RStrip(s)] == [s] { assert [RStrip(s)][0] == [s][0]; }
      }
    }
  }

  lemma ReaderLinesSplit(a: string, b: string)
    requires Terminated(a)
    ensures ReaderLines(a + b) == ReaderLines(a) + ReaderLines(b)
  {
    LinesAppend(a, b);
    MapAppend(RStrip, Lines(a), Lines(b));
  }

  lemma ReaderLinesAppend(text: string, s: string)
    requires Terminated(text) && Clean(s)
    ensures ReaderLines(text + (s + "\n")) == ReaderLines(text) + [s]
  {
    AppendLine(text, s);
    CleanIsKept(s);
    MapAppend(RStrip, Lines(text), [s]);
    assert Map(RStrip, [s]) == [s];
  }

  // Whatever the file holds, what the reader takes from it is clean.
  lemma ReaderLinesClean(text: string)
    ensures forall l :: l in ReaderLines(text) ==> Clean(l)
  {
    NoBreakInside(text);
    forall i | 0 <= i < |Lines(text)| ensures Clean(ReaderLines(text)[i]) {
      assert Lines(text)[i] in Lines(text) && RStrip(Lines(text)[i]) <= Lines(text)[i];
    }
  }
}
