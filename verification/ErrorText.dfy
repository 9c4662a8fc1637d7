/** The error text that failed assertions leave in a result, and when it survives the strings file. */
module ErrorText {
  import opened Sequences
  import opened Strings
  import opened TextLines

  // An assertion, and whether its expression was found in the response.
  datatype Check = Check(re: string, invert: bool, found: bool)

  predicate Fails(c: Check) { c.found == c.invert }

  function Line(c: Check): string {
    "Assert failed on " + (if c.invert then "inverted " else "") + "regexp: " + c.re
  }

  function Failed(cs: seq<Check>): (fs: seq<Check>)
    ensures forall f :: f in fs ==> f in cs && Fails(f)
  {
    if cs == [] then [] else (if Fails(cs[0]) then [cs[0]] else []) + Failed(cs[1..])
  }

  function FailureLines(fs: seq<Check>): string {
    if fs == [] then "" else "\n" + Line(fs[0]) + FailureLines(fs[1..])
  }

  // The error there was, if any, and then the failures, trimmed.
  function AssertError(base: string, cs: seq<Check>): string { TrimSpace(base + FailureLines(Failed(cs))) }

  method Assert(base: string, cs: seq<Check>) returns (error: string)
    ensures error == AssertError(base, cs)
  {
    var problems := base;
    assert base + FailureLines(Failed(cs)) == problems + FailureLines(Failed(cs[0..]));
    for i := 0 to |cs|
      invariant problems + FailureLines(Failed(cs[i..])) == base + FailureLines(Failed(cs))
    {
      LinesNext(cs, i);
      if cs[i].found == cs[i].invert {
        Reassociate(problems, "\n" + Line(cs[i]), FailureLines(Failed(cs[i + 1..])));
        problems := problems + ("\n" + Line(cs[i]));
      }
    }
    assert problems + "" == problems;
    error := TrimSpace(problems);
  }

  lemma LinesNext(cs: seq<Check>, i: nat)
    requires i < |cs|
    ensures FailureLines(Failed(cs[i..]))
         == if Fails(cs[i]) then "\n" + Line(cs[i]) + FailureLines(Failed(cs[i + 1..]))
            else FailureLines(Failed(cs[i + 1..]))
  {
    assert cs[i..][0] == cs[i] && cs[i..][1..] == cs[i + 1..];
    var more := Failed(cs[i + 1..]);
    if Fails(cs[i]) {
      assert Failed(cs[i..]) == [cs[i]] + more && ([cs[i]] + more)[1..] == more;
    } else {
      assert Failed(cs[i..]) == [] + more == more;
    }
  }

  lemma {:induction false} TrimLeftFront(a: string, b: string)
    ensures TrimLeft(a + b) == if TrimLeft(a) == "" then TrimLeft(b) else TrimLeft(a) + b
  {
    if a == "" {
      assert a + b == b;
    } else {
      assert (a + b)[0] == a[0] && (a + b)[1..] == a[1..] + b;
      if IsGoSpace(a[0]) { TrimLeftFront(a[1..], b); }
    }
  }

  lemma {:induction false} TrimRightEnd(a: string, b: string)
    ensures TrimRight(a + b) == if TrimRight(b) == "" then TrimRight(a) else a + TrimRight(b)
    decreases |b|
  {
    if b == "" {
      assert a + b == a;
    } else {
      var n := |b| - 1;
      assert (a + b)[|a + b| - 1] == b[n] && (a + b)[..|a + b| - 1] == a + b[..n];
      if IsGoSpace(b[n]) { TrimRightEnd(a, b[..n]); }
    }
  }

  // A line break with something after it stays.
  lemma BreakStays(a: string, b: string)
    requires TrimRight(b) != ""
    ensures '\n' in TrimRight(a + "\n" + b)
  {
    TrimRightEnd(a + "\n", b);
    assert (a + "\n" + TrimRight(b))[|a|] == '\n';
  }

  lemma LineStays(c: Check, rest: string)
    ensures TrimLeft("\n" + Line(c) + rest) == Line(c) + rest
    ensures TrimRight(Line(c) + rest) != ""
  {
    var s := Line(c) + rest;
    assert "\n" + Line(c) + rest == "\n" + s && ("\n" + s)[1..] == s && s[0] == 'A';
    TrimRightEnd("A", s[1..]);
    assert s == "A" + s[1..];
  }

  lemma CleanEnd(front: string, re: string)
    requires '\n' !in front && front != "" && !TextLines.IsSpace(front[|front| - 1]) && TrimRight(front) == front
    ensures Clean(TrimRight(front + " " + re)) <==> Clean(TrimRight(re))
  {
    var t := TrimRight(re);
    TrimRightEnd(front + " ", re);
    TrimRightEnd(front, " ");
    if t != "" {
      var s := front + " " + t;
      assert s[|s| - 1] == t[|t| - 1];
      assert '\n' in s <==> '\n' in t;
    }
  }

  lemma OneLineClean(c: Check)
    ensures Clean(TrimRight(Line(c))) <==> Clean(TrimRight(c.re))
  {
    var front := "Assert failed on " + (if c.invert then "inverted " else "") + "regexp:";
    assert Line(c) == front + " " + c.re;
    assert '\n' !in front && front[|front| - 1] == ':';
    CleanEnd(front, c.re);
  }

  lemma Regroup(t: string, br: string, line: string, rest: string)
    ensures t + (br + line + rest) == t + br + (line + rest)
  {}

  lemma AfterError(base: string, fs: seq<Check>)
    requires TrimLeft(base) != "" && fs != []
    ensures '\n' in TrimSpace(base + FailureLines(fs))
  {
    var rest := FailureLines(fs[1..]);
    TrimLeftFront(base, FailureLines(fs));
    Regroup(TrimLeft(base), "\n", Line(fs[0]), rest);
    LineStays(fs[0], rest);
    BreakStays(TrimLeft(base), Line(fs[0]) + rest);
  }

  lemma Alone(base: string, fs: seq<Check>)
    requires TrimLeft(base) == "" && fs != []
    ensures TrimSpace(base + FailureLines(fs)) == TrimRight(Line(fs[0]) + FailureLines(fs[1..]))
  {
    TrimLeftFront(base, FailureLines(fs));
    LineStays(fs[0], FailureLines(fs[1..]));
  }

  lemma Several(fs: seq<Check>)
    requires |fs| > 1
    ensures '\n' in TrimRight(Line(fs[0]) + FailureLines(fs[1..]))
  {
    var rest := FailureLines(fs[1..][1..]);
    Regroup(Line(fs[0]), "\n", Line(fs[1]), rest);
    LineStays(fs[1], rest);
    BreakStays(Line(fs[0]), Line(fs[1]) + rest);
  }

  // The text is read back as it is if and only if one failure is all there is to it, and its
  // expression, less white space at its end, is written on one line: an error before it, or a second
  // failure, puts a line break inside.
  lemma ErrorSurvivesIff(base: string, cs: seq<Check>)
    requires Failed(cs) != []
    ensures ReaderLines(AssertError(base, cs) + "\n") == [AssertError(base, cs)]
        <==> TrimLeft(base) == "" && |Failed(cs)| == 1 && Clean(TrimRight(Failed(cs)[0].re))
  {
    var fs := Failed(cs);
    SurvivesIffClean(AssertError(base, cs));
    if TrimLeft(base) != "" {
      AfterError(base, fs);
    } else {
      Alone(base, fs);
      if |fs| > 1 {
        Several(fs);
      } else {
        TakeAll(Line(fs[0]));
        OneLineClean(fs[0]);
      }
    }
  }

  // ---------------------------------------------------------------- which assertions fail

  // A plain assertion wants its expression found, an inverted one wants it not found.
  predicate Holds(c: Check) { if c.invert then !c.found else c.found }

  lemma {:induction false} FailedIffNot(cs: seq<Check>)
    ensures forall c :: c in Failed(cs) <==> c in cs && !Holds(c)
    ensures Failed(cs) == [] <==> forall c :: c in cs ==> Holds(c)
  {
    if cs != [] {
      FailedIffNot(cs[1..]);
      assert forall c :: c in cs <==> c == cs[0] || c in cs[1..];
      if !Holds(cs[0]) { assert Failed(cs)[0] == cs[0]; }
    }
  }

  // Without an error before, there is none after the assertions if and only if every plain one has found its
  // expression and every inverted one has not.
  lemma NoErrorIff(base: string, cs: seq<Check>)
    requires TrimLeft(base) == ""
    ensures AssertError(base, cs) == "" <==> forall c :: c in cs ==> if c.invert then !c.found else c.found
  {
    FailedIffNot(cs);
    if Failed(cs) == [] {
      assert base + FailureLines([]) == base;
    } else {
      Alone(base, Failed(cs));
      LineStays(Failed(cs)[0], FailureLines(Failed(cs)[1..]));
    }
    assert forall c :: c in cs ==> (Holds(c) <==> if c.invert then !c.found else c.found);
  }

  function Told(invert: bool): string {
    if invert then "Assert failed on inverted regexp: " else "Assert failed on regexp: "
  }

  lemma LineTells(c: Check)
    ensures Line(c) == Told(c.invert) + c.re && Told(c.invert) != ""
  {}

  // One that fails alone is told by its expression, and whether it was inverted.
  lemma OneFailureSays(base: string, cs: seq<Check>)
    requires TrimLeft(base) == "" && |Failed(cs)| == 1 && TrimRight(Failed(cs)[0].re) == Failed(cs)[0].re != ""
    ensures var c := Failed(cs)[0];
            c in cs && !Holds(c) && AssertError(base, cs) == Told(c.invert) + c.re
  {
    var c := Failed(cs)[0];
    FailedIffNot(cs);
    assert c in Failed(cs);
    Alone(base, Failed(cs));
    TakeAll(Line(c));
    LineTells(c);
    TrimRightEnd(Told(c.invert), c.re);
  }
}
