/** Indexed metadata take their expressions from a cache that all readers and workers share: exactly when a
    request still means what its literal metadata mean. */
module ExpressionSharing {
  import opened Prelude
  import opened Sequences
  import opened RegexCache
  import opened Metadata
  import opened StrIndex
  import opened TextLines
  import opened InputOrder
  import opened ReplacementOrder

  // ---------------------------------------------------------------- a payload file as the cache sees it

  // The expressions cut out of the texts, in the order of the decoders.
  function DecodedExprs(req: Request): seq<string> {
    Map(ExtractExpr, Map(ExtractText, req.extracts)) + Map(AssertExpr, Map(AssertText, req.asserts))
  }

  // Metadata whose numbers do not fit are refused before anything is decoded.
  function TaskOf(req: Request, m: Indexed): Task {
    if Fits(m) then Task(DecodedExprs(req), req.consumes) else Refused
  }

  function TasksOf(reqs: seq<Request>): (tasks: seq<Task>)
    ensures |tasks| == |reqs|
    ensures forall i :: 0 <= i < |reqs| ==> tasks[i] == TaskOf(reqs[i], NumbersOf(reqs)[i])
  {
    seq(|reqs|, i requires 0 <= i < |reqs| => TaskOf(reqs[i], NumbersOf(reqs)[i]))
  }

  function ConfigOf(reqs: seq<Request>, own: bool, workers: nat): (c: Config)
    ensures |c.tasks| == |reqs|
  {
    Config(TasksOf(reqs), own, workers)
  }

  // An expression may have been given for each of them, or a record was cut short.
  function Padded(given: seq<Option<string>>, n: nat): (all: seq<Option<string>>)
    ensures |all| == n
    ensures forall i :: 0 <= i < n && i < |given| ==> all[i] == given[i]
  {
    if |given| >= n then given[..n] else given + Nones(n - |given|)
  }

  function AnswersFrom(req: Request, given: seq<Option<string>>): (a: Answers)
    ensures AnsweredFor(req, a)
  {
    var all := Padded(given, |req.extracts| + |req.asserts|);
    Answers(all[..|req.extracts|], all[|req.extracts|..])
  }

  // What the numbers of a request decode to, with the expressions given, is its literal meaning.
  ghost predicate MeansLiteral(reqs: seq<Request>, k: nat, a: Answers, compiles: Compiler)
    requires k < |reqs|
  {
    Answered(NumbersOf(reqs)[k], a)
    && DecodeIndexed(NumbersOf(reqs)[k], Load(JoinLines(ListAfter(reqs)[1..])).index, a)
         == FromLiteral(reqs[k], compiles)
  }

  // Whenever the request is sent, or reported as bad, in any run, it does.
  ghost predicate AlwaysLiteral(reqs: seq<Request>, k: nat, own: bool, workers: nat, compiles: Compiler)
    requires k < |reqs|
  {
    var c := ConfigOf(reqs, own, workers);
    forall es, m :: m in InputOrder.Run(InputOrder.Start(c), es, c, compiles).made && m.record == k ==>
      MeansLiteral(reqs, k, AnswersFrom(reqs[k], m.given), compiles)
  }

  // A record refers to a variable of this name, and none up to it decodes an expression of this text.
  ghost predicate ReferredBefore(reqs: seq<Request>, e: string, compiles: Compiler) {
    exists j :: 0 <= j < |reqs| && ReferredFirst(ConfigOf(reqs, false, 1), e, j, compiles)
  }

  // What can be checked of a file before it is used.
  ghost predicate StaysLiteral(reqs: seq<Request>, k: nat, compiles: Compiler)
    requires k < |reqs|
  {
    FromLiteral(reqs[k], compiles).Failed?
    || (Fits(NumbersOf(reqs)[k]) && forall e :: e in Exprs(reqs[k]) ==> !ReferredBefore(reqs, e, compiles))
  }

  // The names of the extractors are the keys of a dictionary.
  predicate Distinct(xs: seq<(string, Extract)>) {
    forall i, j :: 0 <= i < j < |xs| ==> xs[i].0 != xs[j].0
  }

  // The names of variables are made of letters and digits.
  ghost predicate GoodNames(reqs: seq<Request>, compiles: Compiler) {
    forall r, n :: r in reqs && n in r.consumes ==> compiles(n) && compiles(Pattern(n))
  }

  // ---------------------------------------------------------------- expressions of a plain request

  lemma ExtractIsCutOut(x: (string, Extract))
    requires ' ' !in x.0 && InRange(x.1)
    ensures ExtractExpr(ExtractText(x)) == x.1.re
  {
    ExtractRoundTripIff(x.0, x.1);
  }

  function ExtractRe(x: (string, Extract)): string { x.1.re }

  function AssertRe(x: Assert): string { x.re }

  lemma {:induction false} ExtractExprsAre(xs: seq<(string, Extract)>)
    ensures ExtractExprs(xs) == Map(ExtractRe, xs)
  {
    if xs != [] { ExtractExprsAre(xs[1..]); }
  }

  lemma {:induction false} AssertExprsAre(xs: seq<Assert>)
    ensures AssertExprs(xs) == Map(AssertRe, xs)
  {
    if xs != [] { AssertExprsAre(xs[1..]); }
  }

  lemma PlainExprs(req: Request)
    requires Plain(req)
    ensures DecodedExprs(req) == Exprs(req)
  {
    forall x | x in req.extracts ensures ExtractExpr(ExtractText(x)) == ExtractRe(x) { ExtractIsCutOut(x); }
    forall x | x in req.asserts ensures AssertExpr(AssertText(x)) == AssertRe(x) { AssertRoundTrip(x); }
    MapTwice(ExtractText, ExtractExpr, ExtractRe, req.extracts);
    MapTwice(AssertText, AssertExpr, AssertRe, req.asserts);
    ExtractExprsAre(req.extracts);
    AssertExprsAre(req.asserts);
  }

  lemma {:induction false} ExtractFails(xs: seq<(string, Extract)>, e: string, compiles: Compiler)
    requires e in ExtractExprs(xs) && !compiles(e)
    ensures !ExtractsCompile(xs, compiles)
  {
    if xs[0].1.re != e { ExtractFails(xs[1..], e, compiles); }
  }

  lemma {:induction false} AssertFails(xs: seq<Assert>, e: string, compiles: Compiler)
    requires e in AssertExprs(xs) && !compiles(e)
    ensures !AssertsCompile(xs, compiles)
  {
    if xs[0].re != e { AssertFails(xs[1..], e, compiles); }
  }

  lemma {:induction false} ExtractsAllCompile(xs: seq<(string, Extract)>, compiles: Compiler)
    requires !ExtractsCompile(xs, compiles)
    ensures exists e :: e in ExtractExprs(xs) && !compiles(e)
  {
    assert ExtractExprs(xs)[0] == xs[0].1.re;
    if compiles(xs[0].1.re) { ExtractsAllCompile(xs[1..], compiles); }
  }

  lemma {:induction false} AssertsAllCompile(xs: seq<Assert>, compiles: Compiler)
    requires !AssertsCompile(xs, compiles)
    ensures exists e :: e in AssertExprs(xs) && !compiles(e)
  {
    assert AssertExprs(xs)[0] == xs[0].re;
    if compiles(xs[0].re) { AssertsAllCompile(xs[1..], compiles); }
  }

  lemma FailedIff(req: Request, compiles: Compiler)
    ensures FromLiteral(req, compiles).Failed? <==> exists e :: e in Exprs(req) && !compiles(e)
  {
    if !ExtractsCompile(req.extracts, compiles) { ExtractsAllCompile(req.extracts, compiles); }
    if !AssertsCompile(req.asserts, compiles) { AssertsAllCompile(req.asserts, compiles); }
    if e :| e in Exprs(req) && !compiles(e) {
      if e in ExtractExprs(req.extracts) {
        ExtractFails(req.extracts, e, compiles);
      } else {
        AssertFails(req.asserts, e, compiles);
      }
    }
  }

  // ---------------------------------------------------------------- what is given, and what it means

  lemma {:induction false} NotAllGiven(given: seq<Option<string>>, i: nat)
    requires i < |given| && given[i].None?
    ensures !AllGiven(given)
  {
    if i > 0 { NotAllGiven(given[1..], i - 1); }
  }

  lemma NoneFails(req: Request, given: seq<Option<string>>, i: nat)
    requires i < |req.extracts| + |req.asserts| && Padded(given, |req.extracts| + |req.asserts|)[i].None?
    ensures WithAnswers(req, AnswersFrom(req, given)) == Failed
  {
    var a, n := AnswersFrom(req, given), |req.extracts|;
    if i < n { NotAllGiven(a.extracts, i); } else { NotAllGiven(a.asserts, i - n); }
  }

  predicate Own(exprs: seq<string>, given: seq<Option<string>>) {
    |given| == |exprs| && forall i :: 0 <= i < |exprs| ==> given[i] == Some(exprs[i])
  }

  lemma {:induction false} OwnExtracts(xs: seq<(string, Extract)>, given: seq<Option<string>>)
    requires Own(ExtractExprs(xs), given)
    ensures AllGiven(given) && WithExtracts(xs, given) == xs
  {
    if xs != [] {
      assert ExtractExprs(xs)[0] == xs[0].1.re && ExtractExprs(xs)[1..] == ExtractExprs(xs[1..]);
      OwnExtracts(xs[1..], given[1..]);
    }
  }

  lemma {:induction false} OwnAsserts(xs: seq<Assert>, given: seq<Option<string>>)
    requires Own(AssertExprs(xs), given)
    ensures AllGiven(given) && WithAsserts(xs, given) == xs
  {
    if xs != [] {
      assert AssertExprs(xs)[0] == xs[0].re && AssertExprs(xs)[1..] == AssertExprs(xs[1..]);
      OwnAsserts(xs[1..], given[1..]);
    }
  }

  lemma OwnIsLiteral(req: Request, given: seq<Option<string>>, compiles: Compiler)
    requires Own(Exprs(req), given) && !FromLiteral(req, compiles).Failed?
    ensures WithAnswers(req, AnswersFrom(req, given)) == FromLiteral(req, compiles)
  {
    var a := AnswersFrom(req, given);
    assert Own(ExtractExprs(req.extracts), a.extracts) && Own(AssertExprs(req.asserts), a.asserts);
    OwnExtracts(req.extracts, a.extracts);
    OwnAsserts(req.asserts, a.asserts);
  }

  lemma {:induction false} ExtractAt(xs: seq<(string, Extract)>, given: seq<Option<string>>, i: nat)
    requires i < |xs| == |given| && AllGiven(given)
    ensures |WithExtracts(xs, given)| == |xs| && given[i].Some?
    ensures WithExtracts(xs, given)[i] == (xs[i].0, xs[i].1.(re := given[i].value))
    ensures ExtractExprs(xs)[i] == xs[i].1.re
  {
    if i > 0 { ExtractAt(xs[1..], given[1..], i - 1); } else if |xs| > 1 { ExtractAt(xs[1..], given[1..], 0); }
  }

  lemma {:induction false} AssertAt(xs: seq<Assert>, given: seq<Option<string>>, i: nat)
    requires i < |xs| == |given| && AllGiven(given)
    ensures |WithAsserts(xs, given)| == |xs| && given[i].Some?
    ensures WithAsserts(xs, given)[i] == xs[i].(re := given[i].value)
    ensures AssertExprs(xs)[i] == xs[i].re
  {
    if i > 0 { AssertAt(xs[1..], given[1..], i - 1); } else if |xs| > 1 { AssertAt(xs[1..], given[1..], 0); }
  }

  lemma {:induction false} KeyStays(acc: map<string, Extract>, xs: seq<(string, Extract)>, k: string)
    requires k in acc && forall i :: 0 <= i < |xs| ==> xs[i].0 != k
    ensures k in Dictionary(acc, xs) && Dictionary(acc, xs)[k] == acc[k]
    decreases |xs|
  {
    if xs != [] { KeyStays(acc[xs[0].0 := xs[0].1], xs[1..], k); }
  }

  lemma {:induction false} DictionaryAt(acc: map<string, Extract>, xs: seq<(string, Extract)>, i: nat)
    requires i < |xs| && Distinct(xs)
    ensures xs[i].0 in Dictionary(acc, xs) && Dictionary(acc, xs)[xs[i].0] == xs[i].1
    decreases |xs|
  {
    var acc' := acc[xs[0].0 := xs[0].1];
    if i == 0 { KeyStays(acc', xs[1..], xs[0].0); } else { DictionaryAt(acc', xs[1..], i - 1); }
  }

  lemma WrongExtract(xs: seq<(string, Extract)>, given: seq<Option<string>>, i: nat)
    requires Distinct(xs) && |given| == |xs| && AllGiven(given) && i < |xs| && given[i] != Some(ExtractExprs(xs)[i])
    ensures Dictionary(map[], WithExtracts(xs, given)) != Dictionary(map[], xs)
  {
    var ys := WithExtracts(xs, given);
    forall j | 0 <= j < |xs| ensures |ys| == |xs| && ys[j].0 == xs[j].0 { ExtractAt(xs, given, j); }
    ExtractAt(xs, given, i);
    DictionaryAt(map[], xs, i);
    DictionaryAt(map[], ys, i);
  }

  lemma WrongIsNotLiteral(req: Request, given: seq<Option<string>>, i: nat, compiles: Compiler)
    requires Distinct(req.extracts) && |given| == |Exprs(req)| && i < |given| && given[i] != Some(Exprs(req)[i])
    requires !FromLiteral(req, compiles).Failed?
    ensures WithAnswers(req, AnswersFrom(req, given)) != FromLiteral(req, compiles)
  {
    var a, n := AnswersFrom(req, given), |req.extracts|;
    if AllGiven(a.extracts) && AllGiven(a.asserts) {
      if i < n { WrongExtract(req.extracts, a.extracts, i); } else { AssertAt(req.asserts, a.asserts, i - n); }
    }
  }

  // ---------------------------------------------------------------- in every run

  lemma {:induction false} NamesOfFile(reqs: seq<Request>, own: bool, workers: nat, compiles: Compiler)
    requires GoodNames(reqs, compiles)
    ensures NamesCompile(ConfigOf(reqs, own, workers), compiles)
  {
    var c := ConfigOf(reqs, own, workers);
    forall i, n | 0 <= i < |c.tasks| && c.tasks[i].Task? && n in c.tasks[i].names
      ensures compiles(n) && compiles(Pattern(n))
    {
      assert reqs[i] in reqs && n in reqs[i].consumes;
    }
  }

  lemma {:induction false} MadeInRun(reqs: seq<Request>, own: bool, workers: nat, es: seq<InputOrder.Event>, m: Made,
                                     compiles: Compiler)
    requires GoodNames(reqs, compiles)
    requires var c := ConfigOf(reqs, own, workers); m in InputOrder.Run(InputOrder.Start(c), es, c, compiles).made
    ensures MadeOk(m, ConfigOf(reqs, own, workers), compiles)
  {
    NamesOfFile(reqs, own, workers, compiles);
    SoundFromStart(es, ConfigOf(reqs, own, workers), compiles);
  }

  lemma CutShortSomewhere(m: Made, e: string, c: Config, compiles: Compiler) returns (i: nat)
    requires MadeOk(m, c, compiles) && c.tasks[m.record].Task? && e in c.tasks[m.record].exprs && !compiles(e)
    ensures i < |c.tasks[m.record].exprs| && Padded(m.given, |c.tasks[m.record].exprs|)[i].None?
  {
    var exprs := c.tasks[m.record].exprs;
    if |m.given| < |exprs| {
      CutShort(m, c, compiles);
      i := |m.given| - 1;
    } else {
      i :| 0 <= i < |exprs| && exprs[i] == e;
    }
  }

  lemma {:induction false} TaskInFile(reqs: seq<Request>, k: nat, c: Config)
    requires k < |reqs| && Plain(reqs[k]) && c.tasks == TasksOf(reqs) && Fits(NumbersOf(reqs)[k])
    ensures c.tasks[k] == Task(Exprs(reqs[k]), reqs[k].consumes)
  {
    PlainExprs(reqs[k]);
  }

  // A request whose expressions do not all compile fails in both encodings.
  lemma {:induction false} FailsAnyhow(reqs: seq<Request>, k: nat, m: Made, c: Config, compiles: Compiler)
    requires k < |reqs| && Plain(reqs[k]) && c.tasks == TasksOf(reqs) && Fits(NumbersOf(reqs)[k])
    requires MadeOk(m, c, compiles) && m.record == k && FromLiteral(reqs[k], compiles).Failed?
    ensures WithAnswers(reqs[k], AnswersFrom(reqs[k], m.given)) == Failed
  {
    TaskInFile(reqs, k, c);
    FailedIff(reqs[k], compiles);
    var e :| e in Exprs(reqs[k]) && !compiles(e);
    var i := CutShortSomewhere(m, e, c, compiles);
    NoneFails(reqs[k], m.given, i);
  }

  lemma {:induction false} SentWhen(reqs: seq<Request>, k: nat, e: string, c: Config, compiles: Compiler)
    requires k < |reqs| && Plain(reqs[k]) && c.tasks == TasksOf(reqs) && Fits(NumbersOf(reqs)[k])
    requires !FromLiteral(reqs[k], compiles).Failed?
    ensures Sent(c.tasks[k], compiles) && c.tasks[k].exprs == Exprs(reqs[k])
    ensures e in Exprs(reqs[k]) ==> Reaches(c.tasks[k], e, compiles)
  {
    var exprs := Exprs(reqs[k]);
    TaskInFile(reqs, k, c);
    FailedIff(reqs[k], compiles);
    forall p | 0 <= p < |exprs| ensures compiles(exprs[p]) { assert exprs[p] in exprs; }
    if e in exprs {
      var q :| 0 <= q < |exprs| && exprs[q] == e;
      assert ReachesAt(c.tasks[k], e, q, compiles);
    }
  }

  lemma SameTasks(c: Config, d: Config, e: string, compiles: Compiler)
    requires c.tasks == d.tasks
    ensures (exists j :: 0 <= j < |c.tasks| && ReferredFirst(c, e, j, compiles))
       <==> (exists j :: 0 <= j < |d.tasks| && ReferredFirst(d, e, j, compiles))
  {
    if j :| 0 <= j < |c.tasks| && ReferredFirst(c, e, j, compiles) { assert ReferredFirst(d, e, j, compiles); }
    if j :| 0 <= j < |d.tasks| && ReferredFirst(d, e, j, compiles) { assert ReferredFirst(c, e, j, compiles); }
  }

  lemma {:induction false} DecodedInFile(reqs: seq<Request>, k: nat, e: string, own: bool, workers: nat,
                                         compiles: Compiler)
    requires k < |reqs| && Plain(reqs[k]) && GoodNames(reqs, compiles) && workers > 0 && Fits(NumbersOf(reqs)[k])
    requires !FromLiteral(reqs[k], compiles).Failed? && e in Exprs(reqs[k])
    ensures DecodedRight(ConfigOf(reqs, own, workers), k, e, compiles) <==> !ReferredBefore(reqs, e, compiles)
  {
    var c := ConfigOf(reqs, own, workers);
    NamesOfFile(reqs, own, workers, compiles);
    SentWhen(reqs, k, e, c, compiles);
    DecodedRightIff(c, k, e, compiles);
    SameTasks(c, ConfigOf(reqs, false, 1), e, compiles);
  }

  lemma {:induction false} RightIsOwn(reqs: seq<Request>, k: nat, m: Made, c: Config, compiles: Compiler)
    requires k < |reqs| && Plain(reqs[k]) && c.tasks == TasksOf(reqs) && Fits(NumbersOf(reqs)[k])
    requires !FromLiteral(reqs[k], compiles).Failed? && MadeOk(m, c, compiles) && m.record == k
    ensures |m.given| == |Exprs(reqs[k])|
    ensures Own(Exprs(reqs[k]), m.given)
       <==> forall e :: e in Exprs(reqs[k]) ==> Says(c.tasks[k], m.given, e, e)
  {
    SentWhen(reqs, k, "", c, compiles);
    var exprs := Exprs(reqs[k]);
    if |m.given| < |exprs| { CutShort(m, c, compiles); }
    if forall e :: e in exprs ==> Says(c.tasks[k], m.given, e, e) {
      forall i | 0 <= i < |exprs| ensures m.given[i] == Some(exprs[i]) {
        assert exprs[i] in exprs && Says(c.tasks[k], m.given, exprs[i], exprs[i]);
      }
    }
  }

  lemma {:induction false} LiteralIffOwn(reqs: seq<Request>, k: nat, m: Made, c: Config, compiles: Compiler)
    requires k < |reqs| && Plain(reqs[k]) && Distinct(reqs[k].extracts) && c.tasks == TasksOf(reqs)
    requires forall s :: s in ListAfter(reqs) ==> Scannable(s)
    requires Fits(NumbersOf(reqs)[k]) && !FromLiteral(reqs[k], compiles).Failed?
    requires MadeOk(m, c, compiles) && m.record == k
    ensures MeansLiteral(reqs, k, AnswersFrom(reqs[k], m.given), compiles) <==> Own(Exprs(reqs[k]), m.given)
  {
    DecodedFromFile(reqs, k, AnswersFrom(reqs[k], m.given));
    RightIsOwn(reqs, k, m, c, compiles);
    if Own(Exprs(reqs[k]), m.given) {
      OwnIsLiteral(reqs[k], m.given, compiles);
    } else {
      var i :| 0 <= i < |m.given| && m.given[i] != Some(Exprs(reqs[k])[i]);
      WrongIsNotLiteral(reqs[k], m.given, i, compiles);
    }
  }

  // Numbers that fit, and expressions that all compile.
  lemma {:induction false} LiteralWhenFits(reqs: seq<Request>, k: nat, own: bool, workers: nat, compiles: Compiler)
    requires k < |reqs| && Plain(reqs[k]) && Distinct(reqs[k].extracts) && workers > 0 && GoodNames(reqs, compiles)
    requires forall s :: s in ListAfter(reqs) ==> Scannable(s)
    requires Fits(NumbersOf(reqs)[k]) && !FromLiteral(reqs[k], compiles).Failed?
    ensures AlwaysLiteral(reqs, k, own, workers, compiles)
       <==> forall e :: e in Exprs(reqs[k]) ==> !ReferredBefore(reqs, e, compiles)
  {
    var c := ConfigOf(reqs, own, workers);
    forall e | e in Exprs(reqs[k])
      ensures DecodedRight(c, k, e, compiles) <==> !ReferredBefore(reqs, e, compiles)
    {
      DecodedInFile(reqs, k, e, own, workers, compiles);
    }
    forall es, m | m in InputOrder.Run(InputOrder.Start(c), es, c, compiles).made && m.record == k
      ensures MeansLiteral(reqs, k, AnswersFrom(reqs[k], m.given), compiles)
         <==> forall e :: e in Exprs(reqs[k]) ==> Says(c.tasks[k], m.given, e, e)
    {
      MadeInRun(reqs, own, workers, es, m, compiles);
      LiteralIffOwn(reqs, k, m, c, compiles);
      RightIsOwn(reqs, k, m, c, compiles);
    }
  }

  lemma {:induction false} LiteralWhenFailed(reqs: seq<Request>, k: nat, own: bool, workers: nat, compiles: Compiler)
    requires k < |reqs| && Plain(reqs[k]) && GoodNames(reqs, compiles)
    requires forall s :: s in ListAfter(reqs) ==> Scannable(s)
    requires FromLiteral(reqs[k], compiles).Failed?
    ensures AlwaysLiteral(reqs, k, own, workers, compiles)
  {
    var c := ConfigOf(reqs, own, workers);
    forall es, m | m in InputOrder.Run(InputOrder.Start(c), es, c, compiles).made && m.record == k
      ensures MeansLiteral(reqs, k, AnswersFrom(reqs[k], m.given), compiles)
    {
      DecodedFromFile(reqs, k, AnswersFrom(reqs[k], m.given));
      MadeInRun(reqs, own, workers, es, m, compiles);
      if Fits(NumbersOf(reqs)[k]) { FailsAnyhow(reqs, k, m, c, compiles); }
    }
  }

  lemma {:induction false} RefusedIsNot(reqs: seq<Request>, k: nat, own: bool, workers: nat, compiles: Compiler)
    requires k < |reqs| && Plain(reqs[k]) && workers > 0 && GoodNames(reqs, compiles)
    requires forall s :: s in ListAfter(reqs) ==> Scannable(s)
    requires !Fits(NumbersOf(reqs)[k]) && !FromLiteral(reqs[k], compiles).Failed?
    ensures !AlwaysLiteral(reqs, k, own, workers, compiles)
  {
    var c := ConfigOf(reqs, own, workers);
    NamesOfFile(reqs, own, workers, compiles);
    var es := WorkThrough(c, "", k, compiles);
    var made := InputOrder.Run(InputOrder.Start(c), es, c, compiles).made;
    var m := made[|made| - 1];
    assert m in made;
    DecodedFromFile(reqs, k, AnswersFrom(reqs[k], m.given));
  }

  // A request means its literal metadata in every run, with one input for all workers or one for each,
  // whatever the number of workers and the interleaving, if and only if the literal metadata fail to
  // compile, or its numbers fit 16 bits and for none of its expressions there is a record that refers to a
  // variable of that name before the first record that decodes it.
  lemma {:induction false} AlwaysLiteralIff(reqs: seq<Request>, k: nat, own: bool, workers: nat, compiles: Compiler)
    requires k < |reqs| && Plain(reqs[k]) && Distinct(reqs[k].extracts) && workers > 0 && GoodNames(reqs, compiles)
    requires forall s :: s in ListAfter(reqs) ==> Scannable(s)
    ensures AlwaysLiteral(reqs, k, own, workers, compiles) <==> StaysLiteral(reqs, k, compiles)
  {
    if FromLiteral(reqs[k], compiles).Failed? {
      LiteralWhenFailed(reqs, k, own, workers, compiles);
    } else if Fits(NumbersOf(reqs)[k]) {
      LiteralWhenFits(reqs, k, own, workers, compiles);
    } else {
      RefusedIsNot(reqs, k, own, workers, compiles);
    }
  }

  // ---------------------------------------------------------------- a reader left to itself

  lemma {:induction false} GivenByIs(cache: Entries, texts: seq<string>, expr: string -> string, compiles: Compiler)
    ensures GivenBy(cache, Map(Given, texts), expr, compiles)
         == (Padded(GivenFor(cache, Map(expr, texts), compiles).0, |texts|),
             GivenFor(cache, Map(expr, texts), compiles).1)
    decreases |texts|
  {
    if texts != [] {
      MapTail(Given, texts);
      MapTail(expr, texts);
      var (answer, cache') := UseOne(cache, Decode(expr(texts[0])), compiles);
      if answer.Some? {
        GivenByIs(cache', texts[1..], expr, compiles);
        PaddedNext(answer, GivenFor(cache', Map(expr, texts[1..]), compiles).0, |texts| - 1);
      } else {
        assert Padded([None], |texts|) == Nones(|texts|);
      }
    }
  }

  lemma PaddedNext(answer: Option<string>, more: seq<Option<string>>, n: nat)
    ensures Padded([answer] + more, n + 1) == [answer] + Padded(more, n)
  {}

  lemma {:induction false} GivenForBoth(cache: Entries, a: seq<string>, b: seq<string>, compiles: Compiler)
    ensures var (x, after) := GivenFor(cache, a, compiles);
            GivenFor(cache, a + b, compiles)
              == if CutOff(x) then (x, after)
                 else (x + GivenFor(after, b, compiles).0, GivenFor(after, b, compiles).1)
    decreases |a|
  {
    if a == [] {
      assert a + b == b;
      assert [] + GivenFor(cache, b, compiles).0 == GivenFor(cache, b, compiles).0;
    } else {
      assert (a + b)[0] == a[0] && (a + b)[1..] == a[1..] + b;
      var (answer, cache') := UseOne(cache, Decode(a[0]), compiles);
      if answer.Some? {
        GivenForBoth(cache', a[1..], b, compiles);
        var (x, after) := GivenFor(cache', a[1..], compiles);
        Reassociate([answer], x, GivenFor(after, b, compiles).0);
      }
    }
  }

  lemma PaddedFails(given: seq<Option<string>>, n: nat)
    requires CutOff(given) && |given| <= n
    ensures !AllGiven(Padded(given, n))
  {
    NotAllGiven(Padded(given, n), |given| - 1);
  }

  lemma PaddedSplit(x: seq<Option<string>>, y: seq<Option<string>>, n: nat)
    ensures Padded(x + y, |x| + n)[..|x|] == x && Padded(x + y, |x| + n)[|x|..] == Padded(y, n)
  {}

  lemma PaddedFront(x: seq<Option<string>>, n: nat, k: nat)
    requires |x| <= n
    ensures Padded(x, n + k)[..n] == Padded(x, n)
  {}

  lemma {:induction false} AnswersByIs(req: Request, strs: seq<string>, cache: Entries, compiles: Compiler)
    requires Known(strs, Texts(req))
    ensures var es, cs := Map(ExtractText, req.extracts), Map(AssertText, req.asserts);
            var (x, after) := GivenFor(cache, Map(ExtractExpr, es), compiles);
            AnswersBy(IndexedOf(req, strs), strs, cache, compiles)
              == Answers(Padded(x, |es|), Padded(GivenFor(after, Map(AssertExpr, cs), compiles).0, |cs|))
  {
    var es, cs := Map(ExtractText, req.extracts), Map(AssertText, req.asserts);
    Members(req, strs);
    GotAll(strs, es);
    GotAll(strs, cs);
    GivenByIs(cache, es, ExtractExpr, compiles);
    GivenByIs(GivenFor(cache, Map(ExtractExpr, es), compiles).1, cs, AssertExpr, compiles);
  }

  // Answers that are cut off at the extractors, or go on with those for the assertions.
  lemma SameAnswers(req: Request, x: seq<Option<string>>, y: seq<Option<string>>)
    requires |x| <= |req.extracts| && |y| <= |req.asserts| && (!CutOff(x) ==> |x| == |req.extracts|)
    ensures var a := Answers(Padded(x, |req.extracts|), Padded(y, |req.asserts|));
            AnsweredFor(req, a)
            && WithAnswers(req, AnswersFrom(req, if CutOff(x) then x else x + y)) == WithAnswers(req, a)
  {
    if CutOff(x) {
      PaddedFails(x, |req.extracts|);
      PaddedFront(x, |req.extracts|, |req.asserts|);
    } else {
      PaddedSplit(x, y, |req.asserts|);
      assert Padded(x, |req.extracts|) == x;
    }
  }

  // What the reader of the step system is given for a record means what the decoders, called one after the
  // other over the same cache, make of it.
  lemma {:induction false} AloneIsDecodeItem(req: Request, strs: seq<string>, cache: Entries, compiles: Compiler)
    requires Known(strs, Texts(req)) && strs != [] && strs[0] == "" && Plain(req) && Fits(IndexedOf(req, strs))
    ensures var m, given := IndexedOf(req, strs), GivenFor(cache, DecodedExprs(req), compiles).0;
            Answered(m, AnswersFrom(req, given))
            && DecodeIndexed(m, strs, AnswersFrom(req, given))
                 == DecodeIndexed(m, strs, AnswersBy(m, strs, cache, compiles))
  {
    var es, cs := Map(ExtractExpr, Map(ExtractText, req.extracts)), Map(AssertExpr, Map(AssertText, req.asserts));
    var (x, after) := GivenFor(cache, es, compiles);
    AnswersByIs(req, strs, cache, compiles);
    GivenForBoth(cache, es, cs, compiles);
    GivenShape(cache, es, compiles);
    SameAnswers(req, x, GivenFor(after, cs, compiles).0);
    DecodedWithAnswers(req, strs, AnswersBy(IndexedOf(req, strs), strs, cache, compiles));
    DecodedWithAnswers(req, strs, AnswersFrom(req, GivenFor(cache, DecodedExprs(req), compiles).0));
  }

  // ---------------------------------------------------------------- a whole file

  // Everything in it can be used: expressions compile, numbers fit, and strings survive their file.
  ghost predicate Usable(reqs: seq<Request>, compiles: Compiler) {
    GoodNames(reqs, compiles) && (forall s :: s in ListAfter(reqs) ==> Scannable(s))
    && forall k :: 0 <= k < |reqs| ==>
         Plain(reqs[k]) && Distinct(reqs[k].extracts) && Fits(NumbersOf(reqs)[k])
         && !FromLiteral(reqs[k], compiles).Failed?
  }

  // A word is the text of an expression of one request and the name of a variable of another, or the same.
  predicate Shared(reqs: seq<Request>, v: string, i: nat, k: nat) {
    i < |reqs| && k < |reqs| && v in Exprs(reqs[i]) && v in reqs[k].consumes
  }

  ghost predicate FileRight(reqs: seq<Request>, own: bool, workers: nat, compiles: Compiler) {
    (forall k :: 0 <= k < |reqs| ==> AlwaysLiteral(reqs, k, own, workers, compiles))
    && forall k, v :: 0 <= k < |reqs| && v in reqs[k].consumes ==>
         ReplacedRight(ConfigOf(reqs, own, workers), v, compiles)
  }

  lemma {:induction false} UsableTask(reqs: seq<Request>, k: nat, v: string, c: Config, compiles: Compiler)
    requires Usable(reqs, compiles) && k < |reqs| && c.tasks == TasksOf(reqs)
    ensures Reaches(c.tasks[k], v, compiles) <==> v in Exprs(reqs[k])
    ensures Refers(c.tasks[k], v, compiles) <==> v in reqs[k].consumes
  {
    SentWhen(reqs, k, v, c, compiles);
    TaskInFile(reqs, k, c);
  }

  lemma {:induction false} UsableBoth(reqs: seq<Request>, c: Config, compiles: Compiler)
    requires Usable(reqs, compiles) && c.tasks == TasksOf(reqs)
    ensures forall v, i, k :: Both(c, v, i, k, compiles) <==> Shared(reqs, v, i, k)
  {
    forall v, i: nat, k: nat ensures Both(c, v, i, k, compiles) <==> Shared(reqs, v, i, k) {
      if i < |reqs| && k < |reqs| {
        UsableTask(reqs, i, v, c, compiles);
        UsableTask(reqs, k, v, c, compiles);
      }
    }
  }

  lemma {:induction false} UsableLiteral(reqs: seq<Request>, k: nat, own: bool, workers: nat, compiles: Compiler)
    requires Usable(reqs, compiles) && k < |reqs| && workers > 0
    ensures AlwaysLiteral(reqs, k, own, workers, compiles)
       <==> forall e :: e in Exprs(reqs[k]) ==> DecodedRight(ConfigOf(reqs, own, workers), k, e, compiles)
  {
    LiteralWhenFits(reqs, k, own, workers, compiles);
    forall e | e in Exprs(reqs[k])
      ensures DecodedRight(ConfigOf(reqs, own, workers), k, e, compiles) <==> !ReferredBefore(reqs, e, compiles)
    {
      DecodedInFile(reqs, k, e, own, workers, compiles);
    }
  }

  lemma {:induction false} LiteralIsDecoded(reqs: seq<Request>, own: bool, workers: nat, compiles: Compiler)
    requires Usable(reqs, compiles) && workers > 0
    ensures (forall k :: 0 <= k < |reqs| ==> AlwaysLiteral(reqs, k, own, workers, compiles))
       <==> var c := ConfigOf(reqs, own, workers);
            forall k, e :: 0 <= k < |c.tasks| && Reaches(c.tasks[k], e, compiles) ==> DecodedRight(c, k, e, compiles)
  {
    var c := ConfigOf(reqs, own, workers);
    forall k | 0 <= k < |reqs|
      ensures AlwaysLiteral(reqs, k, own, workers, compiles)
         <==> forall e :: Reaches(c.tasks[k], e, compiles) ==> DecodedRight(c, k, e, compiles)
    {
      UsableLiteral(reqs, k, own, workers, compiles);
      forall e ensures Reaches(c.tasks[k], e, compiles) <==> e in Exprs(reqs[k]) {
        UsableTask(reqs, k, e, c, compiles);
      }
    }
  }

  lemma {:induction false} ReferredIsReplaced(reqs: seq<Request>, own: bool, workers: nat, compiles: Compiler)
    requires Usable(reqs, compiles)
    ensures (forall k, v :: 0 <= k < |reqs| && v in reqs[k].consumes ==>
               ReplacedRight(ConfigOf(reqs, own, workers), v, compiles))
       <==> (forall k, v :: 0 <= k < |reqs| && Refers(ConfigOf(reqs, own, workers).tasks[k], v, compiles) ==>
               ReplacedRight(ConfigOf(reqs, own, workers), v, compiles))
  {
    var c := ConfigOf(reqs, own, workers);
    forall k: nat, v | k < |reqs| ensures Refers(c.tasks[k], v, compiles) <==> v in reqs[k].consumes {
      UsableTask(reqs, k, v, c, compiles);
    }
  }

  lemma {:induction false} RightIsEveryUse(reqs: seq<Request>, own: bool, workers: nat, compiles: Compiler)
    requires Usable(reqs, compiles) && workers > 0
    ensures FileRight(reqs, own, workers, compiles) <==> EveryUseRight(ConfigOf(reqs, own, workers), compiles)
  {
    LiteralIsDecoded(reqs, own, workers, compiles);
    ReferredIsReplaced(reqs, own, workers, compiles);
  }

  // In a file that can be used, every request means its literal metadata and every variable is replaced by its
  // own pattern, in every run, if and only if no variable has the text of an expression for its name.
  lemma {:induction false} FileRightIff(reqs: seq<Request>, own: bool, workers: nat, compiles: Compiler)
    requires Usable(reqs, compiles) && workers > 0
    ensures FileRight(reqs, own, workers, compiles) <==> forall v, i, k :: !Shared(reqs, v, i, k)
  {
    var c := ConfigOf(reqs, own, workers);
    NamesOfFile(reqs, own, workers, compiles);
    RightIsEveryUse(reqs, own, workers, compiles);
    UsableBoth(reqs, c, compiles);
    EveryUseRightIff(c, compiles);
  }

  // ---------------------------------------------------------------- a word that is both

  const REFERS: Request := Request("http://host", "page", ["token"], [], [])

  const ASSERTS: Request := Request("http://host", "page", [], [], [Assert("token", false)])

  const DOES_BOTH: Request := Request("http://host", "page", ["token"], [], [Assert("token", false)])

  lemma {:induction false} AddedOnly(strs: seq<string>, ss: seq<string>, s: string)
    requires s in AddEach(strs, ss)
    ensures s in strs || s in ss
    decreases |ss|
  {
    if ss != [] { AddedOnly(AddNew(strs, ss[0]), ss[1..], s); }
  }

  lemma {:induction false} AddedAtMost(strs: seq<string>, ss: seq<string>)
    ensures |AddEach(strs, ss)| <= |strs| + |ss|
    decreases |ss|
  {
    if ss != [] { AddedAtMost(AddNew(strs, ss[0]), ss[1..]); }
  }

  // The numbers of a file with at most 65536 strings fit.
  lemma {:induction false} SmallFileFits(reqs: seq<Request>, k: nat)
    requires k < |reqs| && |ListAfter(reqs)| <= CAPACITY
    ensures Fits(NumbersOf(reqs)[k])
  {
    NumbersAt(reqs, k);
    ListGrows(reqs, k + 1);
    Members(reqs[k], ListAfter(reqs[..k + 1]));
  }

  // A request of these three brings its host, its name, and perhaps these two texts.
  predicate Tokens(req: Request) { req in [REFERS, ASSERTS, DOES_BOTH] }

  lemma TokenTexts(req: Request)
    requires Tokens(req)
    ensures |Texts(req)| <= 4 && forall s :: s in Texts(req) ==> s in ["http://host", "page", "token", "0 token"]
  {
    assert AssertText(Assert("token", false)) == "0 token";
  }

  lemma {:induction false} TokenList(reqs: seq<Request>)
    requires |reqs| <= 2 && forall r :: r in reqs ==> Tokens(r)
    ensures |ListAfter(reqs)| <= 1 + 4 * |reqs|
    ensures forall s :: s in ListAfter(reqs) ==> Scannable(s)
  {
    if reqs == [] {
      assert Scannable("");
    } else {
      var front, last := reqs[..|reqs| - 1], reqs[|reqs| - 1];
      assert forall s :: s in ["http://host", "page", "token", "0 token"] ==> Scannable(s);
      TokenList(front);
      TokenTexts(last);
      AddedAtMost(ListAfter(front), Texts(last));
      forall s | s in ListAfter(reqs) ensures Scannable(s) { AddedOnly(ListAfter(front), Texts(last), s); }
    }
  }

  lemma TokenExprs(req: Request)
    requires Tokens(req)
    ensures Exprs(req) == (if req == REFERS then [] else ["token"])
    ensures Plain(req) && Distinct(req.extracts) && req.consumes == (if req == ASSERTS then [] else ["token"])
  {
    assert AssertExprs([]) == [];
    assert AssertExprs([Assert("token", false)]) == ["token"] + AssertExprs([]);
  }

  lemma {:induction false} TokenTask(reqs: seq<Request>, k: nat, own: bool, workers: nat)
    requires k < |reqs| <= 2 && forall r :: r in reqs ==> Tokens(r)
    ensures Fits(NumbersOf(reqs)[k])
    ensures ConfigOf(reqs, own, workers).tasks[k] == Task(Exprs(reqs[k]), reqs[k].consumes)
  {
    TokenList(reqs);
    SmallFileFits(reqs, k);
    TokenExprs(reqs[k]);
    TaskInFile(reqs, k, ConfigOf(reqs, own, workers));
  }

  lemma TokenNames(reqs: seq<Request>, compiles: Compiler)
    requires (forall r :: r in reqs ==> Tokens(r)) && compiles("token") && compiles(Pattern("token"))
    ensures GoodNames(reqs, compiles)
  {
    forall r, n | r in reqs && n in r.consumes ensures n == "token" { TokenExprs(r); }
  }

  lemma {:induction false} OneExpression(reqs: seq<Request>, k: nat, e: string, own: bool, workers: nat,
                                         compiles: Compiler)
    requires k < |reqs| && Plain(reqs[k]) && Distinct(reqs[k].extracts) && workers > 0 && GoodNames(reqs, compiles)
    requires forall s :: s in ListAfter(reqs) ==> Scannable(s)
    requires Fits(NumbersOf(reqs)[k]) && Exprs(reqs[k]) == [e] && compiles(e)
    ensures AlwaysLiteral(reqs, k, own, workers, compiles) <==> !ReferredBefore(reqs, e, compiles)
  {
    FailedIff(reqs[k], compiles);
    LiteralWhenFits(reqs, k, own, workers, compiles);
    assert Exprs(reqs[k])[0] == e;
  }

  lemma {:induction false} TokenLiteral(reqs: seq<Request>, k: nat, own: bool, workers: nat, compiles: Compiler)
    requires k < |reqs| <= 2 && (forall r :: r in reqs ==> Tokens(r)) && workers > 0 && reqs[k] != REFERS
    requires compiles("token") && compiles(Pattern("token"))
    ensures AlwaysLiteral(reqs, k, own, workers, compiles) <==> !ReferredBefore(reqs, "token", compiles)
  {
    TokenList(reqs);
    TokenTask(reqs, k, own, workers);
    TokenExprs(reqs[k]);
    TokenNames(reqs, compiles);
    OneExpression(reqs, k, "token", own, workers, compiles);
  }

  // One record refers to the variable, and the next asserts the expression: the assertion decoded by number is,
  // in some run, about the placeholder; the literal one never is.
  lemma {:induction false} ReferredThenAsserted(own: bool, workers: nat, compiles: Compiler)
    requires workers > 0 && compiles("token") && compiles(Pattern("token"))
    ensures !AlwaysLiteral([REFERS, ASSERTS], 1, own, workers, compiles)
  {
    var reqs := [REFERS, ASSERTS];
    var c := ConfigOf(reqs, false, 1);
    TokenTask(reqs, 0, false, 1);
    TokenExprs(reqs[0]);
    TokenLiteral(reqs, 1, own, workers, compiles);
    assert Refers(c.tasks[0], "token", compiles) && !Reaches(c.tasks[0], "token", compiles);
    assert ReferredFirst(c, "token", 0, compiles);
  }

  lemma {:induction false} BothReaches(own: bool, workers: nat, compiles: Compiler)
    requires compiles("token") && compiles(Pattern("token"))
    ensures var c := ConfigOf([DOES_BOTH], own, workers);
            |c.tasks| == 1 && FirstReach(c, "token", 0, compiles) && Refers(c.tasks[0], "token", compiles)
  {
    var reqs := [DOES_BOTH];
    var c := ConfigOf(reqs, own, workers);
    TokenTask(reqs, 0, own, workers);
    TokenExprs(reqs[0]);
    assert ReachesAt(c.tasks[0], "token", 0, compiles);
  }

  // One record does both: its assertion is always about the expression, and its variable is replaced with that
  // instead of its pattern.
  lemma {:induction false} BothInOne(own: bool, workers: nat, compiles: Compiler)
    requires workers > 0 && compiles("token") && compiles(Pattern("token"))
    ensures AlwaysLiteral([DOES_BOTH], 0, own, workers, compiles)
    ensures !ReplacedRight(ConfigOf([DOES_BOTH], own, workers), "token", compiles)
  {
    var reqs := [DOES_BOTH];
    BothReaches(false, 1, compiles);
    BothReaches(own, workers, compiles);
    TokenNames(reqs, compiles);
    NamesOfFile(reqs, own, workers, compiles);
    TokenLiteral(reqs, 0, own, workers, compiles);
    WrongWhenOvertaken(ConfigOf(reqs, own, workers), "token", 0, 0, compiles);
  }
}
