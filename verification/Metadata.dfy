/** The metadata of a payload record, in its two encodings: literal, and by numbers into a list of
    strings that all records share. */
module Metadata {
  import opened Prelude
  import opened Sequences
  import opened RegexCache
  import opened TextLines
  import opened StrIndex
  import opened Decimal
  import opened Strings

  datatype Extract = Extract(re: string, groupNo: int, matchNo: int)

  datatype Assert = Assert(re: string, invert: bool)

  // What the generator knows of a request; extracts is a dictionary in its order.
  datatype Request = Request(
    host: string, name: string, consumes: seq<string>, extracts: seq<(string, Extract)>, asserts: seq<Assert>)

  // The metadata by numbers: address, label, placeholders, extracts and asserts.
  datatype Indexed = Indexed(a: nat, l: nat, r: seq<nat>, e: seq<nat>, c: seq<nat>)

  // What the load generator works with.
  datatype Meta = Meta(
    address: string, name: string, placeholders: seq<string>, regexOut: map<string, Extract>, asserts: seq<Assert>)

  // Failed stands for a record that is reported and skipped.
  datatype Outcome<+T> = Done(value: T) | Failed | Panicked

  // ---------------------------------------------------------------- writing

  function ExtractText(x: (string, Extract)): string {
    x.0 + " " + (Itoa(x.1.matchNo) + " " + (Itoa(x.1.groupNo) + " " + x.1.re))
  }

  function AssertText(a: Assert): string {
    (if a.invert then "1" else "0") + " " + a.re
  }

  // Everything a request needs in the list, in the order it is looked for.
  function Texts(req: Request): seq<string> {
    [req.host, req.name] + req.consumes + Map(ExtractText, req.extracts) + Map(AssertText, req.asserts)
  }

  function AddNew(strs: seq<string>, s: string): (r: seq<string>)
    ensures s in r && strs <= r
  {
    if s in strs then strs else strs + [s]
  }

  function AddEach(strs: seq<string>, ss: seq<string>): (r: seq<string>)
    ensures strs <= r
    ensures forall s :: s in ss ==> s in r
    decreases |ss|
  {
    if ss == [] then strs
    else
      var r := AddEach(AddNew(strs, ss[0]), ss[1..]);
      assert ss[0] in AddNew(strs, ss[0]) && AddNew(strs, ss[0]) <= r;
      r
  }

  // The first position.
  function IndexOf(strs: seq<string>, s: string): (i: nat)
    requires s in strs
    ensures i < |strs| && strs[i] == s && s !in strs[..i]
  {
    if strs[0] == s then 0
    else
      var i := 1 + IndexOf(strs[1..], s);
      assert strs[..i] == [strs[0]] + strs[1..][..i - 1];
      i
  }

  function IndexAll(strs: seq<string>, ss: seq<string>): (r: seq<nat>)
    requires forall s :: s in ss ==> s in strs
    ensures |r| == |ss|
    ensures forall i :: 0 <= i < |ss| ==> r[i] == IndexOf(strs, ss[i])
  {
    seq(|ss|, i requires 0 <= i < |ss| => IndexOf(strs, ss[i]))
  }

  predicate Known(strs: seq<string>, ss: seq<string>) { forall s :: s in ss ==> s in strs }

  function IndexedOf(req: Request, strs: seq<string>): Indexed
    requires Known(strs, Texts(req))
  {
    Members(req, strs);
    Indexed(IndexOf(strs, req.host), IndexOf(strs, req.name), IndexAll(strs, req.consumes),
            IndexAll(strs, Map(ExtractText, req.extracts)), IndexAll(strs, Map(AssertText, req.asserts)))
  }

  lemma Members(req: Request, strs: seq<string>)
    requires Known(strs, Texts(req))
    ensures req.host in strs && req.name in strs && Known(strs, req.consumes)
    ensures Known(strs, Map(ExtractText, req.extracts)) && Known(strs, Map(AssertText, req.asserts))
  {}

  // A first position stays where it is when the list grows.
  lemma {:induction false} IndexStable(strs: seq<string>, more: seq<string>, s: string)
    requires s in strs && strs <= more
    ensures s in more && IndexOf(more, s) == IndexOf(strs, s)
  {}

  lemma IndexAllStable(strs: seq<string>, more: seq<string>, ss: seq<string>)
    requires Known(strs, ss) && strs <= more
    ensures Known(more, ss) && IndexAll(more, ss) == IndexAll(strs, ss)
  {}

  lemma IndexOneMore(strs: seq<string>, more: seq<string>, ss: seq<string>, i: nat)
    requires i < |ss| && Known(strs, ss[..i]) && strs <= more && ss[i] in more
    ensures Known(more, ss[..i + 1])
    ensures IndexAll(more, ss[..i + 1]) == IndexAll(strs, ss[..i]) + [IndexOf(more, ss[i])]
  {
    IndexAllStable(strs, more, ss[..i]);
    assert ss[..i + 1] == ss[..i] + [ss[i]];
  }

  lemma {:induction false} AddEachAppend(strs: seq<string>, a: seq<string>, b: seq<string>)
    ensures AddEach(strs, a + b) == AddEach(AddEach(strs, a), b)
    decreases |a|
  {
    if a == [] {
      assert a + b == b;
    } else {
      assert (a + b)[0] == a[0] && (a + b)[1..] == a[1..] + b;
      AddEachAppend(AddNew(strs, a[0]), a[1..], b);
    }
  }

  // The generator, with the list it appends to.
  class Generator {
    var strList: seq<string>

    constructor ()
      ensures strList == [""]
    {
      strList := [""];
    }

    method Add(s: string)
      modifies this
      ensures strList == AddNew(old(strList), s)
    {
      if s !in strList { strList := strList + [s]; }
    }

    method AddAll(ss: seq<string>)
      modifies this
      ensures strList == AddEach(old(strList), ss)
    {
      for i := 0 to |ss|
        invariant AddEach(strList, ss[i..]) == AddEach(old(strList), ss)
      {
        assert ss[i..][0] == ss[i] && ss[i..][1..] == ss[i + 1..];
        Add(ss[i]);
      }
    }

    // The number of a string is looked up right after the string is added.
    method AddAndIndex(ss: seq<string>) returns (r: seq<nat>)
      modifies this
      ensures strList == AddEach(old(strList), ss)
      ensures r == IndexAll(strList, ss)
    {
      r := [];
      for i := 0 to |ss|
        invariant AddEach(strList, ss[i..]) == AddEach(old(strList), ss)
        invariant Known(strList, ss[..i]) && r == IndexAll(strList, ss[..i])
      {
        assert ss[i..][0] == ss[i] && ss[i..][1..] == ss[i + 1..];
        ghost var before := strList;
        Add(ss[i]);
        IndexOneMore(before, strList, ss, i);
        r := r + [IndexOf(strList, ss[i])];
      }
      TakeAll(ss);
    }

    method MetadataIndexed(req: Request) returns (m: Indexed)
      modifies this
      ensures strList == AddEach(old(strList), Texts(req))
      ensures m == IndexedOf(req, strList)
    {
      ghost var s0 := strList;
      Add(req.host);
      Add(req.name);
      var a, l := IndexOf(strList, req.host), IndexOf(strList, req.name);
      ghost var s1 := strList;
      AddAll(req.consumes);
      var r := IndexAll(strList, req.consumes);
      ghost var s2 := strList;
      var e := AddAndIndex(Map(ExtractText, req.extracts));
      ghost var s3 := strList;
      var c := AddAndIndex(Map(AssertText, req.asserts));
      m := Indexed(a, l, r, e, c);
      InOneGo(req, s0, s1, s2, s3, strList);
    }
  }

  lemma InOneGo(req: Request, s0: seq<string>, s1: seq<string>, s2: seq<string>, s3: seq<string>, s4: seq<string>)
    requires s1 == AddNew(AddNew(s0, req.host), req.name) && s2 == AddEach(s1, req.consumes)
    requires s3 == AddEach(s2, Map(ExtractText, req.extracts)) && s4 == AddEach(s3, Map(AssertText, req.asserts))
    ensures s4 == AddEach(s0, Texts(req))
    ensures IndexedOf(req, s4)
         == Indexed(IndexOf(s1, req.host), IndexOf(s1, req.name), IndexAll(s2, req.consumes),
                    IndexAll(s3, Map(ExtractText, req.extracts)), IndexAll(s4, Map(AssertText, req.asserts)))
  {
    InOrder(req, s0, s1, s2, s3, s4);
    IndexStable(s1, s4, req.host);
    IndexStable(s1, s4, req.name);
    IndexAllStable(s2, s4, req.consumes);
    IndexAllStable(s3, s4, Map(ExtractText, req.extracts));
  }

  lemma InOrder(req: Request, s0: seq<string>, s1: seq<string>, s2: seq<string>, s3: seq<string>, s4: seq<string>)
    requires s1 == AddNew(AddNew(s0, req.host), req.name) && s2 == AddEach(s1, req.consumes)
    requires s3 == AddEach(s2, Map(ExtractText, req.extracts)) && s4 == AddEach(s3, Map(AssertText, req.asserts))
    ensures s4 == AddEach(s0, Texts(req))
  {
    var front, es, cs := [req.host, req.name], Map(ExtractText, req.extracts), Map(AssertText, req.asserts);
    assert front[1..] == [req.name] && [req.name][1..] == [];
    AddEachAppend(s0, front, req.consumes);
    AddEachAppend(s0, front + req.consumes, es);
    AddEachAppend(s0, front + req.consumes + es, cs);
  }

  // ---------------------------------------------------------------- reading

  function ParseExtract(s: string): (string, Extract) {
    var (name, rest, _) := Cut(s, ' ');
    var (match_, rest2, _) := Cut(rest, ' ');
    var (group, re, _) := Cut(rest2, ' ');
    (name, Extract(re, Atoi(group).0, Atoi(match_).0))
  }

  function ParseAssert(s: string): Assert {
    var (invert, re, _) := Cut(s, ' ');
    Assert(re, invert != "0")
  }

  predicate InRange(x: Extract) { 0 <= x.groupNo <= MAX_INT64 && Int64(x.matchNo) }

  lemma AssertRoundTrip(a: Assert)
    ensures ParseAssert(AssertText(a)) == a
  {
    CutAfter(if a.invert then "1" else "0", ' ', a.re);
  }

  // An extractor is read back as itself if and only if there is no space in its name.
  lemma ExtractRoundTripIff(name: string, x: Extract)
    requires InRange(x)
    ensures ParseExtract(ExtractText((name, x))) == (name, x) <==> ' ' !in name
  {
    if ' ' !in name {
      var m, g := Itoa(x.matchNo), Itoa(x.groupNo);
      CutAfter(name, ' ', m + " " + (g + " " + x.re));
      ItoaHasNoSpace(x.matchNo);
      ItoaHasNoSpace(x.groupNo);
      CutAfter(m, ' ', g + " " + x.re);
      CutAfter(g, ' ', x.re);
      AtoiItoa(x.matchNo);
      AtoiItoa(x.groupNo);
    }
  }

  // What is read from the text of an extractor: a name, the number of the match, that of the group, and all that
  // follows the third space.
  lemma ExtractRead(name: string, matchNo: int, groupNo: int, re: string)
    requires ' ' !in name && Int64(matchNo) && Int64(groupNo)
    ensures ParseExtract(name + " " + (Itoa(matchNo) + " " + (Itoa(groupNo) + " " + re)))
         == (name, Extract(re, groupNo, matchNo))
  {
    var m, g := Itoa(matchNo), Itoa(groupNo);
    CutAfter(name, ' ', m + " " + (g + " " + re));
    ItoaHasNoSpace(matchNo);
    ItoaHasNoSpace(groupNo);
    CutAfter(m, ' ', g + " " + re);
    CutAfter(g, ' ', re);
    AtoiItoa(matchNo);
    AtoiItoa(groupNo);
  }

  // Whatever stands before the first space of an assertion's text inverts it, unless it is a zero.
  lemma AssertRead(first: string, re: string)
    requires ' ' !in first
    ensures ParseAssert(first + " " + re) == Assert(re, first != "0")
  {
    CutAfter(first, ' ', re);
  }

  // ---------------------------------------------------------------- the two encodings

  // A dictionary in its order, as a map: a later entry of a name replaces an earlier one.
  function Dictionary(acc: map<string, Extract>, xs: seq<(string, Extract)>): map<string, Extract>
    decreases |xs|
  {
    if xs == [] then acc else Dictionary(acc[xs[0].0 := xs[0].1], xs[1..])
  }

  predicate ExtractsCompile(xs: seq<(string, Extract)>, compiles: Compiler) {
    xs == [] || (compiles(xs[0].1.re) && ExtractsCompile(xs[1..], compiles))
  }

  predicate AssertsCompile(xs: seq<Assert>, compiles: Compiler) {
    xs == [] || (compiles(xs[0].re) && AssertsCompile(xs[1..], compiles))
  }

  // Literal metadata are taken as they are; one expression that does not compile fails them all.
  function FromLiteral(req: Request, compiles: Compiler): Outcome<Meta> {
    if ExtractsCompile(req.extracts, compiles) && AssertsCompile(req.asserts, compiles)
    then Done(Meta(req.host, req.name, req.consumes, Dictionary(map[], req.extracts), req.asserts))
    else Failed
  }

  // Looking up a number past the end panics.
  function Get(strs: seq<string>, i: nat): Option<string> {
    if i < |strs| then Some(strs[i]) else None
  }

  function GetAll(strs: seq<string>, idx: seq<nat>): (r: seq<Option<string>>)
    ensures |r| == |idx| && forall i :: 0 <= i < |idx| ==> r[i] == Get(strs, idx[i])
  {
    seq(|idx|, i requires 0 <= i < |idx| => Get(strs, idx[i]))
  }

  // The decoders take the looked-up texts one by one; None ends them.
  function DecodeReplaces(acc: seq<string>, texts: seq<Option<string>>): Outcome<seq<string>>
    decreases |texts|
  {
    if texts == [] then Done(acc)
    else if texts[0].None? then Panicked
    else DecodeReplaces(acc + [texts[0].value], texts[1..])
  }

  // What the decoders were given for the expressions of one record, None where it did not compile.
  datatype Answers = Answers(extracts: seq<Option<string>>, asserts: seq<Option<string>>)

  function DecodeExtracts(acc: map<string, Extract>, texts: seq<Option<string>>, given: seq<Option<string>>)
    : Outcome<map<string, Extract>>
    requires |given| == |texts|
    decreases |texts|
  {
    if texts == [] then Done(acc)
    else if texts[0].None? then Panicked
    else
      var (name, x) := ParseExtract(texts[0].value);
      if given[0].None? then Failed
      else DecodeExtracts(acc[name := x.(re := given[0].value)], texts[1..], given[1..])
  }

  function DecodeAsserts(acc: seq<Assert>, texts: seq<Option<string>>, given: seq<Option<string>>): Outcome<seq<Assert>>
    requires |given| == |texts|
    decreases |texts|
  {
    if texts == [] then Done(acc)
    else if texts[0].None? then Panicked
    else
      var x := ParseAssert(texts[0].value);
      if given[0].None? then Failed
      else DecodeAsserts(acc + [x.(re := given[0].value)], texts[1..], given[1..])
  }

  function ExtractExpr(text: string): string { ParseExtract(text).1.re }

  function AssertExpr(text: string): string { ParseAssert(text).re }

  // What the cache gives for the expressions of the texts, one after the other up to the first that
  // does not compile or is not there, and the cache it leaves.
  function GivenBy(cache: Entries, texts: seq<Option<string>>, expr: string -> string, compiles: Compiler)
    : (r: (seq<Option<string>>, Entries))
    ensures |r.0| == |texts|
    decreases |texts|
  {
    if texts == [] then ([], cache)
    else if texts[0].None? then (Nones(|texts|), cache)
    else
      var (r, cache') := UseOne(cache, Decode(expr(texts[0].value)), compiles);
      if r.None? then (Nones(|texts|), cache')
      else
        var (more, last) := GivenBy(cache', texts[1..], expr, compiles);
        ([r] + more, last)
  }

  function Nones(n: nat): (s: seq<Option<string>>)
    ensures |s| == n
  {
    seq(n, _ => None)
  }

  // Number 0 leaves an address or a label empty.
  function Resolve(idx: nat, strs: seq<string>): Option<string> {
    if idx == 0 then Some("") else Get(strs, idx)
  }

  // A text that is set already stays.
  function ResolveText(text: string, idx: nat, strs: seq<string>): Option<string> {
    if text == "" then Resolve(idx, strs) else Some(text)
  }

  // Numbers that are not 16-bit are refused by the JSON decoder.
  predicate Fits(m: Indexed) {
    m.a < CAPACITY && m.l < CAPACITY && forall i :: i in m.r + m.e + m.c ==> i < CAPACITY
  }

  datatype Lists = Lists(placeholders: seq<string>, regexOut: map<string, Extract>, asserts: seq<Assert>)

  // The three lists; the first that fails decides.
  function Combine(r: Outcome<seq<string>>, e: Outcome<map<string, Extract>>, c: Outcome<seq<Assert>>): Outcome<Lists> {
    if r.Failed? || (r.Done? && e.Failed?) || (r.Done? && e.Done? && c.Failed?) then Failed
    else if r.Done? && e.Done? && c.Done? then Done(Lists(r.value, e.value, c.value))
    else Panicked
  }

  // There is an answer for each number of an extractor and of an assertion.
  predicate Answered(m: Indexed, a: Answers) { |a.extracts| == |m.e| && |a.asserts| == |m.c| }

  function DecodeLists(m: Indexed, strs: seq<string>, a: Answers): Outcome<Lists>
    requires Answered(m, a)
  {
    Combine(DecodeReplaces([], GetAll(strs, m.r)), DecodeExtracts(map[], GetAll(strs, m.e), a.extracts),
            DecodeAsserts([], GetAll(strs, m.c), a.asserts))
  }

  function WithStrings(lists: Outcome<Lists>, address: Option<string>, name: Option<string>): Outcome<Meta> {
    match lists
    case Failed => Failed
    case Panicked => Panicked
    case Done(l) =>
      if address.Some? && name.Some? then Done(Meta(address.value, name.value, l.placeholders, l.regexOut, l.asserts))
      else Panicked
  }

  function DecodeIndexed(m: Indexed, strs: seq<string>, a: Answers): Outcome<Meta>
    requires Answered(m, a)
  {
    if !Fits(m) then Failed
    else WithStrings(DecodeLists(m, strs, a), Resolve(m.a, strs), Resolve(m.l, strs))
  }

  // The answers the cache gives for one record, when nobody else uses it meanwhile.
  function AnswersBy(m: Indexed, strs: seq<string>, cache: Entries, compiles: Compiler): (a: Answers)
    ensures Answered(m, a)
  {
    var (e, after) := GivenBy(cache, GetAll(strs, m.e), ExtractExpr, compiles);
    Answers(e, GivenBy(after, GetAll(strs, m.c), AssertExpr, compiles).0)
  }

  // A payload record as it is decoded, in place.
  class PayloadItem {
    const strIndex: seq<string>
    var addressIdx: nat
    var address: string
    var labelIdx: nat
    var name: string
    var replacesIdx: seq<nat>
    var placeholders: seq<string>
    var regexOutIdx: seq<nat>
    var regexOut: map<string, Extract>
    var assertsIdx: seq<nat>
    var asserts: seq<Assert>

    constructor (m: Indexed, strs: seq<string>)
      ensures strIndex == strs && addressIdx == m.a && labelIdx == m.l && replacesIdx == m.r && regexOutIdx == m.e
      ensures assertsIdx == m.c && address == name == "" && placeholders == [] && regexOut == map[] && asserts == []
    {
      strIndex := strs;
      addressIdx, labelIdx, replacesIdx, regexOutIdx, assertsIdx := m.a, m.l, m.r, m.e, m.c;
      address, name, placeholders, regexOut, asserts := "", "", [], map[], [];
    }

    method LookUpReplaces() returns (ok: bool)
      modifies this`replacesIdx, this`placeholders
      ensures DecodeReplaces(old(placeholders), GetAll(strIndex, old(replacesIdx)))
                == if ok then Done(placeholders) else Panicked
    {
      ghost var texts := GetAll(strIndex, replacesIdx);
      for i := 0 to |replacesIdx|
        invariant replacesIdx == old(replacesIdx)
        invariant DecodeReplaces(placeholders, texts[i..]) == DecodeReplaces(old(placeholders), texts)
      {
        assert texts[i..][0] == texts[i] && texts[i..][1..] == texts[i + 1..];
        if replacesIdx[i] >= |strIndex| { return false; }
        placeholders := placeholders + [strIndex[replacesIdx[i]]];
      }
      replacesIdx := [];
      return true;
    }

    method LookUpExtracts(cache: Cache, compiles: Compiler) returns (o: Outcome<()>)
      modifies this`regexOutIdx, this`regexOut, cache
      ensures var texts := GetAll(strIndex, old(regexOutIdx));
              var (given, entries) := GivenBy(old(cache.entries), texts, ExtractExpr, compiles);
              cache.entries == entries
              && DecodeExtracts(old(regexOut), texts, given)
                   == match o case Done(_) => Done(regexOut) case Failed => Failed case Panicked => Panicked
    {
      ghost var texts := GetAll(strIndex, regexOutIdx);
      ghost var all := GivenBy(cache.entries, texts, ExtractExpr, compiles);
      for i := 0 to |regexOutIdx|
        invariant regexOutIdx == old(regexOutIdx)
        invariant GivenBy(cache.entries, texts[i..], ExtractExpr, compiles) == (all.0[i..], all.1)
        invariant DecodeExtracts(regexOut, texts[i..], all.0[i..]) == DecodeExtracts(old(regexOut), texts, all.0)
      {
        ghost var rest, given := texts[i..], all.0[i..];
        assert rest[0] == texts[i] && rest[1..] == texts[i + 1..];
        assert given[0] == all.0[i] && given[1..] == all.0[i + 1..];
        if regexOutIdx[i] >= |strIndex| { return Panicked; }
        var (key, x) := ParseExtract(strIndex[regexOutIdx[i]]);
        var re := cache.Take(Decode(x.re), compiles);
        if re.None? { return Failed; }
        regexOut := regexOut[key := x.(re := re.value)];
      }
      regexOutIdx := [];
      return Done(());
    }

    method LookUpAsserts(cache: Cache, compiles: Compiler) returns (o: Outcome<()>)
      modifies this`assertsIdx, this`asserts, cache
      ensures var texts := GetAll(strIndex, old(assertsIdx));
              var (given, entries) := GivenBy(old(cache.entries), texts, AssertExpr, compiles);
              cache.entries == entries
              && DecodeAsserts(old(asserts), texts, given)
                   == match o case Done(_) => Done(asserts) case Failed => Failed case Panicked => Panicked
    {
      ghost var texts := GetAll(strIndex, assertsIdx);
      ghost var all := GivenBy(cache.entries, texts, AssertExpr, compiles);
      for i := 0 to |assertsIdx|
        invariant assertsIdx == old(assertsIdx)
        invariant GivenBy(cache.entries, texts[i..], AssertExpr, compiles) == (all.0[i..], all.1)
        invariant DecodeAsserts(asserts, texts[i..], all.0[i..]) == DecodeAsserts(old(asserts), texts, all.0)
      {
        ghost var rest, given := texts[i..], all.0[i..];
        assert rest[0] == texts[i] && rest[1..] == texts[i + 1..];
        assert given[0] == all.0[i] && given[1..] == all.0[i + 1..];
        if assertsIdx[i] >= |strIndex| { return Panicked; }
        var x := ParseAssert(strIndex[assertsIdx[i]]);
        var re := cache.Take(Decode(x.re), compiles);
        if re.None? { return Failed; }
        asserts := asserts + [x.(re := re.value)];
      }
      assertsIdx := [];
      return Done(());
    }

    method LookUpLists(cache: Cache, compiles: Compiler) returns (o: Outcome<()>)
      requires placeholders == [] && regexOut == map[] && asserts == []
      modifies this`replacesIdx, this`placeholders, this`regexOutIdx, this`regexOut, this`assertsIdx, this`asserts
      modifies cache
      ensures var es, cs := GetAll(strIndex, old(regexOutIdx)), GetAll(strIndex, old(assertsIdx));
              var (e, after) := GivenBy(old(cache.entries), es, ExtractExpr, compiles);
              var (a, last) := GivenBy(after, cs, AssertExpr, compiles);
              var r := DecodeReplaces([], GetAll(strIndex, old(replacesIdx)));
              cache.entries
                == (if !r.Done? then old(cache.entries) else if DecodeExtracts(map[], es, e).Done? then last else after)
              && Combine(r, DecodeExtracts(map[], es, e), DecodeAsserts([], cs, a))
                   == match o
                      case Done(_) => Done(Lists(placeholders, regexOut, asserts))
                      case Failed => Failed
                      case Panicked => Panicked
    {
      var ok := LookUpReplaces();
      if !ok { return Panicked; }
      var e := LookUpExtracts(cache, compiles);
      if !e.Done? { return e; }
      o := LookUpAsserts(cache, compiles);
    }

    method ResolveStrings() returns (ok: bool)
      modifies this`address, this`addressIdx, this`name, this`labelIdx
      ensures ok <==> ResolveText(old(address), old(addressIdx), strIndex).Some?
                      && ResolveText(old(name), old(labelIdx), strIndex).Some?
      ensures ok ==> Some(address) == ResolveText(old(address), old(addressIdx), strIndex)
                     && Some(name) == ResolveText(old(name), old(labelIdx), strIndex)
      ensures ok ==> addressIdx == (if old(address) == "" then 0 else old(addressIdx))
                     && labelIdx == (if old(name) == "" then 0 else old(labelIdx))
    {
      if address == "" && addressIdx > 0 {
        if addressIdx >= |strIndex| { return false; }
        address, addressIdx := strIndex[addressIdx], 0;
      }
      if name == "" && labelIdx > 0 {
        if labelIdx >= |strIndex| { return false; }
        name, labelIdx := strIndex[labelIdx], 0;
      }
      return true;
    }
  }

  // The steps between reading the metadata of a record and using it.
  method DecodeItem(m: Indexed, strs: seq<string>, cache: Cache, compiles: Compiler) returns (o: Outcome<Meta>)
    modifies cache
    ensures o == DecodeIndexed(m, strs, AnswersBy(m, strs, old(cache.entries), compiles))
  {
    if !Fits(m) { return Failed; }
    var item := new PayloadItem(m, strs);
    ghost var a := AnswersBy(m, strs, cache.entries, compiles);
    var lists := item.LookUpLists(cache, compiles);
    assert DecodeLists(m, strs, a)
        == if lists.Done? then Done(Lists(item.placeholders, item.regexOut, item.asserts))
           else if lists.Failed? then Failed else Panicked;
    if !lists.Done? { return if lists.Failed? then Failed else Panicked; }
    var ok := item.ResolveStrings();
    if !ok { return Panicked; }
    return Done(Meta(item.address, item.name, item.placeholders, item.regexOut, item.asserts));
  }

  // ---------------------------------------------------------------- the same meaning

  // No space in the name of an extractor, and its numbers fit.
  predicate Plain(req: Request) {
    forall x :: x in req.extracts ==> ' ' !in x.0 && InRange(x.1)
  }

  lemma GotAll(strs: seq<string>, ss: seq<string>)
    requires Known(strs, ss)
    ensures GetAll(strs, IndexAll(strs, ss)) == Map(Given, ss)
  {}

  function Given(s: string): Option<string> { Some(s) }

  lemma {:induction false} ReplacesDecoded(acc: seq<string>, ss: seq<string>)
    ensures DecodeReplaces(acc, Map(Given, ss)) == Done(acc + ss)
    decreases |ss|
  {
    if ss == [] {
      assert acc + ss == acc;
    } else {
      MapTail(Given, ss);
      ReplacesDecoded(acc + [ss[0]], ss[1..]);
      HeadMoves(acc, ss);
    }
  }

  // The extractors and assertions with the expressions that were given for them.
  function WithExtracts(xs: seq<(string, Extract)>, given: seq<Option<string>>): seq<(string, Extract)>
    requires |given| == |xs| && AllGiven(given)
  {
    if xs == [] then [] else [(xs[0].0, xs[0].1.(re := given[0].value))] + WithExtracts(xs[1..], given[1..])
  }

  function WithAsserts(xs: seq<Assert>, given: seq<Option<string>>): seq<Assert>
    requires |given| == |xs| && AllGiven(given)
  {
    if xs == [] then [] else [xs[0].(re := given[0].value)] + WithAsserts(xs[1..], given[1..])
  }

  predicate AllGiven(given: seq<Option<string>>) { given == [] || (given[0].Some? && AllGiven(given[1..])) }

  lemma {:induction false} ExtractsDecoded(acc: map<string, Extract>, xs: seq<(string, Extract)>,
                                           given: seq<Option<string>>)
    requires |given| == |xs| && forall x :: x in xs ==> ' ' !in x.0 && InRange(x.1)
    ensures DecodeExtracts(acc, Map(Given, Map(ExtractText, xs)), given)
         == if AllGiven(given) then Done(Dictionary(acc, WithExtracts(xs, given))) else Failed
    decreases |xs|
  {
    if xs != [] {
      MapTail(ExtractText, xs);
      MapTail(Given, Map(ExtractText, xs));
      assert xs[0] in xs;
      ExtractRoundTripIff(xs[0].0, xs[0].1);
      if given[0].Some? { ExtractsDecoded(acc[xs[0].0 := xs[0].1.(re := given[0].value)], xs[1..], given[1..]); }
    }
  }

  lemma {:induction false} AssertsDecoded(acc: seq<Assert>, xs: seq<Assert>, given: seq<Option<string>>)
    requires |given| == |xs|
    ensures DecodeAsserts(acc, Map(Given, Map(AssertText, xs)), given)
         == if AllGiven(given) then Done(acc + WithAsserts(xs, given)) else Failed
    decreases |xs|
  {
    if xs == [] {
      assert acc + [] == acc;
    } else {
      MapTail(AssertText, xs);
      MapTail(Given, Map(AssertText, xs));
      AssertRoundTrip(xs[0]);
      if given[0].Some? {
        AssertsDecoded(acc + [xs[0].(re := given[0].value)], xs[1..], given[1..]);
        if AllGiven(given) { HeadMoves(acc, WithAsserts(xs, given)); }
      }
    }
  }

  lemma Resolved(strs: seq<string>, s: string)
    requires s in strs && strs[0] == ""
    ensures Resolve(IndexOf(strs, s), strs) == Some(s)
  {}

  lemma IndexedStable(req: Request, strs: seq<string>, more: seq<string>)
    requires Known(strs, Texts(req)) && strs <= more
    ensures Known(more, Texts(req)) && IndexedOf(req, more) == IndexedOf(req, strs)
  {
    Members(req, strs);
    forall s | s in Texts(req) ensures s in more { IndexStable(strs, more, s); }
    IndexStable(strs, more, req.host);
    IndexStable(strs, more, req.name);
    IndexAllStable(strs, more, req.consumes);
    IndexAllStable(strs, more, Map(ExtractText, req.extracts));
    IndexAllStable(strs, more, Map(AssertText, req.asserts));
  }

  // There is an answer for each expression of a request.
  predicate AnsweredFor(req: Request, a: Answers) {
    |a.extracts| == |req.extracts| && |a.asserts| == |req.asserts|
  }

  // The literal metadata with the expressions that were given instead of the ones written.
  function WithAnswers(req: Request, a: Answers): Outcome<Meta>
    requires AnsweredFor(req, a)
  {
    if AllGiven(a.extracts) && AllGiven(a.asserts)
    then Done(Meta(req.host, req.name, req.consumes, Dictionary(map[], WithExtracts(req.extracts, a.extracts)),
                   WithAsserts(req.asserts, a.asserts)))
    else Failed
  }

  // Numbers that fit mean what the literal encoding says, with the expressions given.
  lemma DecodedWithAnswers(req: Request, strs: seq<string>, a: Answers)
    requires Known(strs, Texts(req)) && strs != [] && strs[0] == "" && Plain(req) && AnsweredFor(req, a)
    requires Fits(IndexedOf(req, strs))
    ensures DecodeIndexed(IndexedOf(req, strs), strs, a) == WithAnswers(req, a)
  {
    var es, cs := Map(ExtractText, req.extracts), Map(AssertText, req.asserts);
    Members(req, strs);
    GotAll(strs, req.consumes);
    GotAll(strs, es);
    GotAll(strs, cs);
    ReplacesDecoded([], req.consumes);
    ExtractsDecoded(map[], req.extracts, a.extracts);
    AssertsDecoded([], req.asserts, a.asserts);
    Resolved(strs, req.host);
    Resolved(strs, req.name);
    assert [] + req.consumes == req.consumes;
    if AllGiven(a.asserts) { assert [] + WithAsserts(req.asserts, a.asserts) == WithAsserts(req.asserts, a.asserts); }
  }

  // ---------------------------------------------------------------- the answers of a run

  function ExtractExprs(xs: seq<(string, Extract)>): (r: seq<string>)
    ensures |r| == |xs|
  {
    if xs == [] then [] else [xs[0].1.re] + ExtractExprs(xs[1..])
  }

  function AssertExprs(xs: seq<Assert>): (r: seq<string>)
    ensures |r| == |xs|
  {
    if xs == [] then [] else [xs[0].re] + AssertExprs(xs[1..])
  }

  function Exprs(req: Request): seq<string> { ExtractExprs(req.extracts) + AssertExprs(req.asserts) }

  // What the requests of a file bring to the cache.
  function VocabularyOf(reqs: seq<Request>): Vocabulary {
    Vocabulary(set r, e | r in reqs && e in Exprs(r) :: e, set r, n | r in reqs && n in r.consumes :: n)
  }

  // The answers were given in a run to these expressions, up to the first that did not compile.
  predicate GivenIn(log: seq<Answer>, exprs: seq<string>, given: seq<Option<string>>)
    requires |given| == |exprs|
  {
    exprs == []
    || (Answer(Decode(exprs[0]), given[0]) in log && (given[0].None? || GivenIn(log, exprs[1..], given[1..])))
  }

  predicate AnswersOf(log: seq<Answer>, req: Request, a: Answers)
    requires AnsweredFor(req, a)
  {
    GivenIn(log, ExtractExprs(req.extracts), a.extracts)
    && (AllGiven(a.extracts) ==> GivenIn(log, AssertExprs(req.asserts), a.asserts))
  }

  // Each of these expressions was answered right, whenever it was asked for.
  ghost predicate RightFor(log: seq<Answer>, exprs: seq<string>, compiles: Compiler) {
    forall e, r :: e in exprs && Answer(Decode(e), r) in log ==> r == Right(Decode(e), compiles)
  }

  lemma {:induction false} RightExtracts(xs: seq<(string, Extract)>, given: seq<Option<string>>, log: seq<Answer>,
                                         exprs: seq<string>, compiles: Compiler)
    requires |given| == |xs| && GivenIn(log, ExtractExprs(xs), given) && RightFor(log, exprs, compiles)
    requires forall e :: e in ExtractExprs(xs) ==> e in exprs
    ensures AllGiven(given) <==> ExtractsCompile(xs, compiles)
    ensures AllGiven(given) ==> WithExtracts(xs, given) == xs
  {
    if xs != [] {
      assert ExtractExprs(xs)[0] == xs[0].1.re;
      assert given[0] == Right(Decode(xs[0].1.re), compiles);
      if given[0].Some? { RightExtracts(xs[1..], given[1..], log, exprs, compiles); }
    }
  }

  lemma {:induction false} RightAsserts(xs: seq<Assert>, given: seq<Option<string>>, log: seq<Answer>,
                                        exprs: seq<string>, compiles: Compiler)
    requires |given| == |xs| && GivenIn(log, AssertExprs(xs), given) && RightFor(log, exprs, compiles)
    requires forall e :: e in AssertExprs(xs) ==> e in exprs
    ensures AllGiven(given) <==> AssertsCompile(xs, compiles)
    ensures AllGiven(given) ==> WithAsserts(xs, given) == xs
  {
    if xs != [] {
      assert AssertExprs(xs)[0] == xs[0].re;
      assert given[0] == Right(Decode(xs[0].re), compiles);
      if given[0].Some? { RightAsserts(xs[1..], given[1..], log, exprs, compiles); }
    }
  }

  lemma RightIsLiteral(req: Request, a: Answers, log: seq<Answer>, compiles: Compiler)
    requires AnsweredFor(req, a) && AnswersOf(log, req, a) && RightFor(log, Exprs(req), compiles)
    ensures WithAnswers(req, a) == FromLiteral(req, compiles)
  {
    RightExtracts(req.extracts, a.extracts, log, Exprs(req), compiles);
    if AllGiven(a.extracts) { RightAsserts(req.asserts, a.asserts, log, Exprs(req), compiles); }
  }

  // ---------------------------------------------------------------- a whole payload file

  // The list after the metadata of all these requests have been made.
  function ListAfter(reqs: seq<Request>): (strs: seq<string>)
    ensures strs != [] && strs[0] == ""
  {
    if reqs == [] then [""]
    else AddEach(ListAfter(reqs[..|reqs| - 1]), Texts(reqs[|reqs| - 1]))
  }

  predicate NoRepeats(strs: seq<string>) { forall i, j :: 0 <= i < j < |strs| ==> strs[i] != strs[j] }

  lemma AddNewNoRepeats(strs: seq<string>, s: string)
    requires NoRepeats(strs)
    ensures NoRepeats(AddNew(strs, s))
  {}

  lemma {:induction false} AddEachNoRepeats(strs: seq<string>, ss: seq<string>)
    requires NoRepeats(strs)
    ensures NoRepeats(AddEach(strs, ss))
    decreases |ss|
  {
    if ss != [] {
      AddNewNoRepeats(strs, ss[0]);
      AddEachNoRepeats(AddNew(strs, ss[0]), ss[1..]);
    }
  }

  lemma {:induction false} AddEachHas(strs: seq<string>, ss: seq<string>, s: string)
    ensures s in AddEach(strs, ss) <==> s in strs || s in ss
    decreases |ss|
  {
    if ss != [] {
      AddEachHas(AddNew(strs, ss[0]), ss[1..], s);
      HeadMoves([], ss);
      assert s in ss <==> s == ss[0] || s in ss[1..];
    }
  }

  predicate InSome(reqs: seq<Request>, s: string) { exists k :: 0 <= k < |reqs| && s in Texts(reqs[k]) }

  lemma InSomeLast(reqs: seq<Request>, s: string)
    requires reqs != []
    ensures InSome(reqs, s) <==> InSome(reqs[..|reqs| - 1], s) || s in Texts(reqs[|reqs| - 1])
  {
    var front := reqs[..|reqs| - 1];
    if InSome(front, s) {
      var k :| 0 <= k < |front| && s in Texts(front[k]);
      assert reqs[k] == front[k];
    }
    if InSome(reqs, s) {
      var k :| 0 <= k < |reqs| && s in Texts(reqs[k]);
      if k < |front| { assert front[k] == reqs[k]; }
    }
  }

  // The list has the empty string and every text of every request, each once, and nothing else.
  lemma {:induction false} ListHasEachOnce(reqs: seq<Request>, s: string)
    ensures NoRepeats(ListAfter(reqs))
    ensures s in ListAfter(reqs) <==> s == "" || InSome(reqs, s)
    decreases |reqs|
  {
    if reqs != [] {
      var front, texts := reqs[..|reqs| - 1], Texts(reqs[|reqs| - 1]);
      ListHasEachOnce(front, s);
      AddEachNoRepeats(ListAfter(front), texts);
      AddEachHas(ListAfter(front), texts, s);
      InSomeLast(reqs, s);
    }
  }

  lemma ListStep(reqs: seq<Request>, k: nat)
    requires k < |reqs|
    ensures ListAfter(reqs[..k + 1]) == AddEach(ListAfter(reqs[..k]), Texts(reqs[k]))
    ensures Known(ListAfter(reqs[..k + 1]), Texts(reqs[k]))
  {
    TakeTake(reqs, k, k + 1);
  }

  // The numbers of each request, taken while the list was still growing.
  function NumbersOf(reqs: seq<Request>): (ms: seq<Indexed>)
    ensures |ms| == |reqs|
  {
    if reqs == [] then []
    else NumbersOf(reqs[..|reqs| - 1]) + [IndexedOf(reqs[|reqs| - 1], ListAfter(reqs))]
  }

  lemma {:induction false} NumbersAt(reqs: seq<Request>, k: nat)
    requires k < |reqs|
    ensures Known(ListAfter(reqs[..k + 1]), Texts(reqs[k]))
    ensures NumbersOf(reqs)[k] == IndexedOf(reqs[k], ListAfter(reqs[..k + 1]))
  {
    ListStep(reqs, k);
    NumbersFront(reqs, k);
    if k < |reqs| - 1 {
      NumbersAt(reqs[..|reqs| - 1], k);
      SameNumbers(reqs, reqs[..|reqs| - 1], k);
    } else {
      TakeAll(reqs);
    }
  }

  lemma SameNumbers(reqs: seq<Request>, front: seq<Request>, k: nat)
    requires k < |front| && front <= reqs && Known(ListAfter(front[..k + 1]), Texts(front[k]))
    ensures reqs[..k + 1] == front[..k + 1] && reqs[k] == front[k]
    ensures IndexedOf(front[k], ListAfter(front[..k + 1])) == IndexedOf(reqs[k], ListAfter(reqs[..k + 1]))
  {}

  lemma NumbersFront(reqs: seq<Request>, k: nat)
    requires k < |reqs|
    ensures NumbersOf(reqs)[k]
         == if k < |reqs| - 1 then NumbersOf(reqs[..|reqs| - 1])[k] else IndexedOf(reqs[k], ListAfter(reqs))
  {}

  lemma {:induction false} ListGrows(reqs: seq<Request>, k: nat)
    requires k <= |reqs|
    ensures ListAfter(reqs[..k]) <= ListAfter(reqs)
  {
    if k == |reqs| {
      TakeAll(reqs);
    } else {
      var front := reqs[..|reqs| - 1];
      TakeTake(reqs, k, |front|);
      ListGrows(front, k);
      PrefixOfPrefix(ListAfter(reqs[..k]), ListAfter(front), ListAfter(reqs));
    }
  }

  lemma OneRequestMore(reqs: seq<Request>, k: nat)
    requires k < |reqs|
    ensures ListAfter(reqs[..k + 1]) == AddEach(ListAfter(reqs[..k]), Texts(reqs[k]))
    ensures NumbersOf(reqs[..k + 1]) == NumbersOf(reqs[..k]) + [IndexedOf(reqs[k], ListAfter(reqs[..k + 1]))]
  {
    ListStep(reqs, k);
    TakeTake(reqs, k, k + 1);
  }

  method GenerateAll(reqs: seq<Request>) returns (ms: seq<Indexed>, strs: seq<string>)
    ensures strs == ListAfter(reqs) && ms == NumbersOf(reqs)
  {
    var g := new Generator();
    ms := [];
    assert reqs[..0] == [];
    for i := 0 to |reqs|
      invariant g.strList == ListAfter(reqs[..i])
      invariant ms == NumbersOf(reqs[..i])
    {
      OneRequestMore(reqs, i);
      var m := g.MetadataIndexed(reqs[i]);
      ms := ms + [m];
    }
    assert reqs[..|reqs|] == reqs;
    strs := g.strList;
  }

  // The list is written to the strings file without its first entry, and loaded back.
  lemma ListSurvives(strs: seq<string>)
    requires strs != [] && strs[0] == "" && forall s :: s in strs ==> Scannable(s)
    ensures Load(JoinLines(strs[1..])).index == strs
  {
    var lines := strs[1..];
    forall s | s in lines ensures '\n' !in s && DropCR(s) == s { assert s in strs; }
    LinesOfJoin(lines);
    assert ScanLines(JoinLines(lines)) == lines;
    LoadedList(EMPTY, lines);
    assert [""] + lines == strs;
  }

  // A list that began as the one the numbers were taken from gives the same.
  lemma MeansAnswers(req: Request, m: Indexed, early: seq<string>, strs: seq<string>, a: Answers)
    requires Known(early, Texts(req)) && m == IndexedOf(req, early) && AnsweredFor(req, a)
    requires early <= strs && strs != [] && strs[0] == "" && Plain(req)
    ensures Answered(m, a)
    ensures DecodeIndexed(m, strs, a) == if Fits(m) then WithAnswers(req, a) else Failed
  {
    IndexedStable(req, early, strs);
    if Fits(m) { DecodedWithAnswers(req, strs, a); }
  }

  lemma MeansThroughFile(req: Request, m: Indexed, early: seq<string>, strs: seq<string>, a: Answers)
    requires Known(early, Texts(req)) && m == IndexedOf(req, early) && AnsweredFor(req, a)
    requires early <= strs && strs != [] && strs[0] == "" && Plain(req) && forall s :: s in strs ==> Scannable(s)
    ensures Answered(m, a)
    ensures DecodeIndexed(m, Load(JoinLines(strs[1..])).index, a) == if Fits(m) then WithAnswers(req, a) else Failed
  {
    ListSurvives(strs);
    MeansAnswers(req, m, early, strs, a);
  }

  lemma DecodedFromFile(reqs: seq<Request>, k: nat, a: Answers)
    requires k < |reqs| && Plain(reqs[k]) && forall s :: s in ListAfter(reqs) ==> Scannable(s)
    requires AnsweredFor(reqs[k], a)
    ensures Answered(NumbersOf(reqs)[k], a)
    ensures DecodeIndexed(NumbersOf(reqs)[k], Load(JoinLines(ListAfter(reqs)[1..])).index, a)
              == if Fits(NumbersOf(reqs)[k]) then WithAnswers(reqs[k], a) else Failed
  {
    NumbersAt(reqs, k);
    ListGrows(reqs, k + 1);
    MeansThroughFile(reqs[k], NumbersOf(reqs)[k], ListAfter(reqs[..k + 1]), ListAfter(reqs), a);
  }

  // For every request of every payload file whose strings survive their file, and in every run of any
  // number of users of the cache, when no variable has the text of an expression for its name: the
  // numbers decoded through the loaded index, with the expressions given in the run, mean what the
  // literal encoding means, if and only if they fit 16 bits or the literal encoding fails as well.
  lemma IndexedMeansLiteral(reqs: seq<Request>, k: nat, users: nat, es: seq<Event>, a: Answers, compiles: Compiler)
    requires k < |reqs| && Plain(reqs[k]) && forall s :: s in ListAfter(reqs) ==> Scannable(s)
    requires NoClash(VocabularyOf(reqs), compiles) && AllWithin(es, VocabularyOf(reqs))
    requires AnsweredFor(reqs[k], a) && AnswersOf(Run(Start(users), es, compiles).log, reqs[k], a)
    ensures Answered(NumbersOf(reqs)[k], a)
    ensures DecodeIndexed(NumbersOf(reqs)[k], Load(JoinLines(ListAfter(reqs)[1..])).index, a)
              == FromLiteral(reqs[k], compiles)
            <==> Fits(NumbersOf(reqs)[k]) || FromLiteral(reqs[k], compiles).Failed?
  {
    DecodedFromFile(reqs, k, a);
    RunKeeps(Start(users), es, VocabularyOf(reqs), compiles);
    RightIsLiteral(reqs[k], a, Run(Start(users), es, compiles).log, compiles);
  }
}
