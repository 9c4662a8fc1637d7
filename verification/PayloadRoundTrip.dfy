/** From requests to the input channel: indexed metadata, the strings file, the payload file, and the
    reader that puts them together again. */
module PayloadRoundTrip {
  import opened Bytes
  import opened StrIndex
  import opened TextLines
  import opened RegexCache
  import opened Metadata
  import opened PayloadInput

  // The JSON text of indexed metadata and a payload length.
  type Json = (Indexed, nat) -> seq<byte>

  // What the reader makes of a metadata line, given what its strings decode to.
  function ParsedOf(o: Outcome<Meta>, plen: nat): Parsed<Meta> {
    match o
    case Done(meta) => Good(plen, meta)
    case Failed => BadItem(plen)
    case Panicked => Parsed.NoLength
  }

  // The answers that the cache gave in a run when the records of the requests were decoded.
  ghost predicate AllAnswered(reqs: seq<Request>, ms: seq<Indexed>, given: seq<Answers>) {
    |ms| == |reqs| == |given|
    && forall k :: 0 <= k < |reqs| ==> Answered(ms[k], given[k])
  }

  // Decoding JSON text gives back what was encoded, and white space after it is no matter.
  ghost predicate JsonIsRead(json: Json, decode: Decoder<Meta>, reqs: seq<Request>, ms: seq<Indexed>,
                             given: seq<Answers>, strs: seq<string>)
    requires AllAnswered(reqs, ms, given)
  {
    forall k, plen: nat :: 0 <= k < |ms| ==>
      decode(json(ms[k], plen) + [CR]) == ParsedOf(DecodeIndexed(ms[k], strs, given[k]), plen)
  }

  // It is one line, starts with no line break, and fits the buffer.
  predicate OneLineOf(g: Generated) {
    g.json != [] && !IsSep(g.json[0]) && LF !in g.json && |g.json| + 4 <= BUFFER
  }

  function Records(ms: seq<Indexed>, payloads: seq<seq<byte>>, json: Json): seq<Generated>
    requires |ms| == |payloads|
  {
    if ms == [] then []
    else [Generated(json(ms[0], |payloads[0]|), payloads[0])] + Records(ms[1..], payloads[1..], json)
  }

  // The items of the requests whose literal metadata decode, and the number of the others.
  function LiteralItems(reqs: seq<Request>, payloads: seq<seq<byte>>, compiles: Compiler): seq<Item<Meta>>
    requires |reqs| == |payloads|
  {
    if reqs == [] then []
    else
      var more := LiteralItems(reqs[1..], payloads[1..], compiles);
      match FromLiteral(reqs[0], compiles)
      case Done(meta) => [Item(meta, payloads[0])] + more
      case _ => more
  }

  function LiteralFailures(reqs: seq<Request>, compiles: Compiler): nat {
    if reqs == [] then 0
    else LiteralFailures(reqs[1..], compiles) + if FromLiteral(reqs[0], compiles).Done? then 0 else 1
  }

  // The metadata lines of these requests are read as their literal encodings say.
  ghost predicate ReadAsLiteral(json: Json, decode: Decoder<Meta>, reqs: seq<Request>, ms: seq<Indexed>,
                                compiles: Compiler)
    requires |ms| == |reqs|
  {
    forall k, plen: nat :: 0 <= k < |ms| ==>
      decode(json(ms[k], plen) + [CR]) == ParsedOf(FromLiteral(reqs[k], compiles), plen)
  }

  lemma ReadAsLiteralTail(json: Json, decode: Decoder<Meta>, reqs: seq<Request>, ms: seq<Indexed>, compiles: Compiler)
    requires |ms| == |reqs| > 0 && ReadAsLiteral(json, decode, reqs, ms, compiles)
    ensures ReadAsLiteral(json, decode, reqs[1..], ms[1..], compiles)
  {
    forall k, plen: nat | 0 <= k < |ms| - 1
      ensures decode(json(ms[1..][k], plen) + [CR]) == ParsedOf(FromLiteral(reqs[1..][k], compiles), plen)
    {
      assert ms[1..][k] == ms[k + 1] && reqs[1..][k] == reqs[k + 1];
    }
  }

  lemma {:induction false} PiecesMeanLiteral(
      sep: seq<byte>, reqs: seq<Request>, ms: seq<Indexed>, payloads: seq<seq<byte>>,
      json: Json, decode: Decoder<Meta>, compiles: Compiler)
    requires |ms| == |reqs| == |payloads| && ReadAsLiteral(json, decode, reqs, ms, compiles)
    requires forall g :: g in Records(ms, payloads, json) ==> OneLineOf(g)
    requires Separators(sep) && |sep| <= 2
    ensures var ps := Pieces(sep, Records(ms, payloads, json));
            (forall p :: p in ps ==> Framed(p, decode))
            && GoodItems(ps, decode) == LiteralItems(reqs, payloads, compiles)
            && BadCount(ps, decode) == LiteralFailures(reqs, compiles)
    decreases |reqs|
  {
    if reqs != [] {
      var gs := Records(ms, payloads, json);
      var ps := Pieces(sep, gs);
      assert gs[1..] == Records(ms[1..], payloads[1..], json) && ps[1..] == Pieces(NEWLINE, gs[1..]);
      ReadAsLiteralTail(json, decode, reqs, ms, compiles);
      PiecesMeanLiteral(NEWLINE, reqs[1..], ms[1..], payloads[1..], json, decode, compiles);
      assert OneLineOf(gs[0]);
      assert decode(ps[0].line) == ParsedOf(FromLiteral(reqs[0], compiles), |payloads[0]|);
      assert Framed(ps[0], decode);
    }
  }

  // Everything the round trip needs of a file of requests: names and strings that survive, numbers of
  // 16 bits, no variable with the text of an expression for its name, and lines that fit the buffer.
  ghost predicate Sound(reqs: seq<Request>, payloads: seq<seq<byte>>, json: Json, compiles: Compiler)
    requires |payloads| == |reqs|
  {
    (forall s :: s in ListAfter(reqs) ==> Scannable(s))
    && (forall k :: 0 <= k < |reqs| ==> Plain(reqs[k]) && Metadata.Fits(NumbersOf(reqs)[k]))
    && NoClash(VocabularyOf(reqs), compiles)
    && forall g :: g in Records(NumbersOf(reqs), payloads, json) ==> OneLineOf(g)
  }

  // In a run of the cache by any number of users, these are the answers for each of the requests.
  ghost predicate GivenInRun(reqs: seq<Request>, given: seq<Answers>, users: nat, es: seq<Event>, compiles: Compiler) {
    AllWithin(es, VocabularyOf(reqs)) && |given| == |reqs|
    && forall k :: 0 <= k < |reqs| ==>
         AnsweredFor(reqs[k], given[k]) && AnswersOf(Run(Start(users), es, compiles).log, reqs[k], given[k])
  }

  lemma RunIsLiteral(reqs: seq<Request>, given: seq<Answers>, users: nat, es: seq<Event>, k: nat, compiles: Compiler)
    requires k < |reqs| && Plain(reqs[k]) && Metadata.Fits(NumbersOf(reqs)[k])
    requires (forall s :: s in ListAfter(reqs) ==> Scannable(s)) && NoClash(VocabularyOf(reqs), compiles)
    requires GivenInRun(reqs, given, users, es, compiles)
    ensures Answered(NumbersOf(reqs)[k], given[k])
    ensures DecodeIndexed(NumbersOf(reqs)[k], Load(JoinLines(ListAfter(reqs)[1..])).index, given[k])
              == FromLiteral(reqs[k], compiles)
  {
    IndexedMeansLiteral(reqs, k, users, es, given[k], compiles);
  }

  // For every list of requests and their payloads, written with indexed metadata next to a strings
  // file, in every run of the cache, with any iteration limit or none: what is sent are the items that
  // literal metadata would have given, in order, once a pass, until the limit closes the channel;
  // unless there are more failures than items and more than one iteration, and then the reader panics
  // after the first.
  lemma IndexedFileFeedsLiteralItems(
      reqs: seq<Request>, payloads: seq<seq<byte>>, limit: int, passes: nat, json: Json, decode: Decoder<Meta>,
      given: seq<Answers>, users: nat, es: seq<Event>, compiles: Compiler)
    requires |payloads| == |reqs| && passes > 0 && Sound(reqs, payloads, json, compiles)
    requires GivenInRun(reqs, given, users, es, compiles) && AllAnswered(reqs, NumbersOf(reqs), given)
    requires JsonIsRead(json, decode, reqs, NumbersOf(reqs), given, Load(JoinLines(ListAfter(reqs)[1..])).index)
    ensures FeedFile(FileText(Records(NumbersOf(reqs), payloads, json)), limit, passes, decode)
         == Repeated(LiteralItems(reqs, payloads, compiles), LiteralFailures(reqs, compiles), limit, passes)
  {
    var ms := NumbersOf(reqs);
    forall k, plen: nat | 0 <= k < |ms|
      ensures decode(json(ms[k], plen) + [CR]) == ParsedOf(FromLiteral(reqs[k], compiles), plen)
    {
      RunIsLiteral(reqs, given, users, es, k, compiles);
    }
    FileFeeds(reqs, payloads, limit, passes, ms, json, decode, compiles);
  }

  lemma FileFeeds(reqs: seq<Request>, payloads: seq<seq<byte>>, limit: int, passes: nat, ms: seq<Indexed>,
                  json: Json, decode: Decoder<Meta>, compiles: Compiler)
    requires |ms| == |reqs| == |payloads| && passes > 0 && ReadAsLiteral(json, decode, reqs, ms, compiles)
    requires forall g :: g in Records(ms, payloads, json) ==> OneLineOf(g)
    ensures FeedFile(FileText(Records(ms, payloads, json)), limit, passes, decode)
         == Repeated(LiteralItems(reqs, payloads, compiles), LiteralFailures(reqs, compiles), limit, passes)
  {
    var gs := Records(ms, payloads, json);
    PiecesMeanLiteral([], reqs, ms, payloads, json, decode, compiles);
    FileIsLayout([], gs);
    assert [] + FileText(gs) == FileText(gs);
    InputRepeatsTheGood(Pieces([], gs), if gs == [] then [] else NEWLINE, limit, passes, decode);
  }
}
