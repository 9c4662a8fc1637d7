/** Payload files with a record that cannot be read: what is sent before it, and how the reader ends. */
module PayloadFaults {
  import opened Sequences
  import opened Bytes
  import opened PayloadInput

  // Records that can be read, and then this.
  function After<T>(ps: seq<Piece>, r: PassResult<T>, decode: Decoder<T>): PassResult<T> {
    PassResult(GoodItems(ps, decode) + r.items, BadCount(ps, decode) + r.bad, r.panicked)
  }

  lemma AfterOne<T>(p: Piece, ps: seq<Piece>, r: PassResult<T>, decode: Decoder<T>)
    ensures After([p] + ps, r, decode)
         == var parsed := decode(p.line);
            if parsed.Good? then WithItem(Item(parsed.meta, p.payload), After(ps, r, decode))
            else WithBad(After(ps, r, decode))
  {
    assert ([p] + ps)[1..] == ps;
    if decode(p.line).Good? {
      Reassociate([Item(decode(p.line).meta, p.payload)], GoodItems(ps, decode), r.items);
    }
  }

  lemma OnePieceMore<T>(data: seq<byte>, pos: nat, next: nat, end: nat, p: Piece, ps: seq<Piece>, decode: Decoder<T>)
    requires pos < next <= |data| && end <= |data|
    requires ReadRecord(data, pos, decode)
          == (var parsed := decode(p.line); if parsed.Good? then Record(Item(parsed.meta, p.payload)) else Bad, next)
    requires Pass(data, next, decode) == After(ps, Pass(data, end, decode), decode)
    ensures Pass(data, pos, decode) == After([p] + ps, Pass(data, end, decode), decode)
  {
    AfterOne(p, ps, Pass(data, end, decode), decode);
  }

  lemma Front(before: seq<byte>, ps: seq<Piece>, tail: seq<byte>)
    requires ps != []
    ensures before + Layout(ps) == before + PieceBytes(ps[0]) + Layout(ps[1..])
    ensures before + Layout(ps) + tail == before + PieceBytes(ps[0]) + (Layout(ps[1..]) + tail)
  {
    Shift(before, PieceBytes(ps[0]), Layout(ps[1..]), tail);
  }

  // A pass over records and whatever follows them.
  lemma {:induction false} PassUpTo<T>(data: seq<byte>, before: seq<byte>, ps: seq<Piece>, tail: seq<byte>,
                                       decode: Decoder<T>)
    requires data == before + Layout(ps) + tail && forall p :: p in ps ==> Framed(p, decode)
    ensures Pass(data, |before|, decode) == After(ps, Pass(data, |before + Layout(ps)|, decode), decode)
    decreases |ps|
  {
    if ps == [] {
      assert before + [] == before;
      var r := Pass(data, |before|, decode);
      assert [] + r.items == r.items;
    } else {
      var front := before + PieceBytes(ps[0]);
      Front(before, ps, tail);
      RecordFound(before, ps[0], Layout(ps[1..]) + tail, decode);
      PassUpTo(data, front, ps[1..], tail, decode);
      OnePieceMore(data, |before|, |front|, |before + Layout(ps)|, ps[0], ps[1..], decode);
      assert ps == [ps[0]] + ps[1..];
    }
  }

  lemma FeedPanics<T>(whole: PassResult<T>, limit: int, passes: nat)
    requires whole.panicked && passes > 0
    ensures Feed(whole, whole, limit, passes, 0, 0, 0) == (whole.items, Panicked)
  {}

  lemma WholePass<T>(ps: seq<Piece>, tail: seq<byte>, r: PassResult<T>, decode: Decoder<T>)
    requires forall p :: p in ps ==> Framed(p, decode)
    requires r.items == [] && Pass(Layout(ps) + tail, |Layout(ps)|, decode) == r
    ensures Pass(Layout(ps) + tail, 0, decode)
         == PassResult(GoodItems(ps, decode), BadCount(ps, decode) + r.bad, r.panicked)
  {
    assert [] + Layout(ps) == Layout(ps);
    PassUpTo(Layout(ps) + tail, [], ps, tail, decode);
    assert GoodItems(ps, decode) + [] == GoodItems(ps, decode);
  }

  // When the record after them makes the reader panic, the good ones before it are sent and it panics in its
  // first pass, whatever the limit.
  lemma PanicAfter<T>(ps: seq<Piece>, tail: seq<byte>, limit: int, passes: nat, decode: Decoder<T>)
    requires (forall p :: p in ps ==> Framed(p, decode)) && passes > 0
    requires ReadRecord(Layout(ps) + tail, |Layout(ps)|, decode).0.Panic?
    ensures FeedFile(Layout(ps) + tail, limit, passes, decode) == (GoodItems(ps, decode), Panicked)
  {
    var data := Layout(ps) + tail;
    assert Pass(data, |Layout(ps)|, decode) == PassResult([], 0, true);
    WholePass(ps, tail, PassResult([], 0, true), decode);
    FeedPanics(Pass(data, 0, decode), limit, passes);
  }

  // A line that can be found.
  predicate Findable(sep: seq<byte>, line: seq<byte>) {
    Separators(sep) && line != [] && !IsSep(line[0]) && LF !in line && |sep| + |line| + 1 <= BUFFER
  }

  lemma LastPiece(before: seq<byte>, sep: seq<byte>, line: seq<byte>, rest: seq<byte>)
    ensures before + PieceBytes(Piece(sep, line, rest)) + [] == before + (sep + line + [LF] + rest)
    ensures |before + (sep + line + [LF] + rest)| == |before| + |sep| + |line| + 1 + |rest|
  {}

  lemma ReadsLine<T>(before: seq<byte>, sep: seq<byte>, line: seq<byte>, rest: seq<byte>, decode: Decoder<T>)
    requires Findable(sep, line)
    ensures var data, start := before + (sep + line + [LF] + rest), |before| + |sep| + |line| + 1;
            start + |rest| == |data| && ReadRecord(data, |before|, decode) == TakePayload(decode(line), data, start)
  {
    LastPiece(before, sep, line, rest);
    LineFound(before, Piece(sep, line, rest), []);
    LineRead(before + (sep + line + [LF] + rest), |before|, |sep|, line, decode);
  }

  // A line without a length, or whose record ends before the payload does.
  predicate Broken<T>(line: seq<byte>, rest: seq<byte>, decode: Decoder<T>) {
    decode(line).NoLength? || ((decode(line).Good? || decode(line).BadItem?) && decode(line).plen > |rest|)
  }

  // Such a record, after any others, is the end: the good ones before it have been sent, and the reader panics in
  // its first pass.
  lemma BrokenRecordPanics<T>(ps: seq<Piece>, sep: seq<byte>, line: seq<byte>, rest: seq<byte>, limit: int, passes: nat,
                              decode: Decoder<T>)
    requires (forall p :: p in ps ==> Framed(p, decode)) && passes > 0
    requires Findable(sep, line) && Broken(line, rest, decode)
    ensures FeedFile(Layout(ps) + (sep + line + [LF] + rest), limit, passes, decode)
         == (GoodItems(ps, decode), Panicked)
  {
    ReadsLine(Layout(ps), sep, line, rest, decode);
    PanicAfter(ps, sep + line + [LF] + rest, limit, passes, decode);
  }

  // So is a last line that is not ended.
  lemma UnendedLinePanics<T>(ps: seq<Piece>, sep: seq<byte>, line: seq<byte>, limit: int, passes: nat,
                             decode: Decoder<T>)
    requires (forall p :: p in ps ==> Framed(p, decode)) && passes > 0
    requires Separators(sep) && |sep| < BUFFER && line != [] && !IsSep(line[0]) && LF !in line
    ensures FeedFile(Layout(ps) + (sep + line), limit, passes, decode) == (GoodItems(ps, decode), Panicked)
  {
    var n := Min(BUFFER - |sep|, |line|);
    WindowOf(Layout(ps), sep + line);
    assert (sep + line)[..Min(BUFFER, |sep + line|)] == sep + line[..n];
    SepsOf(sep, line[..n]);
    var buf := Window(Layout(ps) + (sep + line), |Layout(ps)|);
    assert buf[|sep|..] == line[..n];
    PanicAfter(ps, sep + line, limit, passes, decode);
  }

  lemma OneBad<T>(data: seq<byte>, pos: nat, decode: Decoder<T>)
    requires pos <= |data| && ReadRecord(data, pos, decode) == (Bad, |data|)
    ensures Pass(data, pos, decode) == JustOneBad()
  {
    assert Pass(data, |data|, decode) == PassResult([], 0, false);
  }

  function JustOneBad<T>(): PassResult<T> { PassResult([], 1, false) }

  lemma FedWhole<T>(data: seq<byte>, items: seq<Item<T>>, bad: nat, limit: int, passes: nat, decode: Decoder<T>)
    requires Pass(data, 0, decode) == PassResult(items, bad, false) && passes > 0
    ensures FeedFile(data, limit, passes, decode) == Repeated(items, bad, limit, passes)
  {
    FeedWhole(PassResult(items, bad, false), limit, passes);
  }

  // But one whose metadata are bad as such is counted as bad, even if its payload is cut short.
  lemma BadMetaCutShort<T>(ps: seq<Piece>, sep: seq<byte>, line: seq<byte>, rest: seq<byte>, limit: int, passes: nat,
                           decode: Decoder<T>)
    requires (forall p :: p in ps ==> Framed(p, decode)) && passes > 0
    requires Findable(sep, line) && decode(line).BadMeta? && decode(line).plen >= |rest|
    ensures FeedFile(Layout(ps) + (sep + line + [LF] + rest), limit, passes, decode)
         == Repeated(GoodItems(ps, decode), BadCount(ps, decode) + 1, limit, passes)
  {
    var tail := sep + line + [LF] + rest;
    ReadsLine(Layout(ps), sep, line, rest, decode);
    BadAtTheEnd(ps, tail, limit, passes, decode);
  }

  lemma BadAtTheEnd<T>(ps: seq<Piece>, tail: seq<byte>, limit: int, passes: nat, decode: Decoder<T>)
    requires (forall p :: p in ps ==> Framed(p, decode)) && passes > 0
    requires ReadRecord(Layout(ps) + tail, |Layout(ps)|, decode) == (Bad, |Layout(ps) + tail|)
    ensures FeedFile(Layout(ps) + tail, limit, passes, decode)
         == Repeated(GoodItems(ps, decode), BadCount(ps, decode) + 1, limit, passes)
  {
    OneBad(Layout(ps) + tail, |Layout(ps)|, decode);
    WholePass(ps, tail, JustOneBad(), decode);
    FedWhole(Layout(ps) + tail, GoodItems(ps, decode), BadCount(ps, decode) + 1, limit, passes, decode);
  }
}
