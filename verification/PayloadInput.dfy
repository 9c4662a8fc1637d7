/** The payload file as the load generator reads it: records are found behind separators, a
    metadata line tells how long the payload is, and the file is rewound at its end. */
module PayloadInput {
  import opened Sequences
  import opened Bytes
  import opened RealFacts

  const BUFFER: nat := 4096
  const LF: byte := 10
  const CR: byte := 13

  // What becomes of a metadata line. BadItem is one whose extractors or assertions do not decode;
  // BadMeta is not decoded itself, but its payload length is found in it; NoLength lacks even that, or
  // has a negative one: there is nothing to index or no buffer to make, and the reader panics.
  datatype Parsed<+T> = Good(plen: nat, meta: T) | BadItem(plen: nat) | BadMeta(plen: nat) | NoLength

  type Decoder<!T> = seq<byte> -> Parsed<T>

  datatype Item<+T> = Item(meta: T, payload: seq<byte>)

  datatype Reading<+T> = Record(item: Item<T>) | EndOfFile | Bad | Panic

  predicate IsSep(b: byte) { b == LF || b == CR }

  function Min(a: nat, b: nat): nat { if a < b then a else b }

  // How many separators come first.
  function Seps(s: seq<byte>): (n: nat)
    ensures n <= |s| && (forall i :: 0 <= i < n ==> IsSep(s[i])) && (n < |s| ==> !IsSep(s[n]))
  {
    if s == [] || !IsSep(s[0]) then 0
    else
      var n := 1 + Seps(s[1..]);
      assert forall i :: 1 <= i < n ==> s[i] == s[1..][i - 1];
      n
  }

  // The position of the first newline, or the length.
  function Newline(s: seq<byte>): (n: nat)
    ensures n <= |s| && (n < |s| ==> s[n] == LF) && (forall i :: 0 <= i < n ==> s[i] != LF)
  {
    if s == [] || s[0] == LF then 0
    else
      var n := 1 + Newline(s[1..]);
      assert forall i :: 1 <= i < n ==> s[i] == s[1..][i - 1];
      n
  }

  // The payload of the given length, from a position on.
  function TakePayload<T>(parsed: Parsed<T>, data: seq<byte>, start: nat): (Reading<T>, nat)
    requires start <= |data|
  {
    match parsed
    case NoLength => (Panic, start)
    case BadMeta(plen) => (Bad, Min(start + plen, |data|))
    case BadItem(plen) => if start + plen <= |data| then (Bad, start + plen) else (Panic, |data|)
    case Good(plen, meta) =>
      if start + plen <= |data| then (Record(Item(meta, data[start..start + plen])), start + plen) else (Panic, |data|)
  }

  // What one read gives, and the position after it.
  function Window(data: seq<byte>, pos: nat): seq<byte>
    requires pos <= |data|
  {
    data[pos..pos + Min(BUFFER, |data| - pos)]
  }

  // One record from a position of the file on, and the position after it.
  function ReadRecord<T>(data: seq<byte>, pos: nat, decode: Decoder<T>): (r: (Reading<T>, nat))
    requires pos <= |data|
    ensures r.1 <= |data|
    ensures r.0.Record? || r.0.Bad? ==> r.1 > pos
  {
    var buf := Window(data, pos);
    var offset := Seps(buf);
    if offset == |buf| then (EndOfFile, pos + |buf|)
    else
      var n := Newline(buf[offset..]);
      if offset + n == |buf| then (Panic, pos + |buf|)
      else TakePayload(decode(buf[offset..][..n]), data, pos + offset + n + 1)
  }

  class PayloadFile {
    const data: seq<byte>
    var pos: nat

    ghost predicate Valid()
      reads this
    {
      pos <= |data|
    }

    constructor (data: seq<byte>)
      ensures Valid() && this.data == data && pos == 0
    {
      this.data, pos := data, 0;
    }

    // Fill the front of the buffer; nothing is left to read at the end of the file.
    method Read(buf: array<byte>) returns (n: nat)
      requires Valid() && buf.Length == BUFFER
      modifies this, buf
      ensures n <= BUFFER && Valid() && buf[..n] == Window(data, old(pos)) && pos == old(pos) + n
    {
      n := Min(buf.Length, |data| - pos);
      forall i | 0 <= i < n { buf[i] := data[pos + i]; }
      assert buf[..n] == data[pos..pos + n];
      pos := pos + n;
    }

    method SkipSeparators(buf: array<byte>, nread: nat) returns (offset: nat)
      requires nread <= buf.Length
      ensures offset == Seps(buf[..nread])
    {
      offset := 0;
      assert buf[0..nread] == buf[..nread];
      while offset < nread && (buf[offset] == 10 || buf[offset] == 13)
        invariant offset <= nread && Seps(buf[..nread]) == offset + Seps(buf[offset..nread])
      {
        assert buf[offset..nread][0] == buf[offset] && buf[offset..nread][1..] == buf[offset + 1..nread];
        offset := offset + 1;
      }
    }

    // Cut the line at its newline and go back to just after it.
    method ReadMeta(buf: array<byte>, offset: nat, nread: nat) returns (line: seq<byte>, found: bool)
      requires Valid() && offset <= nread <= buf.Length && nread <= pos
      modifies this
      ensures var n := Newline(buf[offset..nread]);
              found == (offset + n < nread) && Valid()
              && if found then line == buf[offset..nread][..n] && pos == old(pos) - nread + offset + n + 1
                 else pos == old(pos)
    {
      var n := offset;
      while n < nread && buf[n] != 10
        invariant offset <= n <= nread
        invariant offset + Newline(buf[offset..nread]) == n + Newline(buf[n..nread])
      {
        assert buf[n..nread][0] == buf[n] && buf[n..nread][1..] == buf[n + 1..nread];
        n := n + 1;
      }
      found := n < nread;
      line := [];
      if found {
        assert buf[n..nread][0] == LF;
        line := buf[offset..n];
        assert line == buf[offset..nread][..n - offset];
        var rest := nread - (n + 1);
        pos := pos - rest;
      }
    }

    // As many of the n bytes as there are; ok when all of them.
    method ReadFull(n: nat) returns (bytes: seq<byte>, ok: bool)
      requires Valid()
      modifies this
      ensures Valid() && pos == Min(old(pos) + n, |data|)
      ensures ok <==> old(pos) + n <= |data|
      ensures bytes == data[old(pos)..pos]
    {
      var m := Min(n, |data| - pos);
      bytes, ok := data[pos..pos + m], m == n;
      pos := pos + m;
    }

    method ReadPayload<T>(parsed: Parsed<T>) returns (o: Reading<T>)
      requires Valid()
      modifies this
      ensures Valid() && (o, pos) == TakePayload(parsed, data, old(pos))
    {
      if parsed.NoLength? { return Panic; }
      var payload, ok := ReadFull(parsed.plen);
      if parsed.BadMeta? { return Bad; }
      if !ok { return Panic; }
      if parsed.BadItem? { return Bad; }
      return Record(Item(parsed.meta, payload));
    }

    method ReadPayloadRecord<T>(buf: array<byte>, decode: Decoder<T>) returns (o: Reading<T>)
      requires Valid() && buf.Length == BUFFER
      modifies this, buf
      ensures Valid() && (o, pos) == ReadRecord(data, old(pos), decode)
    {
      var nread := Read(buf);
      ghost var window := Window(data, old(pos));
      var offset := SkipSeparators(buf, nread);
      if offset == nread { return EndOfFile; }
      assert buf[..nread][offset..] == buf[offset..nread];
      var line, found := ReadMeta(buf, offset, nread);
      if !found { return Panic; }
      LineRead(data, old(pos), offset, line, decode);
      o := ReadPayload(decode(line));
    }
  }

  // ---------------------------------------------------------------- feeding the channel

  // What one pass over the file still sends, and how many bad records it meets.
  datatype PassResult<+T> = PassResult(items: seq<Item<T>>, bad: nat, panicked: bool)

  function Pass<T>(data: seq<byte>, pos: nat, decode: Decoder<T>): PassResult<T>
    requires pos <= |data|
    decreases |data| - pos
  {
    var (o, p) := ReadRecord(data, pos, decode);
    match o
    case EndOfFile => PassResult([], 0, false)
    case Panic => PassResult([], 0, true)
    case Bad => WithBad(Pass(data, p, decode))
    case Record(item) => WithItem(item, Pass(data, p, decode))
  }

  function WithBad<T>(r: PassResult<T>): PassResult<T> { r.(bad := r.bad + 1) }

  function WithItem<T>(item: Item<T>, r: PassResult<T>): PassResult<T> { r.(items := [item] + r.items) }

  // Without any record the ratio is no number, and no number is less than a half.
  predicate Problematic(good: nat, bad: nat) {
    good + bad > 0 && good as real / (good + bad) as real < 0.5
  }

  // Running: still sending when so many passes have been seen.
  datatype Ending = Closed | Panicked | Running

  // The iteration limit is reached; zero and below are no limit.
  predicate Due(limit: int, iterations: nat) { limit > 0 && iterations >= limit }

  // All that is sent from here on and until so many passes are over, given what is left of this pass
  // and what a whole one gives.
  function Feed<T>(left: PassResult<T>, whole: PassResult<T>, limit: int, passes: nat, iterations: nat, good: nat,
                   bad: nat)
    : (seq<Item<T>>, Ending)
    requires iterations < passes
    decreases passes - iterations
  {
    var good', bad' := good + |left.items|, bad + left.bad;
    if left.panicked then (left.items, Panicked)
    else if Due(limit, iterations + 1) then (left.items, Closed)
    else if Problematic(good', bad') then (left.items, Panicked)
    else if iterations + 1 >= passes then (left.items, Running)
    else Then(left.items, Feed(whole, whole, limit, passes, iterations + 1, good', bad'))
  }

  function Then<T>(sent: seq<T>, r: (seq<T>, Ending)): (seq<T>, Ending) { (sent + r.0, r.1) }

  // All that is sent for a file.
  function FeedFile<T>(data: seq<byte>, limit: int, passes: nat, decode: Decoder<T>): (seq<Item<T>>, Ending)
    requires passes > 0
  {
    var whole := Pass(data, 0, decode);
    Feed(whole, whole, limit, passes, 0, 0, 0)
  }

  // The goroutine that reads the file over and over, until the iteration limit, or for ever; it is
  // looked at until it has read the file so many times.
  method NewInput<T>(file: PayloadFile, limit: int, passes: nat, decode: Decoder<T>)
    returns (channel: seq<Item<T>>, ending: Ending)
    requires file.Valid() && file.pos == 0 && passes > 0
    modifies file
    ensures (channel, ending) == FeedFile(file.data, limit, passes, decode)
  {
    var iterations, good, bad := 0, 0, 0;
    var buf := new byte[BUFFER](_ => 0);
    channel := [];
    ghost var whole := Pass(file.data, 0, decode);
    ghost var all := FeedFile(file.data, limit, passes, decode);
    assert [] + all.0 == all.0;
    while true
      invariant file.Valid() && iterations < passes
      invariant all == Sending(channel, Pass(file.data, file.pos, decode), whole, limit, passes, iterations, good, bad)
      decreases passes - iterations, |file.data| - file.pos
    {
      ghost var pos := file.pos;
      var o := file.ReadPayloadRecord(buf, decode);
      match o {
        case EndOfFile =>
          FeedAtEnd(channel, whole, limit, passes, iterations, good, bad);
          iterations := iterations + 1;
          if limit > 0 && iterations >= limit { return channel, Closed; }
          if Problematic(good, bad) { return channel, Panicked; }
          file.pos := 0;
          if iterations == passes { return channel, Running; }
        case Panic =>
          FeedAtPanic(channel, whole, limit, passes, iterations, good, bad);
          return channel, Panicked;
        case Bad =>
          FeedBad(channel, Pass(file.data, file.pos, decode), whole, limit, passes, iterations, good, bad);
          bad := bad + 1;
        case Record(item) =>
          FeedItem(channel, item, Pass(file.data, file.pos, decode), whole, limit, passes, iterations, good, bad);
          good := good + 1;
          channel := channel + [item];
      }
    }
  }

  // What has been sent, and what is still to be.
  function Sending<T>(sent: seq<Item<T>>, left: PassResult<T>, whole: PassResult<T>, limit: int, passes: nat,
                      iterations: nat, good: nat, bad: nat): (seq<Item<T>>, Ending)
    requires iterations < passes
  {
    Then(sent, Feed(left, whole, limit, passes, iterations, good, bad))
  }

  lemma FeedBad<T>(sent: seq<Item<T>>, left: PassResult<T>, whole: PassResult<T>, limit: int, passes: nat,
                   iterations: nat, good: nat, bad: nat)
    requires iterations < passes
    ensures Sending(sent, WithBad(left), whole, limit, passes, iterations, good, bad)
         == Sending(sent, left, whole, limit, passes, iterations, good, bad + 1)
  {}

  lemma FeedItem<T>(sent: seq<Item<T>>, item: Item<T>, left: PassResult<T>, whole: PassResult<T>, limit: int,
                    passes: nat, iterations: nat, good: nat, bad: nat)
    requires iterations < passes
    ensures Sending(sent, WithItem(item, left), whole, limit, passes, iterations, good, bad)
         == Sending(sent + [item], left, whole, limit, passes, iterations, good + 1, bad)
  {
    var good', bad' := good + 1 + |left.items|, bad + left.bad;
    var more := if !left.panicked && !Due(limit, iterations + 1) && !Problematic(good', bad') && iterations + 1 < passes
                then Feed(whole, whole, limit, passes, iterations + 1, good', bad').0 else [];
    assert sent + ([item] + left.items) == sent + [item] + left.items;
    assert sent + ([item] + left.items + more) == sent + [item] + (left.items + more);
  }

  lemma FeedAtEnd<T>(sent: seq<Item<T>>, whole: PassResult<T>, limit: int, passes: nat, iterations: nat, good: nat,
                     bad: nat)
    requires iterations < passes
    ensures Sending(sent, PassResult([], 0, false), whole, limit, passes, iterations, good, bad)
         == if Due(limit, iterations + 1) then (sent, Closed)
            else if Problematic(good, bad) then (sent, Panicked)
            else if iterations + 1 >= passes then (sent, Running)
            else Sending(sent, whole, whole, limit, passes, iterations + 1, good, bad)
  {
    assert sent + [] == sent;
    if iterations + 1 < passes {
      var more := Feed(whole, whole, limit, passes, iterations + 1, good, bad);
      assert [] + more.0 == more.0;
    }
  }

  lemma FeedAtPanic<T>(sent: seq<Item<T>>, whole: PassResult<T>, limit: int, passes: nat, iterations: nat, good: nat,
                       bad: nat)
    requires iterations < passes
    ensures Sending(sent, PassResult([], 0, true), whole, limit, passes, iterations, good, bad) == (sent, Panicked)
  {
    assert sent + [] == sent;
  }

  // ---------------------------------------------------------------- files of records

  datatype Piece = Piece(sep: seq<byte>, line: seq<byte>, payload: seq<byte>)

  function PieceBytes(p: Piece): seq<byte> { p.sep + p.line + [LF] + p.payload }

  function Layout(ps: seq<Piece>): seq<byte> {
    if ps == [] then [] else PieceBytes(ps[0]) + Layout(ps[1..])
  }

  predicate Separators(s: seq<byte>) { forall b :: b in s ==> IsSep(b) }

  // A line that is not empty, and tells the length of the payload.
  ghost predicate Shaped<T>(p: Piece, decode: Decoder<T>) {
    Separators(p.sep)
    && p.line != [] && !IsSep(p.line[0]) && LF !in p.line
    && !decode(p.line).NoLength? && decode(p.line).plen == |p.payload|
  }

  // The separators and the line fit the buffer.
  predicate FitsBuffer(p: Piece) { |p.sep| + |p.line| + 1 <= 4096 }

  ghost predicate Framed<T>(p: Piece, decode: Decoder<T>) { Shaped(p, decode) && FitsBuffer(p) }

  function GoodItems<T>(ps: seq<Piece>, decode: Decoder<T>): seq<Item<T>> {
    if ps == [] then []
    else
      var more := GoodItems(ps[1..], decode);
      var parsed := decode(ps[0].line);
      if parsed.Good? then [Item(parsed.meta, ps[0].payload)] + more else more
  }

  function BadCount<T>(ps: seq<Piece>, decode: Decoder<T>): nat {
    if ps == [] then 0
    else BadCount(ps[1..], decode) + if decode(ps[0].line).Good? then 0 else 1
  }

  lemma {:induction false} SepsOf(sep: seq<byte>, rest: seq<byte>)
    requires Separators(sep) && (rest == [] || !IsSep(rest[0]))
    ensures Seps(sep + rest) == |sep|
  {
    if sep == [] {
      assert sep + rest == rest;
    } else {
      assert (sep + rest)[0] == sep[0] && (sep + rest)[1..] == sep[1..] + rest;
      SepsOf(sep[1..], rest);
    }
  }

  lemma {:induction false} NewlineOf(line: seq<byte>, rest: seq<byte>)
    requires LF !in line
    ensures Newline(line + [LF] + rest) == |line|
  {
    if line != [] {
      var s := line + [LF] + rest;
      assert s[0] == line[0] && s[1..] == line[1..] + [LF] + rest;
      NewlineOf(line[1..], rest);
    }
  }

  // Whatever is before and after a record, and whatever its payload is made of, reading at its start
  // finds it and stops right after it.
  lemma RecordFound<T>(before: seq<byte>, p: Piece, after: seq<byte>, decode: Decoder<T>)
    requires Framed(p, decode)
    ensures var (o, pos) := ReadRecord(before + PieceBytes(p) + after, |before|, decode);
            pos == |before + PieceBytes(p)|
            && o == (var parsed := decode(p.line); if parsed.Good? then Record(Item(parsed.meta, p.payload)) else Bad)
  {
    LineFound(before, p, after);
    LineRead(before + PieceBytes(p) + after, |before|, |p.sep|, p.line, decode);
    PayloadAt(before, p, after);
  }

  lemma LineRead<T>(data: seq<byte>, pos: nat, offset: nat, line: seq<byte>, decode: Decoder<T>)
    requires pos <= |data| && Seps(Window(data, pos)) == offset && offset + |line| < |Window(data, pos)|
    requires Newline(Window(data, pos)[offset..]) == |line| && Window(data, pos)[offset..][..|line|] == line
    ensures pos + offset + |line| + 1 <= |data|
    ensures ReadRecord(data, pos, decode) == TakePayload(decode(line), data, pos + offset + |line| + 1)
  {}

  lemma TooLongWindow(before: seq<byte>, p: Piece, after: seq<byte>)
    requires !FitsBuffer(p)
    ensures Window(before + PieceBytes(p) + after, |before|) == (p.sep + p.line)[..BUFFER]
  {
    var head, more := p.sep + p.line, [LF] + p.payload + after;
    assert before + PieceBytes(p) + after == before + (head + more);
    WindowOf(before, head + more);
    assert (head + more)[..BUFFER] == head[..BUFFER];
  }

  // A record that does not fit is not found: its line does not end within the buffer, or the buffer
  // holds nothing but separators, which is taken for the end of the file.
  lemma RecordNotFound<T>(before: seq<byte>, p: Piece, after: seq<byte>, decode: Decoder<T>)
    requires Shaped(p, decode) && !FitsBuffer(p)
    ensures ReadRecord(before + PieceBytes(p) + after, |before|, decode)
         == (if |p.sep| >= BUFFER then EndOfFile else Panic, |before| + BUFFER)
  {
    var buf := Window(before + PieceBytes(p) + after, |before|);
    TooLongWindow(before, p, after);
    if |p.sep| >= BUFFER {
      assert buf == p.sep[..BUFFER];
    } else {
      var part := p.line[..BUFFER - |p.sep|];
      assert buf == p.sep + part && part[0] == p.line[0] && buf[|p.sep|..] == part;
      SepsOf(p.sep, part);
    }
  }

  // Whatever is before and after a record, and whatever its payload is made of, reading at its start
  // finds it if and only if its separators and its line fit the buffer.
  lemma RecordFoundIff<T>(before: seq<byte>, p: Piece, after: seq<byte>, decode: Decoder<T>)
    requires Shaped(p, decode)
    ensures var (o, pos) := ReadRecord(before + PieceBytes(p) + after, |before|, decode);
            (o.Record? || o.Bad? <==> FitsBuffer(p)) && (FitsBuffer(p) ==> pos == |before + PieceBytes(p)|)
  {
    if FitsBuffer(p) { RecordFound(before, p, after, decode); } else { RecordNotFound(before, p, after, decode); }
  }

  lemma PayloadAt(before: seq<byte>, p: Piece, after: seq<byte>)
    ensures var start := |before| + |p.sep| + |p.line| + 1;
            start + |p.payload| == |before + PieceBytes(p)| <= |before + PieceBytes(p) + after|
            && (before + PieceBytes(p) + after)[start..start + |p.payload|] == p.payload
  {}

  lemma LineFound(before: seq<byte>, p: Piece, after: seq<byte>)
    requires Separators(p.sep) && p.line != [] && !IsSep(p.line[0]) && LF !in p.line
    requires |p.sep| + |p.line| + 1 <= BUFFER
    ensures var buf := Window(before + PieceBytes(p) + after, |before|);
            Seps(buf) == |p.sep| && |p.sep| + |p.line| < |buf|
            && Newline(buf[|p.sep|..]) == |p.line| && buf[|p.sep|..][..|p.line|] == p.line
  {
    var buf := Window(before + PieceBytes(p) + after, |before|);
    var tail := WindowOfPiece(before, p, after);
    SepsOf(p.sep, p.line + [LF] + tail);
    assert buf[|p.sep|..] == p.line + [LF] + tail;
    NewlineOf(p.line, tail);
  }

  // The window at a record starts with its separators and its line.
  lemma WindowOfPiece(before: seq<byte>, p: Piece, after: seq<byte>) returns (tail: seq<byte>)
    requires |p.sep| + |p.line| + 1 <= BUFFER
    ensures Window(before + PieceBytes(p) + after, |before|) == p.sep + (p.line + [LF] + tail)
  {
    var head, more := p.sep + p.line + [LF], p.payload + after;
    Shift(before, head, p.payload, after);
    assert before + PieceBytes(p) + after == before + (head + more);
    WindowOf(before, head + more);
    tail := more[..Min(BUFFER, |head + more|) - |head|];
    TakePast(head, more, Min(BUFFER, |head + more|));
    assert head + tail == p.sep + (p.line + [LF] + tail);
  }

  lemma WindowOf(before: seq<byte>, rest: seq<byte>)
    ensures Window(before + rest, |before|) == rest[..Min(BUFFER, |rest|)]
  {}

  lemma TakePast<T>(a: seq<T>, b: seq<T>, n: nat)
    requires |a| <= n <= |a| + |b|
    ensures (a + b)[..n] == a + b[..n - |a|]
  {}

  lemma TailEnds<T>(before: seq<byte>, tail: seq<byte>, decode: Decoder<T>)
    requires Separators(tail)
    ensures ReadRecord(before + tail, |before|, decode).0 == EndOfFile
  {}

  lemma {:induction false} PassOverLayout<T>(before: seq<byte>, ps: seq<Piece>, tail: seq<byte>, decode: Decoder<T>)
    requires (forall p :: p in ps ==> Framed(p, decode)) && Separators(tail)
    ensures Pass(before + Layout(ps) + tail, |before|, decode)
         == PassResult(GoodItems(ps, decode), BadCount(ps, decode), false)
    decreases |ps|
  {
    if ps == [] {
      assert before + [] + tail == before + tail;
      TailEnds(before, tail, decode);
    } else {
      var front, after := before + PieceBytes(ps[0]), Layout(ps[1..]) + tail;
      Shift(before, PieceBytes(ps[0]), Layout(ps[1..]), tail);
      RecordFound(before, ps[0], after, decode);
      PassOverLayout(front, ps[1..], tail, decode);
    }
  }

  lemma Shift<T>(a: seq<T>, b: seq<T>, c: seq<T>, d: seq<T>)
    ensures a + (b + c) + d == a + b + (c + d) == a + b + c + d
  {}

  function Repeat<T>(s: seq<T>, n: nat): (r: seq<T>)
    ensures |r| == n * |s|
  {
    if n == 0 then [] else s + Repeat(s, n - 1)
  }

  lemma ProblematicIff(good: nat, bad: nat)
    ensures Problematic(good, bad) <==> good < bad
  {
    if good + bad > 0 { DivLt(good as real, 0.5, (good + bad) as real); }
  }

  // What so many passes send, in terms of one.
  function Repeated<T>(good: seq<Item<T>>, bad: nat, limit: int, passes: nat): (seq<Item<T>>, Ending) {
    if limit == 1 then (good, Closed)
    else if |good| < bad then (good, Panicked)
    else if Due(limit, passes) then (Repeat(good, limit), Closed)
    else (Repeat(good, passes), Running)
  }

  lemma {:induction false} FeedRepeats<T>(whole: PassResult<T>, limit: int, passes: nat, iterations: nat)
    requires !whole.panicked && iterations < passes && !Due(limit, iterations)
    ensures Feed(whole, whole, limit, passes, iterations, iterations * |whole.items|, iterations * whole.bad)
         == if limit == iterations + 1 then (whole.items, Closed)
            else if |whole.items| < whole.bad then (whole.items, Panicked)
            else if Due(limit, passes) then (Repeat(whole.items, limit - iterations), Closed)
            else (Repeat(whole.items, passes - iterations), Running)
    decreases passes - iterations
  {
    var n, g, b := iterations + 1, |whole.items|, whole.bad;
    Next(iterations, g);
    Next(iterations, b);
    RepeatOnce(whole.items);
    if limit != n {
      ProblematicIff(n * g, n * b);
      SameSign(n, g, b);
      if g >= b && n < passes {
        FeedRepeats(whole, limit, passes, n);
        if limit == n + 1 { assert limit - iterations == 2; }
      }
    }
  }

  lemma FeedWhole<T>(whole: PassResult<T>, limit: int, passes: nat)
    requires !whole.panicked && passes > 0
    ensures Feed(whole, whole, limit, passes, 0, 0, 0) == Repeated(whole.items, whole.bad, limit, passes)
  {
    FeedRepeats(whole, limit, passes, 0);
    RepeatOnce(whole.items);
  }

  lemma RepeatOnce<T>(s: seq<T>)
    ensures Repeat(s, 1) == s
  {
    assert s + Repeat(s, 0) == s;
  }

  lemma Next(i: nat, x: nat)
    ensures i * x + x == (i + 1) * x
  {}

  lemma SameSign(n: nat, g: nat, b: nat)
    requires n > 0
    ensures n * g < n * b <==> g < b
  {}

  // For every file of framed records, with any iteration limit or none, and however many passes are
  // looked at: the good records are sent in their order, once a pass, until the limit closes the
  // channel, if and only if there is just one iteration or at least as many good records as bad ones.
  // Otherwise the reader panics after its first pass.
  lemma InputRepeatsTheGood<T>(ps: seq<Piece>, tail: seq<byte>, limit: int, passes: nat, decode: Decoder<T>)
    requires (forall p :: p in ps ==> Framed(p, decode)) && Separators(tail) && passes > 0
    ensures FeedFile(Layout(ps) + tail, limit, passes, decode)
         == Repeated(GoodItems(ps, decode), BadCount(ps, decode), limit, passes)
  {
    assert [] + Layout(ps) == Layout(ps);
    PassOverLayout([], ps, tail, decode);
    FeedWhole(Pass(Layout(ps) + tail, 0, decode), limit, passes);
  }

  // ---------------------------------------------------------------- the generator

  // The metadata text of a record and its payload.
  datatype Generated = Generated(json: seq<byte>, payload: seq<byte>)

  const NEWLINE: seq<byte> := [CR, LF]

  function FileText(gs: seq<Generated>): seq<byte> {
    if gs == [] then [] else gs[0].json + NEWLINE + gs[0].payload + NEWLINE + FileText(gs[1..])
  }

  method WritePayloads(gs: seq<Generated>) returns (file: seq<byte>)
    ensures file == FileText(gs)
  {
    file := [];
    assert [] + FileText(gs) == FileText(gs);
    for i := 0 to |gs|
      invariant file + FileText(gs[i..]) == FileText(gs)
    {
      assert gs[i..][0] == gs[i] && gs[i..][1..] == gs[i + 1..];
      FourWrites(file, gs[i].json, gs[i].payload, FileText(gs[i + 1..]));
      file := file + gs[i].json;
      file := file + NEWLINE;
      file := file + gs[i].payload;
      file := file + NEWLINE;
    }
    assert file + [] == file;
  }

  lemma FourWrites(file: seq<byte>, json: seq<byte>, payload: seq<byte>, rest: seq<byte>)
    ensures file + (json + NEWLINE + payload + NEWLINE + rest) == file + json + NEWLINE + payload + NEWLINE + rest
  {}

  // Each record with the separators that the one before left.
  function Pieces(sep: seq<byte>, gs: seq<Generated>): seq<Piece>
    decreases |gs|
  {
    if gs == [] then [] else [Piece(sep, gs[0].json + [CR], gs[0].payload)] + Pieces(NEWLINE, gs[1..])
  }

  lemma {:induction false} FileIsLayout(sep: seq<byte>, gs: seq<Generated>)
    ensures sep + FileText(gs) == Layout(Pieces(sep, gs)) + if gs == [] then sep else NEWLINE
    decreases |gs|
  {
    if gs == [] {
      assert sep + [] == [] + sep;
    } else {
      var g, p := gs[0], Pieces(sep, gs)[0];
      FileIsLayout(NEWLINE, gs[1..]);
      assert Pieces(sep, gs)[1..] == Pieces(NEWLINE, gs[1..]);
      OnePiece(sep, g, FileText(gs[1..]));
      Reassociate(PieceBytes(p), Layout(Pieces(NEWLINE, gs[1..])), NEWLINE);
    }
  }

  lemma OnePiece(sep: seq<byte>, g: Generated, rest: seq<byte>)
    ensures sep + (g.json + NEWLINE + g.payload + NEWLINE + rest)
         == PieceBytes(Piece(sep, g.json + [CR], g.payload)) + (NEWLINE + rest)
  {}

  // The metadata decode, to the length of the payload, and the line fits the buffer.
  ghost predicate Decodes<T>(g: Generated, decode: Decoder<T>) {
    g.json != [] && !IsSep(g.json[0]) && LF !in g.json && |g.json| + 4 <= BUFFER
    && decode(g.json + [CR]).Good? && decode(g.json + [CR]).plen == |g.payload|
  }

  function ItemsOf<T>(gs: seq<Generated>, decode: Decoder<T>): seq<Item<T>>
    requires forall g :: g in gs ==> Decodes(g, decode)
  {
    if gs == [] then []
    else
      assert Decodes(gs[0], decode);
      [Item(decode(gs[0].json + [CR]).meta, gs[0].payload)] + ItemsOf(gs[1..], decode)
  }

  lemma {:induction false} GeneratedPieces<T>(sep: seq<byte>, gs: seq<Generated>, decode: Decoder<T>)
    requires (forall g :: g in gs ==> Decodes(g, decode)) && Separators(sep) && |sep| <= 2
    ensures forall p :: p in Pieces(sep, gs) ==> Framed(p, decode)
    ensures GoodItems(Pieces(sep, gs), decode) == ItemsOf(gs, decode)
    ensures BadCount(Pieces(sep, gs), decode) == 0
    decreases |gs|
  {
    if gs != [] {
      assert Decodes(gs[0], decode);
      GeneratedPieces(NEWLINE, gs[1..], decode);
      assert Pieces(sep, gs)[1..] == Pieces(NEWLINE, gs[1..]);
      assert Framed(Pieces(sep, gs)[0], decode);
    }
  }

  // What the generator writes, whatever the bytes of the payloads, the load generator reads back:
  // every record, in order, in every iteration.
  lemma GeneratedFileIsRead<T>(gs: seq<Generated>, limit: int, passes: nat, decode: Decoder<T>)
    requires (forall g :: g in gs ==> Decodes(g, decode)) && passes > 0
    ensures FeedFile(FileText(gs), limit, passes, decode)
         == if Due(limit, passes) then (Repeat(ItemsOf(gs, decode), limit), Closed)
            else (Repeat(ItemsOf(gs, decode), passes), Running)
  {
    GeneratedPieces([], gs, decode);
    FileIsLayout([], gs);
    assert [] + FileText(gs) == FileText(gs);
    InputRepeatsTheGood(Pieces([], gs), if gs == [] then [] else NEWLINE, limit, passes, decode);
    RepeatOnce(ItemsOf(gs, decode));
  }
}
