/** The recording of what a connection receives, up to a limit. */
module Recording {
  import opened Bytes

  // What one read has given, and the limit in force at that moment.
  datatype Piece = Piece(limit: int, bytes: seq<byte>)

  function Stream(ps: seq<Piece>): seq<byte> {
    if ps == [] then [] else Stream(ps[..|ps| - 1]) + ps[|ps| - 1].bytes
  }

  // No limit, or one that so many bytes are within.
  predicate Room(limit: int, n: nat) { limit <= 0 || n <= limit }

  const MEBIBYTE: nat := 0x10_0000

  // The size of the buffer that one read fills.
  const BUFFER: nat := 4096

  // Everything is recorded for a request whose response is searched or checked.
  function LimitOf(searched: bool): nat { if searched then 0 else MEBIBYTE }

  class BufferedConn {
    var readRecordLimit: int
    var readRecorded: seq<byte>
    var readLen: nat
    var firstRead: bool          // whether the time of the first read is known
    ghost var pieces: seq<Piece> // received since the last reset

    ghost predicate Valid()
      reads this
    {
      readLen == |Stream(pieces)| && readRecorded == Recorded(pieces) && (firstRead <==> pieces != [])
    }

    constructor ()
      ensures Valid() && readRecordLimit == -1 && pieces == []
    {
      readRecordLimit, readRecorded, readLen, firstRead, pieces := -1, [], 0, false, [];
    }

    // One turn of the reading loop.
    method Receive(buf: seq<byte>)
      requires Valid()
      modifies this
      ensures Valid() && readRecordLimit == old(readRecordLimit)
      ensures pieces == old(pieces) + [Piece(readRecordLimit, buf)]
    {
      if !firstRead { firstRead := true; }
      readLen := readLen + |buf|;
      ghost var before := pieces;
      pieces := pieces + [Piece(readRecordLimit, buf)];
      assert pieces[..|before|] == before;
      if (readRecordLimit <= 0 || readLen <= readRecordLimit) && |buf| > 0 {
        readRecorded := readRecorded + buf;
      } else {
        assert buf == [] ==> readRecorded + buf == readRecorded;
      }
    }

    // The limit stays as it is.
    method Reset()
      modifies this`readLen, this`readRecorded, this`firstRead, this`pieces
      ensures Valid() && pieces == []
    {
      readLen, readRecorded, firstRead, pieces := 0, [], false, [];
    }
  }

  method LimitFor(conn: BufferedConn, searched: bool)
    requires conn.Valid()
    modifies conn`readRecordLimit
    ensures conn.Valid() && conn.readRecordLimit == LimitOf(searched)
  {
    if searched { conn.readRecordLimit := 0; } else { conn.readRecordLimit := 1024 * 1024; }
  }

  // ---------------------------------------------------------------- what is recorded of some pieces

  // What the loop records, piece by piece.
  function Recorded(ps: seq<Piece>): seq<byte> {
    if ps == [] then []
    else
      var front, p := Recorded(ps[..|ps| - 1]), ps[|ps| - 1];
      if Room(p.limit, |Stream(ps)|) then front + p.bytes else front
  }

  // A piece that goes over its limit.
  predicate Over(ps: seq<Piece>, j: nat)
    requires j < |ps|
  {
    !Room(ps[j].limit, |Stream(ps[..j + 1])|)
  }

  // How many pieces there are before the first one that goes over its limit.
  function Within(ps: seq<Piece>): (k: nat)
    ensures k <= |ps|
  {
    if ps == [] then 0
    else
      var k := Within(ps[..|ps| - 1]);
      if k == |ps| - 1 && Room(ps[k].limit, |Stream(ps)|) then k + 1 else k
  }

  // The recording is the stream up to the first piece that goes over its limit.
  ghost predicate FrontPart(ps: seq<Piece>) { Recorded(ps) == Stream(ps[..Within(ps)]) }

  // Nothing that comes after it is within its own limit, unless it is empty.
  ghost predicate NoneLater(ps: seq<Piece>) {
    forall j :: Within(ps) < j < |ps| ==> Over(ps, j) || ps[j].bytes == []
  }

  lemma FrontOfFront(ps: seq<Piece>, k: nat)
    requires ps != [] && k <= |ps| - 1
    ensures ps[..|ps| - 1][..k] == ps[..k]
  {}

  lemma StreamNext(ps: seq<Piece>, k: nat)
    requires k < |ps|
    ensures Stream(ps[..k + 1]) == Stream(ps[..k]) + ps[k].bytes
  {
    assert ps[..k + 1][..k] == ps[..k];
  }

  lemma {:induction false} StreamGrows(ps: seq<Piece>, j: nat, k: nat)
    requires j <= k <= |ps|
    ensures Stream(ps[..j]) <= Stream(ps[..k])
    decreases k
  {
    if j < k {
      FrontOfFront(ps[..k], k - 1);
      assert ps[..k][..k - 1] == ps[..k - 1];
      StreamGrows(ps, j, k - 1);
    }
  }

  lemma StaysOver(ps: seq<Piece>, j: nat, k: nat)
    requires j < k < |ps| && Over(ps, j) && ps[j].limit == ps[k].limit
    ensures Over(ps, k)
  {
    StreamGrows(ps, j + 1, k + 1);
  }

  lemma {:induction false} FirstOver(ps: seq<Piece>)
    ensures var k := Within(ps); (k < |ps| ==> Over(ps, k)) && forall i :: 0 <= i < k ==> !Over(ps, i)
  {
    if ps != [] {
      var front := ps[..|ps| - 1];
      FirstOver(front);
      assert ps[..|ps|] == ps;
      forall i | 0 <= i < |front| ensures Over(ps, i) <==> Over(front, i) { FrontOfFront(ps, i + 1); }
    }
  }

  lemma NoneLaterSnoc(ps: seq<Piece>)
    requires ps != []
    ensures var front, n := ps[..|ps| - 1], |ps| - 1;
            NoneLater(ps) <==> NoneLater(front) && (Within(front) < n ==> Over(ps, n) || ps[n].bytes == [])
  {
    var front := ps[..|ps| - 1];
    forall i | 0 <= i < |front| ensures Over(ps, i) <==> Over(front, i) { FrontOfFront(ps, i + 1); }
  }

  // What has been recorded is the front part, and more of it if anything came later.
  lemma {:induction false} RecordedFrontIff(ps: seq<Piece>)
    ensures Stream(ps[..Within(ps)]) <= Recorded(ps)
    ensures FrontPart(ps) <==> NoneLater(ps)
  {
    assert ps[..|ps|] == ps;
    if ps != [] {
      var front, n := ps[..|ps| - 1], |ps| - 1;
      RecordedFrontIff(front);
      NoneLaterSnoc(ps);
      FrontOfFront(ps, Within(front));
    }
  }

  // ---------------------------------------------------------------- limits as they are set

  ghost predicate UnderLimits(ps: seq<Piece>, limits: seq<nat>) {
    |ps| == |limits| && forall i :: 0 <= i < |ps| ==> ps[i].limit == limits[i]
  }

  // A piece recorded without a limit after one with a limit.
  predicate RaisedAt(limits: seq<nat>, i: nat, j: nat) {
    i < j < |limits| && limits[i] == MEBIBYTE && limits[j] == 0
  }

  // Over the two limits that are set for requests: whatever is received, its recording is a front part
  // if and only if the limit is not lifted after it has been in force.
  lemma FrontPartIff(limits: seq<nat>)
    requires forall l :: l in limits ==> l == LimitOf(true) || l == LimitOf(false)
    ensures (forall ps :: UnderLimits(ps, limits) ==> FrontPart(ps)) <==> forall i, j :: !RaisedAt(limits, i, j)
  {
    if i, j :| RaisedAt(limits, i, j) {
      var ps := Hole(limits, i, j);
      LostThenKept(ps, i, j);
      assert UnderLimits(ps, limits) && !FrontPart(ps);
    } else {
      forall ps | UnderLimits(ps, limits) ensures FrontPart(ps) { NotRaised(ps, limits); }
    }
  }

  lemma NotRaised(ps: seq<Piece>, limits: seq<nat>)
    requires UnderLimits(ps, limits) && forall i, j :: !RaisedAt(limits, i, j)
    requires forall l :: l in limits ==> l == 0 || l == MEBIBYTE
    ensures FrontPart(ps)
  {
    var k := Within(ps);
    FirstOver(ps);
    forall j | k < j < |ps| ensures Over(ps, j) {
      assert limits[k] in limits && limits[j] in limits && !RaisedAt(limits, k, j);
      StaysOver(ps, k, j);
    }
    RecordedFrontIff(ps);
  }

  // More than a mebibyte at i, and one byte at j.
  function Hole(limits: seq<nat>, i: nat, j: nat): (ps: seq<Piece>)
    ensures UnderLimits(ps, limits)
  {
    seq(|limits|, l requires 0 <= l < |limits| =>
      Piece(limits[l], if l == i then seq(MEBIBYTE + 1, _ => 0) else if l == j then [0] else []))
  }

  lemma {:induction false} NothingBefore(ps: seq<Piece>, i: nat)
    requires i <= |ps| && forall l :: 0 <= l < i ==> ps[l].bytes == []
    ensures Stream(ps[..i]) == []
  {
    if i > 0 {
      NothingBefore(ps, i - 1);
      StreamNext(ps, i - 1);
    }
  }

  lemma LostThenKept(ps: seq<Piece>, i: nat, j: nat)
    requires i < j < |ps| && forall l :: 0 <= l < i ==> ps[l].bytes == []
    requires ps[i].limit == MEBIBYTE < |ps[i].bytes| && ps[j].limit == 0 && ps[j].bytes != []
    ensures !FrontPart(ps)
  {
    NothingBefore(ps, i);
    StreamNext(ps, i);
    FirstOver(ps);
    RecordedFrontIff(ps);
    assert Over(ps, i) && !Over(ps, j);
  }

  // ---------------------------------------------------------------- every run of a connection

  // The reading loop offers each chunk and waits until somebody takes it. A worker that has got the
  // connection sets the limit, and then takes chunks, until the connection is got and reset again.
  datatype Conn = Conn(limit: int, pieces: seq<Piece>, offered: bool, limited: bool)

  datatype Event = Receive(bytes: seq<byte>) | Reset | SetLimit(searched: bool) | Take

  // One step; an event that is not enabled changes nothing.
  function Do(c: Conn, e: Event): Conn {
    match e
    case Receive(bytes) =>
      if c.offered || |bytes| > BUFFER then c
      else c.(pieces := c.pieces + [Piece(c.limit, bytes)], offered := true)
    case Reset => c.(pieces := [], limited := false)
    case SetLimit(searched) => if c.limited then c else c.(limit := LimitOf(searched), limited := true)
    case Take => if c.limited then c.(offered := false) else c
  }

  function Run(c: Conn, es: seq<Event>): Conn
    decreases |es|
  {
    if es == [] then c else Run(Do(c, es[0]), es[1..])
  }

  const OPENED: Conn := Conn(-1, [], false, false)

  // Only the first piece can have come under an earlier limit.
  ghost predicate OneEarly(c: Conn) {
    (forall i :: 0 <= i < |c.pieces| ==> |c.pieces[i].bytes| <= BUFFER && Known(c.pieces[i].limit))
    && (forall i :: 0 < i < |c.pieces| ==> c.pieces[i].limit == c.limit)
    && (!c.limited ==> |c.pieces| <= 1 && (c.pieces != [] ==> c.offered && c.pieces[0].limit == c.limit))
    && Known(c.limit) && (c.limited ==> c.limit >= 0)
  }

  predicate Known(limit: int) { limit == -1 || limit == 0 || limit == MEBIBYTE }

  lemma {:induction false} OneEarlyInRun(c: Conn, es: seq<Event>)
    requires OneEarly(c)
    ensures OneEarly(Run(c, es))
    decreases |es|
  {
    if es != [] { OneEarlyInRun(Do(c, es[0]), es[1..]); }
  }

  lemma FirstFits(ps: seq<Piece>)
    requires ps != [] && |ps[0].bytes| <= BUFFER && Known(ps[0].limit)
    ensures !Over(ps, 0)
  {
    StreamNext(ps, 0);
  }

  lemma OverFromThen(ps: seq<Piece>, limit: int)
    requires (forall i :: 0 < i < |ps| ==> ps[i].limit == limit)
    requires ps != [] ==> |ps[0].bytes| <= BUFFER && Known(ps[0].limit)
    ensures FrontPart(ps) && (limit <= 0 ==> Within(ps) == |ps|)
    ensures Within(ps) < |ps| ==> Within(ps) > 0 && |Stream(ps[..Within(ps) + 1])| > limit
  {
    var k := Within(ps);
    FirstOver(ps);
    if ps != [] { FirstFits(ps); }
    forall j | k < j < |ps| ensures Over(ps, j) { StaysOver(ps, k, j); }
    RecordedFrontIff(ps);
  }

  // In every run, at any moment, the recording is a front part of what was received since the reset:
  // all of it for a request whose response is searched, and otherwise all up to the first chunk that
  // goes over the mebibyte. What has come under the limit of the request before is one chunk at most,
  // and too short to be lost.
  lemma RecordingIsFront(es: seq<Event>)
    ensures var c := Run(OPENED, es);
            var k := Within(c.pieces);
            Recorded(c.pieces) == Stream(c.pieces[..k])
            && (c.limit <= 0 ==> k == |c.pieces|)
            && (k < |c.pieces| ==> c.limit == MEBIBYTE < |Stream(c.pieces[..k + 1])|)
  {
    var c := Run(OPENED, es);
    OneEarlyInRun(OPENED, es);
    OverFromThen(c.pieces, c.limit);
  }

  // ---------------------------------------------------------------- which limit a response gets

  predicate NoReset(es: seq<Event>) { forall e :: e in es ==> !e.Reset? }

  lemma {:induction false} LimitStays(c: Conn, es: seq<Event>)
    requires c.limited && NoReset(es)
    ensures Run(c, es).limited && Run(c, es).limit == c.limit
    decreases |es|
  {
    if es != [] {
      assert es[0] in es;
      LimitStays(Do(c, es[0]), es[1..]);
    }
  }

  lemma {:induction false} RunAppend(c: Conn, a: seq<Event>, b: seq<Event>)
    ensures Run(c, a + b) == Run(Run(c, a), b)
    decreases |a|
  {
    if a == [] {
      assert a + b == b;
    } else {
      assert (a + b)[0] == a[0] && (a + b)[1..] == a[1..] + b;
      RunAppend(Do(c, a[0]), a[1..], b);
    }
  }

  // The events of a run: some before the limit is set, and then none that gets the connection again.
  function Limited(before: seq<Event>, searched: bool, after: seq<Event>): seq<Event> {
    before + ([SetLimit(searched)] + after)
  }

  lemma LimitInForce(before: seq<Event>, searched: bool, after: seq<Event>)
    requires !Run(OPENED, before).limited && NoReset(after)
    ensures Run(OPENED, Limited(before, searched, after)).limit == LimitOf(searched)
  {
    var c, es := Run(OPENED, before), [SetLimit(searched)] + after;
    RunAppend(OPENED, before, es);
    assert es[0] == SetLimit(searched) && es[1..] == after;
    LimitStays(Do(c, es[0]), after);
  }

  // When the limit is set for a response that is searched, all of it is recorded, however much that is.
  lemma SearchedIsWhole(before: seq<Event>, after: seq<Event>)
    requires !Run(OPENED, before).limited && NoReset(after)
    ensures var c := Run(OPENED, Limited(before, true, after)); Recorded(c.pieces) == Stream(c.pieces)
  {
    var c := Run(OPENED, Limited(before, true, after));
    LimitInForce(before, true, after);
    RecordingIsFront(Limited(before, true, after));
    assert c.pieces[..|c.pieces|] == c.pieces;
  }

  // When it is set for one that is not, a mebibyte at most is recorded, and all of it that does not go over it.
  lemma OthersUpToMebibyte(before: seq<Event>, after: seq<Event>)
    requires !Run(OPENED, before).limited && NoReset(after)
    ensures var c := Run(OPENED, Limited(before, false, after));
            Recorded(c.pieces) <= Stream(c.pieces) && |Recorded(c.pieces)| <= 1_048_576
            && (|Stream(c.pieces)| <= 1_048_576 ==> Recorded(c.pieces) == Stream(c.pieces))
  {
    var es := Limited(before, false, after);
    var c := Run(OPENED, es);
    LimitInForce(before, false, after);
    RecordingIsFront(es);
    OneEarlyInRun(OPENED, es);
    FrontIsShort(c);
    assert c.pieces[..|c.pieces|] == c.pieces;
  }

  lemma FrontIsShort(c: Conn)
    requires OneEarly(c) && c.limit == MEBIBYTE
    ensures var ps, k := c.pieces, Within(c.pieces);
            Stream(ps[..k]) <= Stream(ps) && |Stream(ps[..k])| <= MEBIBYTE
            && (k < |ps| ==> |Stream(ps[..k + 1])| <= |Stream(ps)|)
  {
    var ps, k := c.pieces, Within(c.pieces);
    assert ps[..|ps|] == ps;
    StreamGrows(ps, k, |ps|);
    if k < |ps| { StreamGrows(ps, k + 1, |ps|); }
    FirstOver(ps);
    if k > 1 { assert !Over(ps, k - 1); }
    if k == 1 { StreamNext(ps, 0); }
  }
}
