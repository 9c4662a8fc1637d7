/** The Taurus side of the results: records are taken from the binary file as it grows, and their
    string numbers looked up in the strings file. */
module KpiReader {
  import opened Prelude
  import opened Sequences
  import opened TextLines
  import opened Bytes
  import opened ResultRecord

  datatype Row = Row(
    timestamp: nat, name: string, concurrency: nat, elapsed: nat, connectTime: nat, firstByteTime: nat,
    status: nat, error: Option<string>, byteCount: nat)

  const NOT_FOUND := "INDEX_NOT_FOUND"

  // The reader's table of strings for a given content of the strings file.
  function StringsOf(text: string): seq<string> { [""] + ReaderLines(text) }

  function LookUp(strs: seq<string>, idx: nat): string {
    if idx < |strs| then strs[idx] else NOT_FOUND
  }

  // The phrase of an HTTP status, where the library knows one; asking for an unknown one raises.
  type Phrases = nat -> Option<string>

  // One row, given its strings; None when the phrase of an unknown status is asked for.
  function RowWith(r: Record, name: string, given: Option<string>, phrases: Phrases): Option<Row> {
    var error :=
      if r.status >= 400 && (given == None || given == Some("")) then phrases(r.status) else given;
    if r.status >= 400 && error == None then None
    else
      Some(Row(r.startTS, name, r.concurrency, r.elapsed, r.connectTime, r.firstByteTime, r.status, error,
               r.sentBytes + r.respBytes))
  }

  function RowOf(r: Record, strs: seq<string>, phrases: Phrases): Option<Row> {
    RowWith(r, LookUp(strs, r.labelIdx),
            if r.errorIdx > 0 then Some(LookUp(strs, r.errorIdx)) else None, phrases)
  }

  function ChunkAt(all: seq<byte>, offset: nat): Chunk
    requires offset + CHUNK_LEN <= |all|
  {
    all[offset..offset + CHUNK_LEN]
  }

  // What a pass over the available bytes makes of them: rows, whether it raised, and the bytes left.
  datatype Consumed = Consumed(rows: seq<Row>, raised: bool, rest: seq<byte>)

  // What becomes of one chunk, for given strings.
  type Rower = Chunk -> Option<Row>

  function RowerFor(strs: seq<string>, phrases: Phrases): Rower {
    (c: Chunk) => RowOf(Decode(c), strs, phrases)
  }

  function Consume(all: seq<byte>, rower: Rower): Consumed
    decreases |all|, 1
  {
    if |all| < CHUNK_LEN then Consumed([], false, all)
    else ConsumeFrom(rower(all[..CHUNK_LEN]), all, rower)
  }

  function ConsumeFrom(row: Option<Row>, all: seq<byte>, rower: Rower): Consumed
    requires |all| >= CHUNK_LEN
    decreases |all|, 0
  {
    if row.None? then Consumed([], true, all)
    else Prepend([row.value], Consume(all[CHUNK_LEN..], rower))
  }

  function Prepend(rows: seq<Row>, c: Consumed): Consumed { c.(rows := rows + c.rows) }

  // ---------------------------------------------------------------- portions of the strings file

  // The size of a portion asked for, in characters, and how often it is asked for.
  const PORTION: nat := 0x10_0000
  const TRIES: nat := 10

  // One portion of what is unread: complete lines, up to the one that fills it.
  function Portion(unread: string, budget: int): string
    decreases |unread|, 0
  {
    var n := LineEnd(unread);
    if n == |unread| then "" else PortionFrom(unread[..n] + "\n", unread[n + 1..], budget)
  }

  function PortionFrom(line: string, rest: string, budget: int): string
    decreases |rest|, 1
  {
    if |line| >= budget then line else line + Portion(rest, budget - |line|)
  }

  // Complete lines at the front of a text, enough to fill the budget or all there are.
  ghost predicate IsPortion(p: string, unread: string, budget: int) {
    p <= unread && Terminated(p) && (|p| >= budget || Lines(unread[|p|..]) == [])
  }

  lemma PortionGrows(front: string, more: string, rest: string, budget: int)
    requires Terminated(front) && IsPortion(more, rest, budget - |front|)
    ensures IsPortion(front + more, front + rest, budget)
  {
    LinesAppend(front, more);
    PrefixUnder(front, more, rest);
  }

  lemma {:induction false} PortionFacts(unread: string, budget: int)
    ensures IsPortion(Portion(unread, budget), unread, budget)
    decreases |unread|, 0
  {
    var n := LineEnd(unread);
    if n == |unread| {
      NoLine(unread, budget);
    } else {
      LineAndRest(unread, n);
      OneLine(unread[..n]);
      PortionFromFacts(unread[..n] + "\n", unread[n + 1..], budget);
    }
  }

  lemma {:induction false} PortionFromFacts(line: string, rest: string, budget: int)
    requires Terminated(line)
    ensures IsPortion(PortionFrom(line, rest, budget), line + rest, budget)
    decreases |rest|, 1
  {
    if |line| >= budget {
      FilledByLine(line, rest, budget);
    } else {
      PortionFacts(rest, budget - |line|);
      PortionGrows(line, Portion(rest, budget - |line|), rest, budget);
    }
  }

  lemma NoLine(unread: string, budget: int)
    requires Lines(unread) == []
    ensures IsPortion("", unread, budget)
  {
    assert unread[0..] == unread;
  }

  lemma FilledByLine(front: string, rest: string, budget: int)
    requires Terminated(front) && |front| >= budget
    ensures IsPortion(front, front + rest, budget)
  {}

  lemma LineAndRest(text: string, n: nat)
    requires n < |text| && text[n] == '\n'
    ensures text[..n] + "\n" + text[n + 1..] == text
  {}

  lemma SameFirstLine(q: string, text: string)
    requires Tail(q) == "" && q != "" && q <= text
    ensures var n := LineEnd(q); n < |q| && n == LineEnd(text) && q[..n] == text[..n]
  {
    var n := LineEnd(q);
    assert text[..n] == q[..n];
    LineEndAt(text, n);
  }

  // Complete lines that are not empty have the first line at their front.
  lemma FrontHasLine(q: string, text: string) returns (q': string)
    requires Terminated(q) && q != "" && q <= text
    ensures LineEnd(text) < |text| && Terminated(q') && q == text[..LineEnd(text)] + "\n" + q'
  {
    var n := LineEnd(q);
    q' := q[n + 1..];
    SameFirstLine(q, text);
    LineAndRest(q, n);
    FirstLine(q[..n], q');
  }

  // A portion ends with the line that fills it: complete lines that are less of it do not fill it yet.
  lemma {:induction false} PortionEndsWhenFilled(unread: string, budget: int, q: string)
    requires budget > 0 && Terminated(q) && q < Portion(unread, budget)
    ensures |q| < budget
    decreases |unread|, 0
  {
    if q != "" {
      PortionFacts(unread, budget);
      var q' := FrontHasLine(q, unread);
      var n := LineEnd(unread);
      LineGoesOn(unread[..n] + "\n", unread[n + 1..], budget, q');
    }
  }

  lemma {:induction false} LineGoesOn(line: string, rest: string, budget: int, q: string)
    requires budget > 0 && Terminated(q) && line + q < PortionFrom(line, rest, budget)
    ensures |line + q| < budget
    decreases |rest|, 1
  {
    if |line| < budget {
      FrontUnder(line, q, Portion(rest, budget - |line|));
      PortionEndsWhenFilled(rest, budget - |line|, q);
    }
  }

  lemma FrontUnder(line: string, q: string, more: string)
    requires line + q < line + more
    ensures q < more
  {
    assert (line + q)[|line|..] == q && (line + more)[|line|..] == more;
    assert (line + more)[..|line + q|] == line + q;
    assert more[..|q|] == (line + more)[|line|..|line| + |q|];
  }

  // So it is the one front of the unread text that has complete lines only, that the last of them fills, or
  // that has all of them.
  lemma PortionIsTheOne(unread: string, budget: int, p: string)
    requires budget > 0
    ensures p == Portion(unread, budget)
       <==> IsPortion(p, unread, budget) && forall q :: Terminated(q) && q < p ==> |q| < budget
  {
    var r := Portion(unread, budget);
    PortionFacts(unread, budget);
    forall q | Terminated(q) && q < r ensures |q| < budget { PortionEndsWhenFilled(unread, budget, q); }
    if IsPortion(p, unread, budget) && (forall q :: Terminated(q) && q < p ==> |q| < budget) {
      if p < r {
        NoLinesBetween(p, r, unread);
      } else if r < p {
        NoLinesBetween(r, p, unread);
      } else {
        assert p == r;
      }
    }
  }

  // Complete lines that go further leave complete lines behind.
  lemma NoLinesBetween(p: string, r: string, unread: string)
    requires p < r <= unread && Terminated(p) && Terminated(r)
    ensures Lines(unread[|p|..]) != []
  {
    var more := r[|p|..];
    assert r == p + more;
    LinesAppend(p, more);
    assert unread[|p|..|r|] == more && more <= unread[|p|..] && Terminated(more);
    var _ := FrontHasLine(more, unread[|p|..]);
  }

  // The position in the strings file after one more portion.
  function NextPos(text: string, pos: nat): (r: nat)
    requires pos <= |text|
    ensures pos <= r <= |text|
  {
    PortionFacts(text[pos..], PORTION);
    pos + |Portion(text[pos..], PORTION)|
  }

  // The strings file as a reader sees it: the strings it knows at a position, the position after one
  // more portion, and how many portions it asks for.
  datatype View = View(known: nat -> seq<string>, next: nat -> nat, tries: nat)

  function ViewOf(text: string, tries: nat): View {
    View((pos: nat) => if pos <= |text| then StringsOf(text[..pos]) else StringsOf(text),
         (pos: nat) => if pos <= |text| then NextPos(text, pos) else pos, tries)
  }

  // Look a number up from a position on, taking so many portions more at most: the string, and the
  // position after it.
  function Seek(v: View, pos: nat, idx: nat, tries: nat): (string, nat)
    decreases tries
  {
    if idx < |v.known(pos)| then (v.known(pos)[idx], pos)
    else if tries == 0 then (NOT_FOUND, pos)
    else Seek(v, v.next(pos), idx, tries - 1)
  }

  // The row of one record, and the position after its look-ups.
  function RowAt(r: Record, v: View, pos: nat, phrases: Phrases): (Option<Row>, nat) {
    var (error, pos1) := if r.errorIdx > 0 then Seek(v, pos, r.errorIdx, v.tries) else ("", pos);
    var (name, pos2) := Seek(v, pos1, r.labelIdx, v.tries);
    (RowWith(r, name, if r.errorIdx > 0 then Some(error) else None, phrases), pos2)
  }

  // What becomes of one chunk at a position.
  type RowerAt = (Chunk, nat) -> (Option<Row>, nat)

  function RowerIn(v: View, phrases: Phrases): RowerAt {
    (c: Chunk, pos: nat) => RowAt(Decode(c), v, pos, phrases)
  }

  // A pass over the available bytes, from a position in the strings file on, and the position after it.
  function ConsumeAt(all: seq<byte>, pos: nat, rower: RowerAt): (Consumed, nat)
    decreases |all|, 1
  {
    if |all| < CHUNK_LEN then (Consumed([], false, all), pos)
    else ConsumeAtFrom(rower(all[..CHUNK_LEN], pos), all, rower)
  }

  function ConsumeAtFrom(row: (Option<Row>, nat), all: seq<byte>, rower: RowerAt): (Consumed, nat)
    requires |all| >= CHUNK_LEN
    decreases |all|, 0
  {
    if row.0.None? then (Consumed([], true, all), row.1)
    else PrependAt([row.0.value], ConsumeAt(all[CHUNK_LEN..], row.1, rower))
  }

  function PrependAt(rows: seq<Row>, c: (Consumed, nat)): (Consumed, nat) { (Prepend(rows, c.0), c.1) }

  class KpiReader {
    var partialBuffer: seq<byte>
    var strMap: seq<string>
    var strPos: nat // how much of the strings file has been taken
    const maxTries: nat

    // What has been taken so far is a run of complete lines of the strings file.
    ghost predicate Valid(text: string)
      reads this
    {
      strPos <= |text| && Terminated(text[..strPos]) && strMap == StringsOf(text[..strPos])
    }

    constructor ()
      ensures partialBuffer == [] && strMap == [""] && strPos == 0 && maxTries == TRIES
    {
      partialBuffer, strMap, strPos, maxTries := [], [""], 0, TRIES;
    }

    // The next portion of lines, and the position after them.
    method GetLines(text: string) returns (lines: seq<string>, pos: nat)
      requires Valid(text)
      ensures pos == NextPos(text, strPos) && Terminated(text[..pos])
      ensures strMap + lines == StringsOf(text[..pos])
    {
      var portion := Portion(text[strPos..], PORTION);
      lines := ReaderLines(portion);
      pos := strPos + |portion|;
      PortionTaken(text, strPos);
    }

    // Look a number up, taking portion after portion of the strings file while it is not known, up to
    // ten times. The content of the file is taken as one view for the length of a call.
    method GetStrIndex(idx: nat, text: string) returns (s: string)
      requires Valid(text) && maxTries > 0
      modifies this`strMap, this`strPos
      ensures Valid(text)
      ensures (s, strPos) == Seek(ViewOf(text, maxTries), old(strPos), idx, maxTries)
    {
      ghost var path := [strPos];
      var tries := 0;
      while idx >= |strMap|
        invariant Valid(text) && |path| == tries + 1 && path[0] == old(strPos) && path[tries] == strPos
        invariant tries <= maxTries && (tries == maxTries ==> idx < |strMap|)
        invariant forall i :: 0 <= i < tries ==> Misses(text, path[i], idx, path[i + 1])
        decreases maxTries - tries
      {
        tries := tries + 1;
        var lines, pos := GetLines(text);
        assert Misses(text, strPos, idx, pos);
        strMap, strPos, path := strMap + lines, pos, path + [pos];
        if idx >= |strMap| && tries >= maxTries {
          PathFinds(text, path, idx, strMap, maxTries, maxTries);
          return NOT_FOUND;
        }
      }
      PathFinds(text, path, idx, strMap, maxTries, maxTries);
      return strMap[idx];
    }

    // One portion of the binary file, None while it is not there yet. When a phrase lookup raises,
    // the generator is abandoned before the buffer is updated.
    method Read(data: Option<seq<byte>>, text: string, phrases: Phrases) returns (rows: seq<Row>, raised: bool)
      requires Valid(text) && maxTries > 0
      modifies this
      ensures Valid(text)
      ensures data.Some? ==>
                var all := old(partialBuffer) + data.value;
                var (c, pos) := ConsumeAt(all, old(strPos), RowerIn(ViewOf(text, maxTries), phrases));
                rows == c.rows && raised == c.raised && strPos == pos
                && partialBuffer == if raised then old(partialBuffer) else c.rest
      ensures data.None? ==> rows == [] && !raised && partialBuffer == old(partialBuffer) && strPos == old(strPos)
    {
      rows, raised := [], false;
      if data.None? { return; }
      var all := partialBuffer + data.value;
      var offset;
      rows, raised, offset := TakeChunks(all, text, phrases, RowerIn(ViewOf(text, maxTries), phrases));
      if !raised { partialBuffer := all[offset..]; }
    }

    method TakeChunks(all: seq<byte>, text: string, phrases: Phrases, ghost rower: RowerAt)
      returns (rows: seq<Row>, raised: bool, offset: nat)
      requires Valid(text) && maxTries > 0 && rower == RowerIn(ViewOf(text, maxTries), phrases)
      modifies this`strMap, this`strPos
      ensures Valid(text) && offset <= |all|
      ensures ConsumeAt(all, old(strPos), rower) == (Consumed(rows, raised, all[offset..]), strPos)
    {
      rows, raised, offset := [], false, 0;
      ghost var whole := ConsumeAt(all, strPos, rower);
      assert all[0..] == all;
      PrependNothing(whole.0);
      while offset + CHUNK_LEN <= |all|
        invariant offset <= |all| && Valid(text)
        invariant PrependAt(rows, ConsumeAt(all[offset..], strPos, rower)) == whole
      {
        var c := ChunkAt(all, offset);
        ConsumeNext(all, offset, rows, strPos, rower, c);
        var row := ChunkToRow(c, text, phrases, rower);
        if row.None? { return rows, true, offset; }
        rows := rows + [row.value];
        offset := offset + CHUNK_LEN;
      }
      ConsumeLast(all[offset..], rows, strPos, rower);
    }

    method ChunkToRow(c: Chunk, text: string, phrases: Phrases, ghost rower: RowerAt) returns (row: Option<Row>)
      requires Valid(text) && maxTries > 0 && rower == RowerIn(ViewOf(text, maxTries), phrases)
      modifies this`strMap, this`strPos
      ensures Valid(text)
      ensures (row, strPos) == rower(c, old(strPos))
    {
      row := ToRow(Decode(c), text, phrases);
    }

    method ToRow(r: Record, text: string, phrases: Phrases) returns (row: Option<Row>)
      requires Valid(text) && maxTries > 0
      modifies this`strMap, this`strPos
      ensures Valid(text)
      ensures (row, strPos) == RowAt(r, ViewOf(text, maxTries), old(strPos), phrases)
    {
      var error := None;
      if r.errorIdx > 0 {
        var e := GetStrIndex(r.errorIdx, text);
        error := Some(e);
      }
      var name := GetStrIndex(r.labelIdx, text);
      if r.status >= 400 && (error == None || error == Some("")) {
        error := phrases(r.status);
        if error.None? { return None; }
      }
      row := Some(Row(r.startTS, name, r.concurrency, r.elapsed, r.connectTime, r.firstByteTime, r.status, error,
                      r.sentBytes + r.respBytes));
    }
  }

  lemma PortionTaken(text: string, pos: nat)
    requires pos <= |text| && Terminated(text[..pos])
    ensures var next := NextPos(text, pos);
            Terminated(text[..next])
            && StringsOf(text[..next]) == StringsOf(text[..pos]) + ReaderLines(Portion(text[pos..], PORTION))
  {
    var a, b := text[..pos], text[pos..];
    var p := Portion(b, PORTION);
    PortionFacts(b, PORTION);
    FrontOf(b, p);
    TwoCuts(text, pos, NextPos(text, pos));
    TerminatedAppend(a, p);
  }

  lemma TerminatedAppend(a: string, b: string)
    requires Terminated(a) && Terminated(b)
    ensures Terminated(a + b) && StringsOf(a + b) == StringsOf(a) + ReaderLines(b)
  {
    LinesAppend(a, b);
    StringsSplit(a, b);
  }

  lemma ConsumeNext(all: seq<byte>, offset: nat, rows: seq<Row>, pos: nat, rower: RowerAt, c: Chunk)
    requires offset + CHUNK_LEN <= |all| && c == ChunkAt(all, offset)
    ensures var (row, next) := rower(c, pos);
            PrependAt(rows, ConsumeAt(all[offset..], pos, rower))
              == if row.None? then (Consumed(rows, true, all[offset..]), next)
                 else PrependAt(rows + [row.value], ConsumeAt(all[offset + CHUNK_LEN..], next, rower))
  {
    var b := all[offset..];
    assert b[..CHUNK_LEN] == c && b[CHUNK_LEN..] == all[offset + CHUNK_LEN..];
    var (row, next) := rower(c, pos);
    if row.Some? {
      Reassociate(rows, [row.value], ConsumeAt(b[CHUNK_LEN..], next, rower).0.rows);
    } else {
      assert rows + [] == rows;
    }
  }

  lemma ConsumeLast(b: seq<byte>, rows: seq<Row>, pos: nat, rower: RowerAt)
    requires |b| < CHUNK_LEN
    ensures PrependAt(rows, ConsumeAt(b, pos, rower)) == (Consumed(rows, false, b), pos)
  {
    assert rows + [] == rows;
  }

  lemma PrependNothing(c: Consumed)
    ensures Prepend([], c) == c
  {}

  // ---------------------------------------------------------------- what ten portions reach

  // The position after so many portions.
  function Reach(v: View, pos: nat, portions: nat): nat
    decreases portions
  {
    if portions == 0 then pos else Reach(v, v.next(pos), portions - 1)
  }

  // Positions go on, and what is known at them grows, up to all there is.
  ghost predicate Growing(v: View, all: seq<string>) {
    (forall p: nat :: p <= v.next(p)) && (forall p: nat :: v.known(p) <= all)
    && forall p: nat, q: nat :: p <= q ==> v.known(p) <= v.known(q)
  }

  lemma ViewGrows(text: string, tries: nat)
    ensures Growing(ViewOf(text, tries), StringsOf(text))
  {
    var v := ViewOf(text, tries);
    forall p: nat ensures v.known(p) <= StringsOf(text) {
      if p <= |text| {
        StringsGrow(text, p, |text|);
        TakeAll(text);
      }
    }
    forall p: nat, q: nat | p <= q ensures v.known(p) <= v.known(q) {
      if q <= |text| { StringsGrow(text, p, q); }
    }
  }

  lemma StringsGrow(text: string, p: nat, q: nat)
    requires p <= q <= |text|
    ensures StringsOf(text[..p]) <= StringsOf(text[..q])
  {
    var a, b := text[..p], text[p..q];
    assert a + b == text[..q];
    LinesSplit(a, b);
    MapAppend(RStrip, Lines(a), Lines(Tail(a) + b));
  }

  // A number is not known at a position, and this is the next one.
  ghost predicate Misses(text: string, pos: nat, idx: nat, next: nat) {
    pos <= |text| && |StringsOf(text[..pos])| <= idx && next == NextPos(text, pos)
  }

  // Going from portion to portion, as long as the number is not known and there are tries left, finds
  // what is to be found.
  lemma {:induction false} PathSeeks(v: View, path: seq<nat>, idx: nat, tries: nat)
    requires 0 < |path| <= tries + 1
    requires forall i :: 0 <= i < |path| - 1 ==> |v.known(path[i])| <= idx && path[i + 1] == v.next(path[i])
    requires idx < |v.known(path[|path| - 1])| || |path| == tries + 1
    ensures Seek(v, path[0], idx, tries) == Seek(v, path[|path| - 1], idx, tries + 1 - |path|)
    decreases |path|
  {
    if |path| > 1 {
      var rest := path[1..];
      assert forall i :: 0 <= i < |rest| ==> rest[i] == path[i + 1];
      PathSeeks(v, rest, idx, tries - 1);
    }
  }

  lemma PathFinds(text: string, path: seq<nat>, idx: nat, known: seq<string>, tries: nat, n: nat)
    requires 0 < |path| <= tries + 1 && path[|path| - 1] <= |text|
    requires forall i :: 0 <= i < |path| - 1 ==> Misses(text, path[i], idx, path[i + 1])
    requires known == StringsOf(text[..path[|path| - 1]]) && (idx < |known| || |path| == tries + 1)
    ensures Seek(ViewOf(text, n), path[0], idx, tries)
         == (if idx < |known| then known[idx] else NOT_FOUND, path[|path| - 1])
  {
    var v := ViewOf(text, n);
    forall i | 0 <= i < |path| - 1 ensures |v.known(path[i])| <= idx && path[i + 1] == v.next(path[i]) {
      assert Misses(text, path[i], idx, path[i + 1]);
    }
    PathSeeks(v, path, idx, tries);
  }

  lemma {:induction false} ReachGoesOn(v: View, pos: nat, n: nat, all: seq<string>)
    requires Growing(v, all)
    ensures pos <= Reach(v, pos, n) <= Reach(v, v.next(pos), n)
    decreases n
  {
    if n > 0 { ReachGoesOn(v, v.next(pos), n - 1, all); }
  }

  // A number is found if and only if its line lies within the portions that are asked for, and then
  // it is that line.
  lemma {:induction false} SeekFindsIff(v: View, pos: nat, idx: nat, tries: nat, all: seq<string>)
    requires Growing(v, all)
    ensures Seek(v, pos, idx, tries).0 == LookUp(v.known(Reach(v, pos, tries)), idx)
    decreases tries
  {
    if idx < |v.known(pos)| {
      ReachGoesOn(v, pos, tries, all);
    } else if tries > 0 {
      SeekFindsIff(v, v.next(pos), idx, tries - 1, all);
    }
  }

  // All there is lies within ten portions.
  ghost predicate Near(v: View, pos: nat, all: seq<string>) {
    Growing(v, all) && v.known(Reach(v, pos, v.tries)) == all
  }

  // Once near, always near.
  lemma {:induction false} SeekKeepsNear(v: View, pos: nat, idx: nat, tries: nat, all: seq<string>)
    requires Near(v, pos, all)
    ensures Near(v, Seek(v, pos, idx, tries).1, all)
    decreases tries
  {
    if idx >= |v.known(pos)| && tries > 0 {
      ReachGoesOn(v, pos, v.tries, all);
      SeekKeepsNear(v, v.next(pos), idx, tries - 1, all);
    }
  }

  lemma RowNear(r: Record, v: View, pos: nat, phrases: Phrases, all: seq<string>)
    requires Near(v, pos, all)
    ensures RowAt(r, v, pos, phrases).0 == RowOf(r, all, phrases) && Near(v, RowAt(r, v, pos, phrases).1, all)
  {
    var pos1 := if r.errorIdx > 0 then Seek(v, pos, r.errorIdx, v.tries).1 else pos;
    if r.errorIdx > 0 {
      SeekFindsIff(v, pos, r.errorIdx, v.tries, all);
      SeekKeepsNear(v, pos, r.errorIdx, v.tries, all);
    }
    SeekFindsIff(v, pos1, r.labelIdx, v.tries, all);
    SeekKeepsNear(v, pos1, r.labelIdx, v.tries, all);
  }

  // From every position of a kind, each chunk has the same row, and the next position is of that kind.
  ghost predicate Follows(at: RowerAt, rower: Rower, kind: nat -> bool) {
    forall c: Chunk, pos: nat :: kind(pos) ==> at(c, pos).0 == rower(c) && kind(at(c, pos).1)
  }

  lemma {:induction false} ConsumeFollows(all: seq<byte>, pos: nat, at: RowerAt, rower: Rower, kind: nat -> bool)
    requires Follows(at, rower, kind) && kind(pos)
    ensures ConsumeAt(all, pos, at).0 == Consume(all, rower) && kind(ConsumeAt(all, pos, at).1)
    decreases |all|
  {
    if |all| >= CHUNK_LEN {
      var c: Chunk := all[..CHUNK_LEN];
      ConsumeFollows(all[CHUNK_LEN..], at(c, pos).1, at, rower, kind);
    }
  }

  // With everything near, a pass depends on the strings of the file only, not on how much of it has
  // been taken before.
  lemma ConsumeNear(all: seq<byte>, v: View, pos: nat, phrases: Phrases, strs: seq<string>)
    requires Near(v, pos, strs)
    ensures ConsumeAt(all, pos, RowerIn(v, phrases)).0 == Consume(all, RowerFor(strs, phrases))
    ensures Near(v, ConsumeAt(all, pos, RowerIn(v, phrases)).1, strs)
  {
    var near := (p: nat) => Near(v, p, strs);
    forall c: Chunk, p: nat | near(p)
      ensures RowerIn(v, phrases)(c, p).0 == RowerFor(strs, phrases)(c) && near(RowerIn(v, phrases)(c, p).1)
    {
      RowNear(Decode(c), v, p, phrases, strs);
    }
    ConsumeFollows(all, pos, RowerIn(v, phrases), RowerFor(strs, phrases), near);
  }

  // What can be checked beforehand: no more than ten portions are unread.
  lemma SmallIsNear(text: string, pos: nat, tries: nat)
    requires pos <= |text| && Terminated(text[..pos]) && |text| - pos <= tries * PORTION
    ensures Near(ViewOf(text, tries), pos, StringsOf(text))
  {
    var v, marked := ViewOf(text, tries), (p: nat) => p <= |text| && Terminated(text[..p]);
    ViewGrows(text, tries);
    forall p: nat | marked(p) ensures Fills(v, p, |text|, StringsOf(text)) && marked(v.next(p)) {
      PortionFills(text, p, tries);
    }
    TakeAll(text);
    ReachAll(v, pos, tries, |text|, StringsOf(text), marked);
  }

  // The reader has taken whole lines of the file.
  ghost predicate AtLine(text: string, pos: nat) { pos <= |text| && Terminated(text[..pos]) }

  lemma {:induction false} SeekStays(v: View, pos: nat, idx: nat, tries: nat, kind: nat -> bool)
    requires kind(pos) && forall p: nat :: kind(p) ==> kind(v.next(p))
    ensures kind(Seek(v, pos, idx, tries).1)
    decreases tries
  {
    if idx >= |v.known(pos)| && tries > 0 { SeekStays(v, v.next(pos), idx, tries - 1, kind); }
  }

  lemma RowStays(r: Record, v: View, pos: nat, phrases: Phrases, kind: nat -> bool)
    requires kind(pos) && forall p: nat :: kind(p) ==> kind(v.next(p))
    ensures kind(RowAt(r, v, pos, phrases).1)
  {
    var pos1 := if r.errorIdx > 0 then Seek(v, pos, r.errorIdx, v.tries).1 else pos;
    if r.errorIdx > 0 { SeekStays(v, pos, r.errorIdx, v.tries, kind); }
    SeekStays(v, pos1, r.labelIdx, v.tries, kind);
  }

  lemma {:induction false} ConsumeStays(all: seq<byte>, pos: nat, at: RowerAt, kind: nat -> bool)
    requires kind(pos) && forall c: Chunk, p: nat :: kind(p) ==> kind(at(c, p).1)
    ensures kind(ConsumeAt(all, pos, at).1)
    decreases |all|
  {
    if |all| >= CHUNK_LEN {
      var c: Chunk := all[..CHUNK_LEN];
      ConsumeStays(all[CHUNK_LEN..], at(c, pos).1, at, kind);
    }
  }

  lemma NextAtLine(text: string, tries: nat)
    ensures forall p: nat :: AtLine(text, p) ==> AtLine(text, ViewOf(text, tries).next(p))
  {
    forall p: nat | AtLine(text, p) ensures AtLine(text, ViewOf(text, tries).next(p)) { PortionFills(text, p, tries); }
  }

  // So while no more than ten portions are unread, a pass is the one over all the strings of the file.
  lemma PassIsWhole(all: seq<byte>, text: string, pos: nat, phrases: Phrases, tries: nat)
    requires AtLine(text, pos) && |text| - pos <= tries * PORTION
    ensures var (c, pos') := ConsumeAt(all, pos, RowerIn(ViewOf(text, tries), phrases));
            c == Consume(all, RowerFor(StringsOf(text), phrases)) && AtLine(text, pos')
  {
    var at, atLine := RowerIn(ViewOf(text, tries), phrases), (p: nat) => AtLine(text, p);
    SmallIsNear(text, pos, tries);
    ConsumeNear(all, ViewOf(text, tries), pos, phrases, StringsOf(text));
    NextAtLine(text, tries);
    forall c: Chunk, p: nat | atLine(p) ensures atLine(at(c, p).1) {
      RowStays(Decode(c), ViewOf(text, tries), p, phrases, atLine);
    }
    ConsumeStays(all, pos, at, atLine);
  }

  // ---------------------------------------------------------------- what a row can say

  ghost predicate CleanRow(row: Row) { Clean(row.name) && (row.error.Some? ==> Clean(row.error.value)) }

  ghost predicate CleanPhrases(phrases: Phrases) {
    forall n: nat :: phrases(n).Some? ==> Clean(phrases(n).value)
  }

  lemma StringsClean(text: string)
    ensures forall i :: 0 <= i < |StringsOf(text)| ==> Clean(StringsOf(text)[i])
  {
    ReaderLinesClean(text);
    assert forall i :: 0 < i < |StringsOf(text)| ==> StringsOf(text)[i] in ReaderLines(text);
  }

  lemma KnownClean(text: string, tries: nat, pos: nat, i: nat)
    requires i < |ViewOf(text, tries).known(pos)|
    ensures Clean(ViewOf(text, tries).known(pos)[i])
  {
    StringsClean(if pos <= |text| then text[..pos] else text);
  }

  lemma {:induction false} SeekClean(text: string, n: nat, pos: nat, idx: nat, tries: nat)
    ensures Clean(Seek(ViewOf(text, n), pos, idx, tries).0)
    decreases tries
  {
    var v := ViewOf(text, n);
    if idx < |v.known(pos)| {
      KnownClean(text, n, pos, idx);
    } else if tries > 0 {
      SeekClean(text, n, v.next(pos), idx, tries - 1);
    }
  }

  lemma RowClean(r: Record, text: string, tries: nat, pos: nat, phrases: Phrases)
    requires CleanPhrases(phrases)
    ensures var row := RowAt(r, ViewOf(text, tries), pos, phrases).0; row.Some? ==> CleanRow(row.value)
  {
    var v := ViewOf(text, tries);
    var pos1 := if r.errorIdx > 0 then Seek(v, pos, r.errorIdx, v.tries).1 else pos;
    SeekClean(text, tries, pos, r.errorIdx, v.tries);
    SeekClean(text, tries, pos1, r.labelIdx, v.tries);
  }

  // Whatever the file holds and however much of it has been taken, the texts of every row are clean.
  lemma {:induction false} PassIsClean(all: seq<byte>, text: string, tries: nat, pos: nat, phrases: Phrases)
    requires CleanPhrases(phrases)
    ensures forall row :: row in ConsumeAt(all, pos, RowerIn(ViewOf(text, tries), phrases)).0.rows ==> CleanRow(row)
    decreases |all|
  {
    if |all| >= CHUNK_LEN {
      var c: Chunk := all[..CHUNK_LEN];
      RowClean(Decode(c), text, tries, pos, phrases);
      PassIsClean(all[CHUNK_LEN..], text, tries, RowAt(Decode(c), ViewOf(text, tries), pos, phrases).1, phrases);
    }
  }

  // ---------------------------------------------------------------- portion by portion

  // One more portion is filled, or it is the last and everything is known then.
  ghost predicate Fills(v: View, pos: nat, end: nat, all: seq<string>) {
    var next := v.next(pos);
    pos <= next <= end && (next - pos >= PORTION || (v.known(next) == all && v.next(next) == next))
  }

  lemma {:induction false} ReachAll(v: View, pos: nat, n: nat, end: nat, all: seq<string>, marked: nat -> bool)
    requires forall p: nat :: marked(p) ==> Fills(v, p, end, all) && marked(v.next(p))
    requires marked(pos) && pos <= end <= pos + n * PORTION && v.known(end) == all
    ensures v.known(Reach(v, pos, n)) == all
    decreases n
  {
    if n > 0 {
      var next := v.next(pos);
      assert Fills(v, pos, end, all);
      if next - pos >= PORTION {
        ReachAll(v, next, n - 1, end, all, marked);
      } else {
        ReachStays(v, next, n - 1);
      }
    }
  }

  lemma {:induction false} ReachStays(v: View, pos: nat, n: nat)
    requires v.next(pos) == pos
    ensures Reach(v, pos, n) == pos
    decreases n
  {
    if n > 0 { ReachStays(v, pos, n - 1); }
  }

  lemma PortionFills(text: string, pos: nat, tries: nat)
    requires pos <= |text| && Terminated(text[..pos])
    ensures var v := ViewOf(text, tries);
            Fills(v, pos, |text|, StringsOf(text)) && v.next(pos) <= |text| && Terminated(text[..v.next(pos)])
  {
    PortionTaken(text, pos);
    if NextPos(text, pos) - pos < PORTION { NothingMore(text, pos); }
  }

  // A portion that is not filled is the last.
  lemma NothingMore(text: string, pos: nat)
    requires pos <= |text| && Terminated(text[..pos]) && NextPos(text, pos) - pos < PORTION
    ensures var next := NextPos(text, pos); StringsOf(text[..next]) == StringsOf(text) && NextPos(text, next) == next
  {
    var next := NextPos(text, pos);
    PortionFacts(text[pos..], PORTION);
    PortionTaken(text, pos);
    assert text[pos..][next - pos..] == text[next..];
    Halves(text, next);
    StringsSplit(text[..next], text[next..]);
    assert ReaderLines(text[next..]) == [];
    TakeAll(StringsOf(text[..next]));
  }

  // The first row that raises ends the pass; otherwise every chunk gives its row.
  function RowsUntil(cs: seq<Chunk>, rower: Rower): seq<Row> {
    if cs == [] || rower(cs[0]).None? then [] else [rower(cs[0]).value] + RowsUntil(cs[1..], rower)
  }

  ghost predicate NoneRaises(cs: seq<Chunk>, rower: Rower) {
    forall i :: 0 <= i < |cs| ==> rower(cs[i]).Some?
  }

  // Taking bytes as they come is turning each whole chunk into its row.
  lemma {:induction false} ConsumeIsRows(all: seq<byte>, rower: Rower)
    ensures Consume(all, rower).rows == RowsUntil(Chunks(all), rower)
    ensures Consume(all, rower).raised <==> !NoneRaises(Chunks(all), rower)
    ensures !Consume(all, rower).raised ==> Consume(all, rower).rest == Rest(all)
    decreases |all|
  {
    if |all| >= CHUNK_LEN {
      var rest := all[CHUNK_LEN..];
      ConsumeIsRows(rest, rower);
      assert Chunks(all)[0] == all[..CHUNK_LEN] && Chunks(all)[1..] == Chunks(rest);
      if NoneRaises(Chunks(all), rower) {
        forall i | 0 <= i < |Chunks(rest)| ensures rower(Chunks(rest)[i]).Some? {
          assert Chunks(rest)[i] == Chunks(all)[i + 1];
        }
      }
    }
  }

  // ---------------------------------------------------------------- independence of the split

  lemma {:induction false} ConsumeSplit(a: seq<byte>, b: seq<byte>, rower: Rower)
    requires !Consume(a, rower).raised
    ensures var c := Consume(a, rower);
            Consume(a + b, rower) == Prepend(c.rows, Consume(c.rest + b, rower))
    decreases |a|
  {
    if |a| < CHUNK_LEN {
      PrependNothing(Consume(a + b, rower));
    } else {
      assert (a + b)[..CHUNK_LEN] == a[..CHUNK_LEN] && (a + b)[CHUNK_LEN..] == a[CHUNK_LEN..] + b;
      ConsumeSplit(a[CHUNK_LEN..], b, rower);
      var c := Consume(a[CHUNK_LEN..], rower);
      Reassociate([rower(a[..CHUNK_LEN]).value], c.rows, Consume(c.rest + b, rower).rows);
    }
  }

  // Successive calls, each given the next part of the stream, that keep what they do not use.
  function Calls(kept: seq<byte>, parts: seq<seq<byte>>, rower: Rower): Consumed
    decreases |parts|
  {
    if parts == [] then Consumed([], false, kept)
    else
      var c := Consume(kept + parts[0], rower);
      if c.raised then c else Prepend(c.rows, Calls(c.rest, parts[1..], rower))
  }

  function Concat(parts: seq<seq<byte>>): seq<byte> {
    if parts == [] then [] else parts[0] + Concat(parts[1..])
  }

  // However the stream is cut into parts, the rows of all the calls are the rows of its whole
  // chunks, and what is kept is the unfinished chunk at its end.
  lemma ChunkIndependence(parts: seq<seq<byte>>, rower: Rower)
    requires NoneRaises(Chunks(Concat(parts)), rower)
    ensures Calls([], parts, rower) == Consumed(RowsUntil(Chunks(Concat(parts)), rower), false, Rest(Concat(parts)))
    ensures |RowsUntil(Chunks(Concat(parts)), rower)| == |Chunks(Concat(parts))|
  {
    assert [] + Concat(parts) == Concat(parts);
    ConsumeIsRows(Concat(parts), rower);
    CallsAreOne([], parts, rower);
    AllRows(Chunks(Concat(parts)), rower);
  }

  lemma {:induction false} AllRows(cs: seq<Chunk>, rower: Rower)
    requires NoneRaises(cs, rower)
    ensures |RowsUntil(cs, rower)| == |cs|
  {
    if cs != [] {
      forall i | 0 <= i < |cs| - 1 ensures rower(cs[1..][i]).Some? { assert cs[1..][i] == cs[i + 1]; }
      AllRows(cs[1..], rower);
    }
  }

  lemma {:induction false} CallsAreOne(kept: seq<byte>, parts: seq<seq<byte>>, rower: Rower)
    requires |kept| < CHUNK_LEN && !Consume(kept + Concat(parts), rower).raised
    ensures Calls(kept, parts, rower) == Consume(kept + Concat(parts), rower)
    decreases |parts|
  {
    if parts == [] {
      assert kept + [] == kept;
    } else {
      var front, more := kept + parts[0], Concat(parts[1..]);
      Reassociate(kept, parts[0], more);
      RaisesEarly(front, more, rower);
      ConsumeSplit(front, more, rower);
      RestIsShort(front, rower);
      CallsAreOne(Consume(front, rower).rest, parts[1..], rower);
    }
  }

  lemma {:induction false} RaisesEarly(a: seq<byte>, b: seq<byte>, rower: Rower)
    ensures Consume(a, rower).raised ==> Consume(a + b, rower).raised
    decreases |a|
  {
    if |a| >= CHUNK_LEN {
      assert (a + b)[..CHUNK_LEN] == a[..CHUNK_LEN] && (a + b)[CHUNK_LEN..] == a[CHUNK_LEN..] + b;
      RaisesEarly(a[CHUNK_LEN..], b, rower);
      assert Consume(a, rower) == ConsumeFrom(rower(a[..CHUNK_LEN]), a, rower);
      assert Consume(a + b, rower) == ConsumeFrom(rower(a[..CHUNK_LEN]), a + b, rower);
    }
  }

  lemma {:induction false} RestIsShort(a: seq<byte>, rower: Rower)
    ensures !Consume(a, rower).raised ==> |Consume(a, rower).rest| < CHUNK_LEN
    decreases |a|
  {
    if |a| >= CHUNK_LEN { RestIsShort(a[CHUNK_LEN..], rower); }
  }

  // ---------------------------------------------------------------- the rows of a stream of records

  // The chunks give these rows, and the one after the last row raises if there is one.
  ghost predicate RowsAre(cs: seq<Chunk>, rows: seq<Row>, rower: Rower) {
    (forall i :: 0 <= i < |cs| && i < |rows| ==> rower(cs[i]) == Some(rows[i]))
    && (|rows| < |cs| ==> rower(cs[|rows|]) == None)
  }

  lemma StringsSplit(a: string, b: string)
    requires Terminated(a)
    ensures StringsOf(a + b) == StringsOf(a) + ReaderLines(b)
  {
    ReaderLinesSplit(a, b);
    Reassociate([""], ReaderLines(a), ReaderLines(b));
  }
}
