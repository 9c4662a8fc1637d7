/** The reader of results step by step, so that the strings file may grow between the portions that one
    look-up takes. */
module LiveReader {
  import opened Prelude
  import opened Sequences
  import opened Bytes
  import opened ResultRecord
  import opened KpiReader

  // How a chunk is unpacked, and what row it makes with the texts found for it, if not the phrase of an
  // unknown status is asked for.
  datatype Maker = Maker(decode: Chunk -> Record, row: (Record, string, Option<string>) -> Option<Row>)

  function MakerFor(phrases: Phrases): Maker {
    Maker((c: Chunk) => Decode(c), (r, name, error) => RowWith(r, name, error, phrases))
  }

  // Where a call stands with its next record.
  datatype Stage = ErrorSought | LabelSought(error: Option<string>)

  // The bytes a call has not turned into rows yet, and how many portions its look-up has taken.
  datatype Call = NoCall | Call(left: seq<byte>, stage: Stage, tries: nat)

  // The bytes the reader has been given so far, those it has kept, the rows it has yielded, and how much
  // of the strings file it has taken.
  datatype Reader = Reader(given: seq<byte>, partial: seq<byte>, rows: seq<Row>, raised: bool, pos: nat, call: Call)

  function Begin(r: Reader, data: seq<byte>): Reader {
    r.(given := r.given + data, call := Call(r.partial + data, ErrorSought, 0))
  }

  predicate Busy(r: Reader) { r.call.Call? && |r.call.left| >= CHUNK_LEN }

  function Current(r: Reader, m: Maker): Record
    requires Busy(r)
  {
    m.decode(r.call.left[..CHUNK_LEN])
  }

  // The number that is looked up; an error without a number is not.
  predicate Seeks(r: Reader, m: Maker) { Busy(r) && (r.call.stage.ErrorSought? ==> Current(r, m).errorIdx > 0) }

  function Sought(r: Reader, m: Maker): nat
    requires Busy(r)
  {
    if r.call.stage.ErrorSought? then Current(r, m).errorIdx else Current(r, m).labelIdx
  }

  // The row of the current record, or its phrase raises and the call is abandoned.
  function RowMade(r: Reader, pos: nat, row: Option<Row>): Reader
    requires Busy(r)
  {
    if row.None? then Reader(r.given, r.partial, r.rows, true, pos, NoCall)
    else Reader(r.given, r.partial, r.rows + [row.value], r.raised, pos,
                Call(r.call.left[CHUNK_LEN..], ErrorSought, 0))
  }

  function WithError(r: Reader, pos: nat, error: Option<string>): Reader
    requires Busy(r)
  {
    Reader(r.given, r.partial, r.rows, r.raised, pos, Call(r.call.left, LabelSought(error), 0))
  }

  // What was looked up has been found, or given up.
  function Found(r: Reader, pos: nat, s: string, m: Maker): Reader
    requires Busy(r)
  {
    match r.call.stage
    case ErrorSought => WithError(r, pos, Some(s))
    case LabelSought(error) => RowMade(r, pos, m.row(Current(r, m), s, error))
  }

  // One portion more has been taken.
  function Asked(r: Reader, pos: nat): Reader
    requires Busy(r)
  {
    Reader(r.given, r.partial, r.rows, r.raised, pos, Call(r.call.left, r.call.stage, r.call.tries + 1))
  }

  // One step of a call, over the strings file as it is now.
  function LookOn(r: Reader, v: View, m: Maker): Reader {
    if r.call.NoCall? then r
    else if |r.call.left| < CHUNK_LEN then r.(partial := r.call.left, call := NoCall)
    else if !Seeks(r, m) then WithError(r, r.pos, None)
    else if Sought(r, m) < |v.known(r.pos)| then Found(r, r.pos, v.known(r.pos)[Sought(r, m)], m)
    else if r.call.tries >= v.tries then Found(r, r.pos, NOT_FOUND, m)
    else Asked(r, v.next(r.pos))
  }

  // ---------------------------------------------------------------- over a file that stands still

  function Looks(r: Reader, v: View, m: Maker, n: nat): Reader
    decreases n
  {
    if n == 0 then r else Looks(LookOn(r, v, m), v, m, n - 1)
  }

  lemma {:induction false} LooksAdd(r: Reader, v: View, m: Maker, a: nat, b: nat)
    ensures Looks(r, v, m, a + b) == Looks(Looks(r, v, m, a), v, m, b)
    decreases a
  {
    if a > 0 { LooksAdd(LookOn(r, v, m), v, m, a - 1, b); }
  }

  lemma OneLook(r: Reader, v: View, m: Maker)
    ensures Looks(r, v, m, 1) == LookOn(r, v, m)
  {
    assert Looks(LookOn(r, v, m), v, m, 0) == LookOn(r, v, m);
  }

  // What is found for the number from here on.
  function SoughtFrom(r: Reader, v: View, m: Maker): Reader
    requires Busy(r) && r.call.tries <= v.tries
  {
    var (s, pos) := Seek(v, r.pos, Sought(r, m), v.tries - r.call.tries);
    Found(r, pos, s, m)
  }

  lemma SoughtNext(r: Reader, v: View, m: Maker)
    requires Seeks(r, m) && r.call.tries < v.tries && Sought(r, m) >= |v.known(r.pos)|
    ensures LookOn(r, v, m) == Asked(r, v.next(r.pos)) && Seeks(Asked(r, v.next(r.pos)), m)
    ensures SoughtFrom(r, v, m) == SoughtFrom(Asked(r, v.next(r.pos)), v, m)
  {}

  // The steps of a look-up find what the look-up of a call finds.
  lemma {:induction false} SeekSteps(r: Reader, v: View, m: Maker) returns (n: nat)
    requires Seeks(r, m) && r.call.tries <= v.tries
    ensures Looks(r, v, m, n) == SoughtFrom(r, v, m)
    decreases v.tries - r.call.tries
  {
    if Sought(r, m) < |v.known(r.pos)| || r.call.tries == v.tries {
      n := 1;
      OneLook(r, v, m);
    } else {
      SoughtNext(r, v, m);
      var more := SeekSteps(Asked(r, v.next(r.pos)), v, m);
      n := more + 1;
    }
  }

  // The error of a record, and the position after its look-up.
  function ErrorAt(r: Record, v: View, pos: nat): (Option<string>, nat) {
    if r.errorIdx > 0 then (Some(Seek(v, pos, r.errorIdx, v.tries).0), Seek(v, pos, r.errorIdx, v.tries).1)
    else (None, pos)
  }

  lemma ErrorSteps(r: Reader, v: View, m: Maker) returns (n: nat)
    requires Busy(r) && r.call.stage.ErrorSought? && r.call.tries == 0
    ensures var (error, pos) := ErrorAt(Current(r, m), v, r.pos);
            Looks(r, v, m, n) == WithError(r, pos, error)
  {
    if Seeks(r, m) {
      n := SeekSteps(r, v, m);
    } else {
      n := 1;
      OneLook(r, v, m);
    }
  }

  lemma LabelSteps(r: Reader, error: Option<string>, v: View, m: Maker) returns (n: nat)
    requires Busy(r) && r.call.stage == LabelSought(error) && r.call.tries == 0
    ensures var (s, pos) := Seek(v, r.pos, Current(r, m).labelIdx, v.tries);
            Looks(r, v, m, n) == RowMade(r, pos, m.row(Current(r, m), s, error))
  {
    n := SeekSteps(r, v, m);
  }

  // The row of a record, as a call that is not interrupted makes it.
  function RowBy(r: Record, v: View, pos: nat, m: Maker): (Option<Row>, nat) {
    var (error, pos1) := ErrorAt(r, v, pos);
    var (s, pos2) := Seek(v, pos1, r.labelIdx, v.tries);
    (m.row(r, s, error), pos2)
  }

  lemma RowByIs(c: Chunk, v: View, pos: nat, phrases: Phrases)
    ensures RowBy(MakerFor(phrases).decode(c), v, pos, MakerFor(phrases)) == RowerIn(v, phrases)(c, pos)
  {}

  // The steps of one record make its row.
  lemma RowSteps(r: Reader, v: View, m: Maker) returns (n: nat)
    requires Busy(r) && r.call.stage.ErrorSought? && r.call.tries == 0
    ensures var (row, pos) := RowBy(Current(r, m), v, r.pos, m);
            Looks(r, v, m, n) == RowMade(r, pos, row)
  {
    var (error, pos) := ErrorAt(Current(r, m), v, r.pos);
    var a := ErrorSteps(r, v, m);
    var b := LabelSteps(WithError(r, pos, error), error, v, m);
    LooksAdd(r, v, m, a, b);
    n := a + b;
  }

  function Ended(r: Reader, c: Consumed, pos: nat): Reader {
    Reader(r.given, if c.raised then r.partial else c.rest, r.rows + c.rows, r.raised || c.raised, pos, NoCall)
  }

  lemma EndedAfter(r: Reader, row: Row, pos: nat, c: Consumed, last: nat)
    requires Busy(r)
    ensures Ended(RowMade(r, pos, Some(row)), c, last) == Ended(r, Prepend([row], c), last)
  {
    Reassociate(r.rows, [row], c.rows);
  }

  lemma EndedNow(r: Reader, raised: bool, rest: seq<byte>, pos: nat)
    ensures Ended(r, Consumed([], raised, rest), pos)
         == Reader(r.given, if raised then r.partial else rest, r.rows, r.raised || raised, pos, NoCall)
  {
    assert r.rows + [] == r.rows;
  }

  // While the file stands still, the steps of a call are one pass over its bytes.
  lemma {:induction false} CallSteps(r: Reader, v: View, m: Maker, rower: RowerAt) returns (n: nat)
    requires r.call.Call? && r.call.stage.ErrorSought? && r.call.tries == 0
    requires forall c: Chunk, pos: nat :: RowBy(m.decode(c), v, pos, m) == rower(c, pos)
    ensures var (c, pos) := ConsumeAt(r.call.left, r.pos, rower);
            Looks(r, v, m, n) == Ended(r, c, pos)
    decreases |r.call.left|
  {
    if |r.call.left| < CHUNK_LEN {
      n := 1;
      OneLook(r, v, m);
      EndedNow(r, false, r.call.left, r.pos);
    } else {
      var (row, pos) := rower(r.call.left[..CHUNK_LEN], r.pos);
      var a := RowSteps(r, v, m);
      if row.None? {
        n := a;
        EndedNow(r, true, r.call.left, pos);
      } else {
        var b := CallSteps(RowMade(r, pos, row), v, m, rower);
        LooksAdd(r, v, m, a, b);
        n := a + b;
        var (c, last) := ConsumeAt(r.call.left[CHUNK_LEN..], pos, rower);
        EndedAfter(r, row.value, pos, c, last);
      }
    }
  }

  // So a call that is not interrupted by the writer is the call of the reader over one view of the file.
  lemma CallIsOnePass(r: Reader, data: seq<byte>, text: string, phrases: Phrases) returns (n: nat)
    ensures var v, b := ViewOf(text, TRIES), Begin(r, data);
            var (c, pos) := ConsumeAt(r.partial + data, r.pos, RowerIn(v, phrases));
            Looks(b, v, MakerFor(phrases), n) == Ended(b, c, pos)
  {
    var v, m := ViewOf(text, TRIES), MakerFor(phrases);
    forall c: Chunk, pos: nat ensures RowBy(m.decode(c), v, pos, m) == RowerIn(v, phrases)(c, pos) {
      RowByIs(c, v, pos, phrases);
    }
    n := CallSteps(Begin(r, data), v, m, RowerIn(v, phrases));
  }

  // ---------------------------------------------------------------- every call ends

  lemma LookGoesOn(r: Reader, v: View, m: Maker)
    requires r.call.Call?
    ensures var t := LookOn(r, v, m);
            t.given == r.given
            && (t.call.NoCall? || |t.call.left| < |r.call.left|
                || (t.call.left == r.call.left
                    && ((t.call.stage.LabelSought? && r.call.stage.ErrorSought?)
                        || (t.call.stage == r.call.stage && t.call.tries == r.call.tries + 1 <= v.tries))))
  {}

  // Over a file that stands still, every call ends.
  lemma {:induction false} CallEnds(r: Reader, v: View, m: Maker) returns (n: nat)
    ensures Looks(r, v, m, n).call.NoCall? && Looks(r, v, m, n).given == r.given
    decreases if r.call.NoCall? then 0 else |r.call.left| + 1,
              if r.call.Call? && r.call.stage.ErrorSought? then 1 else 0,
              if r.call.Call? && r.call.tries <= v.tries then v.tries - r.call.tries else 0
  {
    if r.call.NoCall? {
      n := 0;
    } else {
      LookGoesOn(r, v, m);
      var more := CallEnds(LookOn(r, v, m), v, m);
      n := more + 1;
    }
  }
}
