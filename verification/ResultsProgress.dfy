/** That results do arrive: from every moment of every run the drain and the reader can go on to the end, and
    every record that is visible can be turned into its row. */
module ResultsProgress {
  import opened Prelude
  import opened Sequences
  import opened Counting
  import opened Bytes
  import opened ResultRecord
  import opened StrIndex
  import opened BinaryOut
  import opened KpiReader
  import opened LiveReader
  import opened ResultsPipeline

  // ---------------------------------------------------------------- how long the strings file may become

  function LineLength(o: Option<string>): nat { if o.None? then 0 else |o.value| + 1 }

  function LabelLength(item: Item, labelIdx: nat): nat {
    if item.name != "" && labelIdx == 0 then |item.name| + 1 else 0
  }

  function ItemLength(item: Item): nat {
    (if item.error.Some? && item.record.errorIdx == 0 then |item.error.value| + 1 else 0)
    + LabelLength(item, item.record.labelIdx)
  }

  function InHandLength(pc: PC): nat {
    match pc
    case Idle => 0
    case ErrorNumbered(item, r, unwritten) => LineLength(unwritten) + LabelLength(item, r.labelIdx)
    case LabelNumbered(_, _, unwritten) => LineLength(unwritten)
  }

  // The lines that may still be appended, with the file.
  function TextBound(w: Writer): nat { |w.text| + InHandLength(w.pc) + Counting.Sum(ItemLength, w.todo) }

  lemma TextBoundShrinks(w: Writer, e: Event)
    ensures TextBound(Write(w, e)) <= TextBound(w)
  {}

  lemma ReaderGoesOn(s: State, e: Event, phrases: Phrases)
    ensures s.r.pos <= Do(s, e, phrases).r.pos
  {
    if e.Look? { PositionGrows(s.r, ViewOf(s.w.text, TRIES), MakerFor(phrases), StringsOf(s.w.text), s.w.text); }
  }

  lemma PositionGrows(r: Reader, v: View, m: Maker, all: seq<string>, text: string)
    requires v == ViewOf(text, v.tries) && all == StringsOf(text)
    ensures r.pos <= LookOn(r, v, m).pos
  {
    ViewGrows(text, v.tries);
  }

  // What can be checked at any moment: when all that may still be written is within ten portions of the
  // reader, it keeps up from then on, whatever happens.
  lemma {:induction false} KeepsUpWhileNear(s: State, es: seq<Event>, phrases: Phrases)
    requires TextBound(s.w) <= s.r.pos + TRIES * PORTION
    ensures KeepsUp(s, es, phrases)
    decreases |es|
  {
    if es != [] {
      TextBoundShrinks(s.w, es[0]);
      ReaderGoesOn(s, es[0], phrases);
      KeepsUpWhileNear(Do(s, es[0], phrases), es[1..], phrases);
    }
  }

  // ---------------------------------------------------------------- the drain comes to its end

  lemma {:induction false} RunAppend(s: State, a: seq<Event>, b: seq<Event>, phrases: Phrases)
    ensures Run(s, a + b, phrases) == Run(Run(s, a, phrases), b, phrases)
    decreases |a|
  {
    if a == [] {
      assert a + b == b;
    } else {
      assert (a + b)[0] == a[0] && (a + b)[1..] == a[1..] + b;
      RunAppend(Do(s, a[0], phrases), a[1..], b, phrases);
    }
  }

  predicate Writes(es: seq<Event>) { forall e :: e in es ==> !e.Read? && !e.Look? }

  lemma {:induction false} RunWrites(s: State, es: seq<Event>, phrases: Phrases)
    requires Writes(es)
    ensures Run(s, es, phrases) == State(WriteAll(s.w, es), s.r)
    decreases |es|
  {
    if es != [] {
      assert es[0] in es && Writes(es[1..]);
      DoWrites(s, es[0], phrases);
      RunWrites(Do(s, es[0], phrases), es[1..], phrases);
    }
  }

  // The steps that end the item in hand, wherever it stands.
  const FINISH: seq<Event> := [AppendString, NumberLabel, AppendString, WriteRecord]

  lemma FourWrites(w: Writer)
    ensures WriteAll(w, FINISH)
         == Write(Write(Write(Write(w, AppendString), NumberLabel), AppendString), WriteRecord)
  {}

  lemma ItemIsFinished(w: Writer)
    ensures WriteAll(w, FINISH).pc.Idle? && WriteAll(w, FINISH).todo == w.todo
  {
    FourWrites(w);
    var w1 := Write(w, AppendString);
    var w2 := Write(w1, NumberLabel);
    assert w2.pc.Idle? || w2.pc.LabelNumbered?;
  }

  lemma {:induction false} WriteAllAppend(w: Writer, a: seq<Event>, b: seq<Event>)
    ensures WriteAll(w, a + b) == WriteAll(WriteAll(w, a), b)
    decreases |a|
  {
    if a == [] {
      assert a + b == b;
    } else {
      assert (a + b)[0] == a[0] && (a + b)[1..] == a[1..] + b;
      WriteAllAppend(Write(w, a[0]), a[1..], b);
    }
  }

  function PushAll(n: nat): seq<Event> { if n == 0 then [] else PUSH + PushAll(n - 1) }

  lemma {:induction false} PushesWrite(n: nat)
    ensures Writes(PushAll(n))
  {
    if n > 0 { PushesWrite(n - 1); }
  }

  lemma {:induction false} AllPushed(w: Writer)
    requires w.pc.Idle?
    ensures var w' := WriteAll(w, PushAll(|w.todo|)); w'.pc.Idle? && w'.todo == []
    decreases |w.todo|
  {
    if w.todo != [] {
      PushIsFiveSteps(w);
      WriteAllAppend(w, PUSH, PushAll(|w.todo| - 1));
      AllPushed(WriteAll(w, PUSH));
    }
  }

  lemma FlushedWhole(w: Writer)
    ensures var w' := WriteAll(w, [Flush(|w.buf|)]);
            w'.buf == [] && w'.file == w.file + w.buf && w'.todo == w.todo && w'.pc == w.pc
  {
    TakeAll(w.buf);
    assert WriteAll(w, [Flush(|w.buf|)]) == WriteAll(Write(w, Flush(|w.buf|)), []);
  }

  // Nothing is left to write, in the buffer or before it.
  predicate Drained(w: Writer) { w.todo == [] && w.pc.Idle? && w.buf == [] }

  // From wherever the drain stands it can end, without the reader.
  lemma DrainEnds(s: State, phrases: Phrases) returns (es: seq<Event>)
    ensures Run(s, es, phrases).r == s.r && Drained(Run(s, es, phrases).w)
  {
    var w1 := WriteAll(s.w, FINISH);
    var pushes := PushAll(|w1.todo|);
    var w2 := WriteAll(w1, pushes);
    es := FINISH + pushes + [Flush(|w2.buf|)];
    ItemIsFinished(s.w);
    AllPushed(w1);
    FlushedWhole(w2);
    WriteAllAppend(s.w, FINISH, pushes);
    WriteAllAppend(s.w, FINISH + pushes, [Flush(|w2.buf|)]);
    PushesWrite(|w1.todo|);
    RunWrites(s, es, phrases);
  }

  // ---------------------------------------------------------------- the reader comes to the end of its call

  function LookTimes(n: nat): seq<Event> { if n == 0 then [] else [Look] + LookTimes(n - 1) }

  lemma {:induction false} RunLooks(s: State, n: nat, phrases: Phrases)
    ensures Run(s, LookTimes(n), phrases) == State(s.w, Looks(s.r, ViewOf(s.w.text, TRIES), MakerFor(phrases), n))
    decreases n
  {
    if n > 0 {
      var t := Do(s, Look, phrases);
      assert t.w == s.w && LookTimes(n)[1..] == LookTimes(n - 1);
      RunLooks(t, n - 1, phrases);
    }
  }

  lemma CallCanEnd(s: State, phrases: Phrases) returns (es: seq<Event>)
    ensures var t := Run(s, es, phrases); t.w == s.w && t.r.call.NoCall? && t.r.given == s.r.given
  {
    var n := CallEnds(s.r, ViewOf(s.w.text, TRIES), MakerFor(phrases));
    es := LookTimes(n);
    RunLooks(s, n, phrases);
  }

  // An idle reader that has not raised takes the next n bytes and ends its call.
  lemma ReadsOn(s: State, n: nat, phrases: Phrases) returns (es: seq<Event>)
    requires s.r.call.NoCall? && !s.r.raised && |s.r.given| + n <= |s.w.file|
    ensures var t := Run(s, es, phrases);
            t.w == s.w && t.r.call.NoCall? && t.r.given == s.r.given + Part(s.w.file, |s.r.given|, n)
  {
    var t := Do(s, Read(n), phrases);
    var more := CallCanEnd(t, phrases);
    es := [Read(n)] + more;
    assert es[0] == Read(n) && es[1..] == more;
  }

  lemma RestGiven(given: seq<byte>, file: seq<byte>)
    requires given <= file
    ensures given + Part(file, |given|, |file| - |given|) == file
  {}

  // From wherever the reader stands, over a drain that has ended, all comes to an end.
  lemma ReaderSettles(s: State, phrases: Phrases) returns (es: seq<Event>)
    requires Drained(s.w) && s.r.given <= s.w.file && (s.r.raised ==> s.r.call.NoCall?)
    ensures Settled(Run(s, es, phrases))
  {
    es := CallCanEnd(s, phrases);
    var t := Run(s, es, phrases);
    if !t.r.raised {
      RestGiven(t.r.given, t.w.file);
      var more := ReadsOn(t, |t.w.file| - |t.r.given|, phrases);
      RunAppend(s, es, more, phrases);
      es := es + more;
    }
  }

  // ---------------------------------------------------------------- every run can go on to the end

  // What can be checked at a moment of a run: there is room for the numbers and the lines still to come.
  predicate HasRoom(s: State) {
    IndexBound(s.w) <= CAPACITY && TextBound(s.w) <= s.r.pos + TRIES * PORTION
  }

  // Everything that holds at a moment of a run.
  ghost predicate Reached(t: State, text: string, items: seq<Item>, phrases: Phrases) {
    StateInv(t, items, StringsOf(text), RowsFor(items, StringsOf(text), phrases), phrases)
  }

  lemma ReachedInRun(s: State, text: string, es: seq<Event>, phrases: Phrases)
    requires Initial(s, text) && AllClean(s.w.todo) && KeepsUp(s, es, phrases)
    requires |Run(s, es, phrases).w.table.index| <= CAPACITY
    ensures Reached(Run(s, es, phrases), text, s.w.todo, phrases)
  {
    InitialInv(s, text, phrases);
    RunKeeps(s, es, s.w.todo, StringsOf(text), phrases, RowsFor(s.w.todo, StringsOf(text), phrases));
  }

  lemma ReachedOn(t: State, text: string, items: seq<Item>, es: seq<Event>, phrases: Phrases)
    requires Reached(t, text, items, phrases) && HasRoom(t)
    ensures Reached(Run(t, es, phrases), text, items, phrases) && KeepsUp(t, es, phrases)
    ensures |Run(t, es, phrases).w.table.index| <= CAPACITY
  {
    KeepsUpWhileNear(t, es, phrases);
    IndexStaysBelow(t, es, phrases);
    RunKeeps(t, es, items, StringsOf(text), phrases, RowsFor(items, StringsOf(text), phrases));
  }

  lemma SettlesFrom(t: State, text: string, items: seq<Item>, phrases: Phrases) returns (es: seq<Event>)
    requires Reached(t, text, items, phrases) && HasRoom(t)
    ensures Settled(Run(t, es, phrases))
  {
    var drain := DrainEnds(t, phrases);
    ReachedOn(t, text, items, drain, phrases);
    var u := Run(t, drain, phrases);
    var more := ReaderSettles(u, phrases);
    RunAppend(t, drain, more, phrases);
    es := drain + more;
  }

  // From every moment of every run over clean items, with room for what is still to come, the run can go on,
  // keeping up, until all is written and read; and then the rows are those of all items, up to the first that
  // cannot be described.
  lemma EveryRunCanSettle(s: State, text: string, es: seq<Event>, phrases: Phrases) returns (more: seq<Event>)
    requires Initial(s, text) && AllClean(s.w.todo) && KeepsUp(s, es, phrases) && HasRoom(Run(s, es, phrases))
    ensures var t, rows := Run(s, es, phrases), RowsFor(s.w.todo, StringsOf(text), phrases);
            var u := Run(t, more, phrases);
            KeepsUp(t, more, phrases) && |u.w.table.index| <= CAPACITY && Settled(u)
            && u.r.rows == rows && (u.r.raised <==> |rows| < |s.w.todo|)
  {
    var t, items := Run(s, es, phrases), s.w.todo;
    ReachedInRun(s, text, es, phrases);
    more := SettlesFrom(t, text, items, phrases);
    ReachedOn(t, text, items, more, phrases);
    SettledRun(Run(t, more, phrases), items, StringsOf(text), RowsFor(items, StringsOf(text), phrases));
  }

  // ---------------------------------------------------------------- one row more

  // A reader that has ended its call has turned all whole records it was given into rows, or has raised at one.
  lemma RowsGiven(r: Reader, file: seq<byte>, cs: seq<Chunk>, rows: seq<Row>, k: nat)
    requires ReaderInv(r, file, cs, rows) && r.call.NoCall? && |r.given| == (k + 1) * CHUNK_LEN
    ensures if r.raised then |r.rows| <= k && r.rows == rows else |r.rows| == k + 1 && r.rows == rows[..k + 1]
  {
    if r.raised { TakeAll(rows); }
  }

  lemma RowsBefore(r: Reader, file: seq<byte>, cs: seq<Chunk>, rows: seq<Row>)
    requires ReaderInv(r, file, cs, rows) && r.call.NoCall? && !r.raised
    ensures |r.given| == |r.rows| * CHUNK_LEN + |r.partial| && |r.partial| < CHUNK_LEN
  {}

  lemma {:induction false} WholeRecords(file: seq<byte>, k: nat)
    requires k < |Chunks(file)|
    ensures (k + 1) * CHUNK_LEN <= |file|
    decreases |file|
  {
    if k > 0 { WholeRecords(file[CHUNK_LEN..], k - 1); }
  }

  // The row after these, or none.
  function NextRow(items: seq<Item>, k: nat, known: seq<string>, phrases: Phrases): Option<Row> {
    if k < |items| then Expected(items[k], known, phrases) else None
  }

  lemma OneMore(rows: seq<Row>, items: seq<Item>, k: nat, known: seq<string>, phrases: Phrases, r: Reader)
    requires |rows| <= |items| && k <= |rows| && k < |items|
    requires k < |rows| ==> Expected(items[k], known, phrases) == Some(rows[k])
    requires |rows| < |items| ==> Expected(items[|rows|], known, phrases) == None
    requires if r.raised then |r.rows| <= k && r.rows == rows
             else |r.rows| == k + 1 <= |rows| && r.rows == rows[..k + 1]
    ensures match NextRow(items, k, known, phrases)
            case Some(row) => !r.raised && r.rows == rows[..k] + [row]
            case None => r.raised && r.rows == rows[..k]
  {
    if k < |rows| {
      TakeMore(rows, k, 1);
      assert rows[k..][..1] == [rows[k]];
    } else {
      TakeAll(rows);
    }
  }

  // When a record is visible after the rows read so far, an idle reader that has not raised can go on to read
  // exactly the row of its item, or raises there if it cannot be described; whatever the drain has left to do.
  lemma NextRowCanBeRead(s: State, text: string, es: seq<Event>, phrases: Phrases) returns (more: seq<Event>)
    requires Initial(s, text) && AllClean(s.w.todo) && KeepsUp(s, es, phrases) && HasRoom(Run(s, es, phrases))
    requires var t := Run(s, es, phrases); t.r.call.NoCall? && !t.r.raised && |t.r.rows| < |Chunks(t.w.file)|
    ensures var t := Run(s, es, phrases);
            var u := Run(t, more, phrases);
            KeepsUp(t, more, phrases) && u.w == t.w && u.r.call.NoCall?
            && match NextRow(s.w.todo, |t.r.rows|, StringsOf(text), phrases)
               case Some(row) => !u.r.raised && u.r.rows == t.r.rows + [row]
               case None => u.r.raised && u.r.rows == t.r.rows
  {
    var t, items := Run(s, es, phrases), s.w.todo;
    var k := |t.r.rows|;
    ReachedInRun(s, text, es, phrases);
    RowsBefore(t.r, t.w.file, Map(Encode, t.w.records), RowsFor(items, StringsOf(text), phrases));
    WholeRecords(t.w.file, k);
    more := ReadsOn(t, CHUNK_LEN - |t.r.partial|, phrases);
    ReachedOn(t, text, items, more, phrases);
    NextRowIs(t, Run(t, more, phrases), k, text, items, phrases);
  }

  // What a reader that has been given one record more has made of it.
  lemma NextRowIs(t: State, u: State, k: nat, text: string, items: seq<Item>, phrases: Phrases)
    requires Reached(t, text, items, phrases) && Reached(u, text, items, phrases) && u.w == t.w
    requires t.r.call.NoCall? && !t.r.raised && |t.r.rows| == k && (k + 1) * CHUNK_LEN <= |t.w.file|
    requires u.r.call.NoCall? && |u.r.given| == (k + 1) * CHUNK_LEN
    ensures match NextRow(items, k, StringsOf(text), phrases)
            case Some(row) => !u.r.raised && u.r.rows == t.r.rows + [row]
            case None => u.r.raised && u.r.rows == t.r.rows
  {
    var rows := RowsFor(items, StringsOf(text), phrases);
    RowsGiven(u.r, u.w.file, Map(Encode, u.w.records), rows, k);
    DoneIsFront(t.w, items);
    VisibleIsDone(t.w, k, items);
    OneMore(rows, items, k, StringsOf(text), phrases, u.r);
  }

  lemma VisibleIsDone(w: Writer, k: nat, items: seq<Item>)
    requires w.file + w.buf == Flatten(Map(Encode, w.records)) && |w.records| == |w.done| && w.done <= items
    requires (k + 1) * CHUNK_LEN <= |w.file|
    ensures k < |items|
  {}
}
