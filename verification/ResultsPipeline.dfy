/** The whole path of results, as a step system: one goroutine drains items into the two files while
    the Taurus reader, another process, takes what is there at moments of its own choosing, and searches
    the strings file while it grows. */
module ResultsPipeline {
  import opened Prelude
  import opened Sequences
  import opened TextLines
  import opened Bytes
  import opened ResultRecord
  import opened StrIndex
  import opened BinaryOut
  import opened KpiReader
  import opened LiveReader

  // Where the drain stands with its current item. A string just given a number waits to be appended
  // to the strings file.
  datatype PC =
    | Idle
    | ErrorNumbered(item: Item, record: Record, unwritten: Option<string>)
    | LabelNumbered(item: Item, record: Record, unwritten: Option<string>)

  datatype Writer = Writer(
    table: Table, text: string,             // the string index and its file
    pc: PC, todo: seq<Item>, done: seq<Item>,
    records: seq<Record>,                   // what has been written for the items done
    file: seq<byte>, buf: seq<byte>)        // the binary file and the buffer before it

  datatype State = State(w: Writer, r: Reader)

  datatype Event =
    | StartItem     // take the next item and number its error
    | AppendString  // append the waiting string to its file, and flush
    | NumberLabel
    | WriteRecord   // into the buffer
    | Flush(n: nat) // any part of the buffer reaches the file
    | Read(n: nat)  // the reader is called, and given the next n bytes
    | Look          // one step of that call: a portion of the strings file, a text found, or a row

  // Number a string, remembering it for the file if it is new.
  function NumberFor(t: Table, s: string): (nat, Table, Option<string>) {
    (Intern(t, s).1, Intern(t, s).0, if s in t.mapping then None else Some(s))
  }

  function Write(w: Writer, e: Event): Writer {
    match e
    case StartItem =>
      if !w.pc.Idle? || w.todo == [] then w
      else
        var item := w.todo[0];
        var r, w' := item.record, w.(todo := w.todo[1..]);
        if item.error.Some? && r.errorIdx == 0 then
          var (i, t, unwritten) := NumberFor(w.table, item.error.value);
          w'.(table := t, pc := ErrorNumbered(item, r.(errorIdx := i), unwritten))
        else w'.(pc := ErrorNumbered(item, r, None))
    case AppendString =>
      if w.pc.Idle? || w.pc.unwritten.None? then w
      else w.(text := w.text + (w.pc.unwritten.value + "\n"), pc := w.pc.(unwritten := None))
    case NumberLabel =>
      if !w.pc.ErrorNumbered? || w.pc.unwritten.Some? then w
      else
        var item, r := w.pc.item, w.pc.record;
        if item.name != "" && r.labelIdx == 0 then
          var (i, t, unwritten) := NumberFor(w.table, item.name);
          w.(table := t, pc := LabelNumbered(item, r.(labelIdx := i), unwritten))
        else w.(pc := LabelNumbered(item, r, None))
    case WriteRecord =>
      if !w.pc.LabelNumbered? || w.pc.unwritten.Some? then w
      else w.(buf := w.buf + Encode(w.pc.record), records := w.records + [w.pc.record],
              done := w.done + [w.pc.item], pc := Idle)
    case Flush(n) =>
      if n > |w.buf| then w else w.(file := w.file + w.buf[..n], buf := w.buf[n..])
    case Read(_) => w
    case Look => w
  }

  // A call of the reader begins, unless one is under way or has raised.
  function Take(r: Reader, n: nat, file: seq<byte>): Reader {
    if |r.given| + n > |file| || r.raised || r.call.Call? then r else Begin(r, Part(file, |r.given|, n))
  }

  function Part(file: seq<byte>, pos: nat, n: nat): seq<byte>
    requires pos + n <= |file|
  {
    file[pos..pos + n]
  }

  // The reader looks at the strings file as it is at that moment.
  function Do(s: State, e: Event, phrases: Phrases): State {
    State(Write(s.w, e),
          match e
          case Read(n) => Take(s.r, n, s.w.file)
          case Look => LookOn(s.r, ViewOf(s.w.text, TRIES), MakerFor(phrases))
          case _ => s.r)
  }

  function Run(s: State, es: seq<Event>, phrases: Phrases): State
    decreases |es|
  {
    if es == [] then s else Run(Do(s, es[0], phrases), es[1..], phrases)
  }

  // ---------------------------------------------------------------- what the code relies on

  // Numbers given beforehand are in the index the run began with.
  ghost predicate Sound(item: Item, known: nat) {
    InRange(item.record) && item.record.errorIdx < known && item.record.labelIdx < known
  }

  // Strings that are to be numbered survive a line of the strings file.
  ghost predicate CleanItem(item: Item) {
    (item.error.Some? && item.record.errorIdx == 0 ==> Clean(item.error.value))
    && (item.name != "" && item.record.labelIdx == 0 ==> Clean(item.name))
  }

  // The reader is about to ask for the first portion of a look-up.
  predicate Asks(r: Reader, text: string, m: Maker) {
    Seeks(r, m) && r.call.tries == 0 && Sought(r, m) >= |ViewOf(text, TRIES).known(r.pos)|
  }

  // Whenever it does, no more of the strings file is unread than ten portions.
  predicate KeepsUp(s: State, es: seq<Event>, phrases: Phrases)
    decreases |es|
  {
    es == []
    || ((es[0].Look? && Asks(s.r, s.w.text, MakerFor(phrases)) ==> |s.w.text| <= s.r.pos + TRIES * PORTION)
        && KeepsUp(Do(s, es[0], phrases), es[1..], phrases))
  }

  // The strings the reader is to find for an item. An empty error has the number of an empty string; that
  // is none at all, unless the file the run began with had an empty line.
  function ErrorText(item: Item, strs: seq<string>): Option<string> {
    if item.error.Some? && item.record.errorIdx == 0 then
      if item.error.value != "" || EmptyLine(strs) then item.error else None
    else if item.record.errorIdx > 0 then Some(LookUp(strs, item.record.errorIdx))
    else None
  }

  predicate EmptyLine(strs: seq<string>) { strs != [] && "" in strs[1..] }

  function LabelText(item: Item, strs: seq<string>): string {
    if item.name != "" && item.record.labelIdx == 0 then item.name else LookUp(strs, item.record.labelIdx)
  }

  // The row an item ought to give: its own numbers and texts, whatever the state of the files.
  function Expected(item: Item, strs: seq<string>, phrases: Phrases): Option<Row> {
    RowWith(item.record, LabelText(item, strs), ErrorText(item, strs), phrases)
  }

  // The strings file as the run finds it: whole lines, each of which survives.
  ghost predicate SoundFile(text: string) {
    Terminated(text) && |Lines(text)| < CAPACITY && forall l :: l in Lines(text) ==> Clean(l)
  }

  ghost predicate Initial(s: State, text: string) {
    SoundFile(text)
    && s.w.table == Load(text) && s.w.text == text
    && s.w.pc.Idle? && s.w.done == [] && s.w.records == [] && s.w.file == [] && s.w.buf == []
    && s.r == Reader([], [], [], false, 0, NoCall)
    && forall item :: item in s.w.todo ==> Sound(item, |StringsOf(text)|)
  }

  // ---------------------------------------------------------------- the writer's side

  // The numbers of a record lead to the texts of its item.
  ghost predicate ErrorMatches(r: Record, item: Item, strs: seq<string>, known: seq<string>) {
    r.errorIdx < |strs|
    && (r.errorIdx > 0 <==> ErrorText(item, known).Some?)
    && (r.errorIdx > 0 ==> ErrorText(item, known) == Some(strs[r.errorIdx]))
  }

  ghost predicate LabelMatches(r: Record, item: Item, strs: seq<string>, known: seq<string>) {
    r.labelIdx < |strs| && strs[r.labelIdx] == LabelText(item, known)
  }

  ghost predicate SameNumbers(r: Record, item: Item) {
    r == item.record.(errorIdx := r.errorIdx, labelIdx := r.labelIdx)
  }

  ghost predicate Matches(r: Record, item: Item, strs: seq<string>, known: seq<string>) {
    InRange(r) && SameNumbers(r, item)
    && ErrorMatches(r, item, strs, known) && LabelMatches(r, item, strs, known)
  }

  function Strings(o: Option<string>): seq<string> {
    if o.None? then [] else [o.value]
  }

  function Waiting(pc: PC): seq<string> {
    if pc.Idle? then [] else Strings(pc.unwritten)
  }

  ghost predicate PcSound(pc: PC, strs: seq<string>, known: seq<string>) {
    (forall s :: s in Waiting(pc) ==> Clean(s))
    && match pc
       case Idle => true
       case ErrorNumbered(item, r, _) =>
         Sound(item, |known|) && CleanItem(item) && InRange(r) && SameNumbers(r, item)
         && r.labelIdx == item.record.labelIdx
         && ErrorMatches(r, item, strs, known)
       case LabelNumbered(item, r, _) => Matches(r, item, strs, known)
  }

  ghost predicate TextSound(t: Table, text: string, waiting: seq<string>, known: seq<string>) {
    Good(t) && Terminated(text) && known <= t.index && StringsOf(text) + waiting == t.index
    && (t.mapping[""] > 0 <==> EmptyLine(known))
  }

  // Everything written so far is described by the strings given.
  ghost predicate RecordsSound(records: seq<Record>, done: seq<Item>, strs: seq<string>, known: seq<string>) {
    |records| == |done|
    && forall i :: 0 <= i < |records| ==> Matches(records[i], done[i], strs, known)
  }

  ghost predicate TodoSound(todo: seq<Item>, known: seq<string>) {
    forall item :: item in todo ==> Sound(item, |known|) && CleanItem(item)
  }

  // The strings that describe the records are complete lines of the strings file.
  ghost predicate WriterInv(w: Writer, known: seq<string>) {
    TextSound(w.table, w.text, Waiting(w.pc), known)
    && PcSound(w.pc, w.table.index, known)
    && RecordsSound(w.records, w.done, StringsOf(w.text), known)
    && TodoSound(w.todo, known)
    && w.file + w.buf == Flatten(Map(Encode, w.records))
  }

  lemma RecordsGrow(records: seq<Record>, done: seq<Item>, strs: seq<string>, more: seq<string>, known: seq<string>)
    requires RecordsSound(records, done, strs, known) && strs <= more
    ensures RecordsSound(records, done, more, known)
  {}

  // Numbering a string when none is waiting.
  lemma NumberKeeps(t: Table, text: string, s: string, known: seq<string>)
    requires TextSound(t, text, [], known) && |Intern(t, s).0.index| <= CAPACITY
    ensures var (i, t', unwritten) := NumberFor(t, s);
            TextSound(t', text, Strings(unwritten), known)
            && i < |t'.index| && t'.index[i] == s && t.index <= t'.index
            && (unwritten.Some? ==> unwritten.value == s)
  {
    InternKeeps(t, s);
    assert StringsOf(text) + [] == t.index;
  }

  lemma StartItemKeeps(w: Writer, known: seq<string>)
    requires WriterInv(w, known) && known != [] && known[0] == ""
    requires |Write(w, StartItem).table.index| <= CAPACITY
    ensures WriterInv(Write(w, StartItem), known)
  {
    if w.pc.Idle? && w.todo != [] {
      var item := w.todo[0];
      assert Sound(item, |known|) && CleanItem(item);
      if item.error.Some? && item.record.errorIdx == 0 {
        NumberKeeps(w.table, w.text, item.error.value, known);
        ErrorNumberedSound(w.table, item, known);
      } else {
        GivenErrorSound(w.table, item, known);
      }
    }
  }

  lemma ErrorNumberedSound(t: Table, item: Item, known: seq<string>)
    requires Sound(item, |known|) && CleanItem(item) && item.error.Some? && item.record.errorIdx == 0
    requires "" in t.mapping && (t.mapping[""] > 0 <==> EmptyLine(known))
    requires Good(t) && |Intern(t, item.error.value).0.index| <= CAPACITY
    ensures var (i, t', unwritten) := NumberFor(t, item.error.value);
            PcSound(ErrorNumbered(item, item.record.(errorIdx := i), unwritten), t'.index, known)
  {}

  lemma GivenErrorSound(t: Table, item: Item, known: seq<string>)
    requires known <= t.index && Sound(item, |known|) && CleanItem(item)
    requires !(item.error.Some? && item.record.errorIdx == 0)
    ensures PcSound(ErrorNumbered(item, item.record, None), t.index, known)
  {}

  lemma NumberLabelKeeps(w: Writer, known: seq<string>)
    requires WriterInv(w, known) && |Write(w, NumberLabel).table.index| <= CAPACITY
    ensures WriterInv(Write(w, NumberLabel), known)
  {
    if w.pc.ErrorNumbered? && w.pc.unwritten.None? {
      var item, r := w.pc.item, w.pc.record;
      if item.name != "" && r.labelIdx == 0 {
        NumberKeeps(w.table, w.text, item.name, known);
        LabelNumberedSound(w.table, item, r, known);
      } else {
        GivenLabelSound(w.table, item, r, known);
      }
    }
  }

  lemma LabelNumberedSound(t: Table, item: Item, r: Record, known: seq<string>)
    requires Good(t) && |Intern(t, item.name).0.index| <= CAPACITY
    requires PcSound(ErrorNumbered(item, r, None), t.index, known)
    requires item.name != "" && r.labelIdx == 0
    ensures var (i, t', unwritten) := NumberFor(t, item.name);
            PcSound(LabelNumbered(item, r.(labelIdx := i), unwritten), t'.index, known)
  {}

  lemma GivenLabelSound(t: Table, item: Item, r: Record, known: seq<string>)
    requires known <= t.index && PcSound(ErrorNumbered(item, r, None), t.index, known)
    requires item.name == "" || r.labelIdx != 0
    ensures PcSound(LabelNumbered(item, r, None), t.index, known)
  {}

  lemma AppendStringKeeps(w: Writer, known: seq<string>)
    requires WriterInv(w, known)
    ensures WriterInv(Write(w, AppendString), known)
  {
    if !w.pc.Idle? && w.pc.unwritten.Some? {
      var s, w' := w.pc.unwritten.value, Write(w, AppendString);
      assert s in Waiting(w.pc);
      LineAppended(w.text, s);
      RecordsGrow(w.records, w.done, StringsOf(w.text), StringsOf(w'.text), known);
    }
  }

  lemma LineAppended(text: string, s: string)
    requires Terminated(text) && Clean(s)
    ensures Terminated(text + (s + "\n"))
    ensures StringsOf(text + (s + "\n")) == StringsOf(text) + [s]
  {
    AppendLine(text, s);
    ReaderLinesAppend(text, s);
  }

  lemma WriteRecordKeeps(w: Writer, w': Writer, known: seq<string>)
    requires WriterInv(w, known) && w.pc.LabelNumbered? && w.pc.unwritten.None?
    requires w' == w.(buf := w.buf + Encode(w.pc.record), records := w.records + [w.pc.record],
                      done := w.done + [w.pc.item], pc := Idle)
    ensures WriterInv(w', known)
  {
    RecordAppended(w.records, w.pc.record);
    Reassociate(w.file, w.buf, Encode(w.pc.record));
    TakeAll(StringsOf(w.text));
    OneRecordMore(w.records, w.pc.record, w.done, w.pc.item, StringsOf(w.text), known);
  }

  lemma OneRecordMore(records: seq<Record>, r: Record, done: seq<Item>, item: Item, strs: seq<string>,
                      known: seq<string>)
    requires RecordsSound(records, done, strs, known) && Matches(r, item, strs, known)
    ensures RecordsSound(records + [r], done + [item], strs, known)
  {}

  lemma RecordAppended(records: seq<Record>, r: Record)
    ensures Flatten(Map(Encode, records + [r])) == Flatten(Map(Encode, records)) + Encode(r)
  {
    MapAppend(Encode, records, [r]);
    assert Map(Encode, [r]) == [Encode(r)];
    FlattenAppend(Map(Encode, records), [Encode(r)]);
    FlattenOne(Encode(r));
  }

  lemma FlushKeeps(w: Writer, w': Writer, n: nat, known: seq<string>)
    requires WriterInv(w, known) && n <= |w.buf| && w' == w.(file := w.file + w.buf[..n], buf := w.buf[n..])
    ensures WriterInv(w', known)
  {
    MoveOver(w.file, w.buf, n);
  }

  lemma WriteKeeps(w: Writer, e: Event, known: seq<string>)
    requires WriterInv(w, known) && known != [] && known[0] == "" && |Write(w, e).table.index| <= CAPACITY
    ensures WriterInv(Write(w, e), known)
  {
    match e
    case StartItem => StartItemKeeps(w, known);
    case AppendString => AppendStringKeeps(w, known);
    case NumberLabel => NumberLabelKeeps(w, known);
    case WriteRecord => if Write(w, e) != w { WriteRecordKeeps(w, Write(w, e), known); }
    case Flush(n) => if n <= |w.buf| { FlushKeeps(w, Write(w, e), n, known); }
    case Read(_) =>
    case Look =>
  }

  // ---------------------------------------------------------------- the reader's side

  lemma MatchingRow(r: Record, item: Item, strs: seq<string>, known: seq<string>, phrases: Phrases)
    requires Matches(r, item, strs, known)
    ensures RowerFor(strs, phrases)(Encode(r)) == Expected(item, known, phrases)
  {
    DecodeEncode(r);
    MatchingTexts(r, item, strs, known, phrases);
  }

  lemma MatchingTexts(r: Record, item: Item, strs: seq<string>, known: seq<string>, phrases: Phrases)
    requires SameNumbers(r, item) && ErrorMatches(r, item, strs, known) && LabelMatches(r, item, strs, known)
    ensures RowOf(r, strs, phrases) == Expected(item, known, phrases)
  {}

  // The rows of the items, up to the first that cannot be described: a status of an error without a
  // text or a phrase.
  function RowsFor(items: seq<Item>, known: seq<string>, phrases: Phrases): (rows: seq<Row>)
    ensures |rows| <= |items|
    ensures forall i :: 0 <= i < |rows| ==> Expected(items[i], known, phrases) == Some(rows[i])
    ensures |rows| < |items| ==> Expected(items[|rows|], known, phrases) == None
  {
    if items == [] || Expected(items[0], known, phrases).None? then []
    else
      var more := RowsFor(items[1..], known, phrases);
      assert forall i :: 0 <= i <= |more| && i + 1 < |items| ==> items[i + 1] == items[1..][i];
      [Expected(items[0], known, phrases).value] + more
  }

  ghost predicate Describable(items: seq<Item>, known: seq<string>, phrases: Phrases) {
    forall i :: 0 <= i < |items| ==> Expected(items[i], known, phrases).Some?
  }

  lemma AllRowsIff(items: seq<Item>, known: seq<string>, phrases: Phrases)
    ensures |RowsFor(items, known, phrases)| == |items| <==> Describable(items, known, phrases)
  {}

  // The bytes that are not rows yet.
  function Held(r: Reader): seq<byte> { if r.call.Call? then r.call.left else r.partial }

  // What the reader has been given: some of the records written, which it has turned into their rows,
  // and what it has not turned into rows yet; or it has raised, at the record after the last row.
  ghost predicate ReaderInv(r: Reader, file: seq<byte>, cs: seq<Chunk>, rows: seq<Row>) {
    r.given <= file && |r.rows| <= |cs| && |r.rows| <= |rows| && r.rows == rows[..|r.rows|]
    && if r.raised then
         |r.rows| == |rows| < |cs| && r.call.NoCall? && (|r.rows| + 1) * CHUNK_LEN <= |r.given|
       else r.given == Flatten(cs[..|r.rows|]) + Held(r) && (r.call.NoCall? ==> |r.partial| < CHUNK_LEN)
  }

  // The rows of all the records, as a reader would make them now.
  lemma RowsOfRecords(records: seq<Record>, done: seq<Item>, items: seq<Item>, strs: seq<string>, known: seq<string>,
                      phrases: Phrases)
    requires RecordsSound(records, done, strs, known) && done <= items
    ensures RowsAre(Map(Encode, records), RowsFor(items, known, phrases), RowerFor(strs, phrases))
  {
    forall i | 0 <= i < |records|
      ensures RowerFor(strs, phrases)(Map(Encode, records)[i]) == Expected(items[i], known, phrases)
    {
      MatchingRow(records[i], done[i], strs, known, phrases);
    }
  }

  lemma ChunkFollows(given: seq<byte>, cs: seq<Chunk>, k: nat, left: seq<byte>)
    requires k <= |cs| && given == Flatten(cs[..k]) + left && given <= Flatten(cs) && |left| >= CHUNK_LEN
    ensures k < |cs| && left[..CHUNK_LEN] == cs[k]
  {
    Halves(cs, k);
    FlattenAppend(cs[..k], cs[k..]);
    DropPrefix(Flatten(cs[..k]), left, Flatten(cs[k..]));
    FirstChunk(cs[k..], left);
  }

  lemma ChunkTaken(cs: seq<Chunk>, k: nat, left: seq<byte>)
    requires k < |cs| && |left| >= CHUNK_LEN && left[..CHUNK_LEN] == cs[k]
    ensures Flatten(cs[..k]) + left == Flatten(cs[..k + 1]) + left[CHUNK_LEN..]
  {
    TakeMore(cs, k, 1);
    FlattenAppend(cs[..k], [cs[k]]);
    FlattenOne(cs[k]);
    assert cs[k..][..1] == [cs[k]];
    Halves(left, CHUNK_LEN);
    Reassociate(Flatten(cs[..k]), cs[k], left[CHUNK_LEN..]);
  }

  // What is not turned into rows yet begins with the next record.
  lemma NextChunk(r: Reader, file: seq<byte>, cs: seq<Chunk>, rows: seq<Row>)
    requires ReaderInv(r, file, cs, rows) && Busy(r) && file <= Flatten(cs) && !r.raised
    ensures |r.rows| < |cs| && r.call.left[..CHUNK_LEN] == cs[|r.rows|]
    ensures r.given == Flatten(cs[..|r.rows| + 1]) + r.call.left[CHUNK_LEN..]
  {
    PrefixOfPrefix(r.given, file, Flatten(cs));
    ChunkFollows(r.given, cs, |r.rows|, r.call.left);
    ChunkTaken(cs, |r.rows|, r.call.left);
  }

  lemma FirstChunk(cs: seq<Chunk>, x: seq<byte>)
    requires x <= Flatten(cs) && |x| >= CHUNK_LEN
    ensures cs != [] && x[..CHUNK_LEN] == cs[0]
  {}

  lemma TakeKeeps(r: Reader, n: nat, file: seq<byte>, cs: seq<Chunk>, rows: seq<Row>)
    requires ReaderInv(r, file, cs, rows)
    ensures ReaderInv(Take(r, n, file), file, cs, rows)
  {
    if |r.given| + n <= |file| && !r.raised && r.call.NoCall? {
      NextPart(r.given, file, n);
      Reassociate(Flatten(cs[..|r.rows|]), r.partial, Part(file, |r.given|, n));
    }
  }

  // The row of the next record, or the end of it.
  lemma RowKeeps(r: Reader, pos: nat, row: Option<Row>, file: seq<byte>, cs: seq<Chunk>, rows: seq<Row>, rower: Rower)
    requires ReaderInv(r, file, cs, rows) && Busy(r) && !r.raised && file <= Flatten(cs) && RowsAre(cs, rows, rower)
    requires row == rower(r.call.left[..CHUNK_LEN])
    ensures ReaderInv(RowMade(r, pos, row), file, cs, rows)
  {
    var k := |r.rows|;
    NextChunk(r, file, cs, rows);
    if k < |rows| {
      assert row == Some(rows[k]);
      TakeMore(rows, k, 1);
      assert rows[k..][..1] == [rows[k]];
    } else {
      assert row == None;
    }
  }

  // ---------------------------------------------------------------- what a look-up finds

  // The number belongs to a line that ends within so many portions.
  ghost predicate WithinReach(text: string, pos: nat, portions: nat, idx: nat) {
    exists goal: nat :: AtLine(text, goal) && idx < |StringsOf(text[..goal])| && goal <= pos + portions * PORTION
  }

  lemma AskReaches(text: string, pos: nat, portions: nat, idx: nat)
    requires AtLine(text, pos) && WithinReach(text, pos, portions, idx) && portions > 0
    ensures AtLine(text, NextPos(text, pos)) && WithinReach(text, NextPos(text, pos), portions - 1, idx)
  {
    var goal: nat :| AtLine(text, goal) && idx < |StringsOf(text[..goal])| && goal <= pos + portions * PORTION;
    var next := NextPos(text, pos);
    PortionTaken(text, pos);
    assert AtLine(text, next);
    if next - pos < PORTION {
      NothingMore(text, pos);
      StringsGrow(text, goal, |text|);
      TakeAll(text);
    } else {
      assert goal <= next + (portions - 1) * PORTION;
    }
  }

  lemma GoalKnown(text: string, goal: nat, pos: nat)
    requires AtLine(text, goal) && AtLine(text, pos)
    ensures goal <= pos ==> |StringsOf(text[..goal])| <= |StringsOf(text[..pos])|
  {
    if goal <= pos { StringsGrow(text, goal, pos); }
  }

  lemma NotReached(text: string, pos: nat, portions: nat, idx: nat)
    requires AtLine(text, pos) && WithinReach(text, pos, portions, idx) && idx >= |StringsOf(text[..pos])|
    ensures portions > 0
  {
    var goal: nat :| AtLine(text, goal) && idx < |StringsOf(text[..goal])| && goal <= pos + portions * PORTION;
    GoalKnown(text, goal, pos);
  }

  lemma WholeInReach(text: string, pos: nat, portions: nat, idx: nat)
    requires Terminated(text) && idx < |StringsOf(text)| && |text| <= pos + portions * PORTION
    ensures WithinReach(text, pos, portions, idx)
  {
    TakeAll(text);
    assert AtLine(text, |text|);
  }

  lemma KnownIsOfFile(text: string, pos: nat, idx: nat)
    requires AtLine(text, pos) && idx < |StringsOf(text[..pos])|
    ensures idx < |StringsOf(text)| && StringsOf(text)[idx] == StringsOf(text[..pos])[idx]
  {
    StringsGrow(text, pos, |text|);
    TakeAll(text);
  }

  lemma ReachGrows(text: string, more: string, pos: nat, portions: nat, idx: nat)
    requires text <= more && WithinReach(text, pos, portions, idx)
    ensures WithinReach(more, pos, portions, idx)
  {
    var goal: nat :| AtLine(text, goal) && idx < |StringsOf(text[..goal])| && goal <= pos + portions * PORTION;
    StillAtLine(text, more, goal);
    assert more[..goal] == text[..goal];
  }

  lemma StillAtLine(text: string, more: string, pos: nat)
    requires AtLine(text, pos) && text <= more
    ensures AtLine(more, pos)
  {
    assert more[..pos] == text[..pos];
  }

  // The text of an error that a record has.
  function ErrorOf(r: Record, strs: seq<string>): Option<string> {
    if r.errorIdx > 0 then Some(LookUp(strs, r.errorIdx)) else None
  }

  // A look-up that is under way will find its string, and one that is over has found it.
  ghost predicate Looking(r: Reader, text: string, tries: nat, m: Maker) {
    AtLine(text, r.pos)
    && (Busy(r) ==>
          r.call.tries <= tries
          && (r.call.tries > 0 ==> Seeks(r, m) && WithinReach(text, r.pos, tries - r.call.tries, Sought(r, m)))
          && (r.call.stage.LabelSought? ==> r.call.stage.error == ErrorOf(Current(r, m), StringsOf(text))))
  }

  // The numbers of all the records have strings.
  ghost predicate HaveStrings(cs: seq<Chunk>, strs: seq<string>, m: Maker) {
    forall i :: 0 <= i < |cs| ==> m.decode(cs[i]).errorIdx < |strs| && m.decode(cs[i]).labelIdx < |strs|
  }

  // The rows come from the texts of the file.
  ghost predicate Makes(m: Maker, rower: Rower, strs: seq<string>) {
    forall c: Chunk :: rower(c) == m.row(m.decode(c), LookUp(strs, m.decode(c).labelIdx), ErrorOf(m.decode(c), strs))
  }

  // What a step of a call keeps: everything there is to know about the reader.
  ghost predicate Reading(r: Reader, file: seq<byte>, cs: seq<Chunk>, rows: seq<Row>, text: string, tries: nat,
                          m: Maker) {
    ReaderInv(r, file, cs, rows) && Looking(r, text, tries, m)
  }

  lemma AskKeeps(r: Reader, file: seq<byte>, cs: seq<Chunk>, rows: seq<Row>, text: string, tries: nat, m: Maker)
    requires Reading(r, file, cs, rows, text, tries, m) && !r.raised && Seeks(r, m) && r.call.tries < tries
    requires WithinReach(text, r.pos, tries - r.call.tries, Sought(r, m))
    ensures Reading(Asked(r, NextPos(text, r.pos)), file, cs, rows, text, tries, m)
  {
    AskReaches(text, r.pos, tries - r.call.tries, Sought(r, m));
  }

  lemma FoundKeeps(r: Reader, file: seq<byte>, cs: seq<Chunk>, rows: seq<Row>, text: string, tries: nat, m: Maker,
                   rower: Rower)
    requires Reading(r, file, cs, rows, text, tries, m) && !r.raised && Seeks(r, m) && file <= Flatten(cs)
    requires RowsAre(cs, rows, rower) && Makes(m, rower, StringsOf(text))
    requires Sought(r, m) < |StringsOf(text[..r.pos])|
    ensures Reading(Found(r, r.pos, StringsOf(text[..r.pos])[Sought(r, m)], m), file, cs, rows, text, tries, m)
  {
    var s := StringsOf(text[..r.pos])[Sought(r, m)];
    KnownIsOfFile(text, r.pos, Sought(r, m));
    if r.call.stage.LabelSought? {
      var row := m.row(Current(r, m), s, r.call.stage.error);
      assert row == rower(r.call.left[..CHUNK_LEN]);
      RowKeeps(r, r.pos, row, file, cs, rows, rower);
    }
  }

  lemma LookKeeps(r: Reader, file: seq<byte>, cs: seq<Chunk>, rows: seq<Row>, text: string, v: View, m: Maker,
                  rower: Rower)
    requires Reading(r, file, cs, rows, text, v.tries, m) && file <= Flatten(cs) && v.tries > 0
    requires RowsAre(cs, rows, rower) && Makes(m, rower, StringsOf(text)) && HaveStrings(cs, StringsOf(text), m)
    requires v.known(r.pos) == StringsOf(text[..r.pos]) && v.next(r.pos) == NextPos(text, r.pos) && Terminated(text)
    requires Seeks(r, m) && r.call.tries == 0 && Sought(r, m) >= |v.known(r.pos)| ==>
               |text| <= r.pos + v.tries * PORTION
    ensures Reading(LookOn(r, v, m), file, cs, rows, text, v.tries, m)
  {
    if Busy(r) {
      if Seeks(r, m) {
        if Sought(r, m) < |v.known(r.pos)| {
          FoundKeeps(r, file, cs, rows, text, v.tries, m, rower);
        } else {
          StillToFind(r, file, cs, rows, text, v.tries, m);
          AskKeeps(r, file, cs, rows, text, v.tries, m);
        }
      }
    }
  }

  // A number that is not known yet is within reach of the tries left, so that there are some.
  lemma StillToFind(r: Reader, file: seq<byte>, cs: seq<Chunk>, rows: seq<Row>, text: string, tries: nat, m: Maker)
    requires Reading(r, file, cs, rows, text, tries, m) && file <= Flatten(cs) && tries > 0 && !r.raised
    requires HaveStrings(cs, StringsOf(text), m) && Terminated(text)
    requires Seeks(r, m) && Sought(r, m) >= |StringsOf(text[..r.pos])|
    requires r.call.tries == 0 ==> |text| <= r.pos + tries * PORTION
    ensures r.call.tries < tries && WithinReach(text, r.pos, tries - r.call.tries, Sought(r, m))
  {
    if r.call.tries == 0 {
      NextChunk(r, file, cs, rows);
      WholeInReach(text, r.pos, tries, Sought(r, m));
    } else {
      NotReached(text, r.pos, tries - r.call.tries, Sought(r, m));
    }
  }

  // ---------------------------------------------------------------- one push is five steps

  const PUSH: seq<Event> := [StartItem, AppendString, NumberLabel, AppendString, WriteRecord]

  function WriteAll(w: Writer, es: seq<Event>): Writer
    decreases |es|
  {
    if es == [] then w else WriteAll(Write(w, es[0]), es[1..])
  }

  lemma FiveWrites(w: Writer)
    ensures WriteAll(w, PUSH)
              == Write(Write(Write(Write(Write(w, StartItem), AppendString), NumberLabel), AppendString), WriteRecord)
  {}

  lemma ErrorSteps(w: Writer)
    requires w.pc.Idle? && w.todo != []
    ensures var item := w.todo[0];
            var r := item.record.(errorIdx := Numbered(item, w.table).0.errorIdx);
            Write(Write(w, StartItem), AppendString)
              == w.(todo := w.todo[1..], table := ErrorTable(item, w.table), pc := ErrorNumbered(item, r, None),
                    text := w.text + ErrorLine(item, w.table))
  {}

  lemma LabelSteps(w: Writer)
    requires w.pc.ErrorNumbered? && w.pc.unwritten.None?
    ensures var item, r, isNew := w.pc.item, w.pc.record, w.pc.item.name != "" && w.pc.record.labelIdx == 0;
            Write(Write(w, NumberLabel), AppendString)
              == w.(table := if isNew then Intern(w.table, item.name).0 else w.table,
                    pc := LabelNumbered(item, if isNew then r.(labelIdx := Intern(w.table, item.name).1) else r, None),
                    text := w.text + if isNew then LineIfNew(item.name, w.table) else "")
  {}

  // Left to itself, the drain does to the index, its file and the records what one push does.
  lemma PushIsFiveSteps(w: Writer)
    requires w.pc.Idle? && w.todo != []
    ensures var item, r := w.todo[0], Numbered(w.todo[0], w.table).0;
            WriteAll(w, PUSH)
              == w.(todo := w.todo[1..], done := w.done + [item], records := w.records + [r],
                    table := Numbered(item, w.table).1,
                    text := w.text + ErrorLine(item, w.table) + LabelLine(item, w.table),
                    buf := w.buf + Encode(r))
  {
    FiveWrites(w);
    ErrorSteps(w);
    LabelSteps(Write(Write(w, StartItem), AppendString));
  }

  // ---------------------------------------------------------------- every run

  // A row carries the figures of its item, and its texts: those numbered for it, or those of the
  // numbers it came with, or the phrase of its status.
  lemma RowsCarryItems(items: seq<Item>, known: seq<string>, phrases: Phrases, i: nat)
    requires i < |RowsFor(items, known, phrases)| && Sound(items[i], |known|)
    ensures var row, item := RowsFor(items, known, phrases)[i], items[i];
            var r := item.record;
            row.timestamp == r.startTS && row.status == r.status && row.concurrency == r.concurrency
            && row.elapsed == r.elapsed && row.connectTime == r.connectTime && row.firstByteTime == r.firstByteTime
            && row.byteCount == r.sentBytes + r.respBytes
            && row.name == (if item.name != "" && r.labelIdx == 0 then item.name else known[r.labelIdx])
            && (if Said(item, known) != "" then row.error == Some(Said(item, known))
                else if r.status >= 400 then row.error == phrases(r.status)
                else row.error == if r.errorIdx > 0 || (item.error.Some? && EmptyLine(known)) then Some("") else None)
  {
    assert Expected(items[i], known, phrases) == Some(RowsFor(items, known, phrases)[i]);
  }

  // The error an item tells of, if any: that of the number it came with, or its own.
  function Said(item: Item, known: seq<string>): string
    requires item.record.errorIdx < |known|
  {
    if item.record.errorIdx > 0 then known[item.record.errorIdx]
    else if item.error.Some? then item.error.value else ""
  }

  // It is no failure, or tells of an error, or has a status with a phrase.
  predicate Speaks(item: Item, known: seq<string>, phrases: Phrases) {
    item.record.status < 400 || (item.record.errorIdx < |known| && Said(item, known) != "")
    || phrases(item.record.status).Some?
  }

  lemma SpeaksIff(item: Item, known: seq<string>, phrases: Phrases)
    requires Sound(item, |known|)
    ensures Expected(item, known, phrases).Some? <==> Speaks(item, known, phrases)
  {}

  // Every item has its row if and only if each does.
  lemma EachHasRowIff(items: seq<Item>, known: seq<string>, phrases: Phrases)
    requires forall item :: item in items ==> Sound(item, |known|)
    ensures |RowsFor(items, known, phrases)| == |items|
       <==> forall item :: item in items ==> Speaks(item, known, phrases)
  {
    AllRowsIff(items, known, phrases);
    forall i | 0 <= i < |items|
      ensures Expected(items[i], known, phrases).Some? <==> Speaks(items[i], known, phrases)
    {
      assert items[i] in items;
      SpeaksIff(items[i], known, phrases);
    }
  }

  function InHand(pc: PC): seq<Item> {
    if pc.Idle? then [] else [pc.item]
  }

  ghost predicate Inv(w: Writer, r: Reader, items: seq<Item>, known: seq<string>, rows: seq<Row>) {
    WriterInv(w, known)
    && w.done + InHand(w.pc) + w.todo == items
    && ReaderInv(r, w.file, Map(Encode, w.records), rows)
  }

  lemma ItemsKept(w: Writer, e: Event)
    ensures var w' := Write(w, e);
            w'.done + InHand(w'.pc) + w'.todo == w.done + InHand(w.pc) + w.todo
            && w.done <= w'.done
  {}

  lemma ReaderSeesMore(r: Reader, file: seq<byte>, more: seq<byte>, cs: seq<Chunk>, cs': seq<Chunk>, rows: seq<Row>)
    requires ReaderInv(r, file, cs, rows) && file <= more && cs <= cs'
    ensures ReaderInv(r, more, cs', rows)
  {
    assert cs'[..|r.rows|] == cs[..|r.rows|];
  }

  lemma FilesGrow(w: Writer, e: Event)
    ensures w.file <= Write(w, e).file && w.records <= Write(w, e).records && w.text <= Write(w, e).text
    ensures |w.table.index| <= |Write(w, e).table.index|
  {}

  lemma WriteStepKeeps(w: Writer, r: Reader, e: Event, items: seq<Item>, known: seq<string>, rows: seq<Row>)
    requires Inv(w, r, items, known, rows)
    requires known != [] && known[0] == "" && |Write(w, e).table.index| <= CAPACITY
    ensures Inv(Write(w, e), r, items, known, rows)
  {
    WriteKeeps(w, e, known);
    ItemsKept(w, e);
    FilesGrow(w, e);
    MapPrefix(Encode, w.records, Write(w, e).records);
    ReaderSeesMore(r, w.file, Write(w, e).file, Map(Encode, w.records), Map(Encode, Write(w, e).records), rows);
  }

  lemma RowIsMade(r: Record, strs: seq<string>, phrases: Phrases)
    ensures RowOf(r, strs, phrases) == MakerFor(phrases).row(r, LookUp(strs, r.labelIdx), ErrorOf(r, strs))
  {}

  lemma MakesRows(strs: seq<string>, phrases: Phrases)
    ensures Makes(MakerFor(phrases), RowerFor(strs, phrases), strs)
  {
    var m, rower := MakerFor(phrases), RowerFor(strs, phrases);
    forall c: Chunk
      ensures rower(c) == m.row(m.decode(c), LookUp(strs, m.decode(c).labelIdx), ErrorOf(m.decode(c), strs))
    {
      RowIsMade(Decode(c), strs, phrases);
    }
  }

  lemma AllNumbered(w: Writer, known: seq<string>, phrases: Phrases)
    requires WriterInv(w, known)
    ensures HaveStrings(Map(Encode, w.records), StringsOf(w.text), MakerFor(phrases))
  {
    forall i | 0 <= i < |w.records|
      ensures Decode(Encode(w.records[i])).errorIdx < |StringsOf(w.text)|
      ensures Decode(Encode(w.records[i])).labelIdx < |StringsOf(w.text)|
    {
      assert Matches(w.records[i], w.done[i], StringsOf(w.text), known);
      DecodeEncode(w.records[i]);
    }
  }

  lemma LookStepKeeps(w: Writer, r: Reader, items: seq<Item>, known: seq<string>, phrases: Phrases, rows: seq<Row>)
    requires Inv(w, r, items, known, rows) && rows == RowsFor(items, known, phrases)
    requires Looking(r, w.text, TRIES, MakerFor(phrases))
    requires Asks(r, w.text, MakerFor(phrases)) ==> |w.text| <= r.pos + TRIES * PORTION
    ensures var r' := LookOn(r, ViewOf(w.text, TRIES), MakerFor(phrases));
            Inv(w, r', items, known, rows) && Looking(r', w.text, TRIES, MakerFor(phrases))
  {
    var m, v, strs := MakerFor(phrases), ViewOf(w.text, TRIES), StringsOf(w.text);
    DoneIsFront(w, items);
    RowsOfRecords(w.records, w.done, items, strs, known, phrases);
    MakesRows(strs, phrases);
    AllNumbered(w, known, phrases);
    LookKeeps(r, w.file, Map(Encode, w.records), rows, w.text, v, m, RowerFor(strs, phrases));
  }

  // A line more in the file leaves what a call has found as it is.
  lemma LookingGrows(r: Reader, text: string, more: string, tries: nat, m: Maker)
    requires Looking(r, text, tries, m) && text <= more && AtLine(text, |text|)
    requires Busy(r) ==> Current(r, m).errorIdx < |StringsOf(text)|
    ensures Looking(r, more, tries, m)
  {
    StillAtLine(text, more, r.pos);
    if Busy(r) {
      if r.call.tries > 0 { ReachGrows(text, more, r.pos, tries - r.call.tries, Sought(r, m)); }
      StringsGrow(more, |text|, |more|);
      assert more[..|text|] == text && more[..|more|] == more;
    }
  }

  lemma DoneIsFront(w: Writer, items: seq<Item>)
    requires w.done + InHand(w.pc) + w.todo == items
    ensures w.done <= items
  {}

  lemma DoWrites(s: State, e: Event, phrases: Phrases)
    requires !e.Read? && !e.Look?
    ensures Do(s, e, phrases) == State(Write(s.w, e), s.r)
  {}

  ghost predicate StateInv(s: State, items: seq<Item>, known: seq<string>, rows: seq<Row>, phrases: Phrases) {
    Inv(s.w, s.r, items, known, rows) && Looking(s.r, s.w.text, TRIES, MakerFor(phrases))
  }

  lemma WriterKeepsLooking(w: Writer, r: Reader, e: Event, items: seq<Item>, known: seq<string>, rows: seq<Row>,
                           phrases: Phrases)
    requires Inv(w, r, items, known, rows) && Looking(r, w.text, TRIES, MakerFor(phrases))
    ensures Looking(r, Write(w, e).text, TRIES, MakerFor(phrases))
  {
    var cs := Map(Encode, w.records);
    FilesGrow(w, e);
    AllNumbered(w, known, phrases);
    TakeAll(w.text);
    FileIsFlat(w);
    if Busy(r) { NextChunk(r, w.file, cs, rows); }
    LookingGrows(r, w.text, Write(w, e).text, TRIES, MakerFor(phrases));
  }

  lemma FileIsFlat(w: Writer)
    requires w.file + w.buf == Flatten(Map(Encode, w.records))
    ensures w.file <= Flatten(Map(Encode, w.records))
  {}

  lemma StepKeeps(s: State, e: Event, items: seq<Item>, known: seq<string>, phrases: Phrases, rows: seq<Row>)
    requires StateInv(s, items, known, rows, phrases) && rows == RowsFor(items, known, phrases)
    requires known != [] && known[0] == "" && |Do(s, e, phrases).w.table.index| <= CAPACITY
    requires e.Look? && Asks(s.r, s.w.text, MakerFor(phrases)) ==> |s.w.text| <= s.r.pos + TRIES * PORTION
    ensures StateInv(Do(s, e, phrases), items, known, rows, phrases)
  {
    if e.Read? {
      TakeKeeps(s.r, e.n, s.w.file, Map(Encode, s.w.records), rows);
    } else if e.Look? {
      LookStepKeeps(s.w, s.r, items, known, phrases, rows);
    } else {
      DoWrites(s, e, phrases);
      WriteStepKeeps(s.w, s.r, e, items, known, rows);
      WriterKeepsLooking(s.w, s.r, e, items, known, rows, phrases);
    }
  }

  lemma {:induction false} IndexGrows(s: State, es: seq<Event>, phrases: Phrases)
    ensures |s.w.table.index| <= |Run(s, es, phrases).w.table.index|
    decreases |es|
  {
    if es != [] {
      FilesGrow(s.w, es[0]);
      IndexGrows(Do(s, es[0], phrases), es[1..], phrases);
    }
  }

  lemma {:induction false} RunKeeps(s: State, es: seq<Event>, items: seq<Item>, known: seq<string>, phrases: Phrases,
                                    rows: seq<Row>)
    requires StateInv(s, items, known, rows, phrases) && rows == RowsFor(items, known, phrases)
    requires known != [] && known[0] == "" && |Run(s, es, phrases).w.table.index| <= CAPACITY
    requires KeepsUp(s, es, phrases)
    ensures StateInv(Run(s, es, phrases), items, known, rows, phrases)
    decreases |es|
  {
    if es != [] {
      IndexGrows(Do(s, es[0], phrases), es[1..], phrases);
      StepKeeps(s, es[0], items, known, phrases, rows);
      RunKeeps(Do(s, es[0], phrases), es[1..], items, known, phrases, rows);
    }
  }

  // The number of the empty string is that of the last line that is empty.
  lemma {:induction false} EmptyLoaded(t: Table, lines: seq<string>)
    requires Good(t) && |t.index| + |lines| <= CAPACITY
    ensures "" in AddAll(t, lines).mapping
    ensures AddAll(t, lines).mapping[""] > 0 <==> t.mapping[""] > 0 || "" in lines
    decreases |lines|
  {
    if lines != [] {
      AddKeeps(t, lines[0]);
      EmptyLoaded(Add(t, lines[0]), lines[1..]);
      assert "" in lines <==> lines[0] == "" || "" in lines[1..];
    }
  }

  // A copied file whose lines all survive loads as the strings the reader will find in it.
  lemma LoadedStrings(text: string)
    requires SoundFile(text)
    ensures Good(Load(text)) && Load(text).index == StringsOf(text)
    ensures Load(text).mapping[""] > 0 <==> EmptyLine(StringsOf(text))
  {
    forall l | l in Lines(text) ensures DropCR(l) == RStrip(l) == l { CleanIsKept(l); }
    assert ScanLines(text) == ReaderLines(text) == Lines(text);
    LoadIsGood(EMPTY, Lines(text));
    EmptyLoaded(EMPTY, Lines(text));
    assert StringsOf(text)[1..] == Lines(text);
  }

  ghost predicate AllClean(items: seq<Item>) { forall item :: item in items ==> CleanItem(item) }

  lemma InitialInv(s: State, text: string, phrases: Phrases)
    requires Initial(s, text) && AllClean(s.w.todo)
    ensures StateInv(s, s.w.todo, StringsOf(text), RowsFor(s.w.todo, StringsOf(text), phrases), phrases)
  {
    InitialWriter(s.w, text);
    assert Map(Encode, []) == [];
    assert [] + [] + s.w.todo == s.w.todo;
    assert text[..0] == "";
  }

  lemma InitialWriter(w: Writer, text: string)
    requires SoundFile(text) && w.table == Load(text) && w.text == text
    requires w.pc.Idle? && w.done == [] && w.records == [] && w.file == [] && w.buf == []
    requires forall item :: item in w.todo ==> Sound(item, |StringsOf(text)|) && CleanItem(item)
    ensures WriterInv(w, StringsOf(text))
  {
    LoadedStrings(text);
    TakeAll(StringsOf(text));
    assert Map(Encode, []) == [];
  }

  // Every complete record in the binary file refers to strings that are complete lines already.
  ghost predicate Visible(file: seq<byte>, strs: seq<string>) {
    forall i :: 0 <= i < |Chunks(file)| ==>
      Decode(Chunks(file)[i]).errorIdx < |strs| && Decode(Chunks(file)[i]).labelIdx < |strs|
  }

  lemma ChunksOfFront(file: seq<byte>, cs: seq<Chunk>)
    requires file <= Flatten(cs)
    ensures Chunks(file) <= cs
  {
    var rest := Flatten(cs)[|file|..];
    assert Flatten(cs) == file + rest;
    ChunksSplit(file, rest);
    ChunksOfFlatten(cs, []);
    assert Flatten(cs) + [] == Flatten(cs);
  }

  lemma InvIsVisible(w: Writer, known: seq<string>)
    requires WriterInv(w, known)
    ensures Visible(w.file, StringsOf(w.text))
  {
    ChunksOfFront(w.file, Map(Encode, w.records));
    forall i | 0 <= i < |Chunks(w.file)|
      ensures Decode(Chunks(w.file)[i]).errorIdx < |StringsOf(w.text)|
      ensures Decode(Chunks(w.file)[i]).labelIdx < |StringsOf(w.text)|
    {
      assert Chunks(w.file)[i] == Encode(w.records[i]);
      assert Matches(w.records[i], w.done[i], StringsOf(w.text), known);
      DecodeEncode(w.records[i]);
    }
  }

  // Nothing is left to write, and the reader has been given the whole file and has ended its call, unless it
  // has raised.
  predicate Settled(s: State) {
    s.w.todo == [] && s.w.pc.Idle? && s.w.buf == [] && (s.r.raised || (s.r.call.NoCall? && s.r.given == s.w.file))
  }

  lemma SettledRun(t: State, items: seq<Item>, known: seq<string>, rows: seq<Row>)
    requires Inv(t.w, t.r, items, known, rows) && Settled(t) && |rows| <= |items|
    ensures t.r.rows == rows && (t.r.raised <==> |rows| < |items|) && (!t.r.raised ==> t.r.partial == [])
  {
    TakeAll(t.w.file);
    TakeAll(t.w.done);
    TakeAll(rows);
    if !t.r.raised {
      WholeIsTaken(t.r, Map(Encode, t.w.records));
    }
  }

  lemma WholeIsTaken(r: Reader, cs: seq<Chunk>)
    requires |r.rows| <= |cs| && |r.partial| < CHUNK_LEN && Flatten(cs[..|r.rows|]) + r.partial == Flatten(cs)
    ensures |r.rows| == |cs| && r.partial == []
  {}

  // In every run, whatever the order of the steps of the drain, the flushes and the steps of the reader,
  // and as long as the 16-bit numbers last: what the binary file shows is described by the strings file;
  // the rows read are those of the first items, each once and in order, with their own texts; the
  // reader raises only at an item that cannot be described; and at the end it has the rows of all the
  // items before the first such one, and has raised if and only if there is one.
  lemma EveryRunReadsItsItems(s: State, text: string, es: seq<Event>, phrases: Phrases)
    requires Initial(s, text) && AllClean(s.w.todo)
    requires |Run(s, es, phrases).w.table.index| <= CAPACITY && KeepsUp(s, es, phrases)
    ensures var t, items, rows := Run(s, es, phrases), s.w.todo, RowsFor(s.w.todo, StringsOf(text), phrases);
            Visible(t.w.file, StringsOf(t.w.text))
            && t.r.rows <= rows && |t.r.rows| <= |t.w.done|
            && (t.r.raised ==> t.r.rows == rows && !Describable(items, StringsOf(text), phrases))
            && (Settled(t) ==>
                  t.r.rows == rows && (t.r.raised <==> !Describable(items, StringsOf(text), phrases))
                  && (!t.r.raised ==> t.r.partial == []))
  {
    var t, known, items := Run(s, es, phrases), StringsOf(text), s.w.todo;
    var rows := RowsFor(items, known, phrases);
    InitialInv(s, text, phrases);
    RunKeeps(s, es, items, known, phrases, rows);
    InvIsVisible(t.w, known);
    AllRowsIff(items, known, phrases);
    DoneIsFront(t.w, items);
    TakeAll(rows);
    if Settled(t) { SettledRun(t, items, known, rows); }
  }

  // A response with a status that the library has no phrase for, and no error of its own.
  predicate Unphrased(item: Item, phrases: Phrases) {
    item.record.status >= 400 && item.error.None? && item.record.errorIdx == 0 && phrases(item.record.status) == None
  }

  // One such response, as with status 520, and the reader ends with the rows before it.
  lemma UnphrasedEndsReader(s: State, text: string, es: seq<Event>, phrases: Phrases, i: nat)
    requires Initial(s, text) && AllClean(s.w.todo)
    requires |Run(s, es, phrases).w.table.index| <= CAPACITY && KeepsUp(s, es, phrases)
    requires i < |s.w.todo| && Unphrased(s.w.todo[i], phrases) && Settled(Run(s, es, phrases))
    ensures Run(s, es, phrases).r.raised && |Run(s, es, phrases).r.rows| <= i
  {
    EveryRunReadsItsItems(s, text, es, phrases);
    assert Expected(s.w.todo[i], StringsOf(text), phrases) == None;
  }

  // How large the index may still become.
  function IndexBound(w: Writer): nat {
    |w.table.index| + 2 * |w.todo| + if w.pc.ErrorNumbered? then 1 else 0
  }

  lemma {:induction false} IndexStaysBelow(s: State, es: seq<Event>, phrases: Phrases)
    ensures |Run(s, es, phrases).w.table.index| <= IndexBound(s.w)
    decreases |es|
  {
    if es != [] {
      BoundShrinks(s.w, es[0]);
      IndexStaysBelow(Do(s, es[0], phrases), es[1..], phrases);
    }
  }

  lemma BoundShrinks(w: Writer, e: Event)
    ensures IndexBound(Write(w, e)) <= IndexBound(w)
  {}

  // What can be checked before a run: with room for two strings an item, the numbers last.
  lemma NumbersLast(s: State, text: string, es: seq<Event>, phrases: Phrases)
    requires Initial(s, text) && |StringsOf(text)| + 2 * |s.w.todo| <= CAPACITY
    ensures |Run(s, es, phrases).w.table.index| <= CAPACITY
  {
    LoadedStrings(text);
    IndexStaysBelow(s, es, phrases);
  }

  // What can be checked when a run is over, or estimated beforehand: a strings file of ten mebibytes at
  // most is never too far ahead.
  lemma {:induction false} SmallFileKeepsUp(s: State, es: seq<Event>, phrases: Phrases)
    requires |Run(s, es, phrases).w.text| <= 10 * 1_048_576
    ensures KeepsUp(s, es, phrases) && |s.w.text| <= |Run(s, es, phrases).w.text|
    decreases |es|
  {
    if es != [] {
      FilesGrow(s.w, es[0]);
      SmallFileKeepsUp(Do(s, es[0], phrases), es[1..], phrases);
    }
  }

  // ---------------------------------------------------------------- exactly when all rows are right

  // The texts of rows and of a record in hand.
  ghost predicate CleanReader(r: Reader) {
    (forall row :: row in r.rows ==> CleanRow(row))
    && (r.call.Call? && r.call.stage.LabelSought? && r.call.stage.error.Some? ==> Clean(r.call.stage.error.value))
  }

  lemma {:induction false} RowsCleanInRun(s: State, es: seq<Event>, phrases: Phrases)
    requires CleanPhrases(phrases) && CleanReader(s.r)
    ensures CleanReader(Run(s, es, phrases).r)
    decreases |es|
  {
    if es != [] {
      if es[0].Look? { LookIsClean(s.r, s.w.text, TRIES, phrases); }
      RowsCleanInRun(Do(s, es[0], phrases), es[1..], phrases);
    }
  }

  ghost predicate CleanMaker(m: Maker) {
    forall r, s, error: Option<string> ::
      Clean(s) && (error.Some? ==> Clean(error.value)) && m.row(r, s, error).Some? ==>
        CleanRow(m.row(r, s, error).value)
  }

  lemma MakesClean(phrases: Phrases)
    requires CleanPhrases(phrases)
    ensures CleanMaker(MakerFor(phrases))
  {}

  lemma LookIsClean(r: Reader, text: string, tries: nat, phrases: Phrases)
    requires CleanPhrases(phrases) && CleanReader(r)
    ensures CleanReader(LookOn(r, ViewOf(text, tries), MakerFor(phrases)))
  {
    var v, m := ViewOf(text, tries), MakerFor(phrases);
    MakesClean(phrases);
    if Seeks(r, m) && Sought(r, m) < |v.known(r.pos)| { KnownClean(text, tries, r.pos, Sought(r, m)); }
    LooksClean(r, v, m);
  }

  lemma LooksClean(r: Reader, v: View, m: Maker)
    requires CleanMaker(m) && CleanReader(r)
    requires Seeks(r, m) && Sought(r, m) < |v.known(r.pos)| ==> Clean(v.known(r.pos)[Sought(r, m)])
    ensures CleanReader(LookOn(r, v, m))
  {
    if Seeks(r, m) {
      if Sought(r, m) < |v.known(r.pos)| {
        FoundIsClean(r, r.pos, v.known(r.pos)[Sought(r, m)], m);
      } else {
        FoundIsClean(r, r.pos, NOT_FOUND, m);
      }
    }
  }

  lemma FoundIsClean(r: Reader, pos: nat, s: string, m: Maker)
    requires CleanMaker(m) && CleanReader(r) && Busy(r) && Clean(s)
    ensures CleanReader(Found(r, pos, s, m))
  {}

  // Each item has its row, and it is the one it ought to have.
  ghost predicate AllRight(rows: seq<Row>, items: seq<Item>, known: seq<string>, phrases: Phrases) {
    |rows| == |items| && forall i :: 0 <= i < |items| ==> Expected(items[i], known, phrases) == Some(rows[i])
  }

  lemma RightIsClean(item: Item, row: Row, known: seq<string>, phrases: Phrases)
    requires Expected(item, known, phrases) == Some(row) && CleanRow(row)
    ensures CleanItem(item)
  {
    assert Clean("");
  }

  // At the end of any run, every item has its row, with its own texts, if and only if every string that
  // was numbered in it survives a line of the strings file, and every item can be described.
  lemma AllRowsRightIff(s: State, text: string, es: seq<Event>, phrases: Phrases)
    requires Initial(s, text) && CleanPhrases(phrases) && Settled(Run(s, es, phrases))
    requires |Run(s, es, phrases).w.table.index| <= CAPACITY && KeepsUp(s, es, phrases)
    ensures AllRight(Run(s, es, phrases).r.rows, s.w.todo, StringsOf(text), phrases)
       <==> AllClean(s.w.todo) && Describable(s.w.todo, StringsOf(text), phrases)
  {
    var rows, items, known := Run(s, es, phrases).r.rows, s.w.todo, StringsOf(text);
    if AllClean(items) {
      EveryRunReadsItsItems(s, text, es, phrases);
      AllRowsIff(items, known, phrases);
    }
    if AllRight(rows, items, known, phrases) {
      RowsCleanInRun(s, es, phrases);
      forall item | item in items ensures CleanItem(item) {
        var i :| 0 <= i < |items| && items[i] == item;
        RightIsClean(item, rows[i], known, phrases);
      }
    }
  }
}
