/** The binary results writer: strings are interned, a record is written through a buffer, and the
    buffer is flushed when the clock moves on. */
module BinaryOut {
  import opened Prelude
  import opened Bytes
  import opened ResultRecord
  import opened Sequences
  import opened StrIndex

  const BUFFER: nat := 4096

  // A result as it reaches the writer; its record may carry string numbers already (0 means none).
  datatype Item = Item(record: Record, error: Option<string>, name: string)

  predicate ErrorIsNew(item: Item) { item.error.Some? && item.record.errorIdx == 0 }

  predicate LabelIsNew(item: Item) { item.name != "" && item.record.labelIdx == 0 }

  function ErrorTable(item: Item, t: Table): Table {
    if ErrorIsNew(item) then Intern(t, item.error.value).0 else t
  }

  // The item with its numbers filled in, and the table it leaves.
  function Numbered(item: Item, t: Table): (Record, Table) {
    var t1 := ErrorTable(item, t);
    (item.record.(errorIdx := if ErrorIsNew(item) then Intern(t, item.error.value).1 else item.record.errorIdx,
                  labelIdx := if LabelIsNew(item) then Intern(t1, item.name).1 else item.record.labelIdx),
     if LabelIsNew(item) then Intern(t1, item.name).0 else t1)
  }

  function LineIfNew(s: string, t: Table): string {
    if s in t.mapping then "" else s + "\n"
  }

  // What numbering an item adds to the strings file.
  function ErrorLine(item: Item, t: Table): string {
    if ErrorIsNew(item) then LineIfNew(item.error.value, t) else ""
  }

  function LabelLine(item: Item, t: Table): string {
    if LabelIsNew(item) then LineIfNew(item.name, ErrorTable(item, t)) else ""
  }

  // A buffered writer over a file.
  class BufWriter {
    var file: seq<byte>
    var buf: seq<byte>

    ghost predicate Valid()
      reads this
    {
      |buf| <= BUFFER
    }

    ghost function Written(): seq<byte>
      reads this
    {
      file + buf
    }

    constructor ()
      ensures Valid() && file == [] && buf == []
    {
      file, buf := [], [];
    }

    method Flush()
      requires Valid()
      modifies this
      ensures Valid() && buf == [] && file == old(Written())
    {
      file := file + buf;
      buf := [];
    }

    // Whatever the size, bytes reach the file in order and none is lost or repeated.
    method Write(data: seq<byte>)
      requires Valid()
      modifies this
      ensures Valid() && Written() == old(Written()) + data
      ensures old(file) <= file
      ensures |old(buf)| + |data| <= BUFFER ==> file == old(file)
    {
      var p := data;
      while |p| > BUFFER - |buf|
        invariant Valid() && Written() + p == old(Written()) + data
        invariant old(file) <= file
        invariant |old(buf)| + |data| <= BUFFER ==> file == old(file) && |buf| + |p| <= BUFFER
        decreases |p|, |buf|
      {
        if buf == [] {
          file, p := file + p, []; // a large write with an empty buffer goes straight through
          assert Written() + p == file;
        } else {
          var n := BUFFER - |buf|;
          assert file + (buf + p[..n]) + p[n..] == file + buf + p;
          file, buf, p := file + (buf + p[..n]), [], p[n..];
        }
      }
      assert file + (buf + p) == file + buf + p;
      buf := buf + p;
    }
  }

  // The first n fields written after what was there.
  ghost function WithFields(start: seq<byte>, fs: seq<Field>, n: nat): seq<byte>
    requires n <= |fs|
  {
    start + Pack(fs[..n])
  }

  lemma OneFieldMore(start: seq<byte>, fs: seq<Field>, i: nat)
    requires i < |fs|
    ensures WithFields(start, fs, i + 1) == WithFields(start, fs, i) + LittleEndian(fs[i].value, fs[i].width)
  {
    PackSnoc(fs[..i], fs[i]);
    assert fs[..i] + [fs[i]] == fs[..i + 1];
    Reassociate(start, Pack(fs[..i]), LittleEndian(fs[i].value, fs[i].width));
  }

  lemma RecordLength(r: Record)
    ensures Before(Fields(r), 13) == CHUNK_LEN
  {
    PackFront(Fields(r), 13);
    assert Fields(r)[..13] == Fields(r) && |Encode(r)| == CHUNK_LEN;
  }

  lemma NothingWritten(start: seq<byte>, fs: seq<Field>)
    ensures WithFields(start, fs, 0) == start
  {
    assert start + Pack(fs[..0]) == start;
  }

  lemma AllWritten(start: seq<byte>, fs: seq<Field>)
    ensures WithFields(start, fs, |fs|) == start + Pack(fs)
  {
    assert fs[..|fs|] == fs;
  }

  lemma FieldFits(start: seq<byte>, fs: seq<Field>, i: nat)
    requires i < |fs|
    ensures |WithFields(start, fs, i)| + fs[i].width <= |start| + Before(fs, |fs|)
  {
    PackFront(fs, i);
    BeforeGrows(fs, i + 1, |fs|);
  }

  class BinaryOut {
    const writer: BufWriter
    var lastTS: nat

    constructor ()
      ensures fresh(writer) && writer.Valid() && writer.Written() == [] && lastTS == 0
    {
      writer := new BufWriter();
      lastTS := 0;
    }

    // The first i fields have been written, on top of this file; if all fit the buffer, nothing has been flushed.
    ghost predicate Upto(start: seq<byte>, fs: seq<Field>, i: nat, file: seq<byte>)
      requires i <= |fs|
      reads writer
    {
      writer.Valid() && writer.Written() == WithFields(start, fs, i) && |file| <= |writer.file|
      && (|start| + Before(fs, |fs|) <= |file| + BUFFER ==> writer.file == file)
    }

    // One call of the encoder, for the i-th number of a record.
    method WriteNumber(f: Field, ghost start: seq<byte>, ghost fs: seq<Field>, ghost i: nat, ghost file: seq<byte>)
      requires i < |fs| && f == fs[i] && Upto(start, fs, i, file)
      modifies writer
      ensures Upto(start, fs, i + 1, file)
    {
      FieldFits(start, fs, i);
      writer.Write(LittleEndian(f.value, f.width));
      OneFieldMore(start, fs, i);
    }

    method WriteBinary(r: Record)
      requires writer.Valid()
      modifies writer
      ensures writer.Valid() && writer.Written() == old(writer.Written()) + Encode(r)
      ensures old(writer.file) <= writer.file
      ensures |old(writer.buf)| + CHUNK_LEN <= BUFFER ==> writer.file == old(writer.file)
    {
      ghost var start, fs, file := writer.Written(), Fields(r), writer.file;
      RecordLength(r);
      NothingWritten(start, fs);
      WriteNumber(Field(r.startTS, 4), start, fs, 0, file);
      WriteNumber(Field(r.status, 2), start, fs, 1, file);
      WriteNumber(Field(r.errorIdx, 2), start, fs, 2, file);
      WriteNumber(Field(r.concurrency, 4), start, fs, 3, file);
      WriteNumber(Field(r.elapsed, 8), start, fs, 4, file);
      WriteNumber(Field(r.connectTime, 8), start, fs, 5, file);
      WriteNumber(Field(r.sentTime, 8), start, fs, 6, file);
      WriteNumber(Field(r.firstByteTime, 8), start, fs, 7, file);
      WriteNumber(Field(r.readTime, 8), start, fs, 8, file);
      WriteNumber(Field(r.worker, 4), start, fs, 9, file);
      WriteNumber(Field(r.labelIdx, 2), start, fs, 10, file);
      WriteNumber(Field(r.sentBytes, 8), start, fs, 11, file);
      WriteNumber(Field(r.respBytes, 8), start, fs, 12, file);
      AllWritten(start, fs);
      KeptFront(old(writer.file), old(writer.buf), Encode(r), writer.file, writer.buf);
    }

    // Give the texts of an item their numbers.
    method Number(item: Item, strs: StrIndex) returns (r: Record)
      requires !strs.readonly
      modifies strs`index, strs`mapping, strs`file
      ensures (r, strs.View()) == Numbered(item, old(strs.View()))
      ensures strs.file == old(strs.file)
                + if strs.hasFile then ErrorLine(item, old(strs.View())) + LabelLine(item, old(strs.View())) else ""
    {
      r := item.record;
      ghost var t, file := strs.View(), strs.file;
      if item.error.Some? && r.errorIdx == 0 {
        var i := strs.Idx(item.error.value);
        r := r.(errorIdx := i.value);
      }
      assert strs.View() == ErrorTable(item, t);
      assert strs.file == file + if strs.hasFile then ErrorLine(item, t) else "";
      if item.name != "" && r.labelIdx == 0 {
        var i := strs.Idx(item.name);
        r := r.(labelIdx := i.value);
      }
    }

    method Push(item: Item, strs: StrIndex)
      requires writer.Valid() && !strs.readonly
      modifies this`lastTS, writer, strs`index, strs`mapping, strs`file
      ensures writer.Valid()
      ensures strs.View() == Numbered(item, old(strs.View())).1
      ensures strs.file == old(strs.file)
                + if strs.hasFile then ErrorLine(item, old(strs.View())) + LabelLine(item, old(strs.View())) else ""
      ensures writer.Written() == old(writer.Written()) + Encode(Numbered(item, old(strs.View())).0)
      ensures old(writer.file) <= writer.file
      ensures item.record.startTS > old(lastTS) ==> writer.buf == []
      ensures item.record.startTS <= old(lastTS) && |old(writer.buf)| + CHUNK_LEN <= BUFFER ==>
                writer.file == old(writer.file)
      ensures lastTS == if item.record.startTS > old(lastTS) then item.record.startTS else old(lastTS)
    {
      var r := Number(item, strs);
      WriteBinary(r);
      if r.startTS > lastTS {
        writer.Flush();
        lastTS := r.startTS;
      }
    }
  }
}
