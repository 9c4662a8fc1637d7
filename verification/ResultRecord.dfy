/** The fixed-size binary record of one result, as written by the load generator and unpacked by
    the Taurus reader with the format "<L HH L 5d LH QQ". */
module ResultRecord {
  import opened Bytes
  import opened Sequences

  // Times are the 8 bytes of an IEEE-754 double, carried as their bit pattern.
  datatype Record = Record(
    startTS: nat, status: nat, errorIdx: nat, concurrency: nat,
    elapsed: nat, connectTime: nat, sentTime: nat, firstByteTime: nat, readTime: nat,
    worker: nat, labelIdx: nat, sentBytes: nat, respBytes: nat)

  const WIDTHS: seq<nat> := [4, 2, 2, 4, 8, 8, 8, 8, 8, 4, 2, 8, 8]
  const CHUNK_LEN: nat := 74

  type Chunk = b: seq<byte> | |b| == CHUNK_LEN witness seq(CHUNK_LEN, i => 0)

  // The fields in the order they are written.
  function Fields(r: Record): seq<Field> {
    [Field(r.startTS, 4), Field(r.status, 2), Field(r.errorIdx, 2), Field(r.concurrency, 4),
     Field(r.elapsed, 8), Field(r.connectTime, 8), Field(r.sentTime, 8), Field(r.firstByteTime, 8),
     Field(r.readTime, 8), Field(r.worker, 4), Field(r.labelIdx, 2), Field(r.sentBytes, 8),
     Field(r.respBytes, 8)]
  }

  const U16: nat := 0x1_0000
  const U32: nat := 0x1_0000_0000
  const U64: nat := 0x1_0000_0000_0000_0000

  // Every field is within its integer type.
  predicate InRange(r: Record) {
    r.startTS < U32 && r.status < U16 && r.errorIdx < U16 && r.concurrency < U32
    && r.elapsed < U64 && r.connectTime < U64 && r.sentTime < U64 && r.firstByteTime < U64 && r.readTime < U64
    && r.worker < U32 && r.labelIdx < U16 && r.sentBytes < U64 && r.respBytes < U64
  }

  lemma Powers()
    ensures Pow256(2) == U16 && Pow256(4) == U32 && Pow256(8) == U64
  {}

  lemma InRangeFits(r: Record)
    ensures InRange(r) <==> forall i :: 0 <= i < 13 ==> Fits(Fields(r)[i])
  {
    Powers();
    var fs := Fields(r);
    if forall i :: 0 <= i < 13 ==> Fits(fs[i]) {
      assert Fits(fs[0]) && Fits(fs[1]) && Fits(fs[2]) && Fits(fs[3]) && Fits(fs[4]) && Fits(fs[5]) && Fits(fs[6]);
      assert Fits(fs[7]) && Fits(fs[8]) && Fits(fs[9]) && Fits(fs[10]) && Fits(fs[11]) && Fits(fs[12]);
    }
  }

  function FromFields(fs: seq<Field>): Record
    requires |fs| == 13
  {
    Record(fs[0].value, fs[1].value, fs[2].value, fs[3].value, fs[4].value, fs[5].value, fs[6].value,
           fs[7].value, fs[8].value, fs[9].value, fs[10].value, fs[11].value, fs[12].value)
  }

  lemma {:induction false} SumAppend(a: seq<nat>, b: seq<nat>)
    ensures Sum(a + b) == Sum(a) + Sum(b)
  {
    if a == [] {
      assert a + b == b;
    } else {
      assert (a + b)[1..] == a[1..] + b;
      SumAppend(a[1..], b);
    }
  }

  lemma ChunkLength()
    ensures Sum(WIDTHS) == CHUNK_LEN
  {}

  function Decode(b: Chunk): Record {
    ChunkLength();
    FromFields(Unpack(b, WIDTHS))
  }

  lemma FieldWidths(r: Record)
    ensures Widths(Fields(r)) == WIDTHS
  {
    WidthsAt(Fields(r));
  }

  lemma {:induction false} WidthsAt(fs: seq<Field>)
    ensures forall i :: 0 <= i < |fs| ==> Widths(fs)[i] == fs[i].width
  {
    if fs != [] {
      WidthsAt(fs[1..]);
      forall i | 0 <= i < |fs| ensures Widths(fs)[i] == fs[i].width {
        if i > 0 { assert Widths(fs)[i] == Widths(fs[1..])[i - 1]; }
      }
    }
  }

  function Encode(r: Record): Chunk {
    FieldWidths(r);
    ChunkLength();
    PackLength(Fields(r));
    Pack(Fields(r))
  }

  // Reading back a record gives the fields that were written.
  lemma DecodeEncode(r: Record)
    requires InRange(r)
    ensures Decode(Encode(r)) == r
  {
    FieldWidths(r);
    ChunkLength();
    InRangeFits(r);
    UnpackPack(Fields(r));
  }

  lemma FieldsOfFromFields(fs: seq<Field>)
    requires |fs| == 13 && Widths(fs) == WIDTHS
    ensures Fields(FromFields(fs)) == fs
  {
    WidthsAt(fs);
    var gs := Fields(FromFields(fs));
    forall i | 0 <= i < 13 ensures gs[i] == fs[i] {
      assert fs[i].width == WIDTHS[i];
    }
  }

  // Any 74 bytes are the encoding of the one record they decode to.
  lemma EncodeDecode(b: Chunk)
    ensures InRange(Decode(b)) && Encode(Decode(b)) == b
  {
    ChunkLength();
    PackUnpack(b, WIDTHS);
    FieldsOfFromFields(Unpack(b, WIDTHS));
    FittingFields(Unpack(b, WIDTHS));
  }

  lemma FittingFields(fs: seq<Field>)
    requires |fs| == 13 && Fields(FromFields(fs)) == fs
    requires forall f :: f in fs ==> Fits(f)
    ensures InRange(FromFields(fs))
  {
    forall i | 0 <= i < 13 ensures Fits(fs[i]) { assert fs[i] in fs; }
    InRangeFits(FromFields(fs));
  }

  // The record byte for byte, as the reader's format has it: each number in its place, the lowest byte first.
  lemma Layout(r: Record)
    ensures var b := Encode(r);
            StandsAt(b, 0, r.startTS, 4) && StandsAt(b, 4, r.status, 2) && StandsAt(b, 6, r.errorIdx, 2)
            && StandsAt(b, 8, r.concurrency, 4) && StandsAt(b, 12, r.elapsed, 8) && StandsAt(b, 20, r.connectTime, 8)
            && StandsAt(b, 28, r.sentTime, 8) && StandsAt(b, 36, r.firstByteTime, 8) && StandsAt(b, 44, r.readTime, 8)
            && StandsAt(b, 52, r.worker, 4) && StandsAt(b, 56, r.labelIdx, 2) && StandsAt(b, 58, r.sentBytes, 8)
            && StandsAt(b, 66, r.respBytes, 8)
  {
    FieldAt(r, 0);
    FieldAt(r, 1);
    FieldAt(r, 2);
    FieldAt(r, 3);
    FieldAt(r, 4);
    FieldAt(r, 5);
    FieldAt(r, 6);
    FieldAt(r, 7);
    FieldAt(r, 8);
    FieldAt(r, 9);
    FieldAt(r, 10);
    FieldAt(r, 11);
    FieldAt(r, 12);
  }

  lemma FieldAt(r: Record, k: nat)
    requires k < 13
    ensures StandsAt(Encode(r), PLACES[k], Fields(r)[k].value, Fields(r)[k].width)
  {
    FieldStandsAt(Fields(r), k);
    PlaceOf(Fields(r), k);
  }

  const PLACES: seq<nat> := [0, 4, 6, 8, 12, 20, 28, 36, 44, 52, 56, 58, 66]

  lemma {:induction false} PlaceOf(fs: seq<Field>, k: nat)
    requires k < 13 && |fs| == 13 && forall k :: 0 <= k < 13 ==> fs[k].width == WIDTHS[k]
    ensures Before(fs, k) == PLACES[k]
  {
    if k > 0 { PlaceOf(fs, k - 1); }
  }

  // ---------------------------------------------------------------- a stream of records

  function Flatten(cs: seq<Chunk>): (b: seq<byte>)
    ensures |b| == CHUNK_LEN * |cs|
  {
    if cs == [] then [] else cs[0] + Flatten(cs[1..])
  }

  // The whole chunks at the front of a stream, and what is left of it.
  function Chunks(b: seq<byte>): seq<Chunk> {
    if |b| < CHUNK_LEN then [] else [b[..CHUNK_LEN]] + Chunks(b[CHUNK_LEN..])
  }

  function Rest(b: seq<byte>): (r: seq<byte>)
    ensures |r| < CHUNK_LEN && |r| <= |b|
  {
    if |b| < CHUNK_LEN then b else Rest(b[CHUNK_LEN..])
  }

  function Records(b: seq<byte>): seq<Record> { Map(Decode, Chunks(b)) }

  lemma {:induction false} ChunksSplit(a: seq<byte>, b: seq<byte>)
    ensures Chunks(a + b) == Chunks(a) + Chunks(Rest(a) + b)
    ensures Rest(a + b) == Rest(Rest(a) + b)
    decreases |a|
  {
    if |a| >= CHUNK_LEN {
      assert (a + b)[..CHUNK_LEN] == a[..CHUNK_LEN] && (a + b)[CHUNK_LEN..] == a[CHUNK_LEN..] + b;
      ChunksSplit(a[CHUNK_LEN..], b);
    }
  }

  // A stream may be decoded in two parts, split anywhere: what is left of the first part is put
  // before the second.
  lemma SplitAnywhere(a: seq<byte>, b: seq<byte>)
    ensures Records(a + b) == Records(a) + Records(Rest(a) + b)
    ensures Rest(a + b) == Rest(Rest(a) + b)
  {
    ChunksSplit(a, b);
    MapAppend(Decode, Chunks(a), Chunks(Rest(a) + b));
  }

  lemma FrontChunk(c: Chunk, b: seq<byte>)
    ensures Chunks(c + b) == [c] + Chunks(b) && Rest(c + b) == Rest(b)
  {}

  // A stream of chunks with an unfinished one after it comes apart again.
  lemma {:induction false} ChunksOfFlatten(cs: seq<Chunk>, tail: seq<byte>)
    requires |tail| < CHUNK_LEN
    ensures Chunks(Flatten(cs) + tail) == cs && Rest(Flatten(cs) + tail) == tail
    decreases |cs|
  {
    if cs == [] {
      assert Flatten(cs) + tail == tail;
    } else {
      FrontChunk(cs[0], Flatten(cs[1..]) + tail);
      Reassociate(cs[0], Flatten(cs[1..]), tail);
      ChunksOfFlatten(cs[1..], tail);
    }
  }

  // A stream of encoded records is decoded into those records.
  lemma StreamRoundTrip(rs: seq<Record>, tail: seq<byte>)
    requires forall r :: r in rs ==> InRange(r)
    requires |tail| < CHUNK_LEN
    ensures Records(Flatten(Map(Encode, rs)) + tail) == rs && Rest(Flatten(Map(Encode, rs)) + tail) == tail
  {
    ChunksOfFlatten(Map(Encode, rs), tail);
    forall r | r in rs ensures Decode(Encode(r)) == r { DecodeEncode(r); }
    MapInverse(Encode, Decode, rs);
  }

  lemma {:induction false} FlattenAppend(a: seq<Chunk>, b: seq<Chunk>)
    ensures Flatten(a + b) == Flatten(a) + Flatten(b)
    decreases |a|
  {
    if a == [] {
      assert a + b == b;
    } else {
      assert (a + b)[1..] == a[1..] + b;
      FlattenAppend(a[1..], b);
      Reassociate(a[0], Flatten(a[1..]), Flatten(b));
    }
  }

  lemma FlattenOne(c: Chunk)
    ensures Flatten([c]) == c
  {}
}
