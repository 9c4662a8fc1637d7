/** Little-endian fixed-width numbers, and sequences of them packed without padding. */
module Bytes {
  type byte = b: int | 0 <= b < 256

  function Pow256(w: nat): nat {
    if w == 0 then 1 else 256 * Pow256(w - 1)
  }

  function LittleEndian(n: nat, w: nat): (s: seq<byte>)
    ensures |s| == w
  {
    if w == 0 then [] else [n % 256] + LittleEndian(n / 256, w - 1)
  }

  function Value(s: seq<byte>): nat {
    if s == [] then 0 else s[0] + 256 * Value(s[1..])
  }

  lemma {:induction false} ValueOfLittleEndian(n: nat, w: nat)
    requires n < Pow256(w)
    ensures Value(LittleEndian(n, w)) == n
  {
    if w > 0 { ValueOfLittleEndian(n / 256, w - 1); }
  }

  lemma {:induction false} LittleEndianOfValue(s: seq<byte>)
    ensures Value(s) < Pow256(|s|)
    ensures LittleEndian(Value(s), |s|) == s
  {
    if s != [] {
      LittleEndianOfValue(s[1..]);
      assert Value(s) % 256 == s[0] && Value(s) / 256 == Value(s[1..]);
    }
  }

  // A number and the bytes it is written in.
  datatype Field = Field(value: nat, width: nat)

  ghost predicate Fits(f: Field) { f.value < Pow256(f.width) }

  function Pack(fs: seq<Field>): seq<byte> {
    if fs == [] then [] else LittleEndian(fs[0].value, fs[0].width) + Pack(fs[1..])
  }

  function Sum(ws: seq<nat>): nat {
    if ws == [] then 0 else ws[0] + Sum(ws[1..])
  }

  function Unpack(s: seq<byte>, ws: seq<nat>): (fs: seq<Field>)
    requires |s| == Sum(ws)
    ensures |fs| == |ws|
    decreases |ws|
  {
    if ws == [] then []
    else [Field(Value(s[..ws[0]]), ws[0])] + Unpack(s[ws[0]..], ws[1..])
  }

  function Widths(fs: seq<Field>): (ws: seq<nat>)
    ensures |ws| == |fs|
  {
    if fs == [] then [] else [fs[0].width] + Widths(fs[1..])
  }

  lemma {:induction false} PackLength(fs: seq<Field>)
    ensures |Pack(fs)| == Sum(Widths(fs))
  {
    if fs != [] {
      assert Widths(fs)[1..] == Widths(fs[1..]);
      PackLength(fs[1..]);
    }
  }

  lemma {:induction false} PackSnoc(fs: seq<Field>, f: Field)
    ensures Pack(fs + [f]) == Pack(fs) + LittleEndian(f.value, f.width)
  {
    if fs == [] {
      assert Pack([f]) == LittleEndian(f.value, f.width) + Pack([]);
    } else {
      assert (fs + [f])[1..] == fs[1..] + [f];
      PackSnoc(fs[1..], f);
    }
  }

  lemma {:induction false} UnpackPack(fs: seq<Field>)
    requires forall f :: f in fs ==> Fits(f)
    ensures |Pack(fs)| == Sum(Widths(fs))
    ensures Unpack(Pack(fs), Widths(fs)) == fs
  {
    PackLength(fs);
    if fs != [] {
      var head := LittleEndian(fs[0].value, fs[0].width);
      assert Widths(fs)[1..] == Widths(fs[1..]);
      assert Pack(fs)[..fs[0].width] == head && Pack(fs)[fs[0].width..] == Pack(fs[1..]);
      assert Fits(fs[0]);
      ValueOfLittleEndian(fs[0].value, fs[0].width);
      UnpackPack(fs[1..]);
    }
  }

  lemma {:induction false} PackUnpack(s: seq<byte>, ws: seq<nat>)
    requires |s| == Sum(ws)
    ensures Pack(Unpack(s, ws)) == s && Widths(Unpack(s, ws)) == ws
    ensures forall f :: f in Unpack(s, ws) ==> Fits(f)
    decreases |ws|
  {
    if ws != [] {
      LittleEndianOfValue(s[..ws[0]]);
      PackUnpack(s[ws[0]..], ws[1..]);
      var fs := Unpack(s, ws);
      assert fs[1..] == Unpack(s[ws[0]..], ws[1..]);
      assert s == s[..ws[0]] + s[ws[0]..];
    }
  }

  // ---------------------------------------------------------------- where the bytes are

  // The number stands in the w bytes from a position on, the lowest first.
  predicate StandsAt(s: seq<byte>, at: nat, n: nat, w: nat)
    decreases w
  {
    at + w <= |s| && (w == 0 || (s[at] == n % 256 && StandsAt(s, at + 1, n / 256, w - 1)))
  }

  lemma {:induction false} LittleEndianStands(s: seq<byte>, at: nat, n: nat, w: nat)
    requires at + w <= |s| && s[at..at + w] == LittleEndian(n, w)
    ensures StandsAt(s, at, n, w)
    decreases w
  {
    if w > 0 {
      var b := LittleEndian(n, w);
      assert s[at] == s[at..at + w][0] == b[0];
      assert s[at + 1..at + w] == s[at..at + w][1..] == b[1..];
      LittleEndianStands(s, at + 1, n / 256, w - 1);
    }
  }

  // How many bytes come before field k.
  function Before(fs: seq<Field>, k: nat): nat
    requires k <= |fs|
  {
    if k == 0 then 0 else Before(fs, k - 1) + fs[k - 1].width
  }

  lemma {:induction false} BeforeGrows(fs: seq<Field>, j: nat, k: nat)
    requires j <= k <= |fs|
    ensures Before(fs, j) <= Before(fs, k)
  {
    if j < k { BeforeGrows(fs, j, k - 1); }
  }

  lemma {:induction false} PackFront(fs: seq<Field>, k: nat)
    requires k <= |fs|
    ensures |Pack(fs[..k])| == Before(fs, k)
  {
    if k > 0 {
      PackFront(fs, k - 1);
      PackSnoc(fs[..k - 1], fs[k - 1]);
      assert fs[..k - 1] + [fs[k - 1]] == fs[..k];
    }
  }

  lemma {:induction false} PackAppend(a: seq<Field>, b: seq<Field>)
    ensures Pack(a + b) == Pack(a) + Pack(b)
  {
    if a == [] {
      assert a + b == b;
    } else {
      assert (a + b)[0] == a[0] && (a + b)[1..] == a[1..] + b;
      PackAppend(a[1..], b);
    }
  }

  lemma PackAround(front: seq<Field>, f: Field, rest: seq<Field>)
    ensures Pack(front + [f] + rest) == Pack(front) + LittleEndian(f.value, f.width) + Pack(rest)
  {
    PackSnoc(front, f);
    PackAppend(front + [f], rest);
  }

  // Packed fields stand one after the other, without padding.
  lemma FieldStandsAt(fs: seq<Field>, k: nat)
    requires k < |fs|
    ensures StandsAt(Pack(fs), Before(fs, k), fs[k].value, fs[k].width)
  {
    var front, f, rest := fs[..k], fs[k], fs[k + 1..];
    assert fs == front + [f] + rest;
    PackFront(fs, k);
    PackAround(front, f, rest);
    var b := LittleEndian(f.value, f.width);
    MiddlePart(Pack(front), b, Pack(rest));
    LittleEndianStands(Pack(front) + b + Pack(rest), |Pack(front)|, f.value, f.width);
  }

  lemma MiddlePart(a: seq<byte>, b: seq<byte>, c: seq<byte>)
    ensures (a + b + c)[|a|..|a| + |b|] == b
  {}
}
