/** The binary encoding of the kernel client's wire protocol: little-endian integers, raw
    byte blocks and length-prefixed strings, written and read through a bounds-checked
    cursor. */
module NativeCodec {
  import opened Basics

  type Bytes = seq<byte>

  /** The version of the protocol, in every header and in the first request. */
  const VERSION := 1

  const U16_LIMIT := 0x1_0000
  const U32_LIMIT := 0x1_0000_0000
  const U64_LIMIT := 0x1_0000_0000_0000_0000

  // ---- little-endian integers ----

  /** The n low bytes of v, least significant first. */
  function LE(v: nat, n: nat): (r: Bytes)
    ensures |r| == n
  {
    if n == 0 then [] else [(v % 256) as byte] + LE(v / 256, n - 1)
  }

  function FromLE(s: Bytes): nat {
    if s == [] then 0 else s[0] as int + 256 * FromLE(s[1..])
  }

  function Pow256(n: nat): nat {
    if n == 0 then 1 else 256 * Pow256(n - 1)
  }

  lemma {:induction false} FromLEInverts(v: nat, n: nat)
    requires v < Pow256(n)
    ensures FromLE(LE(v, n)) == v
  {
    if n > 0 {
      FromLEInverts(v / 256, n - 1);
      assert LE(v, n)[1..] == LE(v / 256, n - 1);
    }
  }

  lemma TwoBytes(s: Bytes)
    requires |s| == 2
    ensures FromLE(s) == s[0] as int + 0x100 * s[1] as int
  {
    assert FromLE(s[1..]) == s[1] as int + 256 * FromLE(s[1..][1..]);
  }

  lemma FourBytes(s: Bytes)
    requires |s| == 4
    ensures FromLE(s) == s[0] as int + 0x100 * s[1] as int + 0x1_0000 * s[2] as int + 0x100_0000 * s[3] as int
  {
    assert FromLE(s[1..]) == s[1] as int + 256 * FromLE(s[2..]) by {
      assert s[1..][1..] == s[2..];
    }
    TwoBytes(s[2..]);
  }

  /** The least significant byte comes first. */
  lemma EightBytes(s: Bytes)
    requires |s| == 8
    ensures FromLE(s) == FromLE(s[..4]) + U32_LIMIT * FromLE(s[4..])
    ensures FromLE(s) == s[0] as int + 0x100 * s[1] as int + 0x1_0000 * s[2] as int + 0x100_0000 * s[3] as int
                         + U32_LIMIT * FromLE(s[4..])
  {
    FourBytes(s[..4]);
    assert s[1..][1..] == s[2..] && s[2..][1..] == s[3..] && s[3..][1..] == s[4..];
    assert FromLE(s[1..]) == s[1] as int + 256 * FromLE(s[2..]);
    assert FromLE(s[2..]) == s[2] as int + 256 * FromLE(s[3..]);
    assert FromLE(s[3..]) == s[3] as int + 256 * FromLE(s[4..]);
  }

  lemma Widths()
    ensures Pow256(1) == 0x100 && Pow256(2) == U16_LIMIT && Pow256(4) == U32_LIMIT && Pow256(8) == U64_LIMIT
  {
    assert Pow256(3) == 256 * Pow256(2);
    assert Pow256(5) == 256 * Pow256(4);
    assert Pow256(6) == 256 * Pow256(5);
    assert Pow256(7) == 256 * Pow256(6);
  }

  // ---- sequences of items ----

  /** Items written one behind the other, each by `enc`. */
  function EncodeSeq<F>(enc: F -> Bytes, fs: seq<F>): Bytes {
    if fs == [] then [] else EncodeSeq(enc, fs[..|fs| - 1]) + enc(fs[|fs| - 1])
  }

  /** Items of the given shapes read one behind the other, each by `dec` from where the last
      one ended; reading stops at the first failure. */
  function DecodeSeq<S, F>(dec: (Bytes, nat, S) -> (Option<F>, nat), data: Bytes, off: nat, shapes: seq<S>)
    : (Option<seq<F>>, nat)
  {
    if shapes == [] then (Some([]), off)
    else
      var (front, mid) := DecodeSeq(dec, data, off, shapes[..|shapes| - 1]);
      if front.None? then (None, mid)
      else
        var (last, end) := dec(data, mid, shapes[|shapes| - 1]);
        (if last.None? then None else Some(front.value + [last.value]), end)
  }

  /** `bytes` lies in `data` at `off`. */
  ghost predicate At(data: Bytes, off: nat, bytes: Bytes) {
    off + |bytes| <= |data| && data[off..off + |bytes|] == bytes
  }

  lemma AtSplit(data: Bytes, off: nat, a: Bytes, b: Bytes)
    ensures At(data, off, a + b) <==> At(data, off, a) && At(data, off + |a|, b)
  {
    if At(data, off, a + b) {
      assert data[off..off + |a|] == (a + b)[..|a|];
      assert data[off + |a|..off + |a| + |b|] == (a + b)[|a|..];
    }
  }

  /** The integer laid over n bytes at `off`. */
  function Number(data: Bytes, off: nat, n: nat): nat
    requires off + n <= |data|
  {
    FromLE(data[off..off + n])
  }

  lemma NumberInverts(data: Bytes, off: nat, v: nat, n: nat)
    requires At(data, off, LE(v, n)) && n in {2, 4, 8}
    requires n == 2 ==> v < U16_LIMIT
    requires n == 4 ==> v < U32_LIMIT
    requires n == 8 ==> v < U64_LIMIT
    ensures Number(data, off, n) == v
  {
    Widths();
    FromLEInverts(v, n);
  }

  /** Reading `f` wherever it was written gives `f` and ends right behind it. */
  ghost predicate Undoes<S, F>(enc: F -> Bytes, dec: (Bytes, nat, S) -> (Option<F>, nat), data: Bytes, s: S, f: F) {
    forall o: nat | At(data, o, enc(f)) :: dec(data, o, s) == (Some(f), o + |enc(f)|)
  }

  /** Reading a sequence undoes writing it if reading each item undoes writing that item. */
  lemma {:induction false} DecodeSeqInverts<S, F>(
    enc: F -> Bytes, dec: (Bytes, nat, S) -> (Option<F>, nat), data: Bytes, off: nat, shapes: seq<S>, fs: seq<F>)
    requires |shapes| == |fs| && forall i | 0 <= i < |fs| :: Undoes(enc, dec, data, shapes[i], fs[i])
    requires At(data, off, EncodeSeq(enc, fs))
    ensures DecodeSeq(dec, data, off, shapes) == (Some(fs), off + |EncodeSeq(enc, fs)|)
  {
    if fs != [] {
      var front, f := fs[..|fs| - 1], fs[|fs| - 1];
      AtSplit(data, off, EncodeSeq(enc, front), enc(f));
      DecodeSeqInverts(enc, dec, data, off, shapes[..|fs| - 1], front);
      assert fs == front + [f];
      assert Undoes(enc, dec, data, shapes[|fs| - 1], f);
    }
  }

  /** One more item. */
  lemma DecodeSeqStep<S, F>(dec: (Bytes, nat, S) -> (Option<F>, nat), data: Bytes, off: nat, shapes: seq<S>, i: nat)
    requires i < |shapes|
    ensures var (front, mid) := DecodeSeq(dec, data, off, shapes[..i]);
            && (front.None? ==> DecodeSeq(dec, data, off, shapes[..i + 1]) == (None, mid))
            && (front.Some? ==>
                  var (last, end) := dec(data, mid, shapes[i]);
                  DecodeSeq(dec, data, off, shapes[..i + 1])
                  == (if last.None? then None else Some(front.value + [last.value]), end))
  {
    assert shapes[..i + 1][..i] == shapes[..i];
  }

  lemma EncodeSeqMore<F>(enc: F -> Bytes, fs: seq<F>, f: F)
    ensures EncodeSeq(enc, fs + [f]) == EncodeSeq(enc, fs) + enc(f)
  {
    assert (fs + [f])[..|fs|] == fs;
  }

  /** Item k lies right behind the items before it. */
  lemma {:induction false} ItemAt<F>(enc: F -> Bytes, data: Bytes, off: nat, fs: seq<F>, k: nat)
    requires k < |fs| && At(data, off, EncodeSeq(enc, fs))
    ensures At(data, off + |EncodeSeq(enc, fs[..k])|, enc(fs[k]))
  {
    var n := |fs| - 1;
    var front := fs[..n];
    AtSplit(data, off, EncodeSeq(enc, front), enc(fs[n]));
    if k < n {
      ItemAt(enc, data, off, front, k);
      assert front[..k] == fs[..k];
    }
  }

  // ---- fields ----

  /** A block of known size (an integer is one: see U8 to U64) or a length-prefixed string. */
  datatype Field = Fixed(bytes: Bytes) | Str(text: Bytes)
  datatype Shape = FixedShape(len: nat) | StrShape

  function U8(v: nat): Field { Fixed(LE(v, 1)) }
  function U16(v: nat): Field { Fixed(LE(v, 2)) }
  function U32(v: nat): Field { Fixed(LE(v, 4)) }
  function U64(v: nat): Field { Fixed(LE(v, 8)) }

  /** The integer that get_u8 to get_u64 make of the block. */
  function Value(f: Field): nat
    requires f.Fixed?
  {
    FromLE(f.bytes)
  }

  /** Integers of their C type are read back unchanged. */
  lemma ValueInverts(v: nat)
    ensures v < 0x100 ==> Value(U8(v)) == v
    ensures v < U16_LIMIT ==> Value(U16(v)) == v
    ensures v < U32_LIMIT ==> Value(U32(v)) == v
    ensures v < U64_LIMIT ==> Value(U64(v)) == v
  {
    Widths();
    if v < 0x100 { FromLEInverts(v, 1); }
    if v < U16_LIMIT { FromLEInverts(v, 2); }
    if v < U32_LIMIT { FromLEInverts(v, 4); }
    if v < U64_LIMIT { FromLEInverts(v, 8); }
  }

  /** Strings are short enough for their 32-bit length. */
  ghost predicate Fits(f: Field) {
    f.Str? ==> |f.text| < U32_LIMIT
  }

  function ShapeOf(f: Field): Shape {
    match f
    case Fixed(b) => FixedShape(|b|)
    case Str(_) => StrShape
  }

  /** A string's length is cut to its 32 low bits; its bytes are not. */
  function Encode(f: Field): Bytes {
    match f
    case Fixed(b) => b
    case Str(s) => LE(|s|, 4) + s
  }

  function EncodeAll(fs: seq<Field>): Bytes {
    EncodeSeq(Encode, fs)
  }

  /** The next n bytes, if there are that many. */
  function Take(data: Bytes, off: nat, n: nat): (r: Option<Bytes>)
    ensures r.Some? ==> |r.value| == n
  {
    if off + n <= |data| then Some(data[off..off + n]) else None
  }

  /** One field from `off`, with the offset afterwards; a failed read of a string's bytes
      leaves its length consumed. */
  function Decode(data: Bytes, off: nat, s: Shape): (r: (Option<Field>, nat))
    ensures r.0.Some? ==> ShapeOf(r.0.value) == s
  {
    match s
    case FixedShape(n) =>
      (match Take(data, off, n)
       case None => (None, off)
       case Some(b) => (Some(Fixed(b)), off + n))
    case StrShape =>
      match Take(data, off, 4)
      case None => (None, off)
      case Some(b) =>
        var n := FromLE(b);
        match Take(data, off + 4, n)
        case None => (None, off + 4)
        case Some(text) => (Some(Str(text)), off + 4 + n)
  }

  function DecodeAll(data: Bytes, off: nat, shapes: seq<Shape>): (Option<seq<Field>>, nat) {
    DecodeSeq(Decode, data, off, shapes)
  }

  lemma {:induction false} DecodeAllShapes(data: Bytes, off: nat, shapes: seq<Shape>)
    requires DecodeAll(data, off, shapes).0.Some?
    ensures var fs := DecodeAll(data, off, shapes).0.value;
            |fs| == |shapes| && forall i | 0 <= i < |shapes| :: ShapeOf(fs[i]) == shapes[i]
  {
    if shapes != [] {
      DecodeAllShapes(data, off, shapes[..|shapes| - 1]);
    }
  }

  /** Every read of any shape from any bytes stays inside the buffer. */
  lemma DecodeInBounds(data: Bytes, off: nat, s: Shape)
    requires off <= |data|
    ensures off <= Decode(data, off, s).1 <= |data|
  {}

  lemma {:induction false} DecodeAllInBounds(data: Bytes, off: nat, shapes: seq<Shape>)
    requires off <= |data|
    ensures off <= DecodeAll(data, off, shapes).1 <= |data|
  {
    if shapes != [] {
      DecodeAllInBounds(data, off, shapes[..|shapes| - 1]);
      DecodeInBounds(data, DecodeAll(data, off, shapes[..|shapes| - 1]).1, shapes[|shapes| - 1]);
    }
  }

  lemma PrefixInverts(n: nat)
    requires n < U32_LIMIT
    ensures FromLE(LE(n, 4)) == n
  {
    Widths();
    FromLEInverts(n, 4);
  }

  lemma StringInverts(data: Bytes, off: nat, prefix: Bytes, s: Bytes)
    requires |prefix| == 4 && FromLE(prefix) == |s|
    requires At(data, off, prefix) && At(data, off + 4, s)
    ensures Decode(data, off, StrShape) == (Some(Str(s)), off + 4 + |s|)
  {
    assert Take(data, off, 4) == Some(prefix);
    assert Take(data, off + 4, |s|) == Some(s);
  }

  /** A getter undoes the putter, wherever the field lies in the buffer. */
  lemma DecodeInverts(data: Bytes, off: nat, f: Field)
    requires Fits(f) && At(data, off, Encode(f))
    ensures Decode(data, off, ShapeOf(f)) == (Some(f), off + |Encode(f)|)
  {
    match f
    case Fixed(_) =>
    case Str(s) =>
      var prefix := LE(|s|, 4);
      PrefixInverts(|s|);
      AtSplit(data, off, prefix, s);
      StringInverts(data, off, prefix, s);
  }

  lemma FieldUndone(data: Bytes, f: Field)
    requires Fits(f)
    ensures Undoes(Encode, Decode, data, ShapeOf(f), f)
  {
    forall o: nat | At(data, o, Encode(f))
      ensures Decode(data, o, ShapeOf(f)) == (Some(f), o + |Encode(f)|)
    {
      DecodeInverts(data, o, f);
    }
  }

  /** Getters undo putters on any sequence of fields, wherever it lies in a buffer. */
  lemma DecodeAllInverts(data: Bytes, off: nat, shapes: seq<Shape>, fs: seq<Field>)
    requires |shapes| == |fs| && forall i | 0 <= i < |fs| :: Fits(fs[i]) && shapes[i] == ShapeOf(fs[i])
    requires At(data, off, EncodeAll(fs))
    ensures DecodeAll(data, off, shapes) == (Some(fs), off + |EncodeAll(fs)|)
  {
    forall i | 0 <= i < |fs|
      ensures Undoes(Encode, Decode, data, shapes[i], fs[i])
    {
      FieldUndone(data, fs[i]);
    }
    DecodeSeqInverts(Encode, Decode, data, off, shapes, fs);
  }
}
