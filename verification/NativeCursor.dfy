/** The cursor that moves over a buffer, and the decoder of directory replies built on it. */
module NativeCursor {
  import opened Basics
  import opened Errno
  import opened NativeCodec

  class Cursor {
    const data: array<byte>
    var off: nat

    ghost predicate Valid()
      reads this
    {
      off <= data.Length
    }

    constructor (data: array<byte>)
      ensures this.data == data && off == 0 && Valid()
    {
      this.data, off := data, 0;
    }

    /** put_bytes, and with the right bytes put_u16, put_u32 and put_u64: all or nothing. */
    method Put(bytes: Bytes) returns (ret: int)
      requires Valid()
      modifies this`off, data
      ensures Valid()
      ensures old(off) + |bytes| > data.Length ==> ret == -EIO && off == old(off) && data[..] == old(data[..])
      ensures old(off) + |bytes| <= data.Length ==>
                ret == 0 && off == old(off) + |bytes| && data[..off] == old(data[..off]) + bytes
    {
      if off + |bytes| > data.Length {
        return -EIO;
      }
      for i := 0 to |bytes|
        invariant off == old(off)
        invariant data[..off + i] == old(data[..off]) + bytes[..i]
      {
        data[off + i] := bytes[i];
      }
      off := off + |bytes|;
      return 0;
    }

    /** One field; a string is its length followed by its bytes. */
    method PutField(f: Field) returns (ret: int)
      requires Valid()
      modifies this`off, data
      ensures Valid() && ret <= 0
      ensures old(off) + |Encode(f)| <= data.Length ==>
                ret == 0 && off == old(off) + |Encode(f)| && data[..off] == old(data[..off]) + Encode(f)
      ensures old(off) + |Encode(f)| > data.Length ==> ret == -EIO
    {
      match f {
        case Fixed(b) => ret := Put(b);
        case Str(s) =>
          ret := Put(LE(|s|, 4));
          if ret == 0 {
            ret := Put(s);
          }
      }
    }

    /** The encoders' chain of puts, each tried only if the ones before succeeded. */
    method PutAll(fs: seq<Field>) returns (ret: int)
      requires Valid() && off == 0
      modifies this`off, data
      ensures Valid()
      ensures |EncodeAll(fs)| <= data.Length ==> ret == 0 && off == |EncodeAll(fs)| && data[..off] == EncodeAll(fs)
    {
      ret := 0;
      assert EncodeAll(fs[..0]) == [];
      for i := 0 to |fs|
        invariant Valid()
        invariant |EncodeAll(fs)| <= data.Length ==>
                    ret == 0 && off == |EncodeAll(fs[..i])| && data[..off] == EncodeAll(fs[..i])
      {
        assert fs[..i + 1] == fs[..i] + [fs[i]];
        EncodeSeqMore(Encode, fs[..i], fs[i]);
        PrefixShorter(fs, i + 1);
        if ret == 0 {
          ret := PutField(fs[i]);
        }
      }
      assert fs[..|fs|] == fs;
    }

    /** get_bytes, and the reading half of every other getter. */
    method Get(n: nat) returns (ret: int, bytes: Bytes)
      requires Valid()
      modifies this`off
      ensures Valid()
      ensures match Take(data[..], old(off), n)
              case None => ret == -EIO && off == old(off)
              case Some(b) => ret == 0 && bytes == b && off == old(off) + n
    {
      if off + n > data.Length {
        return -EIO, [];
      }
      bytes := data[off..off + n];
      off := off + n;
      return 0, bytes;
    }

    /** The decoders' chain of gets, each tried only if the ones before succeeded. */
    method GetAll(shapes: seq<Shape>) returns (ret: int, fs: seq<Field>)
      requires Valid()
      modifies this`off
      ensures Valid() && off == DecodeAll(data[..], old(off), shapes).1
      ensures match DecodeAll(data[..], old(off), shapes).0
              case None => ret == -EIO
              case Some(g) => ret == 0 && fs == g
    {
      ret, fs := 0, [];
      for i := 0 to |shapes|
        invariant Valid() && off == DecodeAll(data[..], old(off), shapes[..i]).1
        invariant match DecodeAll(data[..], old(off), shapes[..i]).0
                  case None => ret == -EIO
                  case Some(g) => ret == 0 && fs == g
      {
        DecodeSeqStep(Decode, data[..], old(off), shapes, i);
        if ret == 0 {
          var f: Field;
          ret, f := GetField(shapes[i]);
          fs := fs + [f];
        }
      }
      assert shapes[..|shapes|] == shapes;
    }

    method GetField(s: Shape) returns (ret: int, f: Field)
      requires Valid()
      modifies this`off
      ensures Valid() && off == Decode(data[..], old(off), s).1
      ensures match Decode(data[..], old(off), s).0
              case None => ret == -EIO
              case Some(g) => ret == 0 && f == g
    {
      f := Fixed([]);
      var b: Bytes;
      match s {
        case FixedShape(n) =>
          ret, b := Get(n);
          f := Fixed(b);
        case StrShape =>
          ret, b := Get(4);
          if ret == 0 {
            ret, b := Get(FromLE(b));
            f := Str(b);
          }
      }
    }
  }

  lemma {:induction false} PrefixShorter(fs: seq<Field>, n: nat)
    requires n <= |fs|
    ensures |EncodeAll(fs[..n])| <= |EncodeAll(fs)|
  {
    if n < |fs| {
      PrefixShorter(fs[..|fs| - 1], n);
      assert fs[..|fs| - 1][..n] == fs[..n];
    } else {
      assert fs[..n] == fs;
    }
  }

  const OBJECT_ID_LEN := 16

  // ---- directory replies ----

  datatype DirEntry = DirEntry(name: Bytes, objectId: Bytes, ino: nat, mode: nat)
  datatype ReaddirReply = ReaddirReply(dirTtl: nat, nextCookie: nat, eof: bool, entries: seq<DirEntry>)

  const ENTRY_SHAPES := [StrShape, FixedShape(16), FixedShape(8), FixedShape(4)]
  const HEAD_SHAPES := [FixedShape(4), FixedShape(8), FixedShape(1), FixedShape(4)]

  function EntryFields(e: DirEntry): seq<Field> {
    [Str(e.name), Fixed(e.objectId), U64(e.ino), U32(e.mode)]
  }

  function HeadFields(r: ReaddirReply): seq<Field> {
    [U32(r.dirTtl), U64(r.nextCookie), U8(if r.eof then 1 else 0), U32(|r.entries|)]
  }

  function EncodeEntry(e: DirEntry): Bytes {
    EncodeAll(EntryFields(e))
  }

  function EncodeReply(r: ReaddirReply): Bytes {
    EncodeAll(HeadFields(r)) + EncodeSeq(EncodeEntry, r.entries)
  }

  ghost predicate GoodEntry(e: DirEntry) {
    |e.name| < U32_LIMIT && |e.objectId| == OBJECT_ID_LEN && e.ino < U64_LIMIT && e.mode < U32_LIMIT
  }

  ghost predicate GoodReply(r: ReaddirReply) {
    && r.dirTtl < U32_LIMIT && r.nextCookie < U64_LIMIT && |r.entries| < U32_LIMIT
    && forall i | 0 <= i < |r.entries| :: GoodEntry(r.entries[i])
  }

  function DecodeEntry(data: Bytes, off: nat, unit: ()): (Option<DirEntry>, nat) {
    var (fs, end) := DecodeAll(data, off, ENTRY_SHAPES);
    match fs
    case None => (None, end)
    case Some(f) =>
      DecodeAllShapes(data, off, ENTRY_SHAPES);
      (Some(EntryOf(f)), end)
  }

  function EntryOf(f: seq<Field>): DirEntry
    requires |f| == 4 && forall i | 0 <= i < 4 :: ShapeOf(f[i]) == ENTRY_SHAPES[i]
  {
    assert ShapeOf(f[0]) == StrShape && ShapeOf(f[1]) == FixedShape(16);
    assert ShapeOf(f[2]) == FixedShape(8) && ShapeOf(f[3]) == FixedShape(4);
    DirEntry(f[0].text, f[1].bytes, Value(f[2]), Value(f[3]))
  }

  function DecodeEntries(data: Bytes, off: nat, n: nat): (Option<seq<DirEntry>>, nat) {
    DecodeSeq(DecodeEntry, data, off, seq(n, _ => ()))
  }

  lemma EntriesStep(data: Bytes, off: nat, n: nat)
    ensures var (front, mid) := DecodeEntries(data, off, n);
            && (front.None? ==> DecodeEntries(data, off, n + 1) == (None, mid))
            && (front.Some? ==>
                  var (last, end) := DecodeEntry(data, mid, ());
                  DecodeEntries(data, off, n + 1)
                  == (if last.None? then None else Some(front.value + [last.value]), end))
  {
    var marks := seq(n + 1, _ => ());
    assert marks[..n] == seq(n, _ => ()) && marks[..n + 1] == marks;
    DecodeSeqStep(DecodeEntry, data, off, marks, n);
  }

  function DecodeReply(data: Bytes): Option<ReaddirReply> {
    var (head, off) := DecodeAll(data, 0, HEAD_SHAPES);
    match head
    case None => None
    case Some(f) =>
      DecodeAllShapes(data, 0, HEAD_SHAPES);
      assert forall i | 0 <= i < 4 :: ShapeOf(f[i]) == HEAD_SHAPES[i];
      assert f[0].Fixed? && f[1].Fixed? && f[2].Fixed? && f[3].Fixed?;
      match DecodeEntries(data, off, Value(f[3])).0
      case None => None
      case Some(es) => Some(ReaddirReply(Value(f[0]), Value(f[1]), Value(f[2]) != 0, es))
  }

  /** The reply decoder, entry by entry. */
  method DecodeReaddir(body: array<byte>) returns (ret: int, reply: ReaddirReply)
    ensures match DecodeReply(body[..])
            case None => ret == -EIO
            case Some(r) => ret == 0 && reply == r
  {
    reply := ReaddirReply(0, 0, false, []);
    var cursor := new Cursor(body);
    var head: seq<Field>;
    ret, head := cursor.GetAll(HEAD_SHAPES);
    if ret != 0 {
      return;
    }
    DecodeAllShapes(body[..], 0, HEAD_SHAPES);
    assert forall i | 0 <= i < 4 :: ShapeOf(head[i]) == HEAD_SHAPES[i];
    assert head[0].Fixed? && head[1].Fixed? && head[2].Fixed? && head[3].Fixed?;
    var count := Value(head[3]);
    ghost var start := cursor.off;
    var entries: seq<DirEntry> := [];
    for i := 0 to count
      invariant cursor.Valid() && cursor.data == body
      invariant DecodeEntries(body[..], start, i) == (Some(entries), cursor.off)
    {
      var f: seq<Field>;
      ghost var mid := cursor.off;
      EntriesStep(body[..], start, i);
      ret, f := cursor.GetAll(ENTRY_SHAPES);
      if ret != 0 {
        EntriesFail(body[..], start, i + 1, count);
        return;
      }
      DecodeAllShapes(body[..], mid, ENTRY_SHAPES);
      entries := entries + [EntryOf(f)];
    }
    reply := ReaddirReply(Value(head[0]), Value(head[1]), Value(head[2]) != 0, entries);
  }

  lemma {:induction false} EntriesFail(data: Bytes, off: nat, n: nat, m: nat)
    requires n <= m && DecodeEntries(data, off, n).0.None?
    ensures DecodeEntries(data, off, m).0.None?
  {
    if n < m {
      EntriesFail(data, off, n, m - 1);
      EntriesStep(data, off, m - 1);
    }
  }

  // ---- what the decoder reads where ----

  lemma DecodeMore(data: Bytes, off: nat, shapes: seq<Shape>, n: nat)
    requires n < |shapes|
    ensures var (front, mid) := DecodeAll(data, off, shapes[..n]);
            var (last, end) := Decode(data, mid, shapes[n]);
            var (fs, stop) := DecodeAll(data, off, shapes[..n + 1]);
            if front.Some? && last.Some? then
              fs.Some? && |fs.value| == |front.value| + 1 && front.value <= fs.value
              && fs.value[|front.value|] == last.value && stop == end
            else fs.None?
  {
    DecodeSeqStep(Decode, data, off, shapes, n);
  }

  lemma DecodeTwo(data: Bytes, off: nat, shapes: seq<Shape>)
    requires |shapes| >= 2
    ensures var (w, p) := Decode(data, off, shapes[0]);
            var (x, q) := Decode(data, p, shapes[1]);
            var (fs, last) := DecodeAll(data, off, shapes[..2]);
            if w.Some? && x.Some?
            then fs.Some? && |fs.value| == 2 && fs.value[0] == w.value && fs.value[1] == x.value && last == q
            else fs.None?
  {
    assert DecodeAll(data, off, shapes[..0]) == (Some([]), off);
    DecodeMore(data, off, shapes, 0);
    DecodeMore(data, off, shapes, 1);
  }

  /** Four getters, one behind the other. */
  lemma DecodeFour(data: Bytes, off: nat, shapes: seq<Shape>)
    requires |shapes| == 4
    ensures var (w, p) := Decode(data, off, shapes[0]);
            var (x, q) := Decode(data, p, shapes[1]);
            var (y, r) := Decode(data, q, shapes[2]);
            var (z, end) := Decode(data, r, shapes[3]);
            var (fs, last) := DecodeAll(data, off, shapes);
            if w.Some? && x.Some? && y.Some? && z.Some? then
              fs.Some? && |fs.value| == 4 && last == end && fs.value[0] == w.value && fs.value[1] == x.value
              && fs.value[2] == y.value && fs.value[3] == z.value
            else fs.None?
  {
    DecodeTwo(data, off, shapes);
    DecodeMore(data, off, shapes, 2);
    DecodeMore(data, off, shapes, 3);
    assert shapes[..4] == shapes;
  }

  /** On arbitrary bytes: an entry is read from `off` exactly if its four length bytes, its
      name and another 28 bytes are there; they are the name, the object, the inode number and
      the mode, in this order. */
  lemma EntryLayout(data: Bytes, off: nat)
    ensures var (e, end) := DecodeEntry(data, off, ());
            if off + 4 <= |data| && off + 4 + Number(data, off, 4) + 28 <= |data| then
              var at := off + 4 + Number(data, off, 4);
              && e == Some(DirEntry(data[off + 4..at], data[at..at + 16], Number(data, at + 16, 8),
                                    Number(data, at + 24, 4)))
              && end == at + 28
            else e.None?
  {
    DecodeFour(data, off, ENTRY_SHAPES);
    if DecodeAll(data, off, ENTRY_SHAPES).0.Some? {
      DecodeAllShapes(data, off, ENTRY_SHAPES);
    }
  }

  /** The entries lie one behind the other from `start` on. */
  ghost predicate EntriesFrom(data: Bytes, entries: seq<DirEntry>, starts: seq<nat>) {
    && |starts| == |entries| + 1
    && forall i: nat | i < |entries| :: EntryLies(data, entries[i], starts[i], starts[i + 1])
  }

  /** The entry is what lies between the two offsets. */
  predicate EntryLies(data: Bytes, e: DirEntry, start: nat, end: nat) {
    && start + 32 + |e.name| == end <= |data|
    && Number(data, start, 4) == |e.name| && data[start + 4..start + 4 + |e.name|] == e.name
    && data[end - 28..end - 12] == e.objectId
    && Number(data, end - 12, 8) == e.ino && Number(data, end - 4, 4) == e.mode
  }

  lemma {:induction false} EntriesLayout(data: Bytes, off: nat, n: nat) returns (starts: seq<nat>)
    requires DecodeEntries(data, off, n).0.Some?
    ensures var (entries, end) := DecodeEntries(data, off, n);
            |entries.value| == n && EntriesFrom(data, entries.value, starts) && starts[0] == off && starts[n] == end
  {
    if n == 0 {
      starts := [off];
    } else {
      EntriesStep(data, off, n - 1);
      starts := EntriesLayout(data, off, n - 1);
      var (front, mid) := DecodeEntries(data, off, n - 1);
      EntryLayout(data, mid);
      var end := DecodeEntry(data, mid, ()).1;
      var entries := DecodeEntries(data, off, n).0.value;
      starts := starts + [end];
      forall i: nat | i < n
        ensures EntryLies(data, entries[i], starts[i], starts[i + 1])
      {
        assert i < n - 1 ==> EntryLies(data, front.value[i], starts[i], starts[i + 1]);
      }
    }
  }

  /** Whatever reply is decoded from whatever bytes: the first 17 are the lifetime, the cookie,
      the end mark and the number of entries, and that many entries lie behind them. */
  lemma ReplyLayout(data: Bytes) returns (starts: seq<nat>)
    requires DecodeReply(data).Some?
    ensures var r := DecodeReply(data).value;
            && |data| >= 17
            && r.dirTtl == Number(data, 0, 4) && r.nextCookie == Number(data, 4, 8)
            && (r.eof <==> data[12] != 0) && |r.entries| == Number(data, 13, 4)
            && EntriesFrom(data, r.entries, starts) && starts[0] == 17
  {
    DecodeFour(data, 0, HEAD_SHAPES);
    DecodeAllShapes(data, 0, HEAD_SHAPES);
    OneByte(data, 12);
    starts := EntriesLayout(data, 17, Number(data, 13, 4));
  }

  lemma OneByte(data: Bytes, off: nat)
    requires off < |data|
    ensures Number(data, off, 1) == data[off] as int
  {
    var s := data[off..off + 1];
    assert s[1..] == [] && s[0] == data[off];
    assert FromLE(s) == s[0] as int + 256 * FromLE(s[1..]);
  }

  // ---- the round trip ----

  lemma EntryInverts(data: Bytes, off: nat, e: DirEntry)
    requires GoodEntry(e) && At(data, off, EncodeEntry(e))
    ensures DecodeEntry(data, off, ()) == (Some(e), off + |EncodeEntry(e)|)
  {
    var fs := EntryFields(e);
    DecodeAllInverts(data, off, ENTRY_SHAPES, fs);
    DecodeAllShapes(data, off, ENTRY_SHAPES);
    EntryOfInverts(e);
  }

  lemma EntryOfInverts(e: DirEntry)
    requires GoodEntry(e) && forall i | 0 <= i < 4 :: ShapeOf(EntryFields(e)[i]) == ENTRY_SHAPES[i]
    ensures EntryOf(EntryFields(e)) == e
  {
    ValueInverts(e.ino);
    ValueInverts(e.mode);
  }

  lemma EntryUndone(data: Bytes, e: DirEntry)
    requires GoodEntry(e)
    ensures Undoes(EncodeEntry, DecodeEntry, data, (), e)
  {
    forall o: nat | At(data, o, EncodeEntry(e))
      ensures DecodeEntry(data, o, ()) == (Some(e), o + |EncodeEntry(e)|)
    {
      EntryInverts(data, o, e);
    }
  }

  lemma EntriesInvert(data: Bytes, off: nat, es: seq<DirEntry>)
    requires forall i | 0 <= i < |es| :: GoodEntry(es[i])
    requires At(data, off, EncodeSeq(EncodeEntry, es))
    ensures DecodeEntries(data, off, |es|).0 == Some(es)
  {
    var marks := seq(|es|, _ => ());
    forall i | 0 <= i < |es|
      ensures Undoes(EncodeEntry, DecodeEntry, data, marks[i], es[i])
    {
      EntryUndone(data, es[i]);
    }
    DecodeSeqInverts(EncodeEntry, DecodeEntry, data, off, marks, es);
  }

  lemma HeadInverts(data: Bytes, r: ReaddirReply)
    requires GoodReply(r) && At(data, 0, EncodeAll(HeadFields(r)))
    ensures DecodeAll(data, 0, HEAD_SHAPES) == (Some(HeadFields(r)), |EncodeAll(HeadFields(r))|)
  {
    DecodeAllInverts(data, 0, HEAD_SHAPES, HeadFields(r));
  }

  /** The reply decoder undoes the encoding of every reply whose numbers have their C types. */
  lemma ReplyInverts(r: ReaddirReply)
    requires GoodReply(r)
    ensures DecodeReply(EncodeReply(r)) == Some(r)
  {
    var head, tail := EncodeAll(HeadFields(r)), EncodeSeq(EncodeEntry, r.entries);
    var data := head + tail;
    assert At(data, 0, data);
    AtSplit(data, 0, head, tail);
    HeadInverts(data, r);
    EntriesInvert(data, |head|, r.entries);
    HeadValues(r);
  }

  lemma HeadValues(r: ReaddirReply)
    requires GoodReply(r)
    ensures var f := HeadFields(r);
            && Value(f[0]) == r.dirTtl && Value(f[1]) == r.nextCookie
            && (Value(f[2]) != 0 <==> r.eof) && Value(f[3]) == |r.entries|
  {
    ValueInverts(r.dirTtl);
    ValueInverts(r.nextCookie);
    ValueInverts(if r.eof then 1 else 0);
    ValueInverts(|r.entries|);
  }
}
