/** The bodies of the kernel client's requests: the encoders, built on the cursor, and what
    the gateway reads from the bytes. */
module NativeRequests {
  import opened Basics
  import opened NativeCodec
  import opened NativeCursor
  import opened NativeFraming
  import opened NativeSession

  const KMOD: Bytes := [0x6b, 0x6d, 0x6f, 0x64]
  const SCAFFOLD: Bytes := [0x73, 0x63, 0x61, 0x66, 0x66, 0x6f, 0x6c, 0x64]
  const MONOFS_KMOD: Bytes := [0x6d, 0x6f, 0x6e, 0x6f, 0x66, 0x73, 0x2d, 0x6b, 0x6d, 0x6f, 0x64]

  type ObjectId = b: Bytes | |b| == 16 witness seq(16, _ => 0)

  datatype Request =
    | Hello
    | Mount(flags: nat, token: Bytes)
    | LookupName(parent: ObjectId, name: Bytes)
    | Readdir(dir: ObjectId, cookie: nat, maxEntries: nat)
    | OpenRead(target: ObjectId)
    | Read(handle: nat, offset: nat, length: nat)
    | Close(handle: nat)

  /** The operation that the header of the request names. */
  function Opcode(r: Request): nat {
    match r
    case Hello => 0x0001
    case Mount(_, _) => 0x0002
    case LookupName(_, _) => 0x0010
    case Readdir(_, _, _) => 0x0012
    case OpenRead(_) => 0x0020
    case Read(_, _, _) => 0x0021
    case Close(_) => 0x0022
  }

  function Fields(r: Request): seq<Field> {
    match r
    case Hello => [U16(VERSION), U16(VERSION), U64(0), Str(KMOD), Str(SCAFFOLD), Str([])]
    case Mount(flags, token) => [U32(flags), Str(MONOFS_KMOD), Str([]), Str(token)]
    case LookupName(parent, name) => [Fixed(parent), Str(name)]
    case Readdir(dir, cookie, n) => [Fixed(dir), U64(cookie), U32(n), U32(0)]
    case OpenRead(target) => [Fixed(target)]
    case Read(handle, offset, length) => [U64(handle), U64(offset), U32(length)]
    case Close(handle) => [U64(handle)]
  }

  /** The size each encoder computes before it allocates. */
  function BodyLen(r: Request): nat {
    match r
    case Hello => 2 + 2 + 8 + 4 + |KMOD| + 4 + |SCAFFOLD| + 4
    case Mount(_, token) => 4 + 4 + |MONOFS_KMOD| + 4 + 4 + |token|
    case LookupName(_, name) => OBJECT_ID_LEN + 4 + |name|
    case Readdir(_, _, _) => OBJECT_ID_LEN + 8 + 4 + 4
    case OpenRead(_) => OBJECT_ID_LEN
    case Read(_, _, _) => 8 + 8 + 4
    case Close(_) => 8
  }

  lemma BodyLenIsExact(r: Request)
    ensures |EncodeAll(Fields(r))| == BodyLen(r)
  {
    UnrollSize(Fields(r));
  }

  lemma UnrollSize(fs: seq<Field>)
    requires 1 <= |fs| <= 6
    ensures |EncodeAll(fs)|
            == SizeAt(fs, 0) + SizeAt(fs, 1) + SizeAt(fs, 2) + SizeAt(fs, 3) + SizeAt(fs, 4) + SizeAt(fs, 5)
  {
    var front := fs[..|fs| - 1];
    if |fs| > 1 {
      UnrollSize(front);
    }
    assert |EncodeAll(fs)| == |EncodeSeq(Encode, front)| + |Encode(fs[|fs| - 1])|;
  }

  function SizeAt(fs: seq<Field>, i: nat): nat {
    if i < |fs| then |Encode(fs[i])| else 0
  }

  // ---- what the gateway reads ----

  /** The string laid out at `off`: four bytes of length and then the bytes, up to `end`. */
  predicate StringAt(body: Bytes, off: nat, text: Bytes) {
    off + 4 + |text| <= |body| && Number(body, off, 4) == |text| && body[off + 4..off + 4 + |text|] == text
  }

  /** The request that a body of the given operation is, read byte by byte from the offsets
      of the protocol; None if it is no body of that operation. */
  function Received(opcode: nat, body: Bytes): Option<Request> {
    if opcode == 0x0001 then
      if |body| == 36 && Number(body, 0, 2) == VERSION && Number(body, 2, 2) == VERSION && Number(body, 4, 8) == 0
         && StringAt(body, 12, KMOD) && StringAt(body, 20, SCAFFOLD) && StringAt(body, 32, [])
      then Some(Hello) else None
    else if opcode == 0x0002 then
      if |body| >= 27 && StringAt(body, 4, MONOFS_KMOD) && StringAt(body, 19, []) && Number(body, 23, 4) == |body| - 27
      then Some(Mount(Number(body, 0, 4), body[27..])) else None
    else if opcode == 0x0010 then
      if |body| >= 20 && Number(body, 16, 4) == |body| - 20 then Some(LookupName(body[..16], body[20..])) else None
    else if opcode == 0x0012 then
      if |body| == 32 && Number(body, 28, 4) == 0
      then Some(Readdir(body[..16], Number(body, 16, 8), Number(body, 24, 4))) else None
    else if opcode == 0x0020 then
      if |body| == 16 then Some(OpenRead(body)) else None
    else if opcode == 0x0021 then
      if |body| == 20 then Some(Read(Number(body, 0, 8), Number(body, 8, 8), Number(body, 16, 4))) else None
    else if opcode == 0x0022 then
      if |body| == 8 then Some(Close(Number(body, 0, 8))) else None
    else None
  }

  /** The request's numbers have their C types, and its text fits a 32-bit length. */
  ghost predicate Typed(r: Request) {
    match r
    case Hello => true
    case Mount(flags, token) => flags < U32_LIMIT && BodyLen(r) < U32_LIMIT
    case LookupName(_, name) => BodyLen(r) < U32_LIMIT
    case Readdir(_, cookie, n) => cookie < U64_LIMIT && n < U32_LIMIT
    case OpenRead(_) => true
    case Read(handle, offset, length) => handle < U64_LIMIT && offset < U64_LIMIT && length < U32_LIMIT
    case Close(handle) => handle < U64_LIMIT
  }

  function Offset(fs: seq<Field>, k: nat): nat
    requires k <= |fs|
  {
    if k == 0 then 0 else Offset(fs, k - 1) + |Encode(fs[k - 1])|
  }

  lemma {:induction false} OffsetIsSize(fs: seq<Field>, k: nat)
    requires k <= |fs|
    ensures |EncodeSeq(Encode, fs[..k])| == Offset(fs, k)
  {
    if k > 0 {
      OffsetIsSize(fs, k - 1);
      assert fs[..k] == fs[..k - 1] + [fs[k - 1]];
      EncodeSeqMore(Encode, fs[..k - 1], fs[k - 1]);
    }
  }

  /** Each field lies in the encoding right behind those before it. */
  lemma FieldAt(fs: seq<Field>, k: nat, off: nat)
    requires k < |fs| && off == Offset(fs, k)
    ensures At(EncodeAll(fs), off, Encode(fs[k]))
  {
    OffsetIsSize(fs, k);
    assert At(EncodeAll(fs), 0, EncodeAll(fs));
    ItemAt(Encode, EncodeAll(fs), 0, fs, k);
  }

  lemma NumberAt(fs: seq<Field>, k: nat, off: nat, v: nat, n: nat)
    requires k < |fs| && off == Offset(fs, k) && fs[k] == Fixed(LE(v, n)) && n in {2, 4, 8}
    requires n == 2 ==> v < U16_LIMIT
    requires n == 4 ==> v < U32_LIMIT
    requires n == 8 ==> v < U64_LIMIT
    ensures off + n <= |EncodeAll(fs)| && Number(EncodeAll(fs), off, n) == v
  {
    FieldAt(fs, k, off);
    NumberInverts(EncodeAll(fs), off, v, n);
  }

  lemma BlockAt(fs: seq<Field>, k: nat, off: nat)
    requires k < |fs| && off == Offset(fs, k) && fs[k].Fixed?
    ensures At(EncodeAll(fs), off, fs[k].bytes)
  {
    FieldAt(fs, k, off);
  }

  lemma TextAt(fs: seq<Field>, k: nat, off: nat)
    requires k < |fs| && off == Offset(fs, k) && fs[k].Str? && |fs[k].text| < U32_LIMIT
    ensures StringAt(EncodeAll(fs), off, fs[k].text)
  {
    var text := fs[k].text;
    FieldAt(fs, k, off);
    AtSplit(EncodeAll(fs), off, LE(|text|, 4), text);
    NumberInverts(EncodeAll(fs), off, |text|, 4);
  }

  lemma HelloArrives()
    ensures Received(Opcode(Hello), EncodeAll(Fields(Hello))) == Some(Hello)
  {
    var fs := Fields(Hello);
    BodyLenIsExact(Hello);
    assert Offset(fs, 1) == 2 && Offset(fs, 2) == 4 && Offset(fs, 3) == 12;
    assert Offset(fs, 4) == 20 && Offset(fs, 5) == 32;
    NumberAt(fs, 0, 0, VERSION, 2);
    NumberAt(fs, 1, 2, VERSION, 2);
    NumberAt(fs, 2, 4, 0, 8);
    TextAt(fs, 3, 12);
    TextAt(fs, 4, 20);
    TextAt(fs, 5, 32);
  }

  lemma MountArrives(flags: nat, token: Bytes)
    requires Typed(Mount(flags, token))
    ensures Received(Opcode(Mount(flags, token)), EncodeAll(Fields(Mount(flags, token)))) == Some(Mount(flags, token))
  {
    var fs := Fields(Mount(flags, token));
    BodyLenIsExact(Mount(flags, token));
    assert Offset(fs, 1) == 4 && Offset(fs, 2) == 19 && Offset(fs, 3) == 23;
    NumberAt(fs, 0, 0, flags, 4);
    TextAt(fs, 1, 4);
    TextAt(fs, 2, 19);
    TextAt(fs, 3, 23);
    assert EncodeAll(fs)[27..27 + |token|] == EncodeAll(fs)[27..];
  }

  lemma LookupArrives(parent: ObjectId, name: Bytes)
    requires Typed(LookupName(parent, name))
    ensures var r := LookupName(parent, name); Received(Opcode(r), EncodeAll(Fields(r))) == Some(r)
  {
    var fs := Fields(LookupName(parent, name));
    BodyLenIsExact(LookupName(parent, name));
    assert Offset(fs, 1) == 16;
    BlockAt(fs, 0, 0);
    TextAt(fs, 1, 16);
    assert EncodeAll(fs)[..16] == parent && EncodeAll(fs)[20..20 + |name|] == EncodeAll(fs)[20..];
  }

  lemma ReaddirArrives(dir: ObjectId, cookie: nat, n: nat)
    requires Typed(Readdir(dir, cookie, n))
    ensures var r := Readdir(dir, cookie, n); Received(Opcode(r), EncodeAll(Fields(r))) == Some(r)
  {
    var fs := Fields(Readdir(dir, cookie, n));
    BodyLenIsExact(Readdir(dir, cookie, n));
    assert Offset(fs, 1) == 16 && Offset(fs, 2) == 24 && Offset(fs, 3) == 28;
    BlockAt(fs, 0, 0);
    NumberAt(fs, 1, 16, cookie, 8);
    NumberAt(fs, 2, 24, n, 4);
    NumberAt(fs, 3, 28, 0, 4);
  }

  lemma ReadArrives(handle: nat, offset: nat, length: nat)
    requires Typed(Read(handle, offset, length))
    ensures var r := Read(handle, offset, length); Received(Opcode(r), EncodeAll(Fields(r))) == Some(r)
  {
    var fs := Fields(Read(handle, offset, length));
    BodyLenIsExact(Read(handle, offset, length));
    assert Offset(fs, 1) == 8 && Offset(fs, 2) == 16;
    NumberAt(fs, 0, 0, handle, 8);
    NumberAt(fs, 1, 8, offset, 8);
    NumberAt(fs, 2, 16, length, 4);
  }

  lemma OneFieldArrives(r: Request)
    requires Typed(r) && (r.OpenRead? || r.Close?)
    ensures Received(Opcode(r), EncodeAll(Fields(r))) == Some(r)
  {
    BodyLenIsExact(r);
    match r
    case OpenRead(target) =>
      BlockAt(Fields(r), 0, 0);
      assert EncodeAll(Fields(r))[0..16] == EncodeAll(Fields(r));
    case Close(handle) => NumberAt(Fields(r), 0, 0, handle, 8);
  }

  /** Whatever the request, the gateway reads from the body that was encoded the very request
      that was meant. */
  lemma BodyArrives(r: Request)
    requires Typed(r)
    ensures Received(Opcode(r), EncodeAll(Fields(r))) == Some(r)
  {
    match r
    case Hello => HelloArrives();
    case Mount(flags, token) => MountArrives(flags, token);
    case LookupName(parent, name) => LookupArrives(parent, name);
    case Readdir(dir, cookie, n) => ReaddirArrives(dir, cookie, n);
    case OpenRead(_) => OneFieldArrives(r);
    case Read(handle, offset, length) => ReadArrives(handle, offset, length);
    case Close(_) => OneFieldArrives(r);
  }

  /** The frame that carries a request. */
  function RequestFrame(opcode: nat, body: Bytes, id: nat, sessionId: nat, generation: nat): Frame {
    Frame(Header(MAGIC, VERSION, opcode, 0, HEADER_LEN, |body|, id, sessionId, 0, 0, generation), body)
  }

  lemma RequestIsGood(opcode: nat, body: Bytes, id: nat, sessionId: nat, generation: nat)
    requires opcode < U16_LIMIT && |body| < U32_LIMIT
    requires id < U64_LIMIT && sessionId < U64_LIMIT && generation < U64_LIMIT
    ensures GoodFrame(RequestFrame(opcode, body, id, sessionId, generation))
  {}

  lemma RequestIsFrame(opcode: nat, body: Bytes, piece: Bytes, id: nat, sessionId: nat, generation: nat)
    requires |body| < U32_LIMIT && IsRequest(piece, Call(opcode, body), id, sessionId, generation)
    ensures piece == EncodeFrame(RequestFrame(opcode, body, id, sessionId, generation))
  {
    assert |body| % U32_LIMIT == |body|;
  }

  /** From the bytes on the connection: a gateway that finds a call's request at some offset
      reads its header, then as many bytes as that says, and has the request of the call, with
      its number, session and generation. */
  lemma RequestArrives(data: Bytes, off: nat, r: Request, piece: Bytes, id: nat, sessionId: nat, generation: nat)
    requires Typed(r) && id < U64_LIMIT && sessionId < U64_LIMIT && generation < U64_LIMIT
    requires IsRequest(piece, Call(Opcode(r), EncodeAll(Fields(r))), id, sessionId, generation) && At(data, off, piece)
    ensures FrameAhead(data, off) && FrameEnd(data, off) == off + |piece|
    ensures var h := HeaderAt(data, off);
            && Received(h.opcode, data[off + HEADER_LEN..FrameEnd(data, off)]) == Some(r)
            && h.requestId == id && h.sessionId == sessionId && h.generation == generation
  {
    var body := EncodeAll(Fields(r));
    var f := RequestFrame(Opcode(r), body, id, sessionId, generation);
    TypedFits(r);
    RequestIsGood(Opcode(r), body, id, sessionId, generation);
    RequestIsFrame(Opcode(r), body, piece, id, sessionId, generation);
    FrameIsAhead(data, off, f);
    BodyArrives(r);
  }

  lemma TypedFits(r: Request)
    requires Typed(r)
    ensures |EncodeAll(Fields(r))| < U32_LIMIT
  {
    BodyLenIsExact(r);
  }

  /** Every request encoder succeeds, whatever the length of the name or token, and fills
      the buffer it sized in advance to the last byte; the gateway reads the request from it. */
  method EncodeRequest(r: Request) returns (ret: int, body: array<byte>, off: nat)
    ensures ret == 0 && off == body.Length == BodyLen(r)
    ensures body[..] == EncodeAll(Fields(r))
    ensures Typed(r) ==> Received(Opcode(r), body[..]) == Some(r)
  {
    BodyLenIsExact(r);
    if Typed(r) {
      BodyArrives(r);
    }
    body := new byte[BodyLen(r)];
    var cursor := new Cursor(body);
    ret := cursor.PutAll(Fields(r));
    off := cursor.off;
    assert body[..off] == body[..];
  }
}
