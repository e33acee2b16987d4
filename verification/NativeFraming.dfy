/** Framing on the gateway connection: a 52-byte header and a body of the length it names.
    The transport is arbitrary: each send may be short or fail, and each receive may deliver
    any part of what was asked for, fail, or report the end of the stream. */
module NativeFraming {
  import opened Errno
  import opened NativeCodec

  const MAGIC := 0x5346_4e4d
  const HEADER_LEN := 52

  /** Only the status 0 is success. */
  function ErrnoOf(status: nat): (r: int)
    ensures r <= 0 && (r == 0 <==> status == 0)
  {
    match status
    case 0 => 0
    case 1 => -EINVAL
    case 2 => -EACCES
    case 3 => -ENOENT
    case 4 => -ENOTDIR
    case 5 => -EISDIR
    case 6 => -ESTALE
    case 7 => -ESTALE
    case 10 => -EINTR
    case 11 => -EOPNOTSUPP
    case _ => -EIO
  }

  // ---- frames ----

  datatype Header = Header(
    magic: nat, version: nat, opcode: nat, flags: nat, headerLen: nat, bodyLen: nat,
    requestId: nat, sessionId: nat, status: nat, reserved: nat, generation: nat)

  datatype Frame = Frame(header: Header, body: Bytes)

  /** The packed structure, cut into its eleven fields from the back. */
  function Tail(h: Header): Bytes {
    LE(h.requestId, 8) + (LE(h.sessionId, 8) + (LE(h.status, 4) + (LE(h.reserved, 4) + LE(h.generation, 8))))
  }

  function EncodeHeader(h: Header): (b: Bytes)
    ensures |b| == HEADER_LEN
  {
    LE(h.magic, 4) + (LE(h.version, 2) + (LE(h.opcode, 2) + (LE(h.flags, 4)
    + (LE(h.headerLen, 4) + (LE(h.bodyLen, 4) + Tail(h))))))
  }

  function EncodeFrame(f: Frame): Bytes {
    EncodeHeader(f.header) + f.body
  }

  /** The structure laid over the bytes at `off`. */
  function HeaderAt(data: Bytes, off: nat): Header
    requires off + HEADER_LEN <= |data|
  {
    Header(Number(data, off, 4), Number(data, off + 4, 2), Number(data, off + 6, 2), Number(data, off + 8, 4),
           Number(data, off + 12, 4), Number(data, off + 16, 4), Number(data, off + 20, 8), Number(data, off + 28, 8),
           Number(data, off + 36, 4), Number(data, off + 40, 4), Number(data, off + 44, 8))
  }

  /** The fields have their C types. */
  ghost predicate InRange(h: Header) {
    && h.magic < U32_LIMIT && h.version < U16_LIMIT && h.opcode < U16_LIMIT && h.flags < U32_LIMIT
    && h.headerLen < U32_LIMIT && h.bodyLen < U32_LIMIT && h.requestId < U64_LIMIT && h.sessionId < U64_LIMIT
    && h.status < U32_LIMIT && h.reserved < U32_LIMIT && h.generation < U64_LIMIT
  }

  predicate Accepted(h: Header) {
    h.magic == MAGIC && h.version == VERSION && h.headerLen == HEADER_LEN
  }

  ghost predicate GoodFrame(f: Frame) {
    InRange(f.header) && Accepted(f.header) && f.header.bodyLen == |f.body|
  }

  lemma TailInverts(data: Bytes, off: nat, h: Header)
    requires InRange(h) && At(data, off, Tail(h))
    ensures Number(data, off, 8) == h.requestId && Number(data, off + 8, 8) == h.sessionId
    ensures Number(data, off + 16, 4) == h.status && Number(data, off + 20, 4) == h.reserved
    ensures Number(data, off + 24, 8) == h.generation
  {
    var t4 := LE(h.generation, 8);
    var t3 := LE(h.reserved, 4) + t4;
    var t2 := LE(h.status, 4) + t3;
    var t1 := LE(h.sessionId, 8) + t2;
    AtSplit(data, off, LE(h.requestId, 8), t1);
    AtSplit(data, off + 8, LE(h.sessionId, 8), t2);
    AtSplit(data, off + 16, LE(h.status, 4), t3);
    AtSplit(data, off + 20, LE(h.reserved, 4), t4);
    NumberInverts(data, off, h.requestId, 8);
    NumberInverts(data, off + 8, h.sessionId, 8);
    NumberInverts(data, off + 16, h.status, 4);
    NumberInverts(data, off + 20, h.reserved, 4);
    NumberInverts(data, off + 24, h.generation, 8);
  }

  /** Laying the structure over an encoded header gives the header back. */
  lemma HeaderInverts(data: Bytes, off: nat, h: Header)
    requires InRange(h) && At(data, off, EncodeHeader(h))
    ensures HeaderAt(data, off) == h
  {
    var t5 := LE(h.bodyLen, 4) + Tail(h);
    var t4 := LE(h.headerLen, 4) + t5;
    var t3 := LE(h.flags, 4) + t4;
    var t2 := LE(h.opcode, 2) + t3;
    var t1 := LE(h.version, 2) + t2;
    AtSplit(data, off, LE(h.magic, 4), t1);
    AtSplit(data, off + 4, LE(h.version, 2), t2);
    AtSplit(data, off + 6, LE(h.opcode, 2), t3);
    AtSplit(data, off + 8, LE(h.flags, 4), t4);
    AtSplit(data, off + 12, LE(h.headerLen, 4), t5);
    AtSplit(data, off + 16, LE(h.bodyLen, 4), Tail(h));
    NumberInverts(data, off, h.magic, 4);
    NumberInverts(data, off + 4, h.version, 2);
    NumberInverts(data, off + 6, h.opcode, 2);
    NumberInverts(data, off + 8, h.flags, 4);
    NumberInverts(data, off + 12, h.headerLen, 4);
    NumberInverts(data, off + 16, h.bodyLen, 4);
    TailInverts(data, off + 20, h);
  }
}
