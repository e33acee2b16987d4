/** One request and its reply over the gateway connection, and any sequence of them. */
module NativeSession {
  import opened Basics
  import opened Errno
  import opened NativeCodec
  import opened NativeFraming

  /** The 64-bit counter of requests. */
  function NextId(id: nat): nat { (id + 1) % U64_LIMIT }

  function Numbered(id: nat, k: nat): nat {
    if k == 0 then id else NextId(Numbered(id, k - 1))
  }

  lemma WrapsOnce(n: nat)
    ensures (n % U64_LIMIT + 1) % U64_LIMIT == (n + 1) % U64_LIMIT
  {
    var q, r := n / U64_LIMIT, n % U64_LIMIT;
    assert n + 1 == q * U64_LIMIT + (r + 1);
  }

  lemma {:induction false} NumberedInOrder(id: nat, k: nat)
    requires id < U64_LIMIT
    ensures Numbered(id, k) == (id + k) % U64_LIMIT
  {
    if k > 0 {
      NumberedInOrder(id, k - 1);
      WrapsOnce(id + k - 1);
    }
  }

  /** A connected stream socket with everything the peer will ever send. What the i-th
      operation on n bytes returns is up to `offers` and `accepts`. */
  class Socket {
    const stream: Bytes
    const offers: (nat, nat) -> int
    const accepts: (nat, nat) -> int
    var at: nat
    var receives: nat
    var sends: nat
    var sent: Bytes
    ghost var failures: nat

    constructor (stream: Bytes, offers: (nat, nat) -> int, accepts: (nat, nat) -> int)
      ensures this.stream == stream && this.offers == offers && this.accepts == accepts
      ensures at == 0 && receives == 0 && sends == 0 && sent == [] && failures == 0 && Valid()
    {
      this.stream, this.offers, this.accepts := stream, offers, accepts;
      at, receives, sends, sent, failures := 0, 0, 0, [], 0;
    }

    ghost predicate Valid()
      reads this
    {
      at <= |stream|
    }

    /** From here on no operation fails, and none ends early; how the bytes are split stays
        open. */
    ghost predicate Healthy()
      reads this
    {
      SendsFrom(sends) && forall i: nat, n: nat | i >= receives && n > 0 :: offers(i, n) > 0
    }

    ghost predicate SendsFrom(first: nat) {
      forall i: nat, n: nat | i >= first && n > 0 :: accepts(i, n) >= n
    }

    method Copy(buf: array<byte>, done: nat, n: nat)
      requires at + n <= |stream| && done + n <= buf.Length
      modifies buf
      ensures buf[..done + n] == old(buf[..done]) + stream[at..at + n]
    {
      for i := 0 to n
        invariant buf[..done + i] == old(buf[..done]) + stream[at..at + i]
      {
        buf[done + i] := stream[at + i];
      }
    }

    /** One kernel_recvmsg into the rest of the buffer; delivering nothing is a failure. */
    method Recv(buf: array<byte>, done: nat) returns (ret: int)
      requires Valid() && done < buf.Length
      modifies this`at, this`receives, this`failures, buf
      ensures Valid() && ret <= buf.Length - done && receives == old(receives) + 1
      ensures failures == old(failures) + if ret > 0 then 0 else 1
      ensures ret >= 0 ==> at == old(at) + ret && buf[..done + ret] == old(buf[..done]) + stream[old(at)..at]
      ensures ret < 0 ==> at == old(at)
      ensures ret < 0 <==> offers(old(receives), buf.Length - done) < 0
      ensures offers(old(receives), buf.Length - done) < 0 ==> ret == offers(old(receives), buf.Length - done)
      ensures old(Healthy() && at < |stream|) ==> ret > 0
    {
      var n := buf.Length - done;
      ret := offers(receives, n);
      receives := receives + 1;
      if ret < 0 {
        failures := failures + 1;
        return;
      }
      ret := Min(Min(ret, n), |stream| - at);
      Copy(buf, done, ret);
      at := at + ret;
      failures := failures + if ret > 0 then 0 else 1;
    }

    /** What a receive into n bytes reports when it delivers nothing: its own error, or EIO at
        the end of the stream. */
    function RecvError(i: nat, n: nat): int {
      if offers(i, n) < 0 then offers(i, n) else -EIO
    }

    /** Fills the buffer, in as many receives as it takes; the one that delivers nothing ends it. */
    method RecvAll(buf: array<byte>) returns (ret: int)
      requires Valid()
      modifies this`at, this`receives, this`failures, buf
      ensures Valid() && ret <= 0 && receives >= old(receives)
      ensures failures >= old(failures) && (ret == 0 <==> failures == old(failures))
      ensures ret == 0 ==> at == old(at) + buf.Length && buf[..] == stream[old(at)..at]
      ensures ret < 0 ==> old(at) <= at < old(at) + buf.Length && receives > old(receives)
      ensures ret < 0 ==> ret == RecvError(receives - 1, buf.Length - (at - old(at)))
      ensures buf.Length > 0 && offers(old(receives), buf.Length) < 0 ==>
                ret == offers(old(receives), buf.Length) && at == old(at) && receives == old(receives) + 1
      ensures old(Healthy() && at + buf.Length <= |stream|) ==> ret == 0
    {
      var done := 0;
      while done < buf.Length
        invariant Valid() && done <= buf.Length && at == old(at) + done
        invariant receives >= old(receives) && failures == old(failures)
        invariant buf[..done] == stream[old(at)..at]
        invariant done == 0 ==> receives == old(receives)
        invariant done > 0 ==> offers(old(receives), buf.Length) >= 0
        invariant old(Healthy()) ==> Healthy()
      {
        ghost var was := at;
        ret := Recv(buf, done);
        if ret < 0 {
          return;
        }
        assert stream[old(at)..was] + stream[was..at] == stream[old(at)..at];
        if ret == 0 {
          return -EIO;
        }
        done := done + ret;
      }
      assert buf[..] == buf[..done];
      return 0;
    }

    /** One kernel_sendmsg, which has to take everything. */
    method SendAll(data: Bytes) returns (ret: int)
      modifies this`sends, this`sent, this`failures
      ensures ret <= 0 && sends == old(sends) + 1
      ensures failures == old(failures) + if ret == 0 then 0 else 1
      ensures exists k | 0 <= k <= |data| :: sent == old(sent) + data[..k]
      ensures ret == 0 ==> sent == old(sent) + data
      ensures var k := accepts(old(sends), |data|); ret == if k < 0 then k else if k < |data| then -EIO else 0
      ensures old(SendsFrom(sends)) && data != [] ==> ret == 0
    {
      var taken := Min(accepts(sends, |data|), |data|);
      sends := sends + 1;
      if taken < 0 {
        failures := failures + 1;
        assert sent == old(sent) + data[..0];
        return taken;
      }
      sent := sent + data[..taken];
      assert data[..|data|] == data;
      if taken != |data| {
        failures := failures + 1;
        return -EIO;
      }
      return 0;
    }
  }

  /** A whole accepted frame lies ahead. */
  ghost predicate FrameAhead(data: Bytes, at: nat) {
    && at + HEADER_LEN <= |data|
    && Accepted(HeaderAt(data, at))
    && at + HEADER_LEN + HeaderAt(data, at).bodyLen <= |data|
  }

  /** Where it ends. */
  function FrameEnd(data: Bytes, at: nat): nat
    requires at + HEADER_LEN <= |data|
  {
    at + HEADER_LEN + HeaderAt(data, at).bodyLen
  }

  lemma HeaderOfCopy(data: Bytes, at: nat, b: Bytes)
    requires at + HEADER_LEN <= |data| && b == data[at..at + HEADER_LEN]
    ensures HeaderAt(b, 0) == HeaderAt(data, at)
  {
    SliceOfSlice(data, at, b, 0, 4);
    SliceOfSlice(data, at, b, 4, 2);
    SliceOfSlice(data, at, b, 6, 2);
    SliceOfSlice(data, at, b, 8, 4);
    SliceOfSlice(data, at, b, 12, 4);
    SliceOfSlice(data, at, b, 16, 4);
    SliceOfSlice(data, at, b, 20, 8);
    SliceOfSlice(data, at, b, 28, 8);
    SliceOfSlice(data, at, b, 36, 4);
    SliceOfSlice(data, at, b, 40, 4);
    SliceOfSlice(data, at, b, 44, 8);
  }

  lemma SliceOfSlice(data: Bytes, at: nat, b: Bytes, off: nat, n: nat)
    requires at + |b| <= |data| && b == data[at..at + |b|] && off + n <= |b|
    ensures Number(b, off, n) == Number(data, at + off, n)
  {
    assert forall i | 0 <= i < |b| :: b[i] == data[at + i];
    assert b[off..off + n] == data[at + off..at + off + n];
  }

  class Session {
    var sock: Socket?
    var nextRequestId: nat
    var sessionId: nat
    var generation: nat

    constructor (sock: Socket?)
      ensures this.sock == sock && nextRequestId == 0 && sessionId == 0 && generation == 0
    {
      this.sock, nextRequestId, sessionId, generation := sock, 0, 0, 0;
    }

    /** The header of the next request; the identifier was just counted up. */
    function RequestHeader(opcode: nat, len: nat): Header
      reads this
    {
      Header(MAGIC, VERSION, opcode, 0, HEADER_LEN, len % U32_LIMIT, nextRequestId, sessionId, 0, 0, generation)
    }

    /** The request's two sends; an empty body is not sent. */
    method Send(s: Socket, header: Bytes, body: Bytes) returns (ret: int)
      requires header != []
      modifies s`sends, s`sent, s`failures
      ensures ret <= 0 && s.sends >= old(s.sends)
      ensures s.failures >= old(s.failures) && (ret == 0 <==> s.failures == old(s.failures))
      ensures ret == 0 ==> s.sent == old(s.sent) + (header + body)
      ensures old(s.SendsFrom(s.sends)) ==> ret == 0
    {
      ret := s.SendAll(header);
      if ret == 0 && |body| > 0 {
        ret := s.SendAll(body);
      }
      if ret == 0 {
        assert s.sent == old(s.sent) + (header + body);
      }
    }

    /** The reply's header and body. */
    method Receive(s: Socket) returns (ret: int, header: Header, reply: Bytes)
      requires s.Valid()
      modifies this`generation, s`at, s`receives, s`failures
      ensures s.Valid() && s.at >= old(s.at) && s.receives >= old(s.receives) && s.failures >= old(s.failures)
      ensures ret == 0 ==> FrameAhead(s.stream, old(s.at)) && Whole(s, old(s.at), ret, header, reply)
      ensures ret != 0 ==> reply == []
      ensures FrameAhead(s.stream, old(s.at)) ==>
                if s.failures == old(s.failures) then Whole(s, old(s.at), ret, header, reply)
                else ret < 0 && s.at < FrameEnd(s.stream, old(s.at))
      ensures old(s.Healthy()) && FrameAhead(s.stream, old(s.at)) ==> s.failures == old(s.failures)
      ensures old(s.Healthy() && s.at + HEADER_LEN <= |s.stream| && !Accepted(HeaderAt(s.stream, s.at))) ==>
                ret == -EPROTO && s.at == old(s.at) + HEADER_LEN && generation == old(generation)
      ensures s.offers(old(s.receives), HEADER_LEN) < 0 ==>
                && ret == s.offers(old(s.receives), HEADER_LEN) && s.at == old(s.at)
                && s.receives == old(s.receives) + 1
    {
      header, reply := Header(0, 0, 0, 0, 0, 0, 0, 0, 0, 0, 0), [];
      var buf := new byte[HEADER_LEN];
      ret := s.RecvAll(buf);
      if ret != 0 {
        return;
      }
      header := HeaderAt(buf[..], 0);
      HeaderOfCopy(s.stream, old(s.at), buf[..]);
      if !Accepted(header) {
        return -EPROTO, header, reply;
      }
      generation := header.generation;
      var body: Bytes := [];
      if header.bodyLen > 0 {
        var rest := new byte[header.bodyLen];
        ret := s.RecvAll(rest);
        if ret != 0 {
          return;
        }
        body := rest[..];
      }
      ret := ErrnoOf(header.status);
      if ret == 0 {
        reply := body;
      }
    }

    /** The frame at `start`, and nothing more, was consumed and its contents handed over. */
    ghost predicate Whole(s: Socket, start: nat, ret: int, header: Header, reply: Bytes)
      requires FrameAhead(s.stream, start)
      reads this, s
    {
      && s.at == FrameEnd(s.stream, start)
      && header == HeaderAt(s.stream, start)
      && generation == header.generation
      && ret == ErrnoOf(header.status)
      && reply == if ret == 0 then s.stream[start + HEADER_LEN..FrameEnd(s.stream, start)] else []
    }

    /** Sends a request and reads its reply. With a whole accepted frame ahead, exactly that
        frame is consumed, whatever its status, if no operation of the transport fails; and if
        one does, the call ends before the end of the frame, with the socket still in use. */
    method RoundTrip(opcode: nat, body: Bytes) returns (ret: int, header: Header, reply: Bytes)
      requires sock != null ==> sock.Valid()
      modifies this`nextRequestId, this`generation, sock
      ensures sock != null ==>
                && sock.Valid() && sock.at >= old(sock.at) && sock.failures >= old(sock.failures)
                && sock.receives >= old(sock.receives) && sock.sends >= old(sock.sends)
      ensures nextRequestId == NextId(old(nextRequestId))
      ensures ret != 0 ==> reply == []
      ensures sock == null ==> ret == -ENOTCONN && generation == old(generation)
      ensures ret == 0 ==>
                && sock != null && FrameAhead(sock.stream, old(sock.at))
                && Whole(sock, old(sock.at), ret, header, reply)
      ensures sock != null && (ret == 0 || old(sock.SendsFrom(sock.sends))) ==>
                sock.sent == old(sock.sent)
                             + (EncodeHeader(RequestHeader(opcode, |body|).(generation := old(generation))) + body)
      ensures sock != null && FrameAhead(sock.stream, old(sock.at)) ==>
                if sock.failures == old(sock.failures) then Whole(sock, old(sock.at), ret, header, reply)
                else ret < 0 && sock.at < FrameEnd(sock.stream, old(sock.at))
      ensures sock != null && old(sock.Healthy()) && FrameAhead(sock.stream, old(sock.at)) ==>
                sock.failures == old(sock.failures)
      ensures sock != null && old(sock.Healthy() && sock.at + HEADER_LEN <= |sock.stream|)
              && !Accepted(HeaderAt(sock.stream, old(sock.at))) ==>
                ret == -EPROTO && sock.at == old(sock.at) + HEADER_LEN && generation == old(generation)
      ensures sock != null && old(sock.SendsFrom(sock.sends)) && sock.offers(old(sock.receives), HEADER_LEN) < 0 ==>
                && ret == sock.offers(old(sock.receives), HEADER_LEN) && sock.at == old(sock.at)
                && sock.receives == old(sock.receives) + 1
    {
      nextRequestId := NextId(nextRequestId);
      var request := EncodeHeader(RequestHeader(opcode, |body|));
      header, reply := Header(0, 0, 0, 0, 0, 0, 0, 0, 0, 0, 0), [];
      if sock == null {
        return -ENOTCONN, header, reply;
      }
      ret := Send(sock, request, body);
      if ret == 0 {
        ret, header, reply := Receive(sock);
      }
    }
  }

  // ---- a whole conversation ----

  datatype Call = Call(opcode: nat, body: Bytes)
  datatype Outcome = Outcome(ret: int, header: Header, reply: Bytes)

  /** What the k-th call must see if the k-th frame answers it. */
  function Answer(f: Frame): Outcome {
    var ret := ErrnoOf(f.header.status);
    Outcome(ret, f.header, if ret == 0 then f.body else [])
  }

  lemma FrameIsAhead(data: Bytes, at: nat, f: Frame)
    requires GoodFrame(f) && At(data, at, EncodeFrame(f))
    ensures FrameAhead(data, at) && HeaderAt(data, at) == f.header
    ensures FrameEnd(data, at) == at + |EncodeFrame(f)|
    ensures data[at + HEADER_LEN..FrameEnd(data, at)] == f.body
  {
    AtSplit(data, at, EncodeHeader(f.header), f.body);
    HeaderInverts(data, at, f.header);
  }

  /** Frame k lies between offsets k and k + 1. */
  ghost predicate Lies(data: Bytes, starts: seq<nat>, frames: seq<Frame>, k: nat)
    requires k < |frames| == |starts| - 1
  {
    && GoodFrame(frames[k]) && At(data, starts[k], EncodeFrame(frames[k]))
    && starts[k + 1] == starts[k] + |EncodeFrame(frames[k])|
  }

  ghost predicate Lined(data: Bytes, starts: seq<nat>, frames: seq<Frame>) {
    && |starts| == |frames| + 1
    && forall k: nat | k < |frames| :: Lies(data, starts, frames, k)
  }

  /** The generation known before call k: that of the reply before it. */
  function GenerationBefore(initial: nat, frames: seq<Frame>, k: nat): nat
    requires k <= |frames|
  {
    if k == 0 then initial else frames[k - 1].header.generation
  }

  /** The piece of the stream is the request of the call: its header and its body. */
  ghost predicate IsRequest(piece: Bytes, c: Call, id: nat, sessionId: nat, generation: nat) {
    piece == EncodeHeader(Header(MAGIC, VERSION, c.opcode, 0, HEADER_LEN, |c.body| % U32_LIMIT,
                                 id, sessionId, 0, 0, generation)) + c.body
  }

  function Same(piece: Bytes): Bytes { piece }

  lemma SentMore(before: Bytes, pieces: seq<Bytes>, piece: Bytes)
    ensures before + EncodeSeq(Same, pieces) + piece == before + EncodeSeq(Same, pieces + [piece])
  {
    EncodeSeqMore(Same, pieces, piece);
  }

  /** What the session knew before a conversation. */
  datatype Past = Past(id: nat, sessionId: nat, generation: nat)

  /** Piece k is the request of call k, with the k-th number behind the last one and the
      generation known then. */
  ghost predicate Asked(pieces: seq<Bytes>, calls: seq<Call>, frames: seq<Frame>, past: Past, k: nat)
    requires k < |pieces| <= |calls| == |frames|
  {
    IsRequest(pieces[k], calls[k], Numbered(past.id, k + 1), past.sessionId,
              GenerationBefore(past.generation, frames, k))
  }

  lemma AskedMore(pieces: seq<Bytes>, calls: seq<Call>, frames: seq<Frame>, past: Past, piece: Bytes)
    requires |pieces| < |calls| == |frames| && forall k: nat | k < |pieces| :: Asked(pieces, calls, frames, past, k)
    requires IsRequest(piece, calls[|pieces|], Numbered(past.id, |pieces| + 1), past.sessionId,
                       GenerationBefore(past.generation, frames, |pieces|))
    ensures forall k: nat | k < |pieces| + 1 :: Asked(pieces + [piece], calls, frames, past, k)
  {
    forall k: nat | k < |pieces| + 1
      ensures Asked(pieces + [piece], calls, frames, past, k)
    {
      assert k < |pieces| ==> Asked(pieces, calls, frames, past, k);
    }
  }

  /** One call answered by the frame that lies ahead. */
  method Ask(session: Session, s: Socket, c: Call, ghost starts: seq<nat>, ghost frames: seq<Frame>, ghost k: nat)
    returns (outcome: Outcome, ghost piece: Bytes)
    requires session.sock == s && s.Valid() && s.Healthy()
    requires Lined(s.stream, starts, frames) && k < |frames| && s.at == starts[k]
    modifies session`nextRequestId, session`generation, s
    ensures s.Valid() && s.Healthy() && outcome == Answer(frames[k]) && s.at == starts[k + 1]
    ensures session.nextRequestId == NextId(old(session.nextRequestId))
    ensures session.generation == frames[k].header.generation
    ensures s.sent == old(s.sent) + piece
    ensures IsRequest(piece, c, session.nextRequestId, session.sessionId, old(session.generation))
  {
    assert Lies(s.stream, starts, frames, k);
    FrameIsAhead(s.stream, s.at, frames[k]);
    ghost var generation := session.generation;
    var ret, header, reply := session.RoundTrip(c.opcode, c.body);
    outcome := Outcome(ret, header, reply);
    piece := EncodeHeader(session.RequestHeader(c.opcode, |c.body|).(generation := generation)) + c.body;
  }

  /** Where a conversation stands after k calls. */
  ghost predicate Talked(session: Session, past: Past, frames: seq<Frame>, k: nat)
    requires k <= |frames|
    reads session
  {
    && session.nextRequestId == Numbered(past.id, k) && session.sessionId == past.sessionId
    && session.generation == GenerationBefore(past.generation, frames, k)
  }

  ghost predicate AllAsked(pieces: seq<Bytes>, calls: seq<Call>, frames: seq<Frame>, past: Past) {
    && |pieces| <= |calls| == |frames|
    && forall k: nat | k < |pieces| :: Asked(pieces, calls, frames, past, k)
  }

  /** The next call of a conversation. */
  method AskNext(session: Session, s: Socket, calls: seq<Call>, ghost starts: seq<nat>, ghost frames: seq<Frame>,
                 ghost past: Past, k: nat, ghost pieces: seq<Bytes>)
    returns (outcome: Outcome, ghost more: seq<Bytes>)
    requires session.sock == s && s.Valid() && s.Healthy()
    requires Lined(s.stream, starts, frames) && k < |frames| == |calls| && s.at == starts[k]
    requires |pieces| == k && AllAsked(pieces, calls, frames, past) && Talked(session, past, frames, k)
    modifies session`nextRequestId, session`generation, s
    ensures s.Valid() && s.Healthy() && outcome == Answer(frames[k]) && s.at == starts[k + 1]
    ensures |more| == k + 1 && AllAsked(more, calls, frames, past) && Talked(session, past, frames, k + 1)
    ensures forall before | old(s.sent) == before + EncodeSeq(Same, pieces) :: s.sent == before + EncodeSeq(Same, more)
  {
    ghost var piece;
    outcome, piece := Ask(session, s, calls[k], starts, frames, k);
    more := pieces + [piece];
    AskedMore(pieces, calls, frames, past, piece);
    forall before | old(s.sent) == before + EncodeSeq(Same, pieces)
      ensures s.sent == before + EncodeSeq(Same, more)
    {
      SentMore(before, pieces, piece);
    }
  }

  /** However the transport splits the bytes, the k-th call decodes the k-th frame, even
      after frames whose status is an error; and what was sent is the requests of the calls,
      one behind the other, numbered consecutively. */
  method Converse(session: Session, s: Socket, calls: seq<Call>, ghost starts: seq<nat>, ghost frames: seq<Frame>)
    returns (outcomes: seq<Outcome>, ghost pieces: seq<Bytes>)
    requires session.sock == s && s.Valid() && s.Healthy()
    requires |frames| == |calls| && Lined(s.stream, starts, frames) && s.at == starts[0]
    modifies session`nextRequestId, session`generation, s
    ensures |outcomes| == |calls| == |pieces|
    ensures forall k | 0 <= k < |calls| :: outcomes[k] == Answer(frames[k])
    ensures s.at == starts[|calls|]
    ensures s.sent == old(s.sent) + EncodeSeq(Same, pieces)
    ensures var past := old(Past(session.nextRequestId, session.sessionId, session.generation));
            AllAsked(pieces, calls, frames, past) && Talked(session, past, frames, |calls|)
  {
    outcomes, pieces := [], [];
    ghost var past := Past(session.nextRequestId, session.sessionId, session.generation);
    for k := 0 to |calls|
      invariant s.Valid() && s.Healthy() && |outcomes| == k == |pieces| && session.sock == s && s.at == starts[k]
      invariant forall j | 0 <= j < k :: outcomes[j] == Answer(frames[j])
      invariant s.sent == old(s.sent) + EncodeSeq(Same, pieces)
      invariant AllAsked(pieces, calls, frames, past) && Talked(session, past, frames, k)
    {
      var outcome;
      outcome, pieces := AskNext(session, s, calls, starts, frames, past, k, pieces);
      outcomes := outcomes + [outcome];
    }
  }

  /** A stream that is a sequence of encoded frames is frames lined up. */
  lemma {:induction false} FramesAreLined(data: Bytes, at: nat, frames: seq<Frame>) returns (starts: seq<nat>)
    requires forall k: nat | k < |frames| :: GoodFrame(frames[k])
    requires At(data, at, EncodeSeq(EncodeFrame, frames))
    ensures Lined(data, starts, frames)
    ensures starts[0] == at && starts[|frames|] == at + |EncodeSeq(EncodeFrame, frames)|
  {
    starts := seq(|frames| + 1, k requires 0 <= k <= |frames| => at + |EncodeSeq(EncodeFrame, frames[..k])|);
    forall k: nat | k < |frames|
      ensures Lies(data, starts, frames, k)
    {
      NextFrame(data, at, frames, k);
    }
    assert frames[..|frames|] == frames;
  }

  lemma NextFrame(data: Bytes, off: nat, frames: seq<Frame>, k: nat)
    requires k < |frames| && At(data, off, EncodeSeq(EncodeFrame, frames))
    ensures At(data, off + |EncodeSeq(EncodeFrame, frames[..k])|, EncodeFrame(frames[k]))
    ensures |EncodeSeq(EncodeFrame, frames[..k + 1])|
            == |EncodeSeq(EncodeFrame, frames[..k])| + |EncodeFrame(frames[k])|
  {
    ItemAt(EncodeFrame, data, off, frames, k);
    assert frames[..k + 1] == frames[..k] + [frames[k]];
    EncodeSeqMore(EncodeFrame, frames[..k], frames[k]);
  }
}
