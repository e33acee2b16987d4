/** What a failing transport does to the calls after it: the socket stays in use, so they read
    the stream from wherever the failed call stopped. */
module NativeAlignment {
  import opened Errno
  import opened NativeCodec
  import opened NativeFraming
  import opened NativeSession

  /** Every call up to k began to read at its own frame. */
  ghost predicate Aligned(begins: seq<nat>, starts: seq<nat>, k: nat) {
    k < |begins| && k < |starts| && forall i | 0 <= i <= k :: begins[i] == starts[i]
  }

  /** The calls up to k are aligned exactly if no operation had failed before call k. */
  ghost predicate AlignedIff(begins: seq<nat>, faults: seq<nat>, starts: seq<nat>, k: nat)
    requires k < |faults|
  {
    Aligned(begins, starts, k) <==> faults[k] == faults[0]
  }

  ghost predicate AllIff(begins: seq<nat>, faults: seq<nat>, starts: seq<nat>) {
    && 0 < |begins| == |faults| <= |starts|
    && faults[|faults| - 1] >= faults[0]
    && forall k: nat | k < |faults| :: AlignedIff(begins, faults, starts, k)
  }

  lemma AlignedNext(begins: seq<nat>, starts: seq<nat>, begin: nat)
    requires 0 < |begins| < |starts|
    ensures Aligned(begins + [begin], starts, |begins|)
            <==> Aligned(begins, starts, |begins| - 1) && begin == starts[|begins|]
  {
    var more := begins + [begin];
    assert more[|begins|] == begin && forall i | 0 <= i < |begins| :: more[i] == begins[i];
  }

  lemma OneMore(begins: seq<nat>, faults: seq<nat>, starts: seq<nat>, begin: nat, fault: nat)
    requires AllIff(begins, faults, starts) && |faults| < |starts| && fault >= faults[|faults| - 1]
    requires faults[|faults| - 1] == faults[0] ==> (begin == starts[|begins|] <==> fault == faults[0])
    ensures AllIff(begins + [begin], faults + [fault], starts)
  {
    var n := |faults|;
    AlignedNext(begins, starts, begin);
    assert AlignedIff(begins, faults, starts, n - 1);
    forall k: nat | k <= n
      ensures AlignedIff(begins + [begin], faults + [fault], starts, k)
    {
      assert k < n ==> AlignedIff(begins, faults, starts, k);
    }
  }

  /** One call over any transport; if it begins at its own frame, it sees that frame and ends
      behind it exactly if no operation fails. */
  method AskOver(session: Session, s: Socket, c: Call, ghost starts: seq<nat>, ghost frames: seq<Frame>, ghost k: nat)
    returns (outcome: Outcome)
    requires session.sock == s && s.Valid()
    requires Lined(s.stream, starts, frames) && k < |frames|
    modifies session`nextRequestId, session`generation, s
    ensures s.Valid() && s.failures >= old(s.failures)
    ensures old(s.at) == starts[k] ==>
            if s.failures == old(s.failures) then outcome == Answer(frames[k]) && s.at == starts[k + 1]
            else outcome.ret < 0 && s.at < starts[k + 1]
  {
    assert Lies(s.stream, starts, frames, k);
    FrameIsAhead(s.stream, starts[k], frames[k]);
    var ret, header, reply := session.RoundTrip(c.opcode, c.body);
    outcome := Outcome(ret, header, reply);
  }

  /** Any sequence of calls over any transport. Before call k the stream stands at begins[k]
      and faults[k] operations have failed: the calls up to k have begun at their own frames
      exactly if none failed before call k, and then every call before it saw its frame. */
  method ConverseOver(session: Session, s: Socket, calls: seq<Call>, ghost starts: seq<nat>, ghost frames: seq<Frame>)
    returns (outcomes: seq<Outcome>, ghost begins: seq<nat>, ghost faults: seq<nat>)
    requires session.sock == s && s.Valid()
    requires |frames| == |calls| && Lined(s.stream, starts, frames) && s.at == starts[0]
    modifies session`nextRequestId, session`generation, s
    ensures |outcomes| == |calls| && |begins| == |calls| + 1
    ensures AllIff(begins, faults, starts) && begins[0] == old(s.at) && faults[0] == old(s.failures)
    ensures begins[|calls|] == s.at && faults[|calls|] == s.failures
    ensures forall k | 0 <= k < |calls| && faults[k + 1] == faults[0] :: outcomes[k] == Answer(frames[k])
  {
    outcomes, begins, faults := [], [s.at], [s.failures];
    assert AlignedIff(begins, faults, starts, 0);
    for k := 0 to |calls|
      invariant s.Valid() && session.sock == s
      invariant |outcomes| == k && |begins| == k + 1 && AllIff(begins, faults, starts)
      invariant begins[0] == old(s.at) && faults[0] == old(s.failures)
      invariant begins[k] == s.at && faults[k] == s.failures
      invariant forall j | 0 <= j < k && faults[j + 1] == faults[0] :: outcomes[j] == Answer(frames[j])
    {
      assert AlignedIff(begins, faults, starts, k);
      var outcome := AskOver(session, s, calls[k], starts, frames, k);
      OneMore(begins, faults, starts, s.at, s.failures);
      outcomes, begins, faults := outcomes + [outcome], begins + [s.at], faults + [s.failures];
    }
  }

  /** The first receive is interrupted and everything after it works: the second call gets
      the reply of the first. */
  method Interrupted(stream: Bytes, f: Frame, c: Call, d: Call) returns (first: Outcome, second: Outcome)
    requires GoodFrame(f) && At(stream, 0, EncodeFrame(f))
    ensures first.ret == -EINTR && second == Answer(f)
  {
    FrameIsAhead(stream, 0, f);
    var s := new Socket(stream, (i: nat, n: nat) => if i == 0 then -EINTR else n, (i: nat, n: nat) => n);
    var session := new Session(s);
    var ret, header, reply := session.RoundTrip(c.opcode, c.body);
    first := Outcome(ret, header, reply);
    ret, header, reply := session.RoundTrip(d.opcode, d.body);
    second := Outcome(ret, header, reply);
  }
}
