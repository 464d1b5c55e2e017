/** ipc_client.py: frames on a byte stream, the head of a call, and messages of fields. */
module IpcClient {
  import opened Common
  import opened MemShared
  import opened UInts
  import opened Coding

  // ---------------------------------------------------------------------- frames

  const HEAD: nat := 8
  const FRAME_LIMIT: nat := 0x100_0000

  function EncodeHead(size: nat): (r: Bytes)
    ensures |r| == HEAD
  {
    [0, (size % 0x100) as byte, (size / 0x100 % 0x100) as byte, (size / 0x1_0000 % 0x100) as byte]
    + [0xd5, 0x33, 0xcc, 0xaa]
  }

  /** The size of the frame with its head; None where the client raises an exception. */
  function DecodeHead(ibuf: Bytes): Option<nat>
    requires |ibuf| >= HEAD
  {
    if ibuf[0] != 0 || ibuf[4..8] != [0xd5, 0x33, 0xcc, 0xaa] then None
    else Some(HEAD + ibuf[1] as nat + 0x100 * ibuf[2] as nat + 0x1_0000 * ibuf[3] as nat)
  }

  function Frame(data: Bytes): Bytes { EncodeHead(|data|) + data }

  function Frames(messages: seq<Bytes>): Bytes {
    if messages == [] then [] else Frame(messages[0]) + Frames(messages[1..])
  }

  /** What the receive loop yields, what it leaves in the buffer, and whether it raised. */
  datatype Received = Received(frames: seq<Bytes>, rest: Bytes, raised: bool)

  function Unframe(buf: Bytes): Received
    decreases |buf|
  {
    if |buf| <= HEAD then Received([], buf, false)
    else
      match DecodeHead(buf)
      case None => Received([], buf, true)
      case Some(length) =>
        if length > |buf| then Received([], buf, false)
        else
          var later := Unframe(buf[length..]);
          later.(frames := [buf[HEAD..length]] + later.frames)
  }

  class FramedClient {
    var rbuf: Bytes

    constructor ()
      ensures rbuf == []
    {
      rbuf := [];
    }

    /** Bytes arrive from the socket. */
    method Read(data: Bytes)
      modifies this
      ensures rbuf == old(rbuf) + data
    {
      rbuf := rbuf + data;
    }

    method Pop(n: nat) returns (data: Bytes)
      requires n <= |rbuf|
      modifies this
      ensures data == old(rbuf)[..n] && rbuf == old(rbuf)[n..]
    {
      data := rbuf[..n];
      rbuf := rbuf[n..];
    }

    /** recv, run until it has nothing more to yield. */
    method Recv() returns (frames: seq<Bytes>, raised: bool)
      modifies this
      ensures Received(frames, rbuf, raised) == Unframe(old(rbuf))
    {
      hide Unframe, DecodeHead;
      frames, raised := [], false;
      UnframeSteps(rbuf);
      while |rbuf| > HEAD
        invariant !raised
        invariant Unframe(old(rbuf)) == After(frames, Unframe(rbuf))
        decreases |rbuf|
      {
        var length := DecodeHead(rbuf);
        UnframeSteps(rbuf);
        if length.None? {
          raised := true;
          return;
        }
        if length.value > |rbuf| {
          return;
        }
        ghost var before, had := rbuf, frames;
        var data := Pop(length.value);
        frames := frames + [data[HEAD..]];
        assert data[HEAD..] == before[HEAD..length.value];
        AfterAfter(had, [data[HEAD..]], Unframe(rbuf));
      }
      UnframeSteps(rbuf);
    }
  }

  function After(frames: seq<Bytes>, r: Received): Received { r.(frames := frames + r.frames) }

  lemma AfterAfter(a: seq<Bytes>, b: seq<Bytes>, r: Received)
    ensures After(a, After(b, r)) == After(a + b, r)
  {
    assert a + (b + r.frames) == (a + b) + r.frames;
  }

  lemma UnframeSteps(a: Bytes)
    ensures |a| <= HEAD ==> Unframe(a) == Received([], a, false)
    ensures |a| > HEAD ==>
              match DecodeHead(a)
              case None => Unframe(a) == Received([], a, true)
              case Some(length) =>
                && HEAD <= length
                && (length > |a| ==> Unframe(a) == Received([], a, false))
                && (length <= |a| ==> Unframe(a) == After([a[HEAD..length]], Unframe(a[length..])))
  {
  }

  lemma HeadIsFirst(a: Bytes, b: Bytes)
    requires |a| >= HEAD
    ensures DecodeHead(a + b) == DecodeHead(a)
  {
    assert (a + b)[4..8] == a[4..8];
  }

  /** What arrives later is received after what was delivered. */
  predicate GoesOn(a: Bytes, b: Bytes) {
    var r := Unframe(a);
    !r.raised ==> Unframe(a + b) == Unframe(r.rest + b).(frames := r.frames + Unframe(r.rest + b).frames)
  }

  lemma GoesOnAfter(a: Bytes, b: Bytes, length: nat)
    requires |a| > HEAD && DecodeHead(a) == Some(length) && HEAD <= length <= |a| && GoesOn(a[length..], b)
    ensures GoesOn(a, b)
  {
    hide Unframe, DecodeHead;
    HeadIsFirst(a, b);
    UnframeSteps(a);
    UnframeSteps(a + b);
    assert (a + b)[length..] == a[length..] + b && (a + b)[HEAD..length] == a[HEAD..length];
    var first, r := [a[HEAD..length]], Unframe(a[length..]);
    assert first + (r.frames + Unframe(r.rest + b).frames) == (first + r.frames) + Unframe(r.rest + b).frames;
  }

  lemma NothingYet(a: Bytes, b: Bytes)
    requires Unframe(a).frames == [] && (!Unframe(a).raised ==> Unframe(a).rest == a)
    ensures GoesOn(a, b)
  {
    hide Unframe;
    assert [] + Unframe(a + b).frames == Unframe(a + b).frames;
  }

  /** Bytes that arrive later do not change what was delivered. */
  lemma {:induction false} UnframeMore(a: Bytes, b: Bytes)
    ensures GoesOn(a, b)
    decreases |a|
  {
    hide GoesOn;
    if |a| > HEAD && DecodeHead(a).Some? && DecodeHead(a).value <= |a| {
      UnframeMore(a[DecodeHead(a).value..], b);
      GoesOnAfter(a, b, DecodeHead(a).value);
    } else {
      NothingYet(a, b);
    }
  }

  /** The client fed chunk by chunk, reading after every chunk. */
  function FeedAll(rest: Bytes, chunks: seq<Bytes>): Received
    decreases |chunks|
  {
    if chunks == [] then Received([], rest, false)
    else
      var r := Unframe(rest + chunks[0]);
      if r.raised then r
      else
        var later := FeedAll(r.rest, chunks[1..]);
        later.(frames := r.frames + later.frames)
  }

  lemma {:induction false} UnframeRest(buf: Bytes)
    ensures !Unframe(buf).raised ==> Unframe(Unframe(buf).rest) == Received([], Unframe(buf).rest, false)
    decreases |buf|
  {
    if |buf| > HEAD && DecodeHead(buf).Some? && DecodeHead(buf).value <= |buf| {
      UnframeRest(buf[DecodeHead(buf).value..]);
    }
  }

  /** Cutting the stream anywhere makes no difference to what is delivered, nor to whether the
      client raises. Where it does not raise, the bytes that stay are the same too. */
  lemma {:induction false} CutAnywhere(rest: Bytes, chunks: seq<Bytes>)
    requires Unframe(rest) == Received([], rest, false)
    ensures var r := Unframe(rest + Joined(chunks));
            && FeedAll(rest, chunks).frames == r.frames && FeedAll(rest, chunks).raised == r.raised
            && (!r.raised ==> FeedAll(rest, chunks).rest == r.rest)
    decreases |chunks|
  {
    if chunks == [] {
      assert rest + Joined(chunks) == rest;
    } else {
      var now, later := rest + chunks[0], Joined(chunks[1..]);
      assert rest + Joined(chunks) == now + later;
      var r := Unframe(now);
      if r.raised {
        RaisedStays(now, later);
      } else {
        UnframeMore(now, later);
        UnframeRest(now);
        CutAnywhere(r.rest, chunks[1..]);
      }
    }
  }

  lemma {:induction false} RaisedStays(a: Bytes, b: Bytes)
    requires Unframe(a).raised
    ensures Unframe(a + b).raised && Unframe(a + b).frames == Unframe(a).frames
    decreases |a|
  {
    HeadIsFirst(a, b);
    if DecodeHead(a).Some? {
      var length := DecodeHead(a).value;
      assert (a + b)[length..] == a[length..] + b && (a + b)[HEAD..length] == a[HEAD..length];
      RaisedStays(a[length..], b);
    }
  }

  /** The head holds 24 bits of the size, so it reads back exactly for sizes below 2^24. */
  lemma HeadRoundTrip(size: nat, suffix: Bytes)
    ensures DecodeHead(EncodeHead(size) + suffix) == Some(HEAD + size % FRAME_LIMIT)
    ensures DecodeHead(EncodeHead(size) + suffix) == Some(HEAD + size) <==> size < FRAME_LIMIT
  {
    SizeBytes(size);
    assert (EncodeHead(size) + suffix)[4..8] == [0xd5, 0x33, 0xcc, 0xaa];
  }

  lemma SizeBytes(size: nat)
    ensures size % 0x100 + 0x100 * (size / 0x100 % 0x100) + 0x1_0000 * (size / 0x1_0000 % 0x100) == size % FRAME_LIMIT
  {
    var n1, n2 := size / 0x100, size / 0x100 / 0x100;
    var low := size % 0x100 + 0x100 * (n1 % 0x100);
    assert size == 0x100 * n1 + size % 0x100 && n1 == 0x100 * n2 + n1 % 0x100;
    Divided(size, 0x1_0000, n2, low);
    var q := n2 / 0x100;
    assert n2 == 0x100 * q + n2 % 0x100;
    Divided(size, FRAME_LIMIT, q, low + 0x1_0000 * (n2 % 0x100));
  }

  /** How many messages come before the first one that is too long for its head. */
  function Fitting(messages: seq<Bytes>): (i: nat)
    ensures i <= |messages|
    ensures forall m | m in messages[..i] :: |m| < FRAME_LIMIT
    ensures i < |messages| ==> |messages[i]| >= FRAME_LIMIT
  {
    if messages == [] || |messages[0]| >= FRAME_LIMIT then 0
    else
      assert messages == [messages[0]] + messages[1..];
      1 + Fitting(messages[1..])
  }

  /** A message too long for its head: a shorter one is delivered, and the receiver reads on in
      the middle of the message. */
  lemma OversizedIsCut(m: Bytes, later: Bytes)
    requires |m| >= FRAME_LIMIT
    ensures var k, r := |m| % FRAME_LIMIT, Unframe(m[|m| % FRAME_LIMIT..] + later);
            Unframe(Frame(m) + later) == r.(frames := [m[..k]] + r.frames)
  {
    hide DecodeHead, EncodeHead;
    var k, buf := |m| % FRAME_LIMIT, Frame(m) + later;
    HeadRoundTrip(|m|, m + later);
    assert buf == EncodeHead(|m|) + (m + later);
    assert buf[HEAD..HEAD + k] == m[..k] && buf[HEAD + k..] == m[k..] + later;
    UnframeSteps(buf);
  }

  /** The shortest such message is delivered as an empty one, and its bytes are read as heads. */
  lemma SixteenMegabytesVanish(m: Bytes, later: Bytes)
    requires |m| == FRAME_LIMIT
    ensures Unframe(Frame(m) + later).frames == [[]] + Unframe(m + later).frames
    ensures m[0] != 0 ==> Unframe(Frame(m) + later) == Received([[]], m + later, true)
  {
    OversizedIsCut(m, later);
    assert m[0..] == m;
  }

  lemma FrameFirst(m: Bytes, later: Bytes)
    requires |m| < FRAME_LIMIT && |m + later| > 0
    ensures Unframe(Frame(m) + later) == Unframe(later).(frames := [m] + Unframe(later).frames)
  {
    hide DecodeHead, EncodeHead;
    var buf := Frame(m) + later;
    HeadRoundTrip(|m|, m + later);
    assert buf == EncodeHead(|m|) + (m + later);
    assert buf[HEAD..HEAD + |m|] == m && buf[HEAD + |m|..] == later;
    UnframeSteps(buf);
  }

  /** What the receiver makes of any messages sent as frames. While they fit, every frame comes
      out, in order, except that a last frame without content stays in the buffer until another
      byte arrives; the first message that does not fit comes out shorter. */
  predicate Delivered(messages: seq<Bytes>, r: Received) {
    var i := Fitting(messages);
    if i < |messages| then
      var k := |messages[i]| % FRAME_LIMIT;
      var after := Unframe(messages[i][k..] + Frames(messages[i + 1..]));
      r == after.(frames := messages[..i] + [messages[i][..k]] + after.frames)
    else if messages != [] && messages[|messages| - 1] == [] then
      r == Received(messages[..|messages| - 1], EncodeHead(0), false)
    else r == Received(messages, [], false)
  }

  lemma DeliveredFirst(m: Bytes, later: seq<Bytes>, r: Received)
    requires |m| < FRAME_LIMIT && Delivered(later, r) && (later != [] || m != [])
    ensures Delivered([m] + later, r.(frames := [m] + r.frames))
  {
    hide Unframe, EncodeHead, Frames;
    var messages, i := [m] + later, Fitting(later);
    assert messages[1..] == later && Fitting(messages) == i + 1;
    if i < |later| {
      assert messages[i + 1] == later[i] && messages[i + 2..] == later[i + 1..];
      assert messages[..i + 1] == [m] + later[..i];
    } else if later != [] {
      assert messages[|messages| - 1] == later[|later| - 1];
      assert messages[..|messages| - 1] == [m] + later[..|later| - 1];
    }
  }

  lemma {:induction false} FramesRoundTrip(messages: seq<Bytes>)
    ensures Delivered(messages, Unframe(Frames(messages)))
  {
    hide Unframe, EncodeHead;
    if messages == [] {
      UnframeSteps([]);
    } else if |messages[0]| >= FRAME_LIMIT {
      OversizedIsCut(messages[0], Frames(messages[1..]));
    } else if messages == [[]] {
      assert Frames(messages) == EncodeHead(0);
      UnframeSteps(EncodeHead(0));
    } else {
      var m, later := messages[0], messages[1..];
      assert messages == [m] + later;
      if later != [] { LaterNotEmpty(later); }
      FrameFirst(m, Frames(later));
      FramesRoundTrip(later);
      DeliveredFirst(m, later, Unframe(Frames(later)));
    }
  }

  lemma LaterNotEmpty(messages: seq<Bytes>)
    requires messages != []
    ensures |Frames(messages)| >= HEAD
  {
  }

  /** A stream of frames, cut at any points: all messages are delivered in order, if and only if
      each of them fits its head and the last one is not empty. Only a message that does not fit
      makes the client raise. */
  lemma Reassembly(messages: seq<Bytes>, chunks: seq<Bytes>)
    requires Joined(chunks) == Frames(messages)
    ensures var r, i := FeedAll([], chunks), Fitting(messages);
            && (r.frames == messages <==>
                (forall m | m in messages :: |m| < FRAME_LIMIT) && (messages == [] || messages[|messages| - 1] != []))
            && (if i == |messages| then
                  !r.raised && (messages != [] ==> messages[..i - 1] <= r.frames <= messages)
                else
                  && i < |r.frames| && r.frames[..i] == messages[..i]
                  && r.frames[i] == messages[i][..|messages[i]| % FRAME_LIMIT])
  {
    hide FeedAll, Unframe, Frames, Joined, Fitting;
    FramesRoundTrip(messages);
    UnframeSteps([]);
    assert [] + Joined(chunks) == Joined(chunks);
    CutAnywhere([], chunks);
  }

  // --------------------------------------------------------------------- call heads

  function EncodeRpcHead(req_id: nat, msg_type: nat): Bytes {
    var a, b := UintBytes(msg_type), UintBytes(req_id);
    [((a - 1) * 32 + (b - 1) * 4 + 2) as byte] + EncodeUint(a, msg_type) + EncodeUint(b, req_id)
  }

  datatype RpcMessage = RpcMessage(req_id: nat, msg_type: nat, data: Bytes)

  /** None where the client raises an index error. */
  function DecodeRpcHead(data: Bytes): Option<RpcMessage> {
    if data == [] then None
    else
      var a, b := 1 + data[0] as nat / 32 % 8, 1 + data[0] as nat / 4 % 8;
      if |data| < 1 + a + b then None
      else Some(RpcMessage(DecodeUint(data[1 + a..], b), DecodeUint(data[1..], a), data[1 + a + b..]))
  }

  lemma RpcHeadBits(a: nat, b: nat)
    requires a < 8 && b < 8
    ensures var v := a * 32 + b * 4 + 2; v < 256 && v / 32 % 8 == a && v / 4 % 8 == b
  {
  }

  lemma FitsItsBytes(value: nat)
    ensures 1 <= UintBytes(value) <= 8
    ensures value < Limit(UintBytes(value)) <==> value < UINT64_LIMIT
  {
    Limits();
  }

  /** A call comes back with its head, exactly when both numbers are of 64 bits. */
  lemma RpcRoundTrip(req_id: nat, msg_type: nat, data: Bytes)
    ensures DecodeRpcHead(EncodeRpcHead(req_id, msg_type) + data) == Some(RpcMessage(req_id, msg_type, data))
            <==> req_id < UINT64_LIMIT && msg_type < UINT64_LIMIT
  {
    hide EncodeUint, DecodeUint, Limit, UintBytes;
    var a, b := UintBytes(msg_type), UintBytes(req_id);
    FitsItsBytes(msg_type);
    FitsItsBytes(req_id);
    var buf := EncodeRpcHead(req_id, msg_type) + data;
    var abytes, bbytes := EncodeUint(a, msg_type), EncodeUint(b, req_id);
    RpcHeadBits(a - 1, b - 1);
    assert buf[1..] == abytes + (bbytes + data);
    assert buf[1 + a..] == bbytes + data;
    UintRoundTrip(a, msg_type, bbytes + data);
    UintRoundTrip(b, req_id, data);
    assert buf[1 + a + b..] == data;
  }
}
