/**
 The framing of messages on a connection: a length, a tag, the serialized message and a
 checksum of the two.  Serializer, parser and checksum are parameters.
 */
module Frames {
  import opened Bytes
  import opened Wrappers

  type Int32 = x: int | -0x8000_0000 <= x < 0x8000_0000

  const HEADER_LEN: nat := 4
  const CHECKSUM_LEN: nat := 4
  const MAX_MESSAGE_LEN: nat := 64 * 1024 * 1024

  datatype ErrorCode = NoError | InvalidLength | CheckSumError | UnknownMessageType | ParseError

  /** `raw`, when present, sees every complete frame first and may refuse it. */
  datatype Format<!M> = Format(
    tag: seq<Byte>,
    serialize: M -> seq<Byte>,
    parse: seq<Byte> -> Option<M>,
    checksum: seq<Byte> -> Int32,
    raw: Option<seq<Byte> -> bool>)

  /** What draining a buffer delivers, what it leaves in the buffer, and why it stopped. */
  datatype Outcome<+M> = Outcome(delivered: seq<M>, rest: seq<Byte>, error: ErrorCode)

  lemma Int32Fits(x: Int32)
    ensures Fits(x, 4)
  {
    assert Bound(4) == 0x1_0000_0000 by {
      assert Bound(1) == 256 && Bound(2) == 65536 && Bound(3) == 16777216;
    }
  }

  function EncodeInt32(x: Int32): (s: seq<Byte>)
    ensures |s| == 4 && Decode(s) == x
  {
    Int32Fits(x);
    DecodeEncode(x, 4);
    Encode(x, 4)
  }

  /** `static_cast<int32_t>` of a size. */
  function ToInt32(n: nat): Int32 {
    var low := n % 0x1_0000_0000;
    if low < 0x8000_0000 then low else low - 0x1_0000_0000
  }

  function MinMessageLen<M>(f: Format<M>): nat {
    |f.tag| + CHECKSUM_LEN
  }

  function Payload<M>(f: Format<M>, m: M): seq<Byte> {
    f.tag + f.serialize(m)
  }

  /** The frame of a message as `fillEmptyBuffer` builds it. */
  function Frame<M>(f: Format<M>, m: M): (s: seq<Byte>)
    ensures |s| == HEADER_LEN + |Payload(f, m)| + CHECKSUM_LEN
  {
    EncodeInt32(ToInt32(|Payload(f, m)| + CHECKSUM_LEN)) + (Payload(f, m) + EncodeInt32(f.checksum(Payload(f, m))))
  }

  lemma FrameParts<M>(f: Format<M>, m: M)
    ensures var payload := f.tag + f.serialize(m);
            var body := payload + EncodeInt32(f.checksum(payload));
            Frame(f, m) == EncodeInt32(ToInt32(|body|)) + body
  {
    hide Encode, ToInt32;
  }

  function FrameAll<M>(f: Format<M>, messages: seq<M>): seq<Byte> {
    if messages == [] then [] else Frame(f, messages[0]) + FrameAll(f, messages[1..])
  }

  function ValidateChecksum<M>(f: Format<M>, body: seq<Byte>): bool
    requires |body| >= CHECKSUM_LEN
  {
    f.checksum(body[..|body| - CHECKSUM_LEN]) == Decode(body[|body| - CHECKSUM_LEN..])
  }

  function ParseBody<M>(f: Format<M>, body: seq<Byte>): (r: (ErrorCode, Option<M>))
    requires |body| >= MinMessageLen(f)
    ensures r.0.NoError? <==> r.1.Some?
  {
    if !ValidateChecksum(f, body) then (CheckSumError, None)
    else if body[..|f.tag|] != f.tag then (UnknownMessageType, None)
    else
      var message := f.parse(body[|f.tag|..|body| - CHECKSUM_LEN]);
      if message.Some? then (NoError, message) else (ParseError, None)
  }

  /** An outcome reached after earlier deliveries. */
  function After<M>(delivered: seq<M>, o: Outcome<M>): Outcome<M> {
    Outcome(delivered + o.delivered, o.rest, o.error)
  }

  lemma AfterDelivery<M>(delivered: seq<M>, message: M, o: Outcome<M>)
    ensures After(delivered, After([message], o)) == After(delivered + [message], o)
  {
    assert delivered + ([message] + o.delivered) == (delivered + [message]) + o.delivered;
  }

  /** What the head of a buffer calls for. */
  datatype Head<+M> = Wait | Bad(error: ErrorCode) | Skip(size: nat) | Deliver(size: nat, message: M)

  function Inspect<M>(f: Format<M>, buf: seq<Byte>): (h: Head<M>)
    ensures h.Skip? ==> HEADER_LEN < h.size <= |buf|
    ensures h.Deliver? ==> HEADER_LEN < h.size <= |buf|
    ensures h.Bad? ==> !h.error.NoError?
  {
    if |buf| < MinMessageLen(f) + HEADER_LEN then Wait
    else
      var len := Decode(buf[..HEADER_LEN]);
      if len > MAX_MESSAGE_LEN || len < MinMessageLen(f) then Bad(InvalidLength)
      else if |buf| < HEADER_LEN + len then Wait
      else if f.raw.Some? && !f.raw.value(buf[..HEADER_LEN + len]) then Skip(HEADER_LEN + len)
      else
        var (error, message) := ParseBody(f, buf[HEADER_LEN..HEADER_LEN + len]);
        if error == NoError then Deliver(HEADER_LEN + len, message.value) else Bad(error)
  }

  /** What `onMessage` does to a buffer. */
  function Drain<M>(f: Format<M>, buf: seq<Byte>): Outcome<M>
    decreases |buf|
  {
    match Inspect(f, buf)
    case Wait => Outcome([], buf, NoError)
    case Bad(error) => Outcome([], buf, error)
    case Skip(size) => Drain(f, buf[size..])
    case Deliver(size, message) =>
      After([message], Drain(f, buf[size..]))
  }

  lemma ShortWaits<M>(f: Format<M>, buf: seq<Byte>)
    requires |buf| < MinMessageLen(f) + HEADER_LEN
    ensures Inspect(f, buf).Wait?
  {
  }

  /** One turn of the loop of `onMessage`, at a buffer long enough to hold a frame. */
  lemma DrainStep<M>(f: Format<M>, buf: seq<Byte>, len: int)
    requires |buf| >= MinMessageLen(f) + HEADER_LEN && len == Decode(buf[..HEADER_LEN])
    ensures len > MAX_MESSAGE_LEN || len < MinMessageLen(f) ==> Drain(f, buf) == Outcome([], buf, InvalidLength)
    ensures MinMessageLen(f) <= len <= MAX_MESSAGE_LEN && |buf| < HEADER_LEN + len ==> Drain(f, buf) == Outcome([], buf, NoError)
    ensures MinMessageLen(f) <= len <= MAX_MESSAGE_LEN && HEADER_LEN + len <= |buf| ==>
              if f.raw.Some? && !f.raw.value(buf[..HEADER_LEN + len])
              then Drain(f, buf) == Drain(f, buf[HEADER_LEN + len..])
              else
                var (error, message) := ParseBody(f, buf[HEADER_LEN..HEADER_LEN + len]);
                Drain(f, buf) == if error == NoError then After([message.value], Drain(f, buf[HEADER_LEN + len..]))
                                 else Outcome([], buf, error)
  {
    hide Decode, ParseBody, Drain;
    match Inspect(f, buf) {
      case Wait => DrainWaits(f, buf);
      case Bad(_) => DrainStops(f, buf);
      case Skip(_) => DrainSkips(f, buf);
      case Deliver(_, _) => DrainDelivers(f, buf);
    }
  }

  // ---- Independence of the cut into chunks, for any bytes whatever ----

  /** More bytes behind the head change nothing unless the head was waiting for them. */
  lemma InspectAppend<M>(f: Format<M>, a: seq<Byte>, b: seq<Byte>)
    ensures !Inspect(f, a).Wait? ==> Inspect(f, a + b) == Inspect(f, a)
  {
    if |a| >= MinMessageLen(f) + HEADER_LEN {
      assert (a + b)[..HEADER_LEN] == a[..HEADER_LEN];
      var len := Decode(a[..HEADER_LEN]);
      if MinMessageLen(f) <= len <= MAX_MESSAGE_LEN && HEADER_LEN + len <= |a| {
        assert (a + b)[..HEADER_LEN + len] == a[..HEADER_LEN + len];
        assert (a + b)[HEADER_LEN..HEADER_LEN + len] == a[HEADER_LEN..HEADER_LEN + len];
      }
    }
  }

  lemma DrainSkips<M>(f: Format<M>, buf: seq<Byte>)
    requires Inspect(f, buf).Skip?
    ensures Drain(f, buf) == Drain(f, buf[Inspect(f, buf).size..])
  {
    hide Inspect;
  }

  lemma DrainWaits<M>(f: Format<M>, buf: seq<Byte>)
    requires Inspect(f, buf).Wait?
    ensures Drain(f, buf) == Outcome([], buf, NoError)
  {
    hide Inspect;
  }

  lemma DrainStops<M>(f: Format<M>, buf: seq<Byte>)
    requires Inspect(f, buf).Bad?
    ensures Drain(f, buf) == Outcome([], buf, Inspect(f, buf).error)
  {
    hide Inspect;
  }

  lemma DrainDelivers<M>(f: Format<M>, buf: seq<Byte>)
    requires Inspect(f, buf).Deliver?
    ensures Drain(f, buf) == After([Inspect(f, buf).message], Drain(f, buf[Inspect(f, buf).size..]))
  {
    hide Inspect;
  }

  /** Draining, appending and draining again is draining everything at once; after an error
      the rest of the stream is left alone. */
  lemma {:induction false} DrainAppend<M>(f: Format<M>, a: seq<Byte>, b: seq<Byte>)
    ensures var o := Drain(f, a);
            var all := Drain(f, a + b);
            if o.error == NoError
            then all == After(o.delivered, Drain(f, o.rest + b))
            else all == Outcome(o.delivered, o.rest + b, o.error)
    decreases |a|
  {
    hide Drain, Inspect;
    InspectAppend(f, a, b);
    match Inspect(f, a) {
      case Wait =>
        DrainWaits(f, a);
        assert [] + Drain(f, a + b).delivered == Drain(f, a + b).delivered;
      case Bad(_) =>
        DrainStops(f, a);
        DrainStops(f, a + b);
      case Skip(size) =>
        DrainSkips(f, a);
        DrainSkips(f, a + b);
        assert (a + b)[size..] == a[size..] + b;
        DrainAppend(f, a[size..], b);
      case Deliver(size, message) =>
        DrainDelivers(f, a);
        DrainDelivers(f, a + b);
        assert (a + b)[size..] == a[size..] + b;
        DrainAppend(f, a[size..], b);
        var o := Drain(f, a[size..]);
        var more := Drain(f, o.rest + b).delivered;
        assert ([message] + o.delivered) + more == [message] + (o.delivered + more);
    }
  }

  lemma {:induction false} DrainRest<M>(f: Format<M>, a: seq<Byte>)
    ensures Drain(f, Drain(f, a).rest) == Outcome([], Drain(f, a).rest, Drain(f, a).error)
    decreases |a|
  {
    match Inspect(f, a) {
      case Wait =>
      case Bad(_) =>
      case Skip(size) => DrainRest(f, a[size..]);
      case Deliver(size, _) => DrainRest(f, a[size..]);
    }
  }

  /** What a connection delivers, and keeps, after its bytes arrived chunk by chunk. */
  function Receive<M>(f: Format<M>, chunks: seq<seq<Byte>>): Outcome<M> {
    if chunks == [] then Outcome([], [], NoError)
    else
      var before := Receive(f, chunks[..|chunks| - 1]);
      After(before.delivered, Drain(f, before.rest + chunks[|chunks| - 1]))
  }

  /** Whatever the bytes, and however they are cut, the same messages are delivered, the same
      bytes are left and the same error is reported as if all had arrived at once. */
  lemma {:induction false} ChunksDoNotMatter<M>(f: Format<M>, chunks: seq<seq<Byte>>)
    ensures Receive(f, chunks) == Drain(f, Concat(chunks))
  {
    if chunks == [] {
      assert Inspect(f, []).Wait?;
    } else {
      var front, last := chunks[..|chunks| - 1], chunks[|chunks| - 1];
      ChunksDoNotMatter(f, front);
      DrainAppend(f, Concat(front), last);
      var o := Drain(f, Concat(front));
      if o.error != NoError {
        DrainRest(f, Concat(front));
        DrainAppend(f, o.rest, last);
        assert o.delivered + [] == o.delivered;
      }
    }
  }

  // ---- Round trip ----

  /** The serializer and parser are inverse, and no raw callback refuses frames. */
  ghost predicate Lossless<M(!new)>(f: Format<M>) {
    && (forall m: M :: f.parse(f.serialize(m)) == Some(m))
    && (f.raw.Some? ==> forall s: seq<Byte> :: f.raw.value(s))
  }

  predicate WithinLimit<M>(f: Format<M>, m: M) {
    |Payload(f, m)| + CHECKSUM_LEN <= MAX_MESSAGE_LEN
  }

  /** The first four bytes of a frame within the limit are the length of what follows them. */
  lemma FrameHead<M>(f: Format<M>, m: M, s: seq<Byte>)
    requires WithinLimit(f, m) && HEADER_LEN <= |s| <= |Frame(f, m)| && s == Frame(f, m)[..|s|]
    ensures Decode(s[..HEADER_LEN]) == |Frame(f, m)| - HEADER_LEN
  {
    hide Decode, Encode, Bound;
    var len := |Payload(f, m)| + CHECKSUM_LEN;
    assert s[..HEADER_LEN] == EncodeInt32(len);
  }

  lemma BodyParses<M(!new)>(f: Format<M>, m: M)
    requires Lossless(f)
    ensures ParseBody(f, Payload(f, m) + EncodeInt32(f.checksum(Payload(f, m)))) == (NoError, Some(m))
  {
    hide Decode, Encode;
    var payload := Payload(f, m);
    var body := payload + EncodeInt32(f.checksum(payload));
    assert body[..|body| - CHECKSUM_LEN] == payload;
    assert body[|body| - CHECKSUM_LEN..] == EncodeInt32(f.checksum(payload));
    assert body[..|f.tag|] == f.tag;
    assert body[|f.tag|..|body| - CHECKSUM_LEN] == f.serialize(m);
  }

  lemma InspectFrame<M(!new)>(f: Format<M>, m: M, tail: seq<Byte>)
    requires Lossless(f) && WithinLimit(f, m)
    ensures Inspect(f, Frame(f, m) + tail) == Deliver(|Frame(f, m)|, m)
  {
    hide Decode, Encode, Frame, ParseBody, EncodeInt32;
    var frame := Frame(f, m);
    var buf := frame + tail;
    var body := Payload(f, m) + EncodeInt32(f.checksum(Payload(f, m)));
    FrameParts(f, m);
    FrameHead(f, m, frame) by { assert frame == frame[..|frame|]; }
    assert buf[..HEADER_LEN] == frame[..HEADER_LEN];
    assert buf[HEADER_LEN..|frame|] == body;
    BodyParses(f, m);
  }

  /** The bytes of a frame with some payload and some checksum. */
  function Framed(payload: seq<Byte>, checksum: Int32): seq<Byte>
    requires |payload| + 4 < 0x8000_0000
  {
    EncodeInt32(|payload| + 4) + (payload + EncodeInt32(checksum))
  }

  /** What is made of a complete frame: a checksum that is not that of the payload is an error,
      then a payload that does not begin with the tag, then one that does not parse; every
      other frame is delivered.  A frame that the raw callback refuses is passed over. */
  lemma Verdict<M>(f: Format<M>, payload: seq<Byte>, checksum: Int32, tail: seq<Byte>)
    requires |f.tag| <= |payload| <= 64 * 1024 * 1024 - 4
    ensures var frame := Framed(payload, checksum);
            Drain(f, frame + tail) ==
              if f.raw.Some? && !f.raw.value(frame) then Drain(f, tail)
              else if checksum != f.checksum(payload) then Outcome([], frame + tail, CheckSumError)
              else if payload[..|f.tag|] != f.tag then Outcome([], frame + tail, UnknownMessageType)
              else if f.parse(payload[|f.tag|..]).None? then Outcome([], frame + tail, ParseError)
              else After([f.parse(payload[|f.tag|..]).value], Drain(f, tail))
  {
    hide Decode, Encode, Bound, Drain, EncodeInt32;
    var frame, body := Framed(payload, checksum), payload + EncodeInt32(checksum);
    var buf, len := frame + tail, |payload| + 4;
    assert buf[..HEADER_LEN] == EncodeInt32(len);
    assert buf[..HEADER_LEN + len] == frame && buf[HEADER_LEN..HEADER_LEN + len] == body && buf[HEADER_LEN + len..] == tail;
    assert body[..|body| - CHECKSUM_LEN] == payload && body[|body| - CHECKSUM_LEN..] == EncodeInt32(checksum);
    assert body[..|f.tag|] == payload[..|f.tag|] && body[|f.tag|..|body| - CHECKSUM_LEN] == payload[|f.tag|..];
    DrainStep(f, buf, len);
  }

  /** A length below that of an empty message, or above 64 MiB, is an error as soon as the
      smallest frame could have come. */
  lemma BadLength<M>(f: Format<M>, len: Int32, tail: seq<Byte>)
    requires |tail| >= |f.tag| + 4
    ensures len < |f.tag| + 4 || len > 64 * 1024 * 1024 ==>
              Drain(f, EncodeInt32(len) + tail) == Outcome([], EncodeInt32(len) + tail, InvalidLength)
  {
    hide Decode, Encode, Drain;
    var buf := EncodeInt32(len) + tail;
    assert buf[..HEADER_LEN] == EncodeInt32(len);
    DrainStep(f, buf, len);
  }

  /** A message whose size is below the width of the length field is delivered exactly when
      its frame body is within the limit. */
  lemma DeliveredIffWithinLimit<M(!new)>(f: Format<M>, m: M)
    requires Lossless(f) && |Payload(f, m)| + CHECKSUM_LEN < 0x1_0000_0000
    ensures Drain(f, Frame(f, m)).delivered == [m] <==> WithinLimit(f, m)
  {
    hide Drain, Inspect, Lossless, EncodeInt32;
    var frame := Frame(f, m);
    assert frame + [] == frame;
    if WithinLimit(f, m) {
      hide Frame, Payload;
      InspectFrame(f, m, []);
      DrainDelivers(f, frame);
      assert frame[|frame|..] == [];
      ShortWaits(f, []);
      DrainWaits(f, []);
    } else {
      var n := |Payload(f, m)| + CHECKSUM_LEN;
      assert ToInt32(n) == if n < 0x8000_0000 then n else n - 0x1_0000_0000;
      BadLength(f, ToInt32(n), Payload(f, m) + EncodeInt32(f.checksum(Payload(f, m))));
    }
  }

  /** Part of a frame: what may be left at the end of a stream. */
  ghost predicate PartialFrame<M(!new)>(f: Format<M>, s: seq<Byte>) {
    exists m: M :: WithinLimit(f, m) && |s| < |Frame(f, m)| && s == Frame(f, m)[..|s|]
  }

  lemma PartialWaits<M(!new)>(f: Format<M>, s: seq<Byte>)
    requires PartialFrame(f, s)
    ensures Drain(f, s) == Outcome([], s, NoError)
  {
    var m: M :| WithinLimit(f, m) && |s| < |Frame(f, m)| && s == Frame(f, m)[..|s|];
    hide Decode, Frame, ParseBody, Drain;
    if |s| >= MinMessageLen(f) + HEADER_LEN {
      FrameHead(f, m, s);
    }
    assert Inspect(f, s).Wait?;
    DrainWaits(f, s);
  }

  lemma {:induction false} DrainFrames<M(!new)>(f: Format<M>, messages: seq<M>, partial: seq<Byte>)
    requires Lossless(f) && PartialFrame(f, partial)
    requires forall i :: 0 <= i < |messages| ==> WithinLimit(f, messages[i])
    ensures Drain(f, FrameAll(f, messages) + partial) == Outcome(messages, partial, NoError)
  {
    hide Drain, Inspect, Frame, Lossless, PartialFrame, WithinLimit;
    if messages == [] {
      assert FrameAll(f, messages) + partial == partial;
      PartialWaits(f, partial);
    } else {
      var tail := FrameAll(f, messages[1..]) + partial;
      assert FrameAll(f, messages) + partial == Frame(f, messages[0]) + tail;
      InspectFrame(f, messages[0], tail);
      DrainDelivers(f, Frame(f, messages[0]) + tail);
      assert (Frame(f, messages[0]) + tail)[|Frame(f, messages[0])|..] == tail;
      DrainFrames(f, messages[1..], partial);
    }
  }

  /** However the frames of any messages, followed by part of another frame, are cut into
      chunks, exactly those messages are delivered, in order, and exactly the part is left. */
  lemma RoundTrip<M(!new)>(f: Format<M>, messages: seq<M>, partial: seq<Byte>, chunks: seq<seq<Byte>>)
    requires Lossless(f) && PartialFrame(f, partial)
    requires forall i :: 0 <= i < |messages| ==> WithinLimit(f, messages[i])
    requires Concat(chunks) == FrameAll(f, messages) + partial
    ensures Receive(f, chunks) == Outcome(messages, partial, NoError)
  {
    ChunksDoNotMatter(f, chunks);
    DrainFrames(f, messages, partial);
  }
}

module Codecs {
  import opened Bytes
  import opened Buffers
  import opened Frames
  import opened Wrappers

  class ProtobufCodecLite<M> {
    const format: Format<M>

    constructor (format: Format<M>)
      ensures this.format == format
    {
      this.format := format;
    }

    method SerializeToBuffer(message: M, buf: Buffer)
      requires buf.Valid()
      modifies buf, buf.buffer
      ensures buf.Valid() && (buf.buffer == old(buf.buffer) || fresh(buf.buffer))
      ensures buf.Contents() == old(buf.Contents()) + format.serialize(message)
      ensures buf.readerIndex == old(buf.readerIndex) || buf.readerIndex == CHEAP_PREPEND
    {
      var bytes := format.serialize(message);
      buf.EnsureWritableBytes(|bytes| + CHECKSUM_LEN);
      buf.WriteBytes(bytes);
    }

    method FillEmptyBuffer(buf: Buffer, message: M)
      requires buf.Valid() && buf.ReadableBytes() == 0 && buf.PrependableBytes() >= HEADER_LEN
      modifies buf, buf.buffer
      ensures buf.Valid() && (buf.buffer == old(buf.buffer) || fresh(buf.buffer))
      ensures buf.Contents() == Frame(format, message)
    {
      hide Encode, Decode, Bound, Fits, Frame, Payload, ToInt32;
      ghost var payload := format.tag + format.serialize(message);
      FrameParts(format, message);
      buf.Append(format.tag);
      SerializeToBuffer(message, buf);
      assert buf.Contents() == payload;
      var checkSum := format.checksum(buf.buffer[buf.readerIndex..buf.writerIndex]);
      Int32Fits(checkSum);
      buf.AppendInt(checkSum, 4);
      assert buf.ReadableBytes() == |format.tag| + |format.serialize(message)| + CHECKSUM_LEN;
      var len := ToInt32(buf.ReadableBytes());
      Int32Fits(len);
      buf.PrependInt(len, 4);
    }

    /** Delivers the complete frames at the front of the buffer until one is incomplete or bad. */
    method OnMessage(buf: Buffer) returns (delivered: seq<M>, error: ErrorCode)
      requires buf.Valid()
      modifies buf
      ensures buf.Valid() && buf.buffer == old(buf.buffer)
      ensures Outcome(delivered, buf.Contents(), error) == Drain(format, old(buf.Contents()))
    {
      hide Drain, Inspect, ParseBody, Decode;
      delivered, error := [], NoError;
      var minMessageLen := |format.tag| + CHECKSUM_LEN;
      ghost var start := buf.Contents();
      while buf.ReadableBytes() >= minMessageLen + HEADER_LEN
        invariant buf.Valid() && buf.buffer == old(buf.buffer) && error == NoError
        invariant Drain(format, start) == After(delivered, Drain(format, buf.Contents()))
        decreases buf.ReadableBytes()
      {
        ghost var bytes := buf.Contents();
        var len := buf.PeekInt(HEADER_LEN);
        DrainStep(format, bytes, len);
        if len > MAX_MESSAGE_LEN || len < minMessageLen {
          error := InvalidLength;
          break;
        } else if buf.ReadableBytes() >= HEADER_LEN + len {
          var frame := buf.buffer[buf.readerIndex..buf.readerIndex + HEADER_LEN + len];
          assert frame == bytes[..HEADER_LEN + len];
          if format.raw.Some? && !format.raw.value(frame) {
            buf.Retrieve(HEADER_LEN + len);
            continue;
          }
          assert frame[HEADER_LEN..] == bytes[HEADER_LEN..HEADER_LEN + len];
          var (errorCode, message) := ParseBody(format, frame[HEADER_LEN..]);
          if errorCode == NoError {
            AfterDelivery(delivered, message.value, Drain(format, bytes[HEADER_LEN + len..]));
            delivered := delivered + [message.value];
            buf.Retrieve(HEADER_LEN + len);
          } else {
            error := errorCode;
            break;
          }
        } else {
          break;
        }
      }
      if error == NoError && buf.ReadableBytes() < minMessageLen + HEADER_LEN {
        DrainWaits(format, buf.Contents()) by { ShortWaits(format, buf.Contents()); }
      }
    }

    /** The life of a connection: its bytes arrive in chunks, each followed by `onMessage`. */
    method Converse(buf: Buffer, chunks: seq<seq<Byte>>) returns (delivered: seq<M>, error: ErrorCode)
      requires buf.Valid() && buf.Contents() == []
      modifies buf, buf.buffer
      ensures buf.Valid()
      ensures Outcome(delivered, buf.Contents(), error) == Drain(format, Concat(chunks))
    {
      hide Drain, Concat;
      delivered, error := [], NoError;
      for i := 0 to |chunks|
        invariant buf.Valid() && (buf.buffer == old(buf.buffer) || fresh(buf.buffer))
        invariant Outcome(delivered, buf.Contents(), error) == Receive(format, chunks[..i])
      {
        assert chunks[..i + 1][..i] == chunks[..i];
        buf.Append(chunks[i]);
        var more, code := OnMessage(buf);
        delivered, error := delivered + more, code;
      }
      assert chunks[..|chunks|] == chunks;
      ChunksDoNotMatter(format, chunks);
    }
  }
}
