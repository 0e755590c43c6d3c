/** Frames as bytes: the encoding of a frame, and what any bytes decode to. */
module FrameCoding {
  import opened Bytes
  import opened Frames

  // ----- Encoding -----

  /** `x & 0x7fff_ffff` */
  function Mask31(x: u32): u32 {
    if x < 0x8000_0000 then x else x - 0x8000_0000
  }

  function TypeOf(f: Frame): byte {
    match f
    case DataFrame(_, _, _) => 0
    case HeadersFrame(_, _, _, _, _) => 1
    case PriorityFrame(_, _) => 2
    case RstStreamFrame(_, _) => 3
    case SettingsFrame(_, _) => 4
    case PushPromiseFrame(_, _, _, _) => 5
    case PingFrame(_, _) => 6
    case GoAwayFrame(_, _, _) => 7
    case WindowUpdateFrame(_, _) => 8
    case ContinuationFrame(_, _, _) => 9
    case UnknownFrame(t, _, _, _) => t
  }

  function Flag(on: bool, bit: byte): byte {
    if on then bit else 0
  }

  const END_STREAM: byte := 1
  const ACK: byte := 1
  const END_HEADERS: byte := 4
  const PADDED: byte := 8
  const PRIORITY: byte := 0x20

  function FlagsOf(f: Frame): byte {
    match f
    case DataFrame(_, endStream, _) => Flag(endStream, 1)
    case HeadersFrame(_, endStream, endHeaders, p, _) =>
      Flag(endStream, 1) + Flag(endHeaders, 4) + Flag(p.Some?, 0x20)
    case SettingsFrame(ack, _) => Flag(ack, 1)
    case PushPromiseFrame(_, endHeaders, _, _) => Flag(endHeaders, 4)
    case PingFrame(ack, _) => Flag(ack, 1)
    case ContinuationFrame(_, endHeaders, _) => Flag(endHeaders, 4)
    case UnknownFrame(_, flags, _, _) => flags
    case _ => 0
  }

  function StreamOf(f: Frame): u32 {
    match f
    case SettingsFrame(_, _) => 0
    case PingFrame(_, _) => 0
    case GoAwayFrame(_, _, _) => 0
    case _ => f.streamId
  }

  function PriorityBytes(p: Priority): (b: seq<byte>)
    ensures |b| == 5
  {
    U32Bytes(if p.exclusive && Is31(p.dependency) then p.dependency + 0x8000_0000 else p.dependency) + [p.weight]
  }

  function SettingBytes(s: Setting): (b: seq<byte>)
    ensures |b| == 6
  {
    U16Bytes(s.id.ToU16()) + U32Bytes(s.value)
  }

  function SettingsBytes(settings: seq<Setting>): (b: seq<byte>)
    ensures |b| == 6 * |settings|
  {
    if settings == [] then [] else SettingBytes(settings[0]) + SettingsBytes(settings[1..])
  }

  function PayloadOf(f: Frame): seq<byte> {
    match f
    case DataFrame(_, _, data) => data
    case HeadersFrame(_, _, _, p, block) => if p.Some? then PriorityBytes(p.value) + block else block
    case PriorityFrame(_, p) => PriorityBytes(p)
    case RstStreamFrame(_, code) => U32Bytes(code)
    case SettingsFrame(ack, settings) => if ack then [] else SettingsBytes(settings)
    case PushPromiseFrame(_, _, promised, block) => U32Bytes(Mask31(promised)) + block
    case PingFrame(_, data) => data
    case GoAwayFrame(last, code, debug) => U32Bytes(Mask31(last)) + U32Bytes(code) + debug
    case WindowUpdateFrame(_, increment) => U32Bytes(Mask31(increment))
    case ContinuationFrame(_, _, block) => block
    case UnknownFrame(_, _, _, payload) => payload
  }

  /** The nine bytes in front of a payload. Only the low 24 bits of the length are written. */
  function HeaderBytes(length: nat, frameType: byte, flags: byte, streamId: u32): (b: seq<byte>)
    ensures |b| == FRAME_HEADER_SIZE
  {
    [length / 0x1_0000 % 0x100, length / 0x100 % 0x100, length % 0x100, frameType, flags] + U32Bytes(Mask31(streamId))
  }

  function FrameBytes(f: Frame): (b: seq<byte>)
    ensures |b| == FRAME_HEADER_SIZE + |PayloadOf(f)|
  {
    HeaderBytes(|PayloadOf(f)|, TypeOf(f), FlagsOf(f), StreamOf(f)) + PayloadOf(f)
  }

  // ----- Decoding -----

  datatype FrameHeader = FrameHeader(length: nat, frameType: byte, flags: byte, streamId: u32) {
    predicate Has(bit: byte)
      requires bit != 0
    {
      flags / bit % 2 == 1
    }
  }

  function PeekHeader(b: seq<byte>): (h: FrameHeader)
    requires |b| >= FRAME_HEADER_SIZE
    ensures Is31(h.streamId) && h.length <= MAX_FRAME_SIZE
  {
    var b0: int, b1: int, b2: int := b[0], b[1], b[2];
    FrameHeader(b0 * 0x1_0000 + b1 * 0x100 + b2, b[3], b[4], Mask31(U32Of(b[5..9])))
  }

  type Parse<T> = Result<T, FrameError>

  /** A pad length that leaves no data is refused too. */
  function RemovePadding(payload: seq<byte>): (r: Parse<seq<byte>>)
    ensures r.Ok? ==> |r.value| < |payload|
  {
    if payload == [] then Err(InvalidPadding(0, 0))
    else
      var pad: int, rest := payload[0], payload[1..];
      if pad >= |rest| then Err(InvalidPadding(pad, |rest| + 1))
      else Ok(rest[..|rest| - pad])
  }

  function Unpadded(h: FrameHeader, payload: seq<byte>): (r: Parse<seq<byte>>)
    ensures r.Ok? ==> |r.value| <= |payload|
  {
    if h.Has(PADDED) then RemovePadding(payload) else Ok(payload)
  }

  function ReadPriority(payload: seq<byte>): (p: Priority)
    requires |payload| >= 5
    ensures Is31(p.dependency)
  {
    var first := U32Of(payload[..4]);
    Priority(first >= 0x8000_0000, Mask31(first), payload[4])
  }

  function ParseData(h: FrameHeader, payload: seq<byte>): Parse<Frame> {
    if h.streamId == 0 then Err(StreamIdRequired(h.frameType))
    else
      match Unpadded(h, payload)
      case Err(e) => Err(e)
      case Ok(data) => Ok(DataFrame(h.streamId, h.Has(END_STREAM), data))
  }

  function ParseHeaders(h: FrameHeader, payload: seq<byte>): Parse<Frame> {
    if h.streamId == 0 then Err(StreamIdRequired(h.frameType))
    else
      match Unpadded(h, payload)
      case Err(e) => Err(e)
      case Ok(rest) =>
        if !h.Has(PRIORITY) then Ok(HeadersFrame(h.streamId, h.Has(END_STREAM), h.Has(END_HEADERS), None, rest))
        else if |rest| < 5 then Err(InvalidPayloadLength(h.frameType, 5, |rest|))
        else
          Ok(HeadersFrame(h.streamId, h.Has(END_STREAM), h.Has(END_HEADERS), Some(ReadPriority(rest)), rest[5..]))
  }

  function ParsePriority(h: FrameHeader, payload: seq<byte>): Parse<Frame> {
    if h.streamId == 0 then Err(StreamIdRequired(h.frameType))
    else if |payload| != 5 then Err(InvalidPayloadLength(h.frameType, 5, |payload|))
    else Ok(PriorityFrame(h.streamId, ReadPriority(payload)))
  }

  function ParseRstStream(h: FrameHeader, payload: seq<byte>): Parse<Frame> {
    if h.streamId == 0 then Err(StreamIdRequired(h.frameType))
    else if |payload| != 4 then Err(InvalidPayloadLength(h.frameType, 4, |payload|))
    else Ok(RstStreamFrame(h.streamId, U32Of(payload)))
  }

  /** The settings in a payload of whole entries, up to the first value that is out of range. */
  function ReadSettings(payload: seq<byte>): (r: Parse<seq<Setting>>)
    requires |payload| % 6 == 0
    ensures r.Ok? ==> 6 * |r.value| == |payload|
  {
    if payload == [] then Ok([])
    else
      var id, value := SettingIdOf(U16Of(payload[..2])), U32Of(payload[2..6]);
      if !ValidSettingValue(id, value) then Err(InvalidSettingValue(id.ToU16(), value))
      else
        match ReadSettings(payload[6..])
        case Err(e) => Err(e)
        case Ok(rest) => Ok([Setting(id, value)] + rest)
  }

  function ParseSettings(h: FrameHeader, payload: seq<byte>): Parse<Frame> {
    if h.streamId != 0 then Err(InvalidStreamZero(h.frameType))
    else if h.Has(ACK) && payload != [] then Err(InvalidPayloadLength(h.frameType, 0, |payload|))
    else if |payload| % 6 != 0 then Err(InvalidPayloadLength(h.frameType, |payload| / 6 * 6, |payload|))
    else
      match ReadSettings(payload)
      case Err(e) => Err(e)
      case Ok(settings) => Ok(SettingsFrame(h.Has(ACK), settings))
  }

  function ParsePushPromise(h: FrameHeader, payload: seq<byte>): Parse<Frame> {
    if h.streamId == 0 then Err(StreamIdRequired(h.frameType))
    else
      match Unpadded(h, payload)
      case Err(e) => Err(e)
      case Ok(rest) =>
        if |rest| < 4 then Err(InvalidPayloadLength(h.frameType, 4, |rest|))
        else Ok(PushPromiseFrame(h.streamId, h.Has(END_HEADERS), Mask31(U32Of(rest[..4])), rest[4..]))
  }

  function ParsePing(h: FrameHeader, payload: seq<byte>): Parse<Frame> {
    if h.streamId != 0 then Err(InvalidStreamZero(h.frameType))
    else if |payload| != 8 then Err(InvalidPayloadLength(h.frameType, 8, |payload|))
    else Ok(PingFrame(h.Has(ACK), payload))
  }

  function ParseGoAway(h: FrameHeader, payload: seq<byte>): Parse<Frame> {
    if h.streamId != 0 then Err(InvalidStreamZero(h.frameType))
    else if |payload| < 8 then Err(InvalidPayloadLength(h.frameType, 8, |payload|))
    else Ok(GoAwayFrame(Mask31(U32Of(payload[..4])), U32Of(payload[4..8]), payload[8..]))
  }

  function ParseWindowUpdate(h: FrameHeader, payload: seq<byte>): Parse<Frame> {
    if |payload| != 4 then Err(InvalidPayloadLength(h.frameType, 4, |payload|))
    else if Mask31(U32Of(payload)) == 0 then Err(InvalidWindowIncrement(0))
    else Ok(WindowUpdateFrame(h.streamId, Mask31(U32Of(payload))))
  }

  function ParseContinuation(h: FrameHeader, payload: seq<byte>): Parse<Frame> {
    if h.streamId == 0 then Err(StreamIdRequired(h.frameType))
    else Ok(ContinuationFrame(h.streamId, h.Has(END_HEADERS), payload))
  }

  function ParseFrame(h: FrameHeader, payload: seq<byte>): Parse<Frame> {
    match h.frameType
    case 0 => ParseData(h, payload)
    case 1 => ParseHeaders(h, payload)
    case 2 => ParsePriority(h, payload)
    case 3 => ParseRstStream(h, payload)
    case 4 => ParseSettings(h, payload)
    case 5 => ParsePushPromise(h, payload)
    case 6 => ParsePing(h, payload)
    case 7 => ParseGoAway(h, payload)
    case 8 => ParseWindowUpdate(h, payload)
    case 9 => ParseContinuation(h, payload)
    case _ => Ok(UnknownFrame(h.frameType, h.flags, h.streamId, payload))
  }

  /**
   One attempt to take a frame off the front of a buffer. An oversized frame is left where it is;
   a malformed one is consumed.
   */
  datatype Attempt =
    | NeedMore
    | Oversized(error: FrameError)
    | Malformed(error: FrameError, rest: seq<byte>)
    | Parsed(frame: Frame, rest: seq<byte>)

  function DecodeFrame(max: nat, b: seq<byte>): (a: Attempt)
    ensures a.Parsed? || a.Malformed? ==> |a.rest| + FRAME_HEADER_SIZE <= |b|
  {
    if |b| < FRAME_HEADER_SIZE then NeedMore
    else
      var h := PeekHeader(b);
      var total := FRAME_HEADER_SIZE + h.length;
      if h.length > max then Oversized(FrameTooLarge(h.length, max))
      else if |b| < total then NeedMore
      else
        match ParseFrame(h, b[FRAME_HEADER_SIZE..total])
        case Err(e) => Malformed(e, b[total..])
        case Ok(f) => Parsed(f, b[total..])
  }

  // ----- Round trip -----

  lemma FlagsRoundTrip(f: Frame, length: nat)
    requires WellFormed(f) && !f.UnknownFrame?
    ensures var h := FrameHeader(length, TypeOf(f), FlagsOf(f), StreamOf(f));
            && !h.Has(PADDED)
            && (f.DataFrame? || f.HeadersFrame? ==> h.Has(END_STREAM) == f.endStream)
            && (f.HeadersFrame? || f.PushPromiseFrame? || f.ContinuationFrame? ==> h.Has(END_HEADERS) == f.endHeaders)
            && (f.HeadersFrame? ==> h.Has(PRIORITY) == f.maybePriority.Some?)
            && (f.SettingsFrame? || f.PingFrame? ==> h.Has(ACK) == f.ack)
  {
  }

  lemma PriorityRoundTrip(p: Priority, rest: seq<byte>)
    requires Is31(p.dependency)
    ensures ReadPriority(PriorityBytes(p) + rest) == p
  {
    var word := if p.exclusive then p.dependency + 0x8000_0000 else p.dependency;
    assert (PriorityBytes(p) + rest)[..4] == U32Bytes(word) + [];
    U32RoundTrip(word, []);
  }

  lemma {:induction false} SettingsRoundTrip(settings: seq<Setting>)
    requires forall s :: s in settings ==> WellFormedSetting(s)
    ensures ReadSettings(SettingsBytes(settings)) == Ok(settings)
  {
    if settings != [] {
      var s, b, rest := settings[0], SettingBytes(settings[0]), SettingsBytes(settings[1..]);
      SettingsRoundTrip(settings[1..]);
      assert WellFormedSetting(s);
      assert (b + rest)[6..] == rest;
      assert (b + rest)[..2] == U16Bytes(s.id.ToU16()) + [];
      assert (b + rest)[2..6] == U32Bytes(s.value) + [];
      U16RoundTrip(s.id.ToU16(), []);
      U32RoundTrip(s.value, []);
      assert settings == [s] + settings[1..];
    }
  }

  lemma U32Prefix(v: u32, rest: seq<byte>)
    ensures (U32Bytes(v) + rest)[..4] == U32Bytes(v) && (U32Bytes(v) + rest)[4..] == rest
    ensures U32Of(U32Bytes(v)) == v
  {
    U32RoundTrip(v, []);
    assert U32Bytes(v) + [] == U32Bytes(v);
  }

  lemma GoAwayRoundTrip(f: Frame, h: FrameHeader)
    requires WellFormed(f) && f.GoAwayFrame? && h.streamId == 0
    ensures ParseGoAway(h, PayloadOf(f)) == Ok(f)
  {
    var p := PayloadOf(f);
    assert p == U32Bytes(f.lastStreamId) + (U32Bytes(f.errorCode) + f.debugData);
    U32Prefix(f.lastStreamId, U32Bytes(f.errorCode) + f.debugData);
    U32Prefix(f.errorCode, f.debugData);
    assert p[4..8] == p[4..][..4] && p[8..] == p[4..][4..];
  }

  lemma PayloadRoundTrip(f: Frame)
    requires WellFormed(f)
    ensures ParseFrame(FrameHeader(|PayloadOf(f)|, TypeOf(f), FlagsOf(f), StreamOf(f)), PayloadOf(f)) == Ok(f)
  {
    var h := FrameHeader(|PayloadOf(f)|, TypeOf(f), FlagsOf(f), StreamOf(f));
    if !f.UnknownFrame? {
      FlagsRoundTrip(f, |PayloadOf(f)|);
    }
    match f
    case HeadersFrame(_, _, _, p, block) =>
      if p.Some? {
        PriorityRoundTrip(p.value, block);
      }
    case PriorityFrame(_, p) =>
      PriorityRoundTrip(p, []);
      assert PriorityBytes(p) + [] == PriorityBytes(p);
    case RstStreamFrame(_, code) => U32Prefix(code, []);
    case SettingsFrame(ack, settings) =>
      if !ack {
        SettingsRoundTrip(settings);
      }
    case PushPromiseFrame(_, _, promised, block) => U32Prefix(promised, block);
    case GoAwayFrame(_, _, _) => GoAwayRoundTrip(f, h);
    case WindowUpdateFrame(_, increment) => U32Prefix(increment, []);
    case _ =>
  }

  lemma HeaderRoundTrip(length: nat, frameType: byte, flags: byte, streamId: u32, rest: seq<byte>)
    requires length <= MAX_FRAME_SIZE && Is31(streamId)
    ensures PeekHeader(HeaderBytes(length, frameType, flags, streamId) + rest)
            == FrameHeader(length, frameType, flags, streamId)
  {
    assert length == length / 0x100 * 0x100 + length % 0x100;
    assert length / 0x100 == length / 0x1_0000 * 0x100 + length / 0x100 % 0x100;
    var b := HeaderBytes(length, frameType, flags, streamId) + rest;
    assert b[5..9] == U32Bytes(streamId);
    U32Prefix(streamId, []);
  }

  /** A well-formed frame that fits the decoder's limit reads back, whatever follows it. */
  lemma FrameRoundTrip(max: nat, f: Frame, rest: seq<byte>)
    requires WellFormed(f) && |PayloadOf(f)| <= max && |PayloadOf(f)| <= MAX_FRAME_SIZE
    ensures DecodeFrame(max, FrameBytes(f) + rest) == Parsed(f, rest)
  {
    var header, payload := HeaderBytes(|PayloadOf(f)|, TypeOf(f), FlagsOf(f), StreamOf(f)), PayloadOf(f);
    var b := FrameBytes(f) + rest;
    assert b == header + (payload + rest);
    HeaderRoundTrip(|payload|, TypeOf(f), FlagsOf(f), StreamOf(f), payload + rest);
    assert b[FRAME_HEADER_SIZE..FRAME_HEADER_SIZE + |payload|] == payload;
    assert b[FRAME_HEADER_SIZE + |payload|..] == rest;
    PayloadRoundTrip(f);
  }
}
