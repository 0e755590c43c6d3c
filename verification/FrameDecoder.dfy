/** The frame decoder: it takes frames off the front of a buffer, and parses a payload with a cursor. */
module FrameDecoder {
  import opened Bytes
  import opened Frames
  import opened FrameCoding

  type MaybeFrame = Result<Option<Frame>, FrameError>

  class Decoder {
    var maxFrameSize: u32

    constructor ()
      ensures maxFrameSize == DEFAULT_MAX_FRAME_SIZE
    {
      maxFrameSize := DEFAULT_MAX_FRAME_SIZE;
    }

    method SetMaxFrameSize(size: u32)
      modifies this
      ensures maxFrameSize == size
    {
      maxFrameSize := size;
    }

    /**
     Takes one frame off the buffer if a whole one is there. Bytes of an incomplete or oversized
     frame stay in the buffer; those of a malformed one are gone.
     */
    method Decode(buf: ByteBuffer) returns (r: MaybeFrame)
      modifies buf
      ensures match DecodeFrame(maxFrameSize, old(buf.bytes))
              case NeedMore => r == Ok(None) && buf.bytes == old(buf.bytes)
              case Oversized(e) => r == Err(e) && buf.bytes == old(buf.bytes)
              case Malformed(e, rest) => r == Err(e) && buf.bytes == rest
              case Parsed(f, rest) => r == Ok(Some(f)) && buf.bytes == rest
    {
      if |buf.bytes| < FRAME_HEADER_SIZE {
        return Ok(None);
      }
      var h := PeekHeader(buf.bytes);
      if h.length > maxFrameSize {
        return Err(FrameTooLarge(h.length, maxFrameSize));
      }
      var total := FRAME_HEADER_SIZE + h.length;
      if |buf.bytes| < total {
        return Ok(None);
      }
      ghost var all := buf.bytes;
      var header := buf.SplitTo(FRAME_HEADER_SIZE);
      var payload := new ByteBuffer();
      payload.bytes := buf.SplitTo(h.length);
      assert payload.bytes == all[FRAME_HEADER_SIZE..total] && buf.bytes == all[total..];
      var frame := Parse(h, payload);
      match frame
      case Err(e) => return Err(e);
      case Ok(f) => return Ok(Some(f));
    }

    method Parse(h: FrameHeader, payload: ByteBuffer) returns (r: Parse<Frame>)
      modifies payload
      ensures r == ParseFrame(h, old(payload.bytes))
    {
      match h.frameType
      case 0 => r := Data(h, payload);
      case 1 => r := Headers(h, payload);
      case 2 => r := PriorityOnly(h, payload);
      case 3 => r := RstStream(h, payload);
      case 4 => r := Settings(h, payload);
      case 5 => r := PushPromise(h, payload);
      case 6 => r := Ping(h, payload);
      case 7 => r := GoAway(h, payload);
      case 8 => r := WindowUpdate(h, payload);
      case 9 => r := Continuation(h, payload);
      case _ => r := Ok(UnknownFrame(h.frameType, h.flags, h.streamId, payload.bytes));
    }

    /** Strips the pad length and the padding off the payload. */
    method StripPadding(payload: ByteBuffer) returns (r: Parse<seq<byte>>)
      modifies payload
      ensures r == RemovePadding(old(payload.bytes))
      ensures r.Ok? ==> payload.bytes == r.value
    {
      if payload.bytes == [] {
        return Err(InvalidPadding(0, 0));
      }
      var pad := payload.GetU8();
      if pad >= |payload.bytes| {
        return Err(InvalidPadding(pad, |payload.bytes| + 1));
      }
      payload.bytes := payload.bytes[..|payload.bytes| - pad];
      return Ok(payload.bytes);
    }

    method Strip(h: FrameHeader, payload: ByteBuffer) returns (r: Parse<seq<byte>>)
      modifies payload
      ensures r == Unpadded(h, old(payload.bytes))
      ensures r.Ok? ==> payload.bytes == r.value
    {
      if h.Has(PADDED) {
        r := StripPadding(payload);
      } else {
        r := Ok(payload.bytes);
      }
    }

    method TakePriority(payload: ByteBuffer) returns (p: Priority)
      requires |payload.bytes| >= 5
      modifies payload
      ensures p == ReadPriority(old(payload.bytes)) && payload.bytes == old(payload.bytes[5..])
    {
      var first := payload.GetU32();
      var weight := payload.GetU8();
      return Priority(first >= 0x8000_0000, Mask31(first), weight);
    }

    method Data(h: FrameHeader, payload: ByteBuffer) returns (r: Parse<Frame>)
      modifies payload
      ensures r == ParseData(h, old(payload.bytes))
    {
      if h.streamId == 0 {
        return Err(StreamIdRequired(h.frameType));
      }
      var data := Strip(h, payload);
      if data.Err? {
        return Err(data.error);
      }
      return Ok(DataFrame(h.streamId, h.Has(END_STREAM), data.value));
    }

    method Headers(h: FrameHeader, payload: ByteBuffer) returns (r: Parse<Frame>)
      modifies payload
      ensures r == ParseHeaders(h, old(payload.bytes))
    {
      if h.streamId == 0 {
        return Err(StreamIdRequired(h.frameType));
      }
      var rest := Strip(h, payload);
      if rest.Err? {
        return Err(rest.error);
      }
      var priority: Option<Priority> := None;
      if h.Has(PRIORITY) {
        if |payload.bytes| < 5 {
          return Err(InvalidPayloadLength(h.frameType, 5, |payload.bytes|));
        }
        var p := TakePriority(payload);
        priority := Some(p);
      }
      return Ok(HeadersFrame(h.streamId, h.Has(END_STREAM), h.Has(END_HEADERS), priority, payload.bytes));
    }

    method PriorityOnly(h: FrameHeader, payload: ByteBuffer) returns (r: Parse<Frame>)
      modifies payload
      ensures r == ParsePriority(h, old(payload.bytes))
    {
      if h.streamId == 0 {
        return Err(StreamIdRequired(h.frameType));
      }
      if |payload.bytes| != 5 {
        return Err(InvalidPayloadLength(h.frameType, 5, |payload.bytes|));
      }
      var p := TakePriority(payload);
      return Ok(PriorityFrame(h.streamId, p));
    }

    method RstStream(h: FrameHeader, payload: ByteBuffer) returns (r: Parse<Frame>)
      modifies payload
      ensures r == ParseRstStream(h, old(payload.bytes))
    {
      if h.streamId == 0 {
        return Err(StreamIdRequired(h.frameType));
      }
      if |payload.bytes| != 4 {
        return Err(InvalidPayloadLength(h.frameType, 4, |payload.bytes|));
      }
      assert payload.bytes[..4] == payload.bytes;
      var code := payload.GetU32();
      return Ok(RstStreamFrame(h.streamId, code));
    }

    method Settings(h: FrameHeader, payload: ByteBuffer) returns (r: Parse<Frame>)
      modifies payload
      ensures r == ParseSettings(h, old(payload.bytes))
    {
      if h.streamId != 0 {
        return Err(InvalidStreamZero(h.frameType));
      }
      if h.Has(ACK) && payload.bytes != [] {
        return Err(InvalidPayloadLength(h.frameType, 0, |payload.bytes|));
      }
      if |payload.bytes| % 6 != 0 {
        return Err(InvalidPayloadLength(h.frameType, |payload.bytes| / 6 * 6, |payload.bytes|));
      }
      var settings := TakeSettings(payload);
      if settings.Err? {
        return Err(settings.error);
      }
      return Ok(SettingsFrame(h.Has(ACK), settings.value));
    }

    method TakeSettings(payload: ByteBuffer) returns (r: Parse<seq<Setting>>)
      requires |payload.bytes| % 6 == 0
      modifies payload
      ensures r == ReadSettings(old(payload.bytes))
    {
      var settings: seq<Setting> := [];
      CollectedFromStart(payload.bytes);
      while payload.bytes != []
        invariant |payload.bytes| % 6 == 0
        invariant ReadSettings(old(payload.bytes)) == Collected(payload.bytes, settings)
        decreases |payload.bytes|
      {
        var b := payload.bytes;
        var number := payload.GetU16();
        assert payload.bytes[..4] == b[2..6] && payload.bytes[4..] == b[6..];
        var id := SettingIdOf(number);
        var value := payload.GetU32();
        if !ValidSettingValue(id, value) {
          return Err(InvalidSettingValue(id.ToU16(), value));
        }
        settings := settings + [Setting(id, value)];
      }
      return Ok(settings);
    }

    method PushPromise(h: FrameHeader, payload: ByteBuffer) returns (r: Parse<Frame>)
      modifies payload
      ensures r == ParsePushPromise(h, old(payload.bytes))
    {
      if h.streamId == 0 {
        return Err(StreamIdRequired(h.frameType));
      }
      var rest := Strip(h, payload);
      if rest.Err? {
        return Err(rest.error);
      }
      if |payload.bytes| < 4 {
        return Err(InvalidPayloadLength(h.frameType, 4, |payload.bytes|));
      }
      var promised := payload.GetU32();
      return Ok(PushPromiseFrame(h.streamId, h.Has(END_HEADERS), Mask31(promised), payload.bytes));
    }

    method Ping(h: FrameHeader, payload: ByteBuffer) returns (r: Parse<Frame>)
      modifies payload
      ensures r == ParsePing(h, old(payload.bytes))
    {
      if h.streamId != 0 {
        return Err(InvalidStreamZero(h.frameType));
      }
      if |payload.bytes| != 8 {
        return Err(InvalidPayloadLength(h.frameType, 8, |payload.bytes|));
      }
      return Ok(PingFrame(h.Has(ACK), payload.bytes));
    }

    method GoAway(h: FrameHeader, payload: ByteBuffer) returns (r: Parse<Frame>)
      modifies payload
      ensures r == ParseGoAway(h, old(payload.bytes))
    {
      if h.streamId != 0 {
        return Err(InvalidStreamZero(h.frameType));
      }
      if |payload.bytes| < 8 {
        return Err(InvalidPayloadLength(h.frameType, 8, |payload.bytes|));
      }
      ghost var b := payload.bytes;
      var last := payload.GetU32();
      var code := payload.GetU32();
      assert b[4..][..4] == b[4..8] && b[4..][4..] == b[8..];
      return Ok(GoAwayFrame(Mask31(last), code, payload.bytes));
    }

    method WindowUpdate(h: FrameHeader, payload: ByteBuffer) returns (r: Parse<Frame>)
      modifies payload
      ensures r == ParseWindowUpdate(h, old(payload.bytes))
    {
      if |payload.bytes| != 4 {
        return Err(InvalidPayloadLength(h.frameType, 4, |payload.bytes|));
      }
      assert payload.bytes[..4] == payload.bytes;
      var word := payload.GetU32();
      var increment := Mask31(word);
      if increment == 0 {
        return Err(InvalidWindowIncrement(increment));
      }
      return Ok(WindowUpdateFrame(h.streamId, increment));
    }

    method Continuation(h: FrameHeader, payload: ByteBuffer) returns (r: Parse<Frame>)
      ensures r == ParseContinuation(h, payload.bytes)
    {
      if h.streamId == 0 {
        return Err(StreamIdRequired(h.frameType));
      }
      return Ok(ContinuationFrame(h.streamId, h.Has(END_HEADERS), payload.bytes));
    }
  }

  /** The outcome of the rest of a list of settings, when the entries before it have been collected already. */
  function Collected(payload: seq<byte>, settings: seq<Setting>): Parse<seq<Setting>>
    requires |payload| % 6 == 0
    decreases |payload|
  {
    if payload == [] then Ok(settings)
    else
      var id, value := SettingIdOf(U16Of(payload[..2])), U32Of(payload[2..6]);
      if !ValidSettingValue(id, value) then Err(InvalidSettingValue(id.ToU16(), value))
      else Collected(payload[6..], settings + [Setting(id, value)])
  }

  lemma {:induction false} CollectedIsRead(payload: seq<byte>, settings: seq<Setting>)
    requires |payload| % 6 == 0
    ensures var r := ReadSettings(payload);
            Collected(payload, settings) == if r.Ok? then Ok(settings + r.value) else r
    decreases |payload|
  {
    if payload == [] {
      assert settings + [] == settings;
    } else {
      var s, rest := Setting(SettingIdOf(U16Of(payload[..2])), U32Of(payload[2..6])), ReadSettings(payload[6..]);
      CollectedIsRead(payload[6..], settings + [s]);
      if rest.Ok? {
        AppendAssociates(settings, [s], rest.value);
      }
    }
  }

  lemma CollectedFromStart(payload: seq<byte>)
    requires |payload| % 6 == 0
    ensures Collected(payload, []) == ReadSettings(payload)
  {
    CollectedIsRead(payload, []);
    var r := ReadSettings(payload);
    if r.Ok? {
      NothingBefore(r.value);
    }
  }

  lemma NothingBefore(settings: seq<Setting>)
    ensures [] + settings == settings
  {
  }
}
