/** The frame encoder: each kind of frame builds its flags and appends its bytes to a shared buffer. */
module FrameEncoder {
  import opened Bytes
  import opened Frames
  import opened FrameCoding

  class Encoder {
    var maxFrameSize: u32

    constructor ()
      ensures maxFrameSize == DEFAULT_MAX_FRAME_SIZE
    {
      maxFrameSize := DEFAULT_MAX_FRAME_SIZE;
    }

    method SetMaxFrameSize(size: u32)
      modifies this
      ensures maxFrameSize == size
    {
      maxFrameSize := size;
    }

    /** Appends a frame. The maximum frame size is left to the caller to respect. */
    method Encode(f: Frame, buf: ByteBuffer)
      modifies buf
      ensures buf.bytes == old(buf.bytes) + FrameBytes(f)
    {
      match f
      case DataFrame(_, _, _) => EncodeData(f, buf);
      case HeadersFrame(_, _, _, _, _) => EncodeHeaders(f, buf);
      case PriorityFrame(id, p) =>
        WriteHeader(buf, 5, 2, 0, id);
        EncodePriority(p, buf);
      case RstStreamFrame(id, code) =>
        WriteHeader(buf, 4, 3, 0, id);
        buf.PutU32(code);
      case SettingsFrame(_, _) => EncodeSettings(f, buf);
      case PushPromiseFrame(_, _, _, _) => EncodePushPromise(f, buf);
      case PingFrame(ack, data) =>
        WriteHeader(buf, |data|, 6, if ack then ACK else 0, 0);
        buf.Extend(data);
      case GoAwayFrame(_, _, _) => EncodeGoAway(f, buf);
      case WindowUpdateFrame(id, increment) =>
        WriteHeader(buf, 4, 8, 0, id);
        buf.PutU32(Mask31(increment));
      case ContinuationFrame(_, _, _) => EncodeContinuation(f, buf);
      case UnknownFrame(t, flags, id, payload) =>
        WriteHeader(buf, |payload|, t, flags, id);
        buf.Extend(payload);
    }

    method WriteHeader(buf: ByteBuffer, length: nat, frameType: byte, flags: byte, streamId: u32)
      modifies buf
      ensures buf.bytes == old(buf.bytes) + HeaderBytes(length, frameType, flags, streamId)
    {
      buf.PutU8(length / 0x1_0000 % 0x100);
      buf.PutU8(length / 0x100 % 0x100);
      buf.PutU8(length % 0x100);
      buf.PutU8(frameType);
      buf.PutU8(flags);
      buf.PutU32(Mask31(streamId));
    }

    method EncodeData(f: Frame, buf: ByteBuffer)
      requires f.DataFrame?
      modifies buf
      ensures buf.bytes == old(buf.bytes) + FrameBytes(f)
    {
      var flags: byte := 0;
      if f.endStream {
        flags := flags + END_STREAM;
      }
      WriteHeader(buf, |f.data|, 0, flags, f.streamId);
      buf.Extend(f.data);
    }

    method EncodeHeaders(f: Frame, buf: ByteBuffer)
      requires f.HeadersFrame?
      modifies buf
      ensures buf.bytes == old(buf.bytes) + FrameBytes(f)
    {
      var flags: byte := 0;
      if f.endStream {
        flags := flags + END_STREAM;
      }
      if f.endHeaders {
        flags := flags + END_HEADERS;
      }
      if f.maybePriority.Some? {
        flags := flags + PRIORITY;
      }
      assert flags == FlagsOf(f);
      var priorityLen := if f.maybePriority.Some? then 5 else 0;
      assert priorityLen + |f.block| == |PayloadOf(f)|;
      WriteHeader(buf, priorityLen + |f.block|, 1, flags, f.streamId);
      AppendAssociates(old(buf.bytes), HeaderBytes(|PayloadOf(f)|, 1, flags, f.streamId), PayloadOf(f));
      PutPayload(f.maybePriority, f.block, buf);
    }

    method PutPayload(p: Option<Priority>, block: seq<byte>, buf: ByteBuffer)
      modifies buf
      ensures buf.bytes == old(buf.bytes) + (if p.Some? then PriorityBytes(p.value) + block else block)
    {
      if p.Some? {
        EncodePriority(p.value, buf);
      }
      buf.Extend(block);
    }

    method EncodePriority(p: Priority, buf: ByteBuffer)
      modifies buf
      ensures buf.bytes == old(buf.bytes) + PriorityBytes(p)
    {
      var dependency: u32 := p.dependency;
      if p.exclusive && dependency < 0x8000_0000 {
        dependency := dependency + 0x8000_0000;
      }
      buf.PutU32(dependency);
      buf.PutU8(p.weight);
    }

    method EncodeSettings(f: Frame, buf: ByteBuffer)
      requires f.SettingsFrame?
      modifies buf
      ensures buf.bytes == old(buf.bytes) + FrameBytes(f)
    {
      var length := if f.ack then 0 else 6 * |f.settings|;
      assert length == |PayloadOf(f)|;
      WriteHeader(buf, length, 4, if f.ack then ACK else 0, 0);
      AppendAssociates(old(buf.bytes), HeaderBytes(length, 4, FlagsOf(f), 0), PayloadOf(f));
      if f.ack {
        assert buf.bytes + [] == buf.bytes;
      } else {
        PutSettings(f.settings, buf);
      }
    }

    method PutSettings(settings: seq<Setting>, buf: ByteBuffer)
      modifies buf
      ensures buf.bytes == old(buf.bytes) + SettingsBytes(settings)
    {
      assert settings[0..] == settings;
      for i := 0 to |settings|
        invariant old(buf.bytes) + SettingsBytes(settings) == buf.bytes + SettingsBytes(settings[i..])
      {
        assert settings[i..][1..] == settings[i + 1..];
        assert SettingsBytes(settings[i..]) == SettingBytes(settings[i]) + SettingsBytes(settings[i + 1..]);
        buf.PutU16(settings[i].id.ToU16());
        buf.PutU32(settings[i].value);
      }
    }

    method EncodePushPromise(f: Frame, buf: ByteBuffer)
      requires f.PushPromiseFrame?
      modifies buf
      ensures buf.bytes == old(buf.bytes) + FrameBytes(f)
    {
      var flags: byte := 0;
      if f.endHeaders {
        flags := flags + END_HEADERS;
      }
      WriteHeader(buf, 4 + |f.block|, 5, flags, f.streamId);
      AppendAssociates(old(buf.bytes), HeaderBytes(4 + |f.block|, 5, flags, f.streamId), PayloadOf(f));
      buf.PutU32(Mask31(f.promisedId));
      buf.Extend(f.block);
    }

    method EncodeGoAway(f: Frame, buf: ByteBuffer)
      requires f.GoAwayFrame?
      modifies buf
      ensures buf.bytes == old(buf.bytes) + FrameBytes(f)
    {
      WriteHeader(buf, 8 + |f.debugData|, 7, 0, 0);
      buf.PutU32(Mask31(f.lastStreamId));
      buf.PutU32(f.errorCode);
      buf.Extend(f.debugData);
    }

    method EncodeContinuation(f: Frame, buf: ByteBuffer)
      requires f.ContinuationFrame?
      modifies buf
      ensures buf.bytes == old(buf.bytes) + FrameBytes(f)
    {
      var flags: byte := 0;
      if f.endHeaders {
        flags := flags + END_HEADERS;
      }
      WriteHeader(buf, |f.block|, 9, flags, f.streamId);
      buf.Extend(f.block);
    }
  }
}
