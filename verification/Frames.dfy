/** HTTP/2 frames, the settings they carry, and what makes a frame well formed (section 6 of RFC 7540). */
module Frames {
  import opened Bytes

  const FRAME_HEADER_SIZE := 9
  const MAX_FRAME_SIZE := 0xff_ffff
  const DEFAULT_MAX_FRAME_SIZE := 16384
  const DEFAULT_INITIAL_WINDOW_SIZE := 65535

  datatype SettingId =
    | HeaderTableSize
    | EnablePush
    | MaxConcurrentStreams
    | InitialWindowSize
    | MaxFrameSize
    | MaxHeaderListSize
    | OtherSetting(id: u16)
  {
    function ToU16(): u16 {
      match this
      case HeaderTableSize => 1
      case EnablePush => 2
      case MaxConcurrentStreams => 3
      case InitialWindowSize => 4
      case MaxFrameSize => 5
      case MaxHeaderListSize => 6
      case OtherSetting(id) => id
    }
  }

  function SettingIdOf(id: u16): SettingId {
    match id
    case 1 => HeaderTableSize
    case 2 => EnablePush
    case 3 => MaxConcurrentStreams
    case 4 => InitialWindowSize
    case 5 => MaxFrameSize
    case 6 => MaxHeaderListSize
    case _ => OtherSetting(id)
  }

  datatype Setting = Setting(id: SettingId, value: u32)

  predicate ValidSettingValue(id: SettingId, value: u32) {
    match id
    case EnablePush => value <= 1
    case InitialWindowSize => value <= 0x7fff_ffff
    case MaxFrameSize => 16384 <= value <= MAX_FRAME_SIZE
    case _ => true
  }

  datatype Priority = Priority(exclusive: bool, dependency: u32, weight: byte)

  datatype Frame =
    | DataFrame(streamId: u32, endStream: bool, data: seq<byte>)
    | HeadersFrame(streamId: u32, endStream: bool, endHeaders: bool, maybePriority: Option<Priority>, block: seq<byte>)
    | PriorityFrame(streamId: u32, priority: Priority)
    | RstStreamFrame(streamId: u32, errorCode: u32)
    | SettingsFrame(ack: bool, settings: seq<Setting>)
    | PushPromiseFrame(streamId: u32, endHeaders: bool, promisedId: u32, block: seq<byte>)
    | PingFrame(ack: bool, opaqueData: seq<byte>)
    | GoAwayFrame(lastStreamId: u32, errorCode: u32, debugData: seq<byte>)
    | WindowUpdateFrame(streamId: u32, increment: u32)
    | ContinuationFrame(streamId: u32, endHeaders: bool, block: seq<byte>)
    | UnknownFrame(frameType: byte, flags: byte, streamId: u32, payload: seq<byte>)

  // ----- Well-formedness -----

  /** A stream identifier or dependency: 31 bits. */
  predicate Is31(x: u32) {
    x < 0x8000_0000
  }

  predicate IsStream(id: u32) {
    0 < id && Is31(id)
  }

  predicate WellFormedSetting(s: Setting) {
    ValidSettingValue(s.id, s.value) && SettingIdOf(s.id.ToU16()) == s.id
  }

  predicate WellFormed(f: Frame) {
    match f
    case DataFrame(id, _, _) => IsStream(id)
    case HeadersFrame(id, _, _, p, _) => IsStream(id) && (p.Some? ==> Is31(p.value.dependency))
    case PriorityFrame(id, p) => IsStream(id) && Is31(p.dependency)
    case RstStreamFrame(id, _) => IsStream(id)
    case SettingsFrame(ack, settings) => (ack ==> settings == []) && forall s :: s in settings ==> WellFormedSetting(s)
    case PushPromiseFrame(id, _, promised, _) => IsStream(id) && Is31(promised)
    case PingFrame(_, data) => |data| == 8
    case GoAwayFrame(last, _, _) => Is31(last)
    case WindowUpdateFrame(id, increment) => Is31(id) && 0 < increment && Is31(increment)
    case ContinuationFrame(id, _, _) => IsStream(id)
    case UnknownFrame(t, _, id, _) => t >= 10 && Is31(id)
  }

  datatype FrameError =
    | FrameTooLarge(size: nat, max: nat)
    | InvalidStreamZero(frameType: byte)
    | StreamIdRequired(frameType: byte)
    | InvalidPayloadLength(frameType: byte, expected: nat, actual: nat)
    | InvalidPadding(padLength: byte, payloadLength: nat)
    | InvalidSettingValue(id: u16, value: u32)
    | InvalidWindowIncrement(increment: u32)
}
