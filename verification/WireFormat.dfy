/**
 The frame format in numbers, section 4.1 and section 6 of RFC 7540: where every field of a frame
 stands, bit by bit, which number every kind, flag and setting has, and which payloads are accepted.
 */
module WireFormat {
  import opened Bytes
  import opened Frames
  import opened FrameCoding
  import opened Endpoints

  // ----- Words -----

  /** Four bytes as a number, and two, most significant byte first. */
  function Big(b0: int, b1: int, b2: int, b3: int): int {
    b0 * 0x100_0000 + b1 * 0x1_0000 + b2 * 0x100 + b3
  }

  /** Words are written and read with the most significant byte first. */
  lemma WordsAreBigEndian(v: u32, u: u16, b: seq<byte>)
    ensures |U32Bytes(v)| == 4 && |U16Bytes(u)| == 2
    ensures var w := U32Bytes(v); Big(w[0], w[1], w[2], w[3]) == v
    ensures var w := U16Bytes(u); Big(0, 0, w[0], w[1]) == u
    ensures |b| >= 4 ==> U32Of(b) == Big(b[0], b[1], b[2], b[3])
    ensures |b| >= 2 ==> U16Of(b) == Big(0, 0, b[0], b[1])
  {
    U32RoundTrip(v, []);
    U16RoundTrip(u, []);
  }

  /** The other 31 bits of a word whose first bit is ignored. */
  lemma FirstBitIgnored(b: seq<byte>)
    requires |b| >= 4
    ensures Mask31(U32Of(b)) == Big(b[0] % 0x80, b[1], b[2], b[3])
    ensures U32Of(b) >= 0x8000_0000 <==> b[0] >= 0x80
  {
  }

  lemma FirstBitClear(v: u32)
    ensures var w := U32Bytes(Mask31(v)); w[0] < 0x80 && Big(w[0], w[1], w[2], w[3]) == v % 0x8000_0000
  {
    U32RoundTrip(Mask31(v), []);
  }

  // ----- Headers -----

  /** Three bytes of length, the type, the flags, and four bytes of identifier whose first bit is clear. */
  lemma HeaderLayout(f: Frame)
    requires |PayloadOf(f)| < 0x100_0000
    ensures var b := FrameBytes(f);
            && |b| == 9 + |PayloadOf(f)| && b[9..] == PayloadOf(f)
            && Big(0, b[0], b[1], b[2]) == |PayloadOf(f)|
            && b[5] < 0x80 && Big(b[5], b[6], b[7], b[8]) == StreamOf(f) % 0x8000_0000
    ensures f.SettingsFrame? || f.PingFrame? || f.GoAwayFrame? ==> StreamOf(f) == 0
    ensures !f.SettingsFrame? && !f.PingFrame? && !f.GoAwayFrame? ==> StreamOf(f) == f.streamId
  {
    var header := HeaderBytes(|PayloadOf(f)|, TypeOf(f), FlagsOf(f), StreamOf(f));
    LengthBytes(|PayloadOf(f)|, TypeOf(f), FlagsOf(f), StreamOf(f));
    assert FrameBytes(f)[..9] == header;
  }

  lemma LengthBytes(n: nat, frameType: byte, flags: byte, id: u32)
    requires n < 0x100_0000
    ensures var b := HeaderBytes(n, frameType, flags, id);
            && Big(0, b[0], b[1], b[2]) == n
            && b[5] < 0x80 && Big(b[5], b[6], b[7], b[8]) == id % 0x8000_0000
  {
    LengthDigits(n);
    FirstBitClear(id);
    var word, b := U32Bytes(Mask31(id)), HeaderBytes(n, frameType, flags, id);
    assert b[5] == word[0] && b[6] == word[1] && b[7] == word[2] && b[8] == word[3];
  }

  lemma LengthDigits(n: nat)
    requires n < 0x100_0000
    ensures Big(0, n / 0x1_0000 % 0x100, n / 0x100 % 0x100, n % 0x100) == n
  {
    assert n == n / 0x100 * 0x100 + n % 0x100;
    assert n / 0x100 == n / 0x1_0000 * 0x100 + n / 0x100 % 0x100;
  }

  /** Any nine bytes are read that way; the first bit of the identifier does not matter. */
  lemma HeaderRead(b: seq<byte>)
    requires |b| >= 9
    ensures PeekHeader(b) == FrameHeader(Big(0, b[0], b[1], b[2]), b[3], b[4], Big(b[5] % 0x80, b[6], b[7], b[8]))
  {
    FirstBitIgnored(b[5..9]);
  }

  // ----- Kinds and flags -----

  function On(on: bool, bit: byte): byte {
    if on then bit else 0
  }

  /** The number of every kind, and the bits of the flags. */
  lemma FrameNumbers(f: Frame)
    ensures var b := FrameBytes(f);
            match f
            case DataFrame(_, endStream, _) => b[3] == 0 && b[4] == On(endStream, 1)
            case HeadersFrame(_, endStream, endHeaders, p, _) =>
              b[3] == 1 && b[4] == On(endStream, 1) + On(endHeaders, 4) + On(p.Some?, 0x20)
            case PriorityFrame(_, _) => b[3] == 2 && b[4] == 0
            case RstStreamFrame(_, _) => b[3] == 3 && b[4] == 0
            case SettingsFrame(ack, _) => b[3] == 4 && b[4] == On(ack, 1)
            case PushPromiseFrame(_, endHeaders, _, _) => b[3] == 5 && b[4] == On(endHeaders, 4)
            case PingFrame(ack, _) => b[3] == 6 && b[4] == On(ack, 1)
            case GoAwayFrame(_, _, _) => b[3] == 7 && b[4] == 0
            case WindowUpdateFrame(_, _) => b[3] == 8 && b[4] == 0
            case ContinuationFrame(_, endHeaders, _) => b[3] == 9 && b[4] == On(endHeaders, 4)
            case UnknownFrame(t, flags, _, _) => b[3] == t && b[4] == flags
  {
  }

  /** A flag is set when its bit is. */
  predicate Set(flags: byte, bit: byte)
    requires bit != 0
  {
    flags / bit % 2 == 1
  }

  /** What a frame was read from: its kind from the type, its flags from their bits, its identifier from the header. */
  lemma ReadNumbers(h: FrameHeader, payload: seq<byte>)
    requires ParseFrame(h, payload).Ok?
    ensures match ParseFrame(h, payload).value
            case DataFrame(id, endStream, _) => h.frameType == 0 && endStream == Set(h.flags, 1) && id == h.streamId
            case HeadersFrame(id, endStream, endHeaders, p, _) =>
              && h.frameType == 1 && endStream == Set(h.flags, 1) && endHeaders == Set(h.flags, 4)
              && p.Some? == Set(h.flags, 0x20) && id == h.streamId
            case PriorityFrame(id, _) => h.frameType == 2 && id == h.streamId
            case RstStreamFrame(id, _) => h.frameType == 3 && id == h.streamId
            case SettingsFrame(ack, _) => h.frameType == 4 && ack == Set(h.flags, 1) && h.streamId == 0
            case PushPromiseFrame(id, endHeaders, _, _) =>
              h.frameType == 5 && endHeaders == Set(h.flags, 4) && id == h.streamId
            case PingFrame(ack, data) =>
              h.frameType == 6 && ack == Set(h.flags, 1) && h.streamId == 0 && data == payload
            case GoAwayFrame(_, _, _) => h.frameType == 7 && h.streamId == 0
            case WindowUpdateFrame(id, _) => h.frameType == 8 && id == h.streamId
            case ContinuationFrame(id, endHeaders, block) =>
              h.frameType == 9 && endHeaders == Set(h.flags, 4) && id == h.streamId && block == payload
            case UnknownFrame(t, flags, id, p) =>
              t == h.frameType >= 10 && flags == h.flags && id == h.streamId && p == payload
  {
  }

  // ----- Payloads -----

  /** A priority: the exclusive bit, 31 bits of dependency, and the weight. */
  lemma PriorityLayout(p: Priority)
    requires p.dependency < 0x8000_0000
    ensures var b := PriorityBytes(p);
            && |b| == 5 && (b[0] >= 0x80 <==> p.exclusive)
            && Big(b[0] % 0x80, b[1], b[2], b[3]) == p.dependency && b[4] == p.weight
  {
    var word := (if p.exclusive then 0x8000_0000 else 0) + p.dependency;
    U32Prefix(word, [p.weight]);
    FirstBitIgnored(U32Bytes(word));
  }

  lemma PriorityRead(b: seq<byte>)
    requires |b| >= 5
    ensures ReadPriority(b) == Priority(b[0] >= 0x80, Big(b[0] % 0x80, b[1], b[2], b[3]), b[4])
  {
    FirstBitIgnored(b[..4]);
  }

  /** What stands where in the payload. */
  lemma PayloadLayout(f: Frame)
    requires WellFormed(f)
    ensures var p := PayloadOf(f);
            match f
            case DataFrame(_, _, data) => p == data
            case HeadersFrame(_, _, _, priority, block) =>
              if priority.Some? then p == PriorityBytes(priority.value) + block else p == block
            case PriorityFrame(_, priority) => p == PriorityBytes(priority)
            case RstStreamFrame(_, code) => |p| == 4 && U32Of(p) == code
            case SettingsFrame(_, settings) => |p| == 6 * |settings|
            case PushPromiseFrame(_, _, promised, block) => |p| >= 4 && U32Of(p) == promised && p[4..] == block
            case PingFrame(_, data) => |p| == 8 && p == data
            case GoAwayFrame(last, code, debug) =>
              |p| >= 8 && U32Of(p) == last && U32Of(p[4..]) == code && p[8..] == debug
            case WindowUpdateFrame(_, increment) => |p| == 4 && U32Of(p) == increment
            case ContinuationFrame(_, _, block) => p == block
            case UnknownFrame(_, _, _, payload) => p == payload
  {
    match f
    case RstStreamFrame(_, code) => U32Prefix(code, []);
    case PushPromiseFrame(_, _, promised, block) =>
      U32RoundTrip(promised, block);
      U32Prefix(promised, block);
    case GoAwayFrame(last, code, debug) => GoAwayLayout(last, code, debug);
    case WindowUpdateFrame(_, increment) => U32Prefix(increment, []);
    case _ =>
  }

  lemma GoAwayLayout(last: u32, code: u32, debug: seq<byte>)
    ensures var p := U32Bytes(last) + U32Bytes(code) + debug;
            |p| >= 8 && U32Of(p) == last && U32Of(p[4..]) == code && p[8..] == debug
  {
    var p, tail := U32Bytes(last) + U32Bytes(code) + debug, U32Bytes(code) + debug;
    AppendAssociates(U32Bytes(last), U32Bytes(code), debug);
    U32RoundTrip(last, tail);
    U32RoundTrip(code, debug);
    assert p[4..] == tail && p[8..] == debug;
  }

  // ----- Settings -----

  /** The identifier of every setting, in 16 bits, and its value in 32. */
  lemma SettingNumbers(v: u32, id: u16)
    ensures SettingBytes(Setting(HeaderTableSize, v)) == [0, 1] + U32Bytes(v)
    ensures SettingBytes(Setting(EnablePush, v)) == [0, 2] + U32Bytes(v)
    ensures SettingBytes(Setting(MaxConcurrentStreams, v)) == [0, 3] + U32Bytes(v)
    ensures SettingBytes(Setting(InitialWindowSize, v)) == [0, 4] + U32Bytes(v)
    ensures SettingBytes(Setting(MaxFrameSize, v)) == [0, 5] + U32Bytes(v)
    ensures SettingBytes(Setting(MaxHeaderListSize, v)) == [0, 6] + U32Bytes(v)
    ensures SettingBytes(Setting(OtherSetting(id), v)) == U16Bytes(id) + U32Bytes(v)
  {
  }

  lemma OneSettingRead(id: u16, v: u32)
    ensures ReadSettings(U16Bytes(id) + U32Bytes(v)) ==
              if ValidSettingValue(SettingIdOf(id), v) then Ok([Setting(SettingIdOf(id), v)])
              else Err(InvalidSettingValue(SettingIdOf(id).ToU16(), v))
  {
    var p := U16Bytes(id) + U32Bytes(v);
    assert p[..2] == U16Bytes(id) + [] && p[2..6] == U32Bytes(v) + [] && p[6..] == [];
    U16RoundTrip(id, []);
    U32RoundTrip(v, []);
    assert ReadSettings([]) == Ok([]);
    assert [Setting(SettingIdOf(id), v)] + [] == [Setting(SettingIdOf(id), v)];
  }

  /**
   A payload of one entry, whatever its identifier: only three settings have a range, and a value
   outside it is refused.
   */
  lemma SettingAccepted(id: u16, v: u32)
    ensures var r := ReadSettings(U16Bytes(id) + U32Bytes(v));
            && (r.Ok? <==> (id == 2 ==> v <= 1) && (id == 4 ==> v < 0x8000_0000)
                           && (id == 5 ==> 16384 <= v < 0x100_0000))
            && (r.Err? ==> r.error == InvalidSettingValue(id, v))
            && (r.Ok? ==> |r.value| == 1 && r.value[0].value == v &&
                          match r.value[0].id
                          case HeaderTableSize => id == 1
                          case EnablePush => id == 2
                          case MaxConcurrentStreams => id == 3
                          case InitialWindowSize => id == 4
                          case MaxFrameSize => id == 5
                          case MaxHeaderListSize => id == 6
                          case OtherSetting(other) => other == id && (id == 0 || id > 6))
  {
    OneSettingRead(id, v);
  }

  /** Payloads of several entries: the entries in order, up to the first that is refused. */
  lemma SettingsInOrder(id: u16, v: u32, rest: seq<byte>)
    requires |rest| % 6 == 0
    ensures ReadSettings(U16Bytes(id) + U32Bytes(v) + rest) ==
              match ReadSettings(U16Bytes(id) + U32Bytes(v))
              case Err(e) => Err(e)
              case Ok(first) =>
                match ReadSettings(rest)
                case Err(e) => Err(e)
                case Ok(more) => Ok(first + more)
  {
    var p := U16Bytes(id) + U32Bytes(v) + rest;
    assert p[..2] == U16Bytes(id) + [] && p[2..6] == U32Bytes(v) + [] && p[6..] == rest;
    U16RoundTrip(id, []);
    U32RoundTrip(v, []);
    OneSettingRead(id, v);
  }

  // ----- What is accepted, and why not -----

  /** What padding leaves of a payload, if anything. */
  predicate PaddingFits(flags: byte, payload: seq<byte>) {
    Set(flags, 8) ==> payload != [] && payload[0] as int < |payload| - 1
  }

  /** The bytes in front of the padding; the length byte itself is one of those that go. */
  function Kept(flags: byte, payload: seq<byte>): nat {
    if Set(flags, 8) && payload != [] && payload[0] as int < |payload| then |payload| - 1 - payload[0] else |payload|
  }

  /** Exactly the payloads that are accepted, kind by kind; unknown kinds always are. */
  lemma AcceptedExactly(h: FrameHeader, payload: seq<byte>)
    ensures var t, id, n := h.frameType, h.streamId, |payload|;
            ParseFrame(h, payload).Ok? <==>
              && (t in {0, 1, 2, 3, 5, 9} ==> id != 0)
              && (t in {4, 6, 7} ==> id == 0)
              && (t in {0, 1, 5} ==> PaddingFits(h.flags, payload))
              && (t == 1 && Set(h.flags, 0x20) ==> Kept(h.flags, payload) >= 5)
              && (t == 2 ==> n == 5) && (t == 3 ==> n == 4)
              && (t == 4 ==> n % 6 == 0 && (Set(h.flags, 1) ==> n == 0) && ReadSettings(payload).Ok?)
              && (t == 5 ==> Kept(h.flags, payload) >= 4)
              && (t == 6 ==> n == 8) && (t == 7 ==> n >= 8)
              && (t == 8 ==> n == 4 && U32Of(payload) % 0x8000_0000 != 0)
  {
  }

  /** The error says which rule was broken first: the identifier, the padding, the length, the value. */
  lemma RefusedBecause(h: FrameHeader, payload: seq<byte>)
    ensures var t, id, n, r := h.frameType, h.streamId, |payload|, ParseFrame(h, payload);
            && (t in {0, 1, 2, 3, 5, 9} && id == 0 ==> r == Err(StreamIdRequired(t)))
            && (t in {4, 6, 7} && id != 0 ==> r == Err(InvalidStreamZero(t)))
            && (t in {0, 1, 5} && id != 0 && !PaddingFits(h.flags, payload) ==>
                  r == Err(InvalidPadding(if n == 0 then 0 else payload[0], n)))
            && (t == 1 && id != 0 && PaddingFits(h.flags, payload) &&
                Set(h.flags, 0x20) && Kept(h.flags, payload) < 5 ==>
                  r == Err(InvalidPayloadLength(1, 5, Kept(h.flags, payload))))
            && (t == 5 && id != 0 && PaddingFits(h.flags, payload) && Kept(h.flags, payload) < 4 ==>
                  r == Err(InvalidPayloadLength(5, 4, Kept(h.flags, payload))))
            && (t == 2 && id != 0 && n != 5 ==> r == Err(InvalidPayloadLength(2, 5, n)))
            && (t == 3 && id != 0 && n != 4 ==> r == Err(InvalidPayloadLength(3, 4, n)))
            && (t == 4 && id == 0 && Set(h.flags, 1) && n > 0 ==> r == Err(InvalidPayloadLength(4, 0, n)))
            && (t == 4 && id == 0 && !Set(h.flags, 1) && n % 6 != 0 ==>
                  r == Err(InvalidPayloadLength(4, n - n % 6, n)))
            && (t == 6 && id == 0 && n != 8 ==> r == Err(InvalidPayloadLength(6, 8, n)))
            && (t == 7 && id == 0 && n < 8 ==> r == Err(InvalidPayloadLength(7, 8, n)))
            && (t == 8 && n != 4 ==> r == Err(InvalidPayloadLength(8, 4, n)))
            && (t == 8 && n == 4 && U32Of(payload) % 0x8000_0000 == 0 ==> r == Err(InvalidWindowIncrement(0)))
  {
  }

  /**
   One attempt on a buffer: the length alone decides whether a frame is too large, as soon as the
   header is there; otherwise the whole frame is awaited, and it is taken off whether it is well
   formed or not.
   */
  lemma AttemptExactly(max: nat, b: seq<byte>)
    ensures var length := if |b| >= 9 then Big(0, b[0], b[1], b[2]) else 0;
            && (DecodeFrame(max, b) == NeedMore <==> |b| < 9 || (length <= max && |b| < 9 + length))
            && (DecodeFrame(max, b).Oversized? <==> |b| >= 9 && length > max)
            && match DecodeFrame(max, b)
               case NeedMore => true
               case Oversized(e) => e == FrameTooLarge(length, max)
               case Malformed(e, rest) =>
                 && |b| >= 9 + length && rest == b[9 + length..]
                 && ParseFrame(PeekHeader(b), b[9..9 + length]) == Err(e)
               case Parsed(f, rest) =>
                 && |b| >= 9 + length && rest == b[9 + length..]
                 && ParseFrame(PeekHeader(b), b[9..9 + length]) == Ok(f)
  {
    if |b| >= 9 {
      HeaderRead(b);
    }
  }

  // ----- The first bytes of a connection -----

  /** The preface of section 3.5 of RFC 7540, in octets. */
  lemma PrefaceOctets()
    ensures PREFACE ==
              [0x50, 0x52, 0x49, 0x20, 0x2a, 0x20, 0x48, 0x54, 0x54, 0x50, 0x2f, 0x32, 0x2e, 0x30, 0x0d, 0x0a, 0x0d,
               0x0a, 0x53, 0x4d, 0x0d, 0x0a, 0x0d, 0x0a]
  {
  }

  lemma ThreeSettings(r: Setting, s: Setting, t: Setting)
    ensures SettingsBytes([r, s, t]) == SettingBytes(r) + (SettingBytes(s) + SettingBytes(t))
  {
    assert [r, s, t][1..] == [s, t] && [s, t][1..] == [t] && [t][1..] == [];
    assert SettingsBytes([t]) == SettingBytes(t) + [] == SettingBytes(t);
    assert SettingsBytes([s, t]) == SettingBytes(s) + SettingsBytes([t]);
  }

  /** The settings that both sides announce, in octets: 100 streams, windows of 65535, frames of 16384. */
  lemma AnnouncementOctets()
    ensures FrameBytes(LOCAL_SETTINGS) ==
              [0, 0, 18, 4, 0, 0, 0, 0, 0] + ([0, 3, 0, 0, 0, 100] + ([0, 4, 0, 0, 0xff, 0xff] + [0, 5, 0, 0, 0x40, 0]))
  {
    var s := LOCAL_SETTINGS.settings;
    ThreeSettings(s[0], s[1], s[2]);
    assert s == [s[0], s[1], s[2]];
    assert SettingBytes(s[0]) == [0, 3, 0, 0, 0, 100];
    assert SettingBytes(s[1]) == [0, 4, 0, 0, 0xff, 0xff];
    assert SettingBytes(s[2]) == [0, 5, 0, 0, 0x40, 0];
  }
}
