/**
 The traffic between a client and a server of this implementation: every frame that either writes
 is well formed and fits its header, and is of a kind that leaves the other's windows and tables in
 range. This is what lets a joined run be followed from one side to the other.
 */
module PlainTraffic {
  import opened Bytes
  import opened PrefixCodes
  import opened Tables
  import opened HpackCoding
  import opened Frames
  import opened FrameCoding
  import opened FrameStreams
  import opened Streams
  import opened Endpoints
  import C = ClientProtocol
  import S = ServerProtocol

  /** As many bytes may wait to be credited that one more frame still makes an increment of 31 bits. */
  const MOST_CONSUMED := 0x7fff_bfff

  predicate PlainFrame(f: Frame) {
    && Sendable(MAX_FRAME_SIZE, f)
    && (f.SettingsFrame? ==> f == LOCAL_SETTINGS || f == SettingsFrame(true, []))
    && (f.WindowUpdateFrame? ==> f.streamId == 0)
  }

  ghost predicate PlainLog(frames: seq<Frame>, most: nat) {
    forall f :: f in frames ==> PlainFrame(f) && |PayloadOf(f)| <= most
  }

  lemma PlainLogPush(frames: seq<Frame>, f: Frame, most: nat)
    requires PlainLog(frames, most) && PlainFrame(f) && |PayloadOf(f)| <= most
    ensures PlainLog(frames + [f], most)
  {
  }

  predicate PlainStream(id: u32, s: StreamView) {
    IsStream(id) && 0 <= s.sendWindow <= 65535
  }

  ghost predicate PlainStreams(streams: StreamMap) {
    forall id :: id in streams ==> PlainStream(id, streams[id])
  }

  lemma PlainStreamsUpdate(streams: StreamMap, id: u32, s: StreamView)
    requires PlainStreams(streams) && PlainStream(id, s)
    ensures PlainStreams(streams[id := s])
  {
  }

  ghost predicate Plain(e: Endpoint, most: nat) {
    && e.remote.initialWindowSize == 65535 && e.maxFrame == 16384
    && e.flow.threshold == 32767 && e.flow.consumed <= MOST_CONSUMED
    && PlainStreams(e.streams)
    && PlainLog(e.written, most)
  }

  /** Does the other side report this frame, whatever its state? */
  predicate Carries(f: Frame) {
    f.HeadersFrame? || f.DataFrame? || f.GoAwayFrame? || f.RstStreamFrame?
  }

  predicate NoMessages(frames: seq<Frame>) {
    forall f :: f in frames ==> !Carries(f)
  }

  /** The encoder has not been used: nothing was written that carries a message. */
  ghost predicate Adds(e: Endpoint, e': Endpoint) {
    e'.enc == e.enc && e.written <= e'.written && NoMessages(e'.written[|e.written|..])
  }

  lemma AddedFrames(e: Endpoint, e': Endpoint) returns (more: seq<Frame>)
    requires Adds(e, e')
    ensures e'.written == e.written + more && NoMessages(more)
  {
    more := e'.written[|e.written|..];
  }

  lemma AddsTransitive(a: Endpoint, b: Endpoint, c: Endpoint)
    requires Adds(a, b) && Adds(b, c)
    ensures Adds(a, c)
  {
    assert c.written[|a.written|..] == b.written[|a.written|..] + c.written[|b.written|..];
  }

  lemma AddsOne(e: Endpoint, e': Endpoint, f: Frame)
    requires e'.enc == e.enc && e'.written == e.written + [f] && !Carries(f)
    ensures Adds(e, e')
  {
    assert e'.written[|e.written|..] == [f];
  }

  lemma AddsNothing(e: Endpoint, e': Endpoint)
    requires e'.enc == e.enc && e'.written == e.written
    ensures Adds(e, e')
  {
  }

  // ----- Frames that both sides treat alike -----

  lemma LocalSettingsArePlain()
    ensures PlainFrame(LOCAL_SETTINGS) && |PayloadOf(LOCAL_SETTINGS)| == 18
    ensures PlainFrame(SettingsFrame(true, [])) && |PayloadOf(SettingsFrame(true, []))| == 0
  {
  }

  lemma SameWindows(e: Endpoint)
    requires e.remote.initialWindowSize == 65535 && PlainStreams(e.streams)
    ensures e.Resized(65535) == e
  {
    forall id | id in e.streams
      ensures e.streams[id].AdjustSendWindow(0) == e.streams[id]
    {
    }
    assert Adjusted(e.streams, 0) == e.streams;
  }

  /** The settings that the implementation announces are those that it assumes anyway. */
  lemma LocalSettingsChangeNothing(e: Endpoint)
    requires |e.cx.huffman| == SYMBOLS && e.remote.initialWindowSize == 65535 && e.maxFrame == 16384
    requires PlainStreams(e.streams)
    ensures var e' := e.ApplySettings(LOCAL_SETTINGS.settings);
            e' == e.(remote := e.remote.(maxConcurrentStreams := 100, maxFrameSize := 16384))
  {
    var s := LOCAL_SETTINGS.settings;
    var e1 := e.(remote := e.remote.(maxConcurrentStreams := 100));
    assert e.ApplySetting(s[0]) == e1;
    SameWindows(e1);
    assert e1.ApplySetting(s[1]) == e1;
    var e3 := e1.(remote := e1.remote.(maxFrameSize := 16384));
    assert e1.ApplySetting(s[2]) == e3;
    assert s[1..][0] == s[1] && s[1..][1..][0] == s[2] && s[1..][1..][1..] == [];
  }

  lemma SettingsPlain(e: Endpoint, f: Frame, most: nat)
    requires |e.cx.huffman| == SYMBOLS && Plain(e, most) && most >= 16384
    requires f.SettingsFrame? && PlainFrame(f)
    ensures var e' := e.HandleSettings(f.ack, f.settings);
            Plain(e', most) && Adds(e, e')
  {
    LocalSettingsArePlain();
    LocalSettingsChangeNothing(e);
    var ack := SettingsFrame(true, []);
    PlainLogPush(e.written, ack, most);
    if f.ack {
      AddsNothing(e, e);
    } else {
      AddsOne(e, e.HandleSettings(f.ack, f.settings), ack);
    }
  }

  lemma PingPlain(e: Endpoint, ack: bool, data: seq<byte>, most: nat)
    requires Plain(e, most) && most >= 16384 && |data| == 8
    ensures Plain(e.HandlePing(ack, data), most) && Adds(e, e.HandlePing(ack, data))
  {
    var f := PingFrame(true, data);
    PlainLogPush(e.written, f, most);
    if ack {
      AddsNothing(e, e);
    } else {
      AddsOne(e, e.HandlePing(ack, data), f);
    }
  }

  lemma DataPlain(e: Endpoint, id: u32, endStream: bool, data: seq<byte>, most: nat)
    requires Plain(e, most) && most >= 16384 && |data| <= 16384
    ensures Plain(e.HandleData(id, endStream, data), most) && Adds(e, e.HandleData(id, endStream, data))
  {
    var e' := e.HandleData(id, endStream, data);
    var due := e.flow.Due(|data|);
    if id in e.streams {
      assert PlainStream(id, e'.streams[id]);
      PlainStreamsUpdate(e.streams, id, e'.streams[id]);
    }
    if due.Some? {
      var f := WindowUpdateFrame(0, due.value);
      PlainLogPush(e.written, f, most);
      AddsOne(e, e', f);
    } else {
      AddsNothing(e, e');
    }
  }

  lemma UpdatePlain(e: Endpoint, increment: u32, most: nat)
    requires Plain(e, most)
    ensures Plain(e.HandleWindowUpdate(0, increment), most) && Adds(e, e.HandleWindowUpdate(0, increment))
  {
    AddsNothing(e, e.HandleWindowUpdate(0, increment));
  }

  lemma ResetPlain(e: Endpoint, id: u32, code: u32, most: nat)
    requires Plain(e, most)
    ensures Plain(e.HandleRstStream(id, code), most) && Adds(e, e.HandleRstStream(id, code))
  {
    if id in e.streams {
      PlainStreamsUpdate(e.streams, id, e.streams[id].Reset());
    }
    AddsNothing(e, e.HandleRstStream(id, code));
  }

  lemma SharedPlain(e: Endpoint, f: Frame, most: nat)
    requires |e.cx.huffman| == SYMBOLS && Plain(e, most) && most >= 16384
    requires PlainFrame(f) && |PayloadOf(f)| <= 16384 && !f.HeadersFrame? && !f.PushPromiseFrame?
    ensures Plain(e.HandleShared(f), most) && Adds(e, e.HandleShared(f))
  {
    var e' := e.HandleShared(f);
    match f
    case SettingsFrame(_, _) => SettingsPlain(e, f, most);
    case PingFrame(ack, data) => PingPlain(e, ack, data, most);
    case WindowUpdateFrame(_, increment) => UpdatePlain(e, increment, most);
    case DataFrame(id, endStream, data) => DataPlain(e, id, endStream, data, most);
    case RstStreamFrame(id, code) => ResetPlain(e, id, code, most);
    case _ => AddsNothing(e, e');
  }

  // ----- A client -----

  lemma EndReceivedPlain(e: Endpoint, id: u32, most: nat)
    requires Plain(e, most)
    ensures Plain(e.ReceiveEndStream(id), most)
  {
    if id in e.streams {
      PlainStreamsUpdate(e.streams, id, e.streams[id].ReceiveEndStream());
    }
  }

  lemma ClientHeadersPlain(e: Endpoint, id: u32, endStream: bool, block: seq<byte>, most: nat)
    requires e.cx.Valid() && Plain(e, most)
    ensures var e' := C.HandleHeaders(e, id, endStream, block);
            Plain(e', most) && Adds(e, e')
  {
    EndReceivedPlain(e, id, most);
    AddsNothing(e, C.HandleHeaders(e, id, endStream, block));
  }

  lemma ClientFramePlain(e: Endpoint, f: Frame, most: nat)
    requires e.cx.Valid() && Plain(e, most) && most >= 16384 && PlainFrame(f) && |PayloadOf(f)| <= 16384
    ensures Plain(C.Handle(e, f), most) && Adds(e, C.Handle(e, f))
  {
    if f.HeadersFrame? {
      ClientHeadersPlain(e, f.streamId, f.endStream, f.block, most);
    } else if f.PushPromiseFrame? {
      AddsNothing(e, e);
    } else {
      SharedPlain(e, f, most);
    }
  }

  lemma {:induction false} ClientFramesPlain(e: Endpoint, frames: seq<Frame>, most: nat)
    requires e.cx.Valid() && Plain(e, most) && most >= 16384 && PlainLog(frames, 16384)
    ensures Plain(C.HandleAll(e, frames), most) && Adds(e, C.HandleAll(e, frames))
    decreases |frames|
  {
    if frames == [] {
      AddsNothing(e, e);
    } else {
      var e' := C.Handle(e, frames[0]);
      assert PlainFrame(frames[0]);
      ClientFramePlain(e, frames[0], most);
      ClientFramesPlain(e', frames[1..], most);
      AddsTransitive(e, e', C.HandleAll(e', frames[1..]));
    }
  }

  /** Data goes out in a frame that fits, whoever sends it. */
  lemma SendPlain(e: Endpoint, id: u32, data: seq<byte>, endStream: bool, cap: nat, most: nat)
    requires Plain(e, most) && e.flow.consumed + |data| <= MOST_CONSUMED
    requires (cap <= most || 65535 <= most) && most <= MAX_FRAME_SIZE
    ensures Plain(e.SendData(id, data, endStream, cap).0, most)
  {
    var (e', outcome) := e.SendData(id, data, endStream, cap);
    if outcome.Sent? {
      assert PlainStream(id, e.streams[id]);
      assert outcome.count <= e.streams[id].sendWindow;
      PlainStreamsUpdate(e.streams, id, e'.streams[id]);
      var f := e'.written[|e.written|];
      PlainLogPush(e.written, f, most);
    }
  }

  lemma HeadersPlain(e: Endpoint, id: u32, headers: seq<HeaderField>, endStream: bool, most: nat)
    requires |e.cx.huffman| == SYMBOLS && Plain(e, most) && IsStream(id) && most <= MAX_FRAME_SIZE
    requires |BlockBytes(e.cx, e.enc.table, e.enc.useHuffman, headers).1| <= most
    ensures Plain(e.WriteHeaders(id, headers, endStream), most)
  {
    var e' := e.WriteHeaders(id, headers, endStream);
    PlainLogPush(e.written, e'.written[|e.written|], most);
  }

  lemma OpenPlain(e: Endpoint, id: u32, most: nat)
    requires Plain(e, most) && IsStream(id)
    ensures Plain(e.OpenStream(id), most)
  {
    PlainStreamsUpdate(e.streams, id, NewStream(id, 65535));
  }

  lemma AnnouncedPlain(e: Endpoint, most: nat)
    requires Plain(e, most) && most >= 16384
    ensures Plain(Announced(e), most) && Adds(e, Announced(e))
  {
    LocalSettingsArePlain();
    PlainLogPush(e.written, LOCAL_SETTINGS, most);
    AddsOne(e, Announced(e), LOCAL_SETTINGS);
  }

  // ----- A server -----

  lemma RequestPlain(s: S.Core, id: u32, endStream: bool, block: seq<byte>, most: nat)
    requires s.e.cx.Valid() && Plain(s.e, most) && IsStream(id)
    ensures Plain(S.HandleRequest(s, id, endStream, block).e, most)
            && Adds(s.e, S.HandleRequest(s, id, endStream, block).e)
  {
    AddsNothing(s.e, S.HandleRequest(s, id, endStream, block).e);
    OpenPlain(s.e, id, most);
    EndReceivedPlain(s.e.OpenStream(id), id, most);
  }

  lemma ServerFramePlain(s: S.Core, f: Frame, most: nat)
    requires s.e.cx.Valid() && Plain(s.e, most) && most >= 16384 && PlainFrame(f) && |PayloadOf(f)| <= 16384
    ensures Plain(S.Handle(s, f).e, most) && Adds(s.e, S.Handle(s, f).e)
  {
    if f.HeadersFrame? {
      RequestPlain(s, f.streamId, f.endStream, f.block, most);
    } else if f.PushPromiseFrame? {
      AddsNothing(s.e, S.Handle(s, f).e);
    } else {
      SharedPlain(s.e, f, most);
    }
  }

  lemma {:induction false} ServerFramesPlain(s: S.Core, frames: seq<Frame>, most: nat)
    requires s.e.cx.Valid() && Plain(s.e, most) && most >= 16384 && PlainLog(frames, 16384)
    ensures Plain(S.HandleAll(s, frames).e, most) && Adds(s.e, S.HandleAll(s, frames).e)
    decreases |frames|
  {
    if frames == [] {
      AddsNothing(s.e, s.e);
    } else {
      var s' := S.Handle(s, frames[0]);
      assert PlainFrame(frames[0]);
      ServerFramePlain(s, frames[0], most);
      ServerFramesPlain(s', frames[1..], most);
      AddsTransitive(s.e, s'.e, S.HandleAll(s', frames[1..]).e);
    }
  }
}
