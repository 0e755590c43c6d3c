/**
 What the states of the streams say about the traffic, over whole runs of a client or a server. A
 stream's state, receive window and counters are compared with the frames that were written and the
 events that were reported since the stream was opened.
 */
module StreamStates {
  import opened Bytes
  import opened PrefixCodes
  import opened Tables
  import opened HpackCoding
  import opened Frames
  import opened FrameCoding
  import opened FrameStreams
  import opened FlowControl
  import opened Streams
  import opened Endpoints
  import C = ClientProtocol
  import S = ServerProtocol

  // ----- What the logs say -----

  /** What was written on a stream: END_STREAM on HEADERS, END_STREAM on DATA, a reset, and how much data. */
  datatype Sending = Sending(headersEnd: bool, dataEnd: bool, reset: bool, sent: nat) {
    function Then(f: Frame, id: u32): Sending {
      match f
      case HeadersFrame(i, end, _, _, _) => if i == id && end then this.(headersEnd := true) else this
      case DataFrame(i, end, data) => if i == id then this.(dataEnd := dataEnd || end, sent := sent + |data|) else this
      case RstStreamFrame(i, _) => if i == id then this.(reset := true) else this
      case _ => this
    }
  }

  /** What was reported on a stream: the peer's END_STREAM, its reset, and how much data. */
  datatype Receiving = Receiving(end: bool, reset: bool, received: nat) {
    function Then(event: Event, id: u32): Receiving {
      match event
      case Headers(i, _, last) => if i == id && last then this.(end := true) else this
      case Request(i, _, last) => if i == id && last then this.(end := true) else this
      case Data(i, data, last) => if i == id then this.(end := end || last, received := received + |data|) else this
      case StreamReset(i, _) => if i == id then this.(reset := true) else this
      case _ => this
    }
  }

  /** From the frame at `from` on. */
  function Written(frames: seq<Frame>, from: nat, id: u32): Sending {
    if |frames| <= from then Sending(false, false, false, 0)
    else Written(frames[..|frames| - 1], from, id).Then(frames[|frames| - 1], id)
  }

  function Reported(events: seq<Event>, from: nat, id: u32): Receiving {
    if |events| <= from then Receiving(false, false, 0)
    else Reported(events[..|events| - 1], from, id).Then(events[|events| - 1], id)
  }

  lemma WrittenPush(frames: seq<Frame>, from: nat, id: u32, f: Frame)
    requires from <= |frames|
    ensures Written(frames + [f], from, id) == Written(frames, from, id).Then(f, id)
  {
    assert (frames + [f])[..|frames|] == frames;
  }

  lemma ReportedPush(events: seq<Event>, from: nat, id: u32, event: Event)
    requires from <= |events|
    ensures Reported(events + [event], from, id) == Reported(events, from, id).Then(event, id)
  {
    assert (events + [event])[..|events|] == events;
  }

  // ----- The invariant -----

  function StateOf(sentEnd: bool, receivedEnd: bool, reset: bool): StreamState {
    if reset || (sentEnd && receivedEnd) then StreamState.Closed
    else if sentEnd then HalfClosedLocal
    else if receivedEnd then HalfClosedRemote
    else StreamState.Open
  }

  /** Which END_STREAM the endpoint takes note of: a client overlooks the one on its own HEADERS. */
  predicate Ended(o: Sending, byHeaders: bool) {
    o.dataEnd || (byHeaders && o.headersEnd)
  }

  predicate Told(s: StreamView, c: Credit, o: Sending, i: Receiving, byHeaders: bool) {
    && s.state == StateOf(Ended(o, byHeaders), i.end, o.reset || i.reset)
    && s.recvWindow == Wrap(c.initial - i.received)
    && s.bytesReceived == AsU32(i.received)
    && c.sent == o.sent
  }

  function SendingOn(e: Endpoint, id: u32): Sending {
    Written(e.written, e.CreditOf(id).written, id)
  }

  function ReceivingOn(e: Endpoint, id: u32): Receiving {
    Reported(e.events, e.CreditOf(id).reported, id)
  }

  /** A stream is what the logs say of it. */
  predicate ToldAt(e: Endpoint, id: u32, byHeaders: bool) {
    id in e.streams ==>
      && e.CreditOf(id).written <= |e.written| && e.CreditOf(id).reported <= |e.events|
      && Told(e.streams[id], e.CreditOf(id), SendingOn(e, id), ReceivingOn(e, id), byHeaders)
  }

  // ----- One stream -----

  lemma DataSentTold(s: StreamView, c: Credit, o: Sending, i: Receiving, byHeaders: bool, n: nat, isEnd: bool)
    requires Told(s, c, o, i, byHeaders)
    ensures var spent := s.SendData(AsU32(n));
            Told(if isEnd then spent.SendEndStream() else spent, c.(sent := c.sent + n),
                 o.(dataEnd := o.dataEnd || isEnd, sent := o.sent + n), i, byHeaders)
  {
  }

  lemma HeadersEndTold(s: StreamView, c: Credit, o: Sending, i: Receiving)
    requires Told(s, c, o, i, true)
    ensures Told(s.SendEndStream(), c, o.(headersEnd := true), i, true)
  {
  }

  lemma EndReceivedTold(s: StreamView, c: Credit, o: Sending, i: Receiving, byHeaders: bool)
    requires Told(s, c, o, i, byHeaders)
    ensures Told(s.ReceiveEndStream(), c, o, i.(end := true), byHeaders)
  {
  }

  lemma DataReceivedTold(s: StreamView, c: Credit, o: Sending, i: Receiving, byHeaders: bool, n: nat, isEnd: bool)
    requires Told(s, c, o, i, byHeaders)
    ensures var received := s.ReceiveData(AsU32(n));
            Told(if isEnd then received.ReceiveEndStream() else received, c, o,
                 i.(end := i.end || isEnd, received := i.received + n), byHeaders)
  {
    WrapSubTruncated(c.initial - i.received, n);
    CountAdded(i.received, n);
  }

  lemma CountAdded(a: nat, b: nat)
    ensures AddU32(AsU32(a), AsU32(b)) == AsU32(a + b)
  {
    var m := 0x1_0000_0000;
    assert a == m * (a / m) + a % m && b == m * (b / m) + b % m;
    if a % m + b % m < m {
      ModUnique(a + b, a / m + b / m, a % m + b % m);
    } else {
      ModUnique(a + b, a / m + b / m + 1, a % m + b % m - m);
    }
  }

  lemma ModUnique(n: nat, q: nat, r: nat)
    requires n == 0x1_0000_0000 * q + r && r < 0x1_0000_0000
    ensures n % 0x1_0000_0000 == r
  {
  }

  // ----- Steps -----

  /** Frames and events that no state depends on. */
  predicate QuietFrame(f: Frame, byHeaders: bool) {
    !f.DataFrame? && !f.RstStreamFrame? && !(byHeaders && f.HeadersFrame? && f.endStream)
  }

  predicate QuietEvent(event: Event) {
    !event.Headers? && !event.Request? && !event.Data? && !event.StreamReset?
  }

  lemma WroteTold(e: Endpoint, id: u32, byHeaders: bool, f: Frame)
    requires ToldAt(e, id, byHeaders) && QuietFrame(f, byHeaders)
    ensures ToldAt(e.Wrote(f), id, byHeaders)
  {
    if id in e.streams {
      WrittenPush(e.written, e.CreditOf(id).written, id, f);
    }
  }

  lemma HappenedTold(e: Endpoint, id: u32, byHeaders: bool, event: Event)
    requires ToldAt(e, id, byHeaders) && QuietEvent(event)
    ensures ToldAt(e.Happened(event), id, byHeaders)
  {
    if id in e.streams {
      ReportedPush(e.events, e.CreditOf(id).reported, id, event);
    }
  }

  lemma SettingTold(e: Endpoint, id: u32, byHeaders: bool, setting: Setting)
    requires |e.cx.huffman| == SYMBOLS && ToldAt(e, id, byHeaders)
    ensures ToldAt(e.ApplySetting(setting), id, byHeaders)
  {
    var e' := e.ApplySetting(setting);
    assert e'.written == e.written && e'.events == e.events && e'.CreditOf(id) == e.CreditOf(id);
  }

  lemma {:induction false} SettingsTold(e: Endpoint, id: u32, byHeaders: bool, settings: seq<Setting>)
    requires |e.cx.huffman| == SYMBOLS && ToldAt(e, id, byHeaders)
    ensures ToldAt(e.ApplySettings(settings), id, byHeaders)
    decreases |settings|
  {
    if settings != [] {
      SettingTold(e, id, byHeaders, settings[0]);
      SettingsTold(e.ApplySetting(settings[0]), id, byHeaders, settings[1..]);
    }
  }

  lemma HandleSettingsTold(e: Endpoint, id: u32, byHeaders: bool, ack: bool, settings: seq<Setting>)
    requires |e.cx.huffman| == SYMBOLS && ToldAt(e, id, byHeaders)
    ensures ToldAt(e.HandleSettings(ack, settings), id, byHeaders)
  {
    if !ack {
      SettingsTold(e, id, byHeaders, settings);
      WroteTold(e.ApplySettings(settings), id, byHeaders, SettingsFrame(true, []));
      var e' := e.ApplySettings(settings).Wrote(SettingsFrame(true, []));
      HappenedTold(e'.(gotSettings := true, state := ConnectionState.Open), id, byHeaders, Ready);
    }
  }

  lemma UpdateTold(e: Endpoint, id: u32, byHeaders: bool, on: u32, increment: u32)
    requires ToldAt(e, id, byHeaders)
    ensures ToldAt(e.HandleWindowUpdate(on, increment), id, byHeaders)
  {
    HappenedTold(e, id, byHeaders, Error(WindowOverflow(on, increment)));
  }

  /** Data arrives, and is reported. */
  lemma TookTold(e: Endpoint, id: u32, byHeaders: bool, on: u32, endStream: bool, data: seq<byte>)
    requires ToldAt(e, id, byHeaders)
    ensures ToldAt(e.Took(on, AsU32(|data|), endStream, |data|).Happened(Data(on, data, endStream)), id, byHeaders)
  {
    if id in e.streams {
      var event := Data(on, data, endStream);
      var s, c, o, i := e.streams[id], e.CreditOf(id), SendingOn(e, id), ReceivingOn(e, id);
      ReportedPush(e.events, c.reported, id, event);
      assert e.Took(on, AsU32(|data|), endStream, |data|).CreditOf(id) == c;
      if on == id {
        DataReceivedTold(s, c, o, i, byHeaders, |data|, endStream);
      }
    }
  }

  lemma DataTold(e: Endpoint, id: u32, byHeaders: bool, on: u32, endStream: bool, data: seq<byte>)
    requires ToldAt(e, id, byHeaders)
    ensures ToldAt(e.HandleData(on, endStream, data), id, byHeaders)
  {
    var size := AsU32(|data|);
    TookTold(e, id, byHeaders, on, endStream, data);
    var e' := e.Took(on, size, endStream, |data|).Happened(Data(on, data, endStream));
    var received, due := e'.(flow := e.flow.Receive(size)), e.flow.Due(size);
    assert ToldAt(received, id, byHeaders);
    if due.Some? {
      WroteTold(received, id, byHeaders, WindowUpdateFrame(0, due.value));
    }
    assert e.HandleData(on, endStream, data) == e'.ReturnCredit(size);
  }

  lemma RstTold(e: Endpoint, id: u32, byHeaders: bool, on: u32, code: u32)
    requires ToldAt(e, id, byHeaders)
    ensures ToldAt(e.HandleRstStream(on, code), id, byHeaders)
  {
    if id in e.streams {
      ReportedPush(e.events, e.CreditOf(id).reported, id, StreamReset(on, code));
    }
  }

  lemma SharedTold(e: Endpoint, id: u32, byHeaders: bool, f: Frame)
    requires |e.cx.huffman| == SYMBOLS && !f.HeadersFrame? && !f.PushPromiseFrame? && ToldAt(e, id, byHeaders)
    ensures ToldAt(e.HandleShared(f), id, byHeaders)
  {
    match f
    case SettingsFrame(ack, settings) => HandleSettingsTold(e, id, byHeaders, ack, settings);
    case PingFrame(ack, data) => WroteTold(e, id, byHeaders, PingFrame(true, data));
    case GoAwayFrame(last, code, _) => HappenedTold(e.(state := Draining), id, byHeaders, GoAway(last, code));
    case WindowUpdateFrame(on, increment) => UpdateTold(e, id, byHeaders, on, increment);
    case DataFrame(on, endStream, data) => DataTold(e, id, byHeaders, on, endStream, data);
    case RstStreamFrame(on, code) => RstTold(e, id, byHeaders, on, code);
    case ContinuationFrame(_, _, _) => HappenedTold(e, id, byHeaders, Error(UnexpectedContinuation));
    case _ =>
  }

  /** Headers arrive, and are reported by `event`. */
  lemma HeadersTold(e: Endpoint, id: u32, byHeaders: bool, on: u32, endStream: bool, event: Event)
    requires ToldAt(e, id, byHeaders)
    requires (event.Headers? || event.Request?) && event.streamId == on && event.endStream == endStream
    ensures ToldAt((if endStream then e.ReceiveEndStream(on) else e).Happened(event), id, byHeaders)
  {
    if id in e.streams {
      var s, c, o, i := e.streams[id], e.CreditOf(id), SendingOn(e, id), ReceivingOn(e, id);
      ReportedPush(e.events, c.reported, id, event);
      if on == id && endStream {
        EndReceivedTold(s, c, o, i, byHeaders);
      }
    }
  }

  lemma OpenTold(e: Endpoint, id: u32, byHeaders: bool, on: u32)
    requires ToldAt(e, id, byHeaders)
    ensures ToldAt(e.OpenStream(on), id, byHeaders)
  {
  }

  lemma SendTold(e: Endpoint, id: u32, byHeaders: bool, on: u32, data: seq<byte>, endStream: bool, most: nat)
    requires ToldAt(e, id, byHeaders)
    ensures ToldAt(e.SendData(on, data, endStream, most).0, id, byHeaders)
  {
    if id in e.streams && on in e.streams {
      var n := Allowance(e.flow.window, e.streams[on].sendWindow, |data|, most);
      SomeTold(e, id, byHeaders, on, data, endStream, n);
    }
  }

  lemma SomeTold(e: Endpoint, id: u32, byHeaders: bool, on: u32, data: seq<byte>, endStream: bool, n: nat)
    requires ToldAt(e, id, byHeaders) && id in e.streams && on in e.streams && n <= |data|
    ensures ToldAt(e.SendSome(on, data, endStream, n).0, id, byHeaders)
  {
    if n > 0 || data == [] {
      var isEnd := endStream && n == |data|;
      var f := DataFrame(on, isEnd, data[..n]);
      var s, c, o, i := e.streams[id], e.CreditOf(id), SendingOn(e, id), ReceivingOn(e, id);
      WrittenPush(e.written, c.written, id, f);
      var e' := e.SendSome(on, data, endStream, n).0;
      assert e'.written == e.written + [f] && e'.events == e.events;
      assert e'.CreditOf(id) == if on == id then c.(sent := c.sent + n) else c;
      if on == id {
        DataSentTold(s, c, o, i, byHeaders, n, isEnd);
      }
    }
  }

  lemma ReportedErrorTold(e: Endpoint, id: u32, byHeaders: bool, error: Option<FrameError>)
    requires ToldAt(e, id, byHeaders)
    ensures ToldAt(e.Reported(error), id, byHeaders)
  {
    if error.Some? {
      HappenedTold(e, id, byHeaders, Error(FrameFault(error.value)));
    }
  }

  lemma AnnouncedTold(e: Endpoint, id: u32, byHeaders: bool)
    requires ToldAt(e, id, byHeaders)
    ensures ToldAt(Announced(e), id, byHeaders)
  {
    WroteTold(e.(state := WaitingSettings), id, byHeaders, LOCAL_SETTINGS);
  }

  // ----- Runs of a client -----

  lemma ClientHeadersTold(e: Endpoint, id: u32, on: u32, endStream: bool, block: seq<byte>)
    requires e.cx.Valid() && ToldAt(e, id, false)
    ensures ToldAt(C.HandleHeaders(e, on, endStream, block), id, false)
  {
    var (dec', r) := BlockOf(e.cx, e.dec, DEFAULT_TABLE_SIZE, block);
    var e' := e.(dec := dec');
    if r.Ok? {
      HeadersTold(e', id, false, on, endStream, Headers(on, r.value, endStream));
    } else {
      HappenedTold(e', id, false, Error(HpackFault(r.error)));
    }
  }

  lemma ClientFrameTold(e: Endpoint, id: u32, f: Frame)
    requires e.cx.Valid() && ToldAt(e, id, false)
    ensures ToldAt(C.Handle(e, f), id, false)
  {
    if f.HeadersFrame? {
      ClientHeadersTold(e, id, f.streamId, f.endStream, f.block);
    } else if !f.PushPromiseFrame? {
      SharedTold(e, id, false, f);
    }
  }

  lemma {:induction false} ClientFramesTold(e: Endpoint, id: u32, frames: seq<Frame>)
    requires e.cx.Valid() && ToldAt(e, id, false)
    ensures ToldAt(C.HandleAll(e, frames), id, false)
    decreases |frames|
  {
    if frames != [] {
      ClientFrameTold(e, id, frames[0]);
      ClientFramesTold(C.Handle(e, frames[0]), id, frames[1..]);
    }
  }

  lemma RequestTold(e: Endpoint, id: u32, on: u32, headers: seq<HeaderField>, endStream: bool)
    requires |e.cx.huffman| == SYMBOLS && ToldAt(e, id, false)
    ensures ToldAt(e.OpenStream(on).WriteHeaders(on, headers, endStream), id, false)
  {
    OpenTold(e, id, false, on);
    var e' := e.OpenStream(on);
    var (table, block) := BlockBytes(e.cx, e.enc.table, e.enc.useHuffman, headers);
    WroteTold(e'.(enc := e.enc.(table := table)), id, false, HeadersFrame(on, endStream, true, None, block));
  }

  lemma ClientStepTold(c: C.Client, id: u32, a: C.Action)
    requires c.e.cx.Valid() && ToldAt(c.e, id, false)
    ensures ToldAt(C.Step(c, a).e, id, false)
  {
    match a
    case DoReady => AnnouncedTold(c.e, id, false);
    case DoFeed(data) =>
      var d := DecodeAll(DEFAULT_MAX_FRAME_SIZE, c.input + data);
      ClientFramesTold(c.e, id, d.frames);
      ReportedErrorTold(C.HandleAll(c.e, d.frames), id, false, d.error);
    case DoRequest(headers, endStream) => RequestTold(c.e, id, Mask31(c.nextStreamId), headers, endStream);
    case DoSend(on, data, endStream) => SendTold(c.e, id, false, on, data, endStream, c.e.maxFrame);
  }

  lemma {:induction false} ClientRunTold(c: C.Client, id: u32, actions: seq<C.Action>)
    requires c.e.cx.Valid() && ToldAt(c.e, id, false)
    ensures ToldAt(C.Run(c, actions).e, id, false)
    decreases |actions|
  {
    if actions != [] {
      ClientStepTold(c, id, actions[0]);
      ClientRunTold(C.Step(c, actions[0]), id, actions[1..]);
    }
  }

  // ----- Runs of a server -----

  lemma AcceptedTold(s: S.Core, id: u32, on: u32, endStream: bool, headers: BlockResult)
    requires ToldAt(s.e, id, true)
    ensures ToldAt(S.Accepted(s, on, endStream, headers).e, id, true)
  {
    match headers
    case Err(err) => HappenedTold(s.e, id, true, Error(HpackFault(err)));
    case Ok(h) =>
      OpenTold(s.e, id, true, on);
      HeadersTold(s.e.OpenStream(on), id, true, on, endStream, Request(on, h, endStream));
  }

  lemma ServerRequestTold(s: S.Core, id: u32, on: u32, endStream: bool, block: seq<byte>)
    requires s.e.cx.Valid() && ToldAt(s.e, id, true)
    ensures ToldAt(S.HandleRequest(s, on, endStream, block).e, id, true)
  {
    if on % 2 == 0 {
      HappenedTold(s.e, id, true, Error(EvenStreamId));
    } else if on <= s.lastClientStreamId {
      HappenedTold(s.e, id, true, Error(StreamIdNotGreater));
    } else {
      var (dec', r) := BlockOf(s.e.cx, s.e.dec, DEFAULT_TABLE_SIZE, block);
      AcceptedTold(S.Core(s.e.(dec := dec'), on), id, on, endStream, r);
    }
  }

  lemma ServerFrameTold(s: S.Core, id: u32, f: Frame)
    requires s.e.cx.Valid() && ToldAt(s.e, id, true)
    ensures ToldAt(S.Handle(s, f).e, id, true)
  {
    if f.HeadersFrame? {
      ServerRequestTold(s, id, f.streamId, f.endStream, f.block);
    } else if f.PushPromiseFrame? {
      HappenedTold(s.e, id, true, Error(UnexpectedPushPromise));
    } else {
      SharedTold(s.e, id, true, f);
    }
  }

  lemma {:induction false} ServerFramesTold(s: S.Core, id: u32, frames: seq<Frame>)
    requires s.e.cx.Valid() && ToldAt(s.e, id, true)
    ensures ToldAt(S.HandleAll(s, frames).e, id, true)
    decreases |frames|
  {
    if frames != [] {
      ServerFrameTold(s, id, frames[0]);
      ServerFramesTold(S.Handle(s, frames[0]), id, frames[1..]);
    }
  }

  lemma ProcessFramesTold(s: S.Server, id: u32)
    requires s.core.e.cx.Valid() && ToldAt(s.core.e, id, true)
    ensures ToldAt(S.ProcessFrames(s).core.e, id, true)
  {
    var d := DecodeAll(DEFAULT_MAX_FRAME_SIZE, s.input);
    ServerFramesTold(s.core, id, d.frames);
    ReportedErrorTold(S.HandleAll(s.core, d.frames).e, id, true, d.error);
  }

  lemma ProcessTold(s: S.Server, id: u32)
    requires s.core.e.cx.Valid() && ToldAt(s.core.e, id, true)
    ensures ToldAt(S.Process(s).core.e, id, true)
  {
    if s.gotPreface {
      ProcessFramesTold(s, id);
    } else if |s.input| < |PREFACE| {
    } else if s.input[..|PREFACE|] == PREFACE {
      AnnouncedTold(s.core.e, id, true);
      ProcessFramesTold(S.Server(s.core.(e := Announced(s.core.e)), true, s.input[|PREFACE|..]), id);
    } else {
      HappenedTold(s.core.e, id, true, Error(InvalidPreface));
    }
  }

  lemma ResponseTold(s: S.Server, id: u32, on: u32, headers: seq<HeaderField>, endStream: bool)
    requires s.core.e.cx.Valid() && ToldAt(s.core.e, id, true)
    ensures ToldAt(S.SendHeaders(s, on, headers, endStream).0.core.e, id, true)
  {
    var e := s.core.e;
    if id in e.streams && on in e.streams {
      var block := BlockBytes(e.cx, e.enc.table, e.enc.useHuffman, headers).1;
      var f := HeadersFrame(on, endStream, true, None, block);
      WrittenPush(e.written, e.CreditOf(id).written, id, f);
      if on == id && endStream {
        HeadersEndTold(e.streams[id], e.CreditOf(id), SendingOn(e, id), ReceivingOn(e, id));
      }
    }
  }

  lemma ResetTold(s: S.Server, id: u32, on: u32, code: u32)
    requires ToldAt(s.core.e, id, true)
    ensures ToldAt(S.ResetStream(s, on, code).core.e, id, true)
  {
    if id in s.core.e.streams {
      WrittenPush(s.core.e.written, s.core.e.CreditOf(id).written, id, RstStreamFrame(on, code));
    }
  }

  lemma GoAwayTold(s: S.Server, id: u32, code: u32, debug: seq<byte>)
    requires ToldAt(s.core.e, id, true)
    ensures ToldAt(S.SendGoAway(s, code, debug).core.e, id, true)
  {
    WroteTold(s.core.e, id, true, GoAwayFrame(Mask31(s.core.lastClientStreamId), code, debug));
  }

  lemma ServerStepTold(s: S.Server, id: u32, a: S.Action)
    requires s.core.e.cx.Valid() && ToldAt(s.core.e, id, true)
    ensures ToldAt(S.Step(s, a).core.e, id, true)
  {
    match a
    case DoReceive(_) =>
    case DoProcess => ProcessTold(s, id);
    case DoHeaders(on, headers, endStream) => ResponseTold(s, id, on, headers, endStream);
    case DoSend(on, data, endStream) => SendTold(s.core.e, id, true, on, data, endStream, |data|);
    case DoGoAway(code, debug) => GoAwayTold(s, id, code, debug);
    case DoReset(on, code) => ResetTold(s, id, on, code);
    case DoRemove(on) =>
  }

  lemma {:induction false} ServerRunTold(s: S.Server, id: u32, actions: seq<S.Action>)
    requires s.core.e.cx.Valid() && ToldAt(s.core.e, id, true)
    ensures ToldAt(S.Run(s, actions).core.e, id, true)
    decreases |actions|
  {
    if actions != [] {
      ServerStepTold(s, id, actions[0]);
      ServerRunTold(S.Step(s, actions[0]), id, actions[1..]);
    }
  }

  // ----- What the states mean -----

  /** In every reachable state of a client, each stream is what the logs say of it. */
  lemma ClientStreamsTold(cx: Codec, actions: seq<C.Action>, id: u32)
    requires cx.Valid()
    ensures ToldAt(C.Run(C.NewClient(cx), actions).e, id, false)
  {
    ClientRunTold(C.NewClient(cx), id, actions);
  }

  lemma ServerStreamsTold(cx: Codec, actions: seq<S.Action>, id: u32)
    requires cx.Valid()
    ensures ToldAt(S.Run(S.NewServer(cx), actions).core.e, id, true)
  {
    ServerRunTold(S.NewServer(cx), id, actions);
  }

  /** The state says that the endpoint ended the stream exactly when it did. */
  predicate EndAgrees(e: Endpoint, id: u32)
    requires id in e.streams
  {
    var o := SendingOn(e, id);
    e.streams[id].state in {HalfClosedLocal, StreamState.Closed} <==> o.headersEnd || o.dataEnd
  }

  predicate WasReset(e: Endpoint, id: u32) {
    SendingOn(e, id).reset || ReceivingOn(e, id).reset
  }

  lemma ServerEndAgrees(cx: Codec, actions: seq<S.Action>, id: u32)
    requires cx.Valid() && id in S.Run(S.NewServer(cx), actions).core.e.streams
    ensures var e := S.Run(S.NewServer(cx), actions).core.e;
            !WasReset(e, id) ==> EndAgrees(e, id)
  {
    ServerStreamsTold(cx, actions, id);
  }

  /**
   On a client it says so exactly when a request that was started with the end of the stream was
   also ended by data; so, as long as no data ended it, exactly when it was not started with the end.
   */
  lemma ClientEndAgrees(cx: Codec, actions: seq<C.Action>, id: u32)
    requires cx.Valid() && id in C.Run(C.NewClient(cx), actions).e.streams
    ensures var e := C.Run(C.NewClient(cx), actions).e;
            var o := SendingOn(e, id);
            !WasReset(e, id) ==>
              && (EndAgrees(e, id) <==> (o.headersEnd ==> o.dataEnd))
              && (!o.dataEnd ==> (EndAgrees(e, id) <==> !o.headersEnd))
  {
    ClientStreamsTold(cx, actions, id);
  }

  /** A server that asks whether it may send would never send after the end; and so for receiving. */
  lemma ServerGuards(cx: Codec, actions: seq<S.Action>, id: u32)
    requires cx.Valid() && id in S.Run(S.NewServer(cx), actions).core.e.streams
    ensures var e := S.Run(S.NewServer(cx), actions).core.e;
            var s, o, i := e.streams[id].state, SendingOn(e, id), ReceivingOn(e, id);
            && (s.CanSend() <==> !o.headersEnd && !o.dataEnd && !WasReset(e, id))
            && (s.CanReceive() <==> !i.end && !WasReset(e, id))
  {
    ServerStreamsTold(cx, actions, id);
  }

  /** A client that asks would: only the end of a request's headers is missed. */
  lemma ClientGuards(cx: Codec, actions: seq<C.Action>, id: u32)
    requires cx.Valid() && id in C.Run(C.NewClient(cx), actions).e.streams
    ensures var e := C.Run(C.NewClient(cx), actions).e;
            var s, o, i := e.streams[id].state, SendingOn(e, id), ReceivingOn(e, id);
            && (s.CanSend() <==> !o.dataEnd && !WasReset(e, id))
            && (s.CanReceive() <==> !i.end && !WasReset(e, id))
  {
    ClientStreamsTold(cx, actions, id);
  }

  // ----- Nobody asks -----

  /** Sending does the same whatever the state of the stream is. */
  lemma SendIgnoresState(e: Endpoint, id: u32, state: StreamState, data: seq<byte>, endStream: bool, most: nat)
    requires id in e.streams
    ensures var e' := e.(streams := e.streams[id := e.streams[id].(state := state)]);
            var before, after := e.SendData(id, data, endStream, most), e'.SendData(id, data, endStream, most);
            before.1 == after.1 && before.0.written == after.0.written
  {
  }

  /** Something is sent exactly if there is such a stream and, unless there is nothing to send, no limit is zero. */
  lemma SentExactly(e: Endpoint, id: u32, data: seq<byte>, endStream: bool, most: nat)
    ensures e.SendData(id, data, endStream, most).1.Sent? <==>
              id in e.streams && (data == [] || (e.flow.window != 0 && e.streams[id].sendWindow != 0 && most != 0))
  {
  }

  /** A request that ends its stream leaves it open, and more can be sent on it. */
  lemma RequestStaysOpen(c: C.Client, headers: seq<HeaderField>, x: byte)
    requires |c.e.cx.huffman| == SYMBOLS && c.e.state == ConnectionState.Open
    ensures var (c', id) := C.StartRequest(c, headers, true);
            && id.Some? && id.value in c'.e.streams && c'.e.streams[id.value].state == StreamState.Open
            && SendingOn(c'.e, id.value).headersEnd && !EndAgrees(c'.e, id.value)
            && (C.SendData(c', id.value, [x], false).1 == Sent(1) <==>
                  c.e.flow.window != 0 && c.e.remote.initialWindowSize != 0 && c.e.maxFrame != 0)
  {
    var (c', id) := C.StartRequest(c, headers, true);
    var f := c'.e.written[|c.e.written|];
    WrittenPush(c.e.written, |c.e.written|, id.value, f);
    SentExactly(c'.e, id.value, [x], false, c'.e.maxFrame);
  }

  // ----- States only advance -----

  predicate Follows(s: StreamState, s': StreamState) {
    s' == s || s == StreamState.Open || s' == StreamState.Closed
  }

  /** The stream was not opened in between, and its state has not gone back. */
  predicate AdvancesAt(e: Endpoint, e': Endpoint, id: u32) {
    id in e'.streams ==> id in e.streams && Follows(e.streams[id].state, e'.streams[id].state)
  }

  lemma {:induction false} SettingsAdvance(e: Endpoint, id: u32, settings: seq<Setting>)
    requires |e.cx.huffman| == SYMBOLS
    ensures AdvancesAt(e, e.ApplySettings(settings), id)
    decreases |settings|
  {
    if settings != [] {
      assert AdvancesAt(e, e.ApplySetting(settings[0]), id);
      SettingsAdvance(e.ApplySetting(settings[0]), id, settings[1..]);
    }
  }

  lemma SharedAdvances(e: Endpoint, id: u32, f: Frame)
    requires |e.cx.huffman| == SYMBOLS && !f.HeadersFrame? && !f.PushPromiseFrame?
    ensures AdvancesAt(e, e.HandleShared(f), id)
  {
    if f.SettingsFrame? {
      SettingsAdvance(e, id, f.settings);
    }
  }

  lemma {:induction false} ClientFramesAdvance(e: Endpoint, id: u32, frames: seq<Frame>)
    requires e.cx.Valid()
    ensures AdvancesAt(e, C.HandleAll(e, frames), id)
    decreases |frames|
  {
    if frames != [] {
      var f := frames[0];
      if !f.HeadersFrame? && !f.PushPromiseFrame? {
        SharedAdvances(e, id, f);
      }
      assert AdvancesAt(e, C.Handle(e, f), id);
      ClientFramesAdvance(C.Handle(e, f), id, frames[1..]);
    }
  }

  /** Does this step open a stream with this identifier? */
  predicate Opens(c: C.Client, a: C.Action, id: u32) {
    a.DoRequest? && c.e.state == ConnectionState.Open && Mask31(c.nextStreamId) == id
  }

  lemma ClientStepAdvances(c: C.Client, id: u32, a: C.Action)
    requires c.e.cx.Valid()
    ensures !Opens(c, a, id) ==> AdvancesAt(c.e, C.Step(c, a).e, id)
    ensures id in c.e.streams && c.e.streams[id].state == StreamState.Closed ==>
              (AdvancesAt(c.e, C.Step(c, a).e, id) <==> !Opens(c, a, id))
  {
    if a.DoFeed? {
      ClientFramesAdvance(c.e, id, DecodeAll(DEFAULT_MAX_FRAME_SIZE, c.input + a.data).frames);
    }
  }

  /** Until the identifiers run out, a client's stream never goes back to an earlier state. */
  lemma {:induction false} ClientAdvances(c: C.Client, id: u32, actions: seq<C.Action>)
    requires c.e.cx.Valid() && id < c.nextStreamId && c.nextStreamId + 2 * |actions| <= 0x8000_0001
    ensures AdvancesAt(c.e, C.Run(c, actions).e, id)
    decreases |actions|
  {
    if actions != [] {
      var c' := C.Step(c, actions[0]);
      ClientStepAdvances(c, id, actions[0]);
      ClientAdvances(c', id, actions[1..]);
    }
  }

  lemma ServerRequestAdvances(s: S.Core, id: u32, on: u32, endStream: bool, block: seq<byte>)
    requires s.e.cx.Valid() && id <= s.lastClientStreamId
    ensures AdvancesAt(s.e, S.HandleRequest(s, on, endStream, block).e, id)
    ensures s.lastClientStreamId <= S.HandleRequest(s, on, endStream, block).lastClientStreamId
  {
  }

  lemma {:induction false} ServerFramesAdvance(s: S.Core, id: u32, frames: seq<Frame>)
    requires s.e.cx.Valid() && id <= s.lastClientStreamId
    ensures AdvancesAt(s.e, S.HandleAll(s, frames).e, id)
    ensures s.lastClientStreamId <= S.HandleAll(s, frames).lastClientStreamId
    decreases |frames|
  {
    if frames != [] {
      var f := frames[0];
      if f.HeadersFrame? {
        ServerRequestAdvances(s, id, f.streamId, f.endStream, f.block);
      } else if !f.PushPromiseFrame? {
        SharedAdvances(s.e, id, f);
      }
      assert AdvancesAt(s.e, S.Handle(s, f).e, id);
      ServerFramesAdvance(S.Handle(s, f), id, frames[1..]);
    }
  }

  lemma ProcessAdvances(s: S.Server, id: u32)
    requires s.core.e.cx.Valid() && id <= s.core.lastClientStreamId
    ensures AdvancesAt(s.core.e, S.Process(s).core.e, id)
    ensures s.core.lastClientStreamId <= S.Process(s).core.lastClientStreamId
  {
    if s.gotPreface {
      ServerFramesAdvance(s.core, id, DecodeAll(DEFAULT_MAX_FRAME_SIZE, s.input).frames);
    } else if |s.input| >= |PREFACE| && s.input[..|PREFACE|] == PREFACE {
      var core := s.core.(e := Announced(s.core.e));
      ServerFramesAdvance(core, id, DecodeAll(DEFAULT_MAX_FRAME_SIZE, s.input[|PREFACE|..]).frames);
    }
  }

  lemma ServerStepAdvances(s: S.Server, id: u32, a: S.Action)
    requires s.core.e.cx.Valid() && id <= s.core.lastClientStreamId
    ensures AdvancesAt(s.core.e, S.Step(s, a).core.e, id)
    ensures s.core.lastClientStreamId <= S.Step(s, a).core.lastClientStreamId
  {
    if a.DoProcess? {
      ProcessAdvances(s, id);
    }
  }

  /** A server's stream never goes back to an earlier state: closed is for good, and so is removed. */
  lemma {:induction false} ServerAdvances(s: S.Server, id: u32, actions: seq<S.Action>)
    requires s.core.e.cx.Valid() && id <= s.core.lastClientStreamId
    ensures AdvancesAt(s.core.e, S.Run(s, actions).core.e, id)
    decreases |actions|
  {
    if actions != [] {
      ServerStepAdvances(s, id, actions[0]);
      ServerAdvances(S.Step(s, actions[0]), id, actions[1..]);
    }
  }
}
