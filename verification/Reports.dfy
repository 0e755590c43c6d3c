/**
 What a connection makes of the frames it handles, over whole runs: which events they are reported
 as, which frames they are answered with, and what is left of the settings in them.
 */
module Reports {
  import opened Bytes
  import opened PrefixCodes
  import opened Tables
  import opened HpackCoding
  import opened HpackSession
  import opened Frames
  import opened FrameCoding
  import opened FrameStreams
  import opened Endpoints
  import opened Delivery
  import opened Phases
  import C = ClientProtocol
  import S = ServerProtocol

  // ----- Events -----

  /** Is this event decided by the received bytes alone, whatever the state of the connection? */
  predicate IsVerbatim(event: Event) {
    match event
    case Data(_, _, _) => true
    case StreamReset(_, _) => true
    case GoAway(_, _) => true
    case Error(UnexpectedContinuation) => true
    case Error(UnexpectedPushPromise) => true
    case Error(FrameFault(_)) => true
    case Error(InvalidPreface) => true
    case _ => false
  }

  function Verbatim(events: seq<Event>): seq<Event> {
    if events == [] then []
    else
      var earlier, last := Verbatim(events[..|events| - 1]), events[|events| - 1];
      if IsVerbatim(last) then earlier + [last] else earlier
  }

  lemma VerbatimPush(events: seq<Event>, event: Event)
    ensures Verbatim(events + [event]) == if IsVerbatim(event) then Verbatim(events) + [event] else Verbatim(events)
  {
    assert (events + [event])[..|events|] == events;
  }

  /** How a frame is reported: GOAWAY and RST_STREAM with the numbers that they carry. */
  function Told(way: Way, f: Frame): seq<Event> {
    match f
    case DataFrame(id, endStream, data) => [Data(id, data, endStream)]
    case RstStreamFrame(id, code) => [StreamReset(id, code)]
    case GoAwayFrame(last, code, _) => [GoAway(last, code)]
    case ContinuationFrame(_, _, _) => [Error(UnexpectedContinuation)]
    case PushPromiseFrame(_, _, _, _) => if way.Up? then [Error(UnexpectedPushPromise)] else []
    case _ => []
  }

  function ToldAll(way: Way, frames: seq<Frame>): seq<Event> {
    if frames == [] then [] else Told(way, frames[0]) + ToldAll(way, frames[1..])
  }

  /** A frame that could not be decoded ends what is handled at a time. */
  function Broken(error: Option<FrameError>): seq<Event> {
    if error.Some? then [Error(FrameFault(error.value))] else []
  }

  // ----- Answers -----

  predicate IsAnswer(f: Frame) {
    (f.SettingsFrame? || f.PingFrame?) && f.ack
  }

  function Answers(frames: seq<Frame>): seq<Frame> {
    if frames == [] then []
    else
      var earlier, last := Answers(frames[..|frames| - 1]), frames[|frames| - 1];
      if IsAnswer(last) then earlier + [last] else earlier
  }

  lemma AnswersPush(frames: seq<Frame>, f: Frame)
    ensures Answers(frames + [f]) == if IsAnswer(f) then Answers(frames) + [f] else Answers(frames)
  {
    assert (frames + [f])[..|frames|] == frames;
  }

  /** A PING is answered with its own payload, and settings with an acknowledgement that is empty. */
  function Answer(f: Frame): seq<Frame> {
    match f
    case PingFrame(false, data) => [PingFrame(true, data)]
    case SettingsFrame(false, _) => [SettingsFrame(true, [])]
    case _ => []
  }

  function AnswerAll(frames: seq<Frame>): seq<Frame> {
    if frames == [] then [] else Answer(frames[0]) + AnswerAll(frames[1..])
  }

  // ----- Settings -----

  /** All settings in these frames, in order; acknowledgements carry none. */
  function SettingsIn(frames: seq<Frame>): seq<Setting> {
    if frames == [] then []
    else
      var rest := SettingsIn(frames[1..]);
      if frames[0].SettingsFrame? && !frames[0].ack then frames[0].settings + rest else rest
  }

  /** The last value that is given to a setting, or else the one before. */
  function Latest(settings: seq<Setting>, id: SettingId, before: nat): nat {
    if settings == [] then before
    else
      var last := settings[|settings| - 1];
      if last.id == id then last.value else Latest(settings[..|settings| - 1], id, before)
  }

  lemma {:induction false} LatestAppend(a: seq<Setting>, b: seq<Setting>, id: SettingId, before: nat)
    ensures Latest(a + b, id, before) == Latest(b, id, Latest(a, id, before))
    decreases |b|
  {
    if b == [] {
      assert a + b == a;
    } else {
      assert (a + b)[..|a + b| - 1] == a + b[..|b| - 1];
      LatestAppend(a, b[..|b| - 1], id, before);
    }
  }

  /** Every setting that is kept has the last value received, and the encoder's table the last size. */
  predicate Kept(e: Endpoint, settings: seq<Setting>, e': Endpoint) {
    && e'.remote.maxConcurrentStreams == Latest(settings, MaxConcurrentStreams, e.remote.maxConcurrentStreams)
    && e'.remote.initialWindowSize == Latest(settings, InitialWindowSize, e.remote.initialWindowSize)
    && e'.remote.maxFrameSize == Latest(settings, MaxFrameSize, e.remote.maxFrameSize)
    && e'.remote.maxHeaderListSize == Latest(settings, MaxHeaderListSize, e.remote.maxHeaderListSize)
    && e'.maxFrame == Latest(settings, MaxFrameSize, e.maxFrame)
    && e'.enc.table.max == Latest(settings, HeaderTableSize, e.enc.table.max)
    && e'.enc.useHuffman == e.enc.useHuffman
  }

  lemma KeptTransitive(e: Endpoint, a: seq<Setting>, e': Endpoint, b: seq<Setting>, e'': Endpoint)
    requires Kept(e, a, e') && Kept(e', b, e'')
    ensures Kept(e, a + b, e'')
  {
    LatestAppend(a, b, MaxConcurrentStreams, e.remote.maxConcurrentStreams);
    LatestAppend(a, b, InitialWindowSize, e.remote.initialWindowSize);
    LatestAppend(a, b, MaxFrameSize, e.remote.maxFrameSize);
    LatestAppend(a, b, MaxHeaderListSize, e.remote.maxHeaderListSize);
    LatestAppend(a, b, MaxFrameSize, e.maxFrame);
    LatestAppend(a, b, HeaderTableSize, e.enc.table.max);
  }

  lemma OneSetting(s: Setting, id: SettingId, before: nat)
    ensures Latest([s], id, before) == if s.id == id then s.value else before
  {
    assert [s][..0] == [];
  }

  lemma OneKept(e: Endpoint, s: Setting)
    requires |e.cx.huffman| == SYMBOLS
    ensures Kept(e, [s], e.ApplySetting(s))
  {
    OneSetting(s, MaxConcurrentStreams, e.remote.maxConcurrentStreams);
    OneSetting(s, InitialWindowSize, e.remote.initialWindowSize);
    OneSetting(s, MaxFrameSize, e.remote.maxFrameSize);
    OneSetting(s, MaxHeaderListSize, e.remote.maxHeaderListSize);
    OneSetting(s, MaxFrameSize, e.maxFrame);
    OneSetting(s, HeaderTableSize, e.enc.table.max);
  }

  lemma {:induction false} SettingsKept(e: Endpoint, settings: seq<Setting>)
    requires |e.cx.huffman| == SYMBOLS
    ensures Kept(e, settings, e.ApplySettings(settings))
    ensures e.ApplySettings(settings).events == e.events && e.ApplySettings(settings).written == e.written
    decreases |settings|
  {
    if settings != [] {
      var e', rest := e.ApplySetting(settings[0]), settings[1..];
      OneKept(e, settings[0]);
      SettingsKept(e', rest);
      KeptTransitive(e, [settings[0]], e', rest, e'.ApplySettings(rest));
      assert settings == [settings[0]] + rest;
    }
  }

  // ----- One step after the other -----

  /** Handling `frames`, from `e` to `e'`, was reported as `told`, answered, and its settings were kept. */
  ghost predicate Follows(e: Endpoint, told: seq<Event>, frames: seq<Frame>, e': Endpoint) {
    && Verbatim(e'.events) == Verbatim(e.events) + told
    && Answers(e'.written) == Answers(e.written) + AnswerAll(frames)
    && Kept(e, SettingsIn(frames), e')
  }

  lemma {:induction false} AllAppend(way: Way, a: seq<Frame>, b: seq<Frame>)
    ensures ToldAll(way, a + b) == ToldAll(way, a) + ToldAll(way, b)
    ensures AnswerAll(a + b) == AnswerAll(a) + AnswerAll(b)
    ensures SettingsIn(a + b) == SettingsIn(a) + SettingsIn(b)
    decreases |a|
  {
    if a == [] {
      NothingFirst(way, b);
    } else {
      AllAppend(way, a[1..], b);
      assert (a + b)[1..] == a[1..] + b;
      AppendAssociates(Told(way, a[0]), ToldAll(way, a[1..]), ToldAll(way, b));
      AppendAssociates(Answer(a[0]), AnswerAll(a[1..]), AnswerAll(b));
      if a[0].SettingsFrame? && !a[0].ack {
        AppendAssociates(a[0].settings, SettingsIn(a[1..]), SettingsIn(b));
      }
    }
  }

  lemma NothingFirst(way: Way, b: seq<Frame>)
    ensures [] + b == b && [] + ToldAll(way, b) == ToldAll(way, b)
    ensures [] + AnswerAll(b) == AnswerAll(b) && [] + SettingsIn(b) == SettingsIn(b)
  {
  }

  lemma FollowsTransitive(e: Endpoint, told: seq<Event>, frames: seq<Frame>, e': Endpoint, more: seq<Event>,
                          rest: seq<Frame>, e'': Endpoint)
    requires Follows(e, told, frames, e') && Follows(e', more, rest, e'')
    ensures Follows(e, told + more, frames + rest, e'')
  {
    AllAppend(Up, frames, rest);
    AppendAssociates(Verbatim(e.events), told, more);
    AppendAssociates(Answers(e.written), AnswerAll(frames), AnswerAll(rest));
    KeptTransitive(e, SettingsIn(frames), e', SettingsIn(rest), e'');
  }

  lemma NothingMore<T>(s: seq<T>)
    ensures s + [] == s
  {
  }

  /** Nothing was handled: at most events and frames that do not count are added. */
  lemma Quiet(e: Endpoint, e': Endpoint)
    requires Verbatim(e'.events) == Verbatim(e.events) && Answers(e'.written) == Answers(e.written) && Kept(e, [], e')
    ensures Follows(e, [], [], e')
  {
    NothingMore(Verbatim(e.events));
    NothingMore(Answers(e.written));
  }

  // ----- One frame -----

  lemma OneFrame(way: Way, f: Frame)
    ensures ToldAll(way, [f]) == Told(way, f) && AnswerAll([f]) == Answer(f)
    ensures SettingsIn([f]) == if f.SettingsFrame? && !f.ack then f.settings else []
  {
    assert [f][1..] == [];
    NothingMore(Told(way, f));
    NothingMore(Answer(f));
    if f.SettingsFrame? {
      NothingMore(f.settings);
    }
  }

  lemma SettingsHandled(way: Way, e: Endpoint, f: Frame)
    requires |e.cx.huffman| == SYMBOLS && f.SettingsFrame?
    ensures Follows(e, Told(way, f), [f], e.HandleSettings(f.ack, f.settings))
  {
    OneFrame(way, f);
    SettingsKept(e, f.settings);
    NothingMore(Verbatim(e.events));
    NothingMore(Answers(e.written));
    AnswersPush(e.written, SettingsFrame(true, []));
    VerbatimPush(e.events, Ready);
  }

  /** What any other frame does: at most one event, at most one frame that is written. */
  lemma Handled(way: Way, e: Endpoint, f: Frame, e': Endpoint, event: Event, out: Frame)
    requires !f.SettingsFrame? && Kept(e, [], e')
    requires if IsVerbatim(event) then Told(way, f) == [event] && e'.events == e.events + [event]
             else Told(way, f) == [] && (e'.events == e.events || e'.events == e.events + [event])
    requires if IsAnswer(out) then Answer(f) == [out] && e'.written == e.written + [out]
             else Answer(f) == [] && (e'.written == e.written || e'.written == e.written + [out])
    ensures Follows(e, Told(way, f), [f], e')
  {
    OneFrame(way, f);
    VerbatimPush(e.events, event);
    AnswersPush(e.written, out);
    NothingMore(Verbatim(e.events));
    NothingMore(Answers(e.written));
  }

  /** The event and the frame that handling a frame adds, or ones that do not count. */
  function Added(e: Endpoint, e': Endpoint): (Event, Frame) {
    (if |e'.events| > |e.events| then e'.events[|e.events|] else Ready,
     if |e'.written| > |e.written| then e'.written[|e.written|] else SettingsFrame(false, []))
  }

  lemma SharedFollows(way: Way, e: Endpoint, f: Frame)
    requires |e.cx.huffman| == SYMBOLS && !f.HeadersFrame? && !f.PushPromiseFrame?
    ensures Follows(e, Told(way, f), [f], e.HandleShared(f))
  {
    if f.SettingsFrame? {
      SettingsHandled(way, e, f);
    } else {
      var e' := e.HandleShared(f);
      var (event, out) := Added(e, e');
      Handled(way, e, f, e', event, out);
    }
  }

  lemma ClientFrameFollows(e: Endpoint, f: Frame)
    requires e.cx.Valid()
    ensures Follows(e, Told(Down, f), [f], C.Handle(e, f))
  {
    if f.HeadersFrame? || f.PushPromiseFrame? {
      var e' := C.Handle(e, f);
      var (event, out) := Added(e, e');
      Handled(Down, e, f, e', event, out);
    } else {
      SharedFollows(Down, e, f);
    }
  }

  lemma {:induction false} ClientFramesFollow(e: Endpoint, frames: seq<Frame>)
    requires e.cx.Valid()
    ensures Follows(e, ToldAll(Down, frames), frames, C.HandleAll(e, frames))
    decreases |frames|
  {
    if frames == [] {
      Quiet(e, e);
    } else {
      var e', rest := C.Handle(e, frames[0]), frames[1..];
      ClientFrameFollows(e, frames[0]);
      ClientFramesFollow(e', rest);
      FollowsTransitive(e, Told(Down, frames[0]), [frames[0]], e', ToldAll(Down, rest), rest, C.HandleAll(e', rest));
      assert frames == [frames[0]] + rest;
    }
  }

  lemma ServerFrameFollows(s: S.Core, f: Frame)
    requires s.e.cx.Valid()
    ensures Follows(s.e, Told(Up, f), [f], S.Handle(s, f).e)
  {
    if f.HeadersFrame? {
      RequestFollows(s, f);
    } else if f.PushPromiseFrame? {
      Handled(Up, s.e, f, S.Handle(s, f).e, Error(UnexpectedPushPromise), f);
    } else {
      SharedFollows(Up, s.e, f);
    }
  }

  lemma RequestFollows(s: S.Core, f: Frame)
    requires s.e.cx.Valid() && f.HeadersFrame?
    ensures Follows(s.e, [], [f], S.HandleRequest(s, f.streamId, f.endStream, f.block).e)
  {
    var e' := S.HandleRequest(s, f.streamId, f.endStream, f.block).e;
    Handled(Up, s.e, f, e', e'.events[|s.e.events|], f);
  }

  lemma {:induction false} ServerFramesFollow(s: S.Core, frames: seq<Frame>)
    requires s.e.cx.Valid()
    ensures Follows(s.e, ToldAll(Up, frames), frames, S.HandleAll(s, frames).e)
    decreases |frames|
  {
    if frames == [] {
      Quiet(s.e, s.e);
    } else {
      var s', rest := S.Handle(s, frames[0]), frames[1..];
      ServerFrameFollows(s, frames[0]);
      ServerFramesFollow(s', rest);
      FollowsTransitive(s.e, Told(Up, frames[0]), [frames[0]], s'.e, ToldAll(Up, rest), rest, S.HandleAll(s', rest).e);
      assert frames == [frames[0]] + rest;
    }
  }

  /** The error that stops the decoder is reported last. */
  lemma BatchFollows(e: Endpoint, told: seq<Event>, frames: seq<Frame>, e': Endpoint, error: Option<FrameError>)
    requires Follows(e, told, frames, e')
    ensures Follows(e, told + Broken(error), frames, e'.Reported(error))
  {
    AppendAssociates(Verbatim(e.events), told, Broken(error));
    if error.Some? {
      VerbatimPush(e'.events, Error(FrameFault(error.value)));
    } else {
      NothingMore(told);
    }
  }

  // ----- A client -----

  /** The bytes that a client is fed, decoded. */
  function FedBatch(c: C.Client, a: C.Action): Batch {
    if a.DoFeed? then DecodeAll(DEFAULT_MAX_FRAME_SIZE, c.input + a.data) else Batch([], [], None)
  }

  /** The frames that a client handles over a run, and how they are reported. */
  ghost function ClientHandled(c: C.Client, actions: seq<C.Action>): seq<Frame>
    requires c.e.cx.Valid()
    decreases |actions|
  {
    if actions == [] then []
    else FedBatch(c, actions[0]).frames + ClientHandled(C.Step(c, actions[0]), actions[1..])
  }

  ghost function ClientTold(c: C.Client, actions: seq<C.Action>): seq<Event>
    requires c.e.cx.Valid()
    decreases |actions|
  {
    if actions == [] then []
    else
      var d := FedBatch(c, actions[0]);
      (ToldAll(Down, d.frames) + Broken(d.error)) + ClientTold(C.Step(c, actions[0]), actions[1..])
  }

  lemma WritingFollows(e: Endpoint, e': Endpoint, out: Frame)
    requires e'.remote == e.remote && e'.maxFrame == e.maxFrame && e'.enc.table.max == e.enc.table.max
    requires e'.enc.useHuffman == e.enc.useHuffman
    requires e'.events == e.events && !IsAnswer(out)
    requires e'.written == e.written || e'.written == e.written + [out]
    ensures Follows(e, [], [], e')
  {
    AnswersPush(e.written, out);
    Quiet(e, e');
  }

  /** Writing a block leaves the size of the encoder's table alone. */
  lemma {:induction false} BlockKeepsSize(cx: Codec, t: TableView, useHuffman: bool, headers: seq<HeaderField>)
    requires |cx.huffman| == SYMBOLS
    ensures BlockBytes(cx, t, useHuffman, headers).0.max == t.max
    decreases |headers|
  {
    if headers != [] {
      BlockKeepsSize(cx, FieldBytes(cx, t, useHuffman, headers[0]).0, useHuffman, headers[1..]);
    }
  }

  lemma HeadersFollow(e: Endpoint, id: u32, headers: seq<HeaderField>, endStream: bool)
    requires |e.cx.huffman| == SYMBOLS
    ensures Follows(e, [], [], e.WriteHeaders(id, headers, endStream))
  {
    BlockKeepsSize(e.cx, e.enc.table, e.enc.useHuffman, headers);
    var e' := e.WriteHeaders(id, headers, endStream);
    WritingFollows(e, e', e'.written[|e.written|]);
  }

  lemma SendFollows(e: Endpoint, id: u32, data: seq<byte>, endStream: bool, most: nat)
    ensures Follows(e, [], [], e.SendData(id, data, endStream, most).0)
  {
    var e' := e.SendData(id, data, endStream, most).0;
    WritingFollows(e, e', Added(e, e').1);
  }

  lemma ClientStepFollows(c: C.Client, a: C.Action)
    requires c.e.cx.Valid()
    ensures var d := FedBatch(c, a);
            Follows(c.e, ToldAll(Down, d.frames) + Broken(d.error), d.frames, C.Step(c, a).e)
  {
    match a
    case DoReady =>
      NothingMore<Event>([]);
      WritingFollows(c.e, C.Step(c, a).e, LOCAL_SETTINGS);
    case DoFeed(data) =>
      var d := FedBatch(c, a);
      ClientFramesFollow(c.e, d.frames);
      BatchFollows(c.e, ToldAll(Down, d.frames), d.frames, C.HandleAll(c.e, d.frames), d.error);
    case DoRequest(headers, endStream) =>
      NothingMore<Event>([]);
      if c.e.state == ConnectionState.Open {
        var id := Mask31(c.nextStreamId);
        HeadersFollow(c.e.OpenStream(id), id, headers, endStream);
      } else {
        Quiet(c.e, c.e);
      }
    case DoSend(id, data, endStream) =>
      NothingMore<Event>([]);
      SendFollows(c.e, id, data, endStream, c.e.maxFrame);
  }

  lemma {:induction false} ClientRunFollows(c: C.Client, actions: seq<C.Action>)
    requires c.e.cx.Valid()
    ensures Follows(c.e, ClientTold(c, actions), ClientHandled(c, actions), C.Run(c, actions).e)
    decreases |actions|
  {
    if actions == [] {
      Quiet(c.e, c.e);
    } else {
      var c', d, rest := C.Step(c, actions[0]), FedBatch(c, actions[0]), actions[1..];
      ClientStepFollows(c, actions[0]);
      ClientRunFollows(c', rest);
      FollowsTransitive(c.e, ToldAll(Down, d.frames) + Broken(d.error), d.frames, c'.e, ClientTold(c', rest),
                        ClientHandled(c', rest), C.Run(c', rest).e);
    }
  }

  // ----- A server -----

  /** The bytes that a look at the buffer makes a server decode. */
  function DueBatch(s: S.Server, a: S.Action): Batch {
    if !a.DoProcess? then Batch([], [], None)
    else if s.gotPreface then DecodeAll(DEFAULT_MAX_FRAME_SIZE, s.input)
    else if Admits(s) then DecodeAll(DEFAULT_MAX_FRAME_SIZE, s.input[|PREFACE|..])
    else Batch([], [], None)
  }

  /** A preface that is wrong is reported every time the server looks. */
  function Refused(s: S.Server, a: S.Action): seq<Event> {
    if a.DoProcess? && !s.gotPreface && |s.input| >= 24 && !Admits(s) then [Error(InvalidPreface)] else []
  }

  ghost function ServerHandled(s: S.Server, actions: seq<S.Action>): seq<Frame>
    requires s.core.e.cx.Valid()
    decreases |actions|
  {
    if actions == [] then []
    else DueBatch(s, actions[0]).frames + ServerHandled(S.Step(s, actions[0]), actions[1..])
  }

  function ToldBy(s: S.Server, a: S.Action): seq<Event> {
    var d := DueBatch(s, a);
    if Refused(s, a) != [] then Refused(s, a) else ToldAll(Up, d.frames) + Broken(d.error)
  }

  ghost function ServerTold(s: S.Server, actions: seq<S.Action>): seq<Event>
    requires s.core.e.cx.Valid()
    decreases |actions|
  {
    if actions == [] then []
    else ToldBy(s, actions[0]) + ServerTold(S.Step(s, actions[0]), actions[1..])
  }

  lemma ProcessFramesFollow(s: S.Server)
    requires s.core.e.cx.Valid()
    ensures var d := DecodeAll(DEFAULT_MAX_FRAME_SIZE, s.input);
            Follows(s.core.e, ToldAll(Up, d.frames) + Broken(d.error), d.frames, S.ProcessFrames(s).core.e)
  {
    var d := DecodeAll(DEFAULT_MAX_FRAME_SIZE, s.input);
    ServerFramesFollow(s.core, d.frames);
    BatchFollows(s.core.e, ToldAll(Up, d.frames), d.frames, S.HandleAll(s.core, d.frames).e, d.error);
  }

  lemma ProcessFollows(s: S.Server)
    requires s.core.e.cx.Valid()
    ensures Follows(s.core.e, ToldBy(s, S.DoProcess), DueBatch(s, S.DoProcess).frames, S.Process(s).core.e)
  {
    var e := s.core.e;
    PrefaceLength();
    if s.gotPreface {
      ProcessFramesFollow(s);
    } else if Admits(s) {
      var s' := S.Server(s.core.(e := Announced(e)), true, s.input[|PREFACE|..]);
      var d := DueBatch(s, S.DoProcess);
      WritingFollows(e, Announced(e), LOCAL_SETTINGS);
      ProcessFramesFollow(s');
      FollowsTransitive(e, [], [], s'.core.e, ToldAll(Up, d.frames) + Broken(d.error), d.frames,
                        S.ProcessFrames(s').core.e);
      assert [] + d.frames == d.frames && [] + (ToldAll(Up, d.frames) + Broken(d.error)) == ToldBy(s, S.DoProcess);
    } else if |s.input| >= |PREFACE| {
      VerbatimPush(e.events, Error(InvalidPreface));
      NothingMore(Answers(e.written));
    } else {
      NothingMore<Event>([]);
      Quiet(e, e);
    }
  }

  lemma PrefaceLength()
    ensures |PREFACE| == 24
  {
  }

  lemma ServerStepFollows(s: S.Server, a: S.Action)
    requires s.core.e.cx.Valid()
    ensures Follows(s.core.e, ToldBy(s, a), DueBatch(s, a).frames, S.Step(s, a).core.e)
  {
    var e, e' := s.core.e, S.Step(s, a).core.e;
    NothingMore<Event>([]);
    match a
    case DoProcess => ProcessFollows(s);
    case DoHeaders(id, headers, endStream) =>
      if id in e.streams {
        BlockKeepsSize(e.cx, e.enc.table, e.enc.useHuffman, headers);
      }
      WritingFollows(e, e', Added(e, e').1);
    case DoSend(id, data, endStream) => SendFollows(e, id, data, endStream, |data|);
    case _ => WritingFollows(e, e', Added(e, e').1);
  }

  lemma {:induction false} ServerRunFollows(s: S.Server, actions: seq<S.Action>)
    requires s.core.e.cx.Valid()
    ensures Follows(s.core.e, ServerTold(s, actions), ServerHandled(s, actions), S.Run(s, actions).core.e)
    decreases |actions|
  {
    if actions == [] {
      Quiet(s.core.e, s.core.e);
    } else {
      var s', rest := S.Step(s, actions[0]), actions[1..];
      ServerStepFollows(s, actions[0]);
      ServerRunFollows(s', rest);
      FollowsTransitive(s.core.e, ToldBy(s, actions[0]), DueBatch(s, actions[0]).frames, s'.core.e,
                        ServerTold(s', rest), ServerHandled(s', rest), S.Run(s', rest).core.e);
    }
  }

  // ----- From the beginning -----

  /** What a connection has kept of the settings: the last values, or those that it began with. */
  predicate Keeps(e: Endpoint, settings: seq<Setting>) {
    && e.remote.maxConcurrentStreams == Latest(settings, MaxConcurrentStreams, 100)
    && e.remote.initialWindowSize == Latest(settings, InitialWindowSize, 65535)
    && e.remote.maxFrameSize == Latest(settings, MaxFrameSize, 16384)
    && e.remote.maxHeaderListSize == Latest(settings, MaxHeaderListSize, 16384)
    && e.maxFrame == Latest(settings, MaxFrameSize, 16384)
    && e.enc.table.max == Latest(settings, HeaderTableSize, 4096)
    && e.enc.useHuffman
  }

  /** What every connection begins with: two empty HPACK tables of 4096 bytes and a window of 65535. */
  lemma Beginnings(cx: Codec)
    ensures var e := NewEndpoint(cx);
            && e.state == WaitingPreface && !e.gotSettings && e.streams == map[] && e.written == [] && e.events == []
            && e.enc == EncoderView(TableView([], 4096), true) && e.dec == TableView([], 4096)
            && e.flow.window == 65535 && e.flow.consumed == 0 && e.flow.threshold == 32767
            && e.remote.maxConcurrentStreams == 100 && e.remote.maxHeaderListSize == 16384
    ensures C.NewClient(cx) == C.Client(NewEndpoint(cx), 1, None, [])
    ensures S.NewServer(cx) == S.Server(S.Core(NewEndpoint(cx), 0), false, [])
  {
  }

  lemma FromNothing(e: Endpoint, told: seq<Event>, frames: seq<Frame>, e': Endpoint)
    requires Follows(e, told, frames, e') && e == NewEndpoint(e.cx)
    ensures Verbatim(e'.events) == told && Answers(e'.written) == AnswerAll(frames) && Keeps(e', SettingsIn(frames))
  {
    assert [] + told == told && [] + AnswerAll(frames) == AnswerAll(frames);
  }

  /**
   Over every run of a client: the events that need no state to be decided are exactly those of the
   frames it handled, in order, each GOAWAY and RST_STREAM with its own numbers; the answers are
   exactly one for each PING, with its payload, and one for each SETTINGS that is no acknowledgement;
   and what it knows of the server's settings are the last values received.
   */
  lemma ClientReports(cx: Codec, actions: seq<C.Action>)
    requires cx.Valid()
    ensures var c, e := C.NewClient(cx), C.Run(C.NewClient(cx), actions).e;
            var handled := ClientHandled(c, actions);
            && Verbatim(e.events) == ClientTold(c, actions)
            && Answers(e.written) == AnswerAll(handled)
            && Keeps(e, SettingsIn(handled))
  {
    var c := C.NewClient(cx);
    ClientRunFollows(c, actions);
    FromNothing(c.e, ClientTold(c, actions), ClientHandled(c, actions), C.Run(c, actions).e);
  }

  /** So it is over every run of a server. */
  lemma ServerReports(cx: Codec, actions: seq<S.Action>)
    requires cx.Valid()
    ensures var s, e := S.NewServer(cx), S.Run(S.NewServer(cx), actions).core.e;
            var handled := ServerHandled(s, actions);
            && Verbatim(e.events) == ServerTold(s, actions)
            && Answers(e.written) == AnswerAll(handled)
            && Keeps(e, SettingsIn(handled))
  {
    var s := S.NewServer(cx);
    ServerRunFollows(s, actions);
    FromNothing(s.core.e, ServerTold(s, actions), ServerHandled(s, actions), S.Run(s, actions).core.e);
  }

  /** Acknowledgements, priorities and unknown frames are ignored, and so is a promise by a client. */
  lemma Ignored(e: Endpoint, s: S.Core, f: Frame)
    requires e.cx.Valid() && s.e.cx.Valid()
    requires IsAnswer(f) || f.PriorityFrame? || f.UnknownFrame?
    ensures C.Handle(e, f) == e && S.Handle(s, f) == s
    ensures forall p: Frame :: p.PushPromiseFrame? ==> C.Handle(e, p) == e
  {
  }

  // ----- Events that depend on the state -----

  /** An increment that a window has no room for is reported, with the stream and the increment, and changes nothing. */
  lemma OverflowReported(e: Endpoint, id: u32, increment: u32)
    ensures var e' := e.HandleWindowUpdate(id, increment);
            var overflows := if id == 0 then e.flow.window + increment > 0x7fff_ffff
                             else id in e.streams && e.streams[id].sendWindow + increment > 0x7fff_ffff;
            && e' == (if overflows then e.(events := e.events + [Error(WindowOverflow(id, increment))])
                      else e'.(events := e.events))
            && (!overflows && id == 0 ==> e'.flow == e.flow.(window := e.flow.window + increment))
            && (!overflows && id in e.streams && id != 0 ==>
                  e'.streams == e.streams[id := e.streams[id].(sendWindow := e.streams[id].sendWindow + increment)])
  {
  }

  /**
   A server reports exactly one event for each HEADERS frame, whatever its flags and priority, and
   says why it refuses a request.
   */
  lemma RequestReported(s: S.Core, f: Frame)
    requires s.e.cx.Valid() && f.HeadersFrame?
    ensures var s', id := S.Handle(s, f), f.streamId;
            var (dec', r) := BlockOf(s.e.cx, s.e.dec, 4096, f.block);
            && s'.e.events == s.e.events +
                  [if id % 2 == 0 then Error(EvenStreamId)
                   else if id <= s.lastClientStreamId then Error(StreamIdNotGreater)
                   else match r
                     case Err(error) => Error(HpackFault(error))
                     case Ok(headers) => Request(id, headers, f.endStream)]
            && (id % 2 == 0 || id <= s.lastClientStreamId ==> s'.e.(events := s.e.events) == s.e)
            && (id % 2 == 1 && id > s.lastClientStreamId ==> s'.e.dec == dec')
            && s'.lastClientStreamId == if id % 2 == 1 && id > s.lastClientStreamId then id else s.lastClientStreamId
  {
  }

  /** So does a client, which refuses none. */
  lemma ResponseReported(e: Endpoint, f: Frame)
    requires e.cx.Valid() && f.HeadersFrame?
    ensures var e', (dec', r) := C.Handle(e, f), BlockOf(e.cx, e.dec, 4096, f.block);
            && e'.dec == dec'
            && e'.events == e.events +
                  [match r
                   case Err(error) => Error(HpackFault(error))
                   case Ok(headers) => Headers(f.streamId, headers, f.endStream)]
  {
  }
}
