/**
 Runs that end where flow control should not: each starts from a new client and consists of calls
 and of frames that its decoder accepts.
 */
module Departures {
  import opened Bytes
  import opened Tables
  import opened HpackCoding
  import opened Frames
  import opened FrameCoding
  import opened FrameStreams
  import opened FlowControl
  import opened Endpoints
  import opened Streams
  import opened ClientProtocol
  import Accounting
  import StreamStates

  // ----- Building runs -----

  lemma {:induction false} RunThen(c: Client, actions: seq<Action>, a: Action)
    requires c.e.cx.Valid()
    ensures Run(c, actions + [a]) == Step(Run(c, actions), a)
    decreases |actions|
  {
    if actions == [] {
      assert [] + [a] == [a] && [a][1..] == [];
    } else {
      assert (actions + [a])[1..] == actions[1..] + [a];
      RunThen(Step(c, actions[0]), actions[1..], a);
    }
  }

  /** Feeding the bytes of a frame is handling the frame. */
  lemma FedFrame(c: Client, f: Frame)
    requires c.e.cx.Valid() && c.input == [] && Sendable(DEFAULT_MAX_FRAME_SIZE, f)
    ensures Step(c, DoFeed(FrameBytes(f))) == c.(e := Handle(c.e, f))
  {
    var bytes := FrameBytes(f);
    NothingBefore(bytes);
    OneFrame(f);
    assert [f][1..] == [];
    assert HandleAll(c.e, [f]) == Handle(c.e, f);
  }

  lemma NothingBefore(b: seq<byte>)
    ensures [] + b == b
  {
  }

  lemma NothingAfter(b: seq<byte>)
    ensures b + [] == b
  {
  }

  lemma OneFrame(f: Frame)
    requires Sendable(DEFAULT_MAX_FRAME_SIZE, f)
    ensures DecodeAll(DEFAULT_MAX_FRAME_SIZE, FrameBytes(f)) == Batch([f], [], None)
  {
    var bytes := FrameBytes(f);
    NothingAfter(bytes);
    DecodeAllFront(DEFAULT_MAX_FRAME_SIZE, f, []);
  }

  /** A run reaches a client. */
  ghost predicate Reaches(cx: Codec, actions: seq<Action>, c: Client) {
    cx.Valid() && c == Run(NewClient(cx), actions)
  }

  lemma ThenCall(cx: Codec, actions: seq<Action>, c: Client, a: Action) returns (longer: seq<Action>)
    requires Reaches(cx, actions, c)
    ensures c.e.cx == cx && Reaches(cx, longer, Step(c, a)) && actions <= longer
  {
    RunThen(NewClient(cx), actions, a);
    longer := actions + [a];
  }

  lemma ThenFrame(cx: Codec, actions: seq<Action>, c: Client, f: Frame) returns (longer: seq<Action>)
    requires Reaches(cx, actions, c) && c.input == [] && Sendable(DEFAULT_MAX_FRAME_SIZE, f)
    ensures c.e.cx == cx && Reaches(cx, longer, c.(e := Handle(c.e, f))) && actions <= longer
  {
    longer := ThenCall(cx, actions, c, DoFeed(FrameBytes(f)));
    FedFrame(c, f);
  }

  /** An open client, whose peer takes frames of 65535 bytes, before anything was sent. */
  predicate Open(c: Client) {
    && c.input == [] && c.nextStreamId == 1 && c.e.state == ConnectionState.Open
    && c.e.remote == DEFAULT_SETTINGS.(maxFrameSize := 65535) && c.e.maxFrame == 65535
    && c.e.flow == NewFlow(DEFAULT_INITIAL_WINDOW_SIZE) && c.e.streams == map[] && c.e.ledger == Ledger(0, 0, 0, map[])
  }

  lemma BecomesOpen(cx: Codec) returns (actions: seq<Action>, c: Client)
    requires cx.Valid()
    ensures Reaches(cx, actions, c) && Open(c)
  {
    actions, c := [], NewClient(cx);
    actions := ThenCall(cx, actions, c, DoReady);
    c := Step(c, DoReady);
    var f := SettingsFrame(false, [Setting(MaxFrameSize, 65535)]);
    actions := ThenFrame(cx, actions, c, f);
    c := c.(e := Handle(c.e, f));
  }

  /** A second request, or more: nothing but a stream and a frame. */
  lemma ThenRequest(cx: Codec, actions: seq<Action>, c: Client) returns (longer: seq<Action>, c': Client)
    requires Reaches(cx, actions, c) && c.e.state == ConnectionState.Open && c.nextStreamId < 0x7fff_fffd
    ensures Reaches(cx, longer, c') && c' == StartRequest(c, [], false).0
  {
    longer := ThenCall(cx, actions, c, DoRequest([], false));
    c' := StartRequest(c, [], false).0;
  }

  function Zeros(n: nat): seq<byte> {
    seq(n, _ => 0)
  }

  // ----- The connection's window -----

  /**
   The limit of the connection's window is passed by a peer that fills the window, returns the
   credit for one byte that it was sent, and then sends two frames of data.
   */
  lemma WindowWraps(cx: Codec) returns (actions: seq<Action>)
    requires cx.Valid()
    ensures var e := Run(NewClient(cx), actions).e;
            e.flow.window == -0x8000_0000 && Accounting.Circulating(e) == 0x8000_0000
  {
    var c;
    actions, c := BecomesOpen(cx);
    actions, c := ThenRequest(cx, actions, c);
    actions := ThenFrame(cx, actions, c, WindowUpdateFrame(0, 0x7fff_0000));
    c := c.(e := Handle(c.e, WindowUpdateFrame(0, 0x7fff_0000)));
    assert c.e.flow == Flow(0x7fff_ffff, 65535, 0, 32767);
    actions := ThenCall(cx, actions, c, DoSend(1, [0], false));
    c := Step(c, DoSend(1, [0], false));
    assert c.e.flow == Flow(0x7fff_fffe, 65535, 1, 32767);
    actions := ThenFrame(cx, actions, c, WindowUpdateFrame(0, 1));
    c := c.(e := Handle(c.e, WindowUpdateFrame(0, 1)));
    assert c.e.flow == Flow(0x7fff_ffff, 65535, 1, 32767);
    var f := DataFrame(1, false, Zeros(16384));
    actions := ThenFrame(cx, actions, c, f);
    c := c.(e := Handle(c.e, f));
    assert c.e.flow == Flow(0x7fff_ffff - 16384, 65535, 16385, 32767);
    actions := ThenFrame(cx, actions, c, f);
    c := c.(e := Handle(c.e, f));
  }

  // ----- A stream's window -----

  /** A lowered initial size makes a window negative, and then the cast lets a stream send what it was never granted. */
  lemma StreamOverdrawn(cx: Codec) returns (actions: seq<Action>)
    requires cx.Valid()
    ensures var c := Run(NewClient(cx), actions);
            && 1 in c.e.streams && c.e.streams[1].sendWindow == -1
            && SendData(c, 1, Zeros(100), false).1 == Sent(100)
  {
    var c;
    actions, c := BecomesOpen(cx);
    actions, c := ThenRequest(cx, actions, c);
    actions := ThenCall(cx, actions, c, DoSend(1, [0], false));
    c := Step(c, DoSend(1, [0], false));
    assert c.e.streams[1].sendWindow == 65534 && c.e.flow.window == 65534;
    var f := SettingsFrame(false, [Setting(InitialWindowSize, 0)]);
    actions := ThenFrame(cx, actions, c, f);
    c := c.(e := Handle(c.e, f));
  }

  // ----- The connection's credit -----

  /** The bytes that were sent are given back with those received: more is sent than the peer ever granted. */
  lemma ConnectionOverdrawn(cx: Codec) returns (actions: seq<Action>)
    requires cx.Valid()
    ensures var e := Run(NewClient(cx), actions).e;
            e.ledger.sent == 80000 && Accounting.Circulating(e) == 65535
  {
    var c;
    actions, c := BecomesOpen(cx);
    actions, c := ThenRequest(cx, actions, c);
    actions, c := ThenRequest(cx, actions, c);
    actions := ThenCall(cx, actions, c, DoSend(1, Zeros(40000), false));
    c := Step(c, DoSend(1, Zeros(40000), false));
    assert c.e.flow == Flow(25535, 65535, 40000, 32767);
    actions := ThenFrame(cx, actions, c, DataFrame(1, false, [0]));
    c := c.(e := Handle(c.e, DataFrame(1, false, [0])));
    assert c.e.flow == Flow(65535, 65535, 0, 32767);
    actions := ThenCall(cx, actions, c, DoSend(3, Zeros(40000), false));
    c := Step(c, DoSend(3, Zeros(40000), false));
  }

  // ----- The end of a stream -----

  /** Data goes out on a stream that the request's headers have ended. */
  lemma DataAfterEnd(cx: Codec, headers: seq<HeaderField>, x: byte) returns (actions: seq<Action>)
    requires cx.Valid()
    ensures var e := Run(NewClient(cx), actions).e;
            var n := |e.written|;
            && n >= 2 && e.written[n - 2].HeadersFrame? && e.written[n - 2].endStream
            && e.written[n - 1] == DataFrame(e.written[n - 2].streamId, false, [x])
  {
    var c;
    actions, c := BecomesOpen(cx);
    StreamStates.RequestStaysOpen(c, headers, x);
    actions := ThenCall(cx, actions, c, DoRequest(headers, true));
    c := Step(c, DoRequest(headers, true));
    actions := ThenCall(cx, actions, c, DoSend(1, [x], false));
    c := Step(c, DoSend(1, [x], false));
    assert [x][..1] == [x];
  }

  // ----- Identifiers -----

  /** Requests without the end of the stream, one after the other. */
  lemma {:induction false} ManyRequests(cx: Codec, before: seq<Action>, c: Client, s: StreamView, k: nat)
      returns (actions: seq<Action>, c': Client)
    requires Reaches(cx, before, c) && c.e.state == ConnectionState.Open && c.input == []
    requires 1 in c.e.streams && c.e.streams[1] == s && 3 <= c.nextStreamId <= 0x8000_0001 - 2 * k
    ensures Reaches(cx, actions, c') && c'.e.state == ConnectionState.Open && c'.input == []
    ensures 1 in c'.e.streams && c'.e.streams[1] == s && c'.nextStreamId == c.nextStreamId + 2 * k
    decreases k
  {
    if k == 0 {
      actions, c' := before, c;
    } else {
      var next;
      actions, next := OneRequest(cx, before, c, s);
      actions, c' := ManyRequests(cx, actions, next, s, k - 1);
    }
  }

  lemma OneRequest(cx: Codec, before: seq<Action>, c: Client, s: StreamView) returns (actions: seq<Action>, c': Client)
    requires Reaches(cx, before, c) && c.e.state == ConnectionState.Open && c.input == []
    requires 1 in c.e.streams && c.e.streams[1] == s && 3 <= c.nextStreamId < 0x8000_0000
    ensures Reaches(cx, actions, c') && c'.e.state == ConnectionState.Open && c'.input == []
    ensures 1 in c'.e.streams && c'.e.streams[1] == s && c'.nextStreamId == c.nextStreamId + 2
  {
    actions := ThenCall(cx, before, c, DoRequest([], false));
    c' := Step(c, DoRequest([], false));
  }

  /** After 2^30 requests the first identifier is used again: a stream that was ended is open once more. */
  lemma IdentifierReused(cx: Codec) returns (actions: seq<Action>)
    requires cx.Valid()
    ensures var c := Run(NewClient(cx), actions);
            var (c', id) := StartRequest(c, [], false);
            && 1 in c.e.streams && c.e.streams[1].state == HalfClosedLocal
            && id == Some(1) && c'.e.streams[1].state == StreamState.Open
  {
    var c;
    actions, c := BecomesOpen(cx);
    actions, c := ThenRequest(cx, actions, c);
    actions := ThenCall(cx, actions, c, DoSend(1, [], true));
    c := Step(c, DoSend(1, [], true));
    assert c.e.streams[1].state == HalfClosedLocal && c.nextStreamId == 3;
    actions, c := ManyRequests(cx, actions, c, c.e.streams[1], 0x3fff_ffff);
    assert c.nextStreamId == 0x8000_0001;
  }

  // ----- The preface -----

  /** A client that gets the server's settings before its transport is ready is open, and never sends its preface. */
  lemma PrefaceForgotten(cx: Codec, headers: seq<HeaderField>) returns (actions: seq<Action>)
    requires cx.Valid()
    ensures var c := Run(NewClient(cx), actions);
            && c.e.state == ConnectionState.Open && c.prefaceAt.None? && TransportReady(c) == c
            && StartRequest(c, headers, true).1 == Some(1)
  {
    actions := [];
    actions := ThenFrame(cx, actions, NewClient(cx), SettingsFrame(false, []));
  }

  /** One that gets a PING before that answers it first. */
  lemma PrefaceLate(cx: Codec) returns (actions: seq<Action>)
    requires cx.Valid()
    ensures var c := Run(NewClient(cx), actions);
            c.prefaceAt == Some(1) && 0 < |c.e.written| && c.e.written[0] == PingFrame(true, Zeros(8))
  {
    var c := NewClient(cx);
    var ping := PingFrame(false, Zeros(8));
    actions := ThenFrame(cx, [], c, ping);
    c := c.(e := Handle(c.e, ping));
    actions := ThenCall(cx, actions, c, DoReady);
  }

  // ----- Draining -----

  /** A GOAWAY that comes before the server's first settings is forgotten when they arrive. */
  lemma DrainingEnds(cx: Codec) returns (before: seq<Action>, after: seq<Action>)
    requires cx.Valid()
    ensures Run(NewClient(cx), before).e.state == Draining && before <= after
    ensures Run(NewClient(cx), after).e.state == ConnectionState.Open
  {
    var c := NewClient(cx);
    var f, g := GoAwayFrame(0, 0, []), SettingsFrame(false, []);
    before := ThenCall(cx, [], c, DoReady);
    c := Step(c, DoReady);
    before := ThenFrame(cx, before, c, f);
    c := c.(e := Handle(c.e, f));
    after := ThenFrame(cx, before, c, g);
  }
}
