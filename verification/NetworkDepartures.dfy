/** A run of the joined system, in which everyone keeps to what is allowed, whose response never arrives. */
module NetworkDepartures {
  import opened Bytes
  import PrefixCodes
  import opened Tables
  import opened HpackCoding
  import opened Frames
  import opened FrameStreams
  import opened FlowControl
  import opened Streams
  import opened Endpoints
  import opened PlainTraffic
  import opened Channels
  import opened Delivery
  import opened Network
  import EndToEnd
  import ServerDepartures
  import C = ClientProtocol
  import S = ServerProtocol

  // ----- Building runs -----

  lemma {:induction false} RunThen(n: Net, actions: seq<Action>, a: Action)
    requires Coded(n) && AllAllowed(n, actions) && Allowed(Run(n, actions), a)
    ensures Run(n, actions + [a]) == Step(Run(n, actions), a) && AllAllowed(n, actions + [a])
    decreases |actions|
  {
    if actions == [] {
      assert [] + [a] == [a] && [a][1..] == [];
    } else {
      assert (actions + [a])[1..] == actions[1..] + [a];
      RunThen(Step(n, actions[0]), actions[1..], a);
    }
  }

  /** An allowed run reaches a state of the system. */
  ghost predicate Reaches(cx: Codec, actions: seq<Action>, n: Net) {
    cx.Valid() && AllAllowed(NewNet(cx), actions) && n == Run(NewNet(cx), actions)
  }

  lemma Then(cx: Codec, actions: seq<Action>, n: Net, a: Action) returns (longer: seq<Action>)
    requires Reaches(cx, actions, n) && Coded(n) && Allowed(n, a)
    ensures Reaches(cx, longer, Step(n, a))
  {
    RunThen(NewNet(cx), actions, a);
    longer := actions + [a];
  }

  lemma Rest(a: seq<byte>, b: seq<byte>)
    ensures (a + b)[|a|..|a + b|] == b
  {
  }

  /** Everything that the client has written since is delivered. */
  lemma Upward(n: Net, seen: seq<Frame>, more: seq<Frame>)
    requires Coded(n) && n.client.prefaceAt == Some(0) && n.client.e.written == seen + more
    requires n.toServer == |PREFACE + StreamBytes(seen)|
    ensures var all := |n.client.Output()|;
            Step(n, ToServer(all)) ==
              n.(server := n.server.(input := n.server.input + StreamBytes(more)), toServer := all)
  {
    OutputIs(n.client);
    StreamBytesAppend(seen, more);
    AppendAssociates(PREFACE, StreamBytes(seen), StreamBytes(more));
    Rest(PREFACE + StreamBytes(seen), StreamBytes(more));
  }

  lemma UpwardFirst(n: Net)
    requires Coded(n) && n.client.prefaceAt == Some(0) && n.toServer == 0 && n.server.input == []
    ensures var all := |n.client.Output()|;
            Step(n, ToServer(all)) ==
              n.(server := n.server.(input := PREFACE + StreamBytes(n.client.e.written)), toServer := all)
  {
    OutputIs(n.client);
    var out := n.client.Output();
    assert out[0..|out|] == out;
    assert [] + out == out;
  }

  lemma Downward(n: Net, seen: seq<byte>, more: seq<byte>)
    requires Coded(n) && n.server.Output() == seen + more && n.toClient == |seen|
    ensures var all := |n.server.Output()|;
            Step(n, ToClient(all)) == n.(client := C.Step(n.client, C.DoFeed(more)), toClient := all)
  {
    Rest(seen, more);
    assert Piece(seen + more, |seen|, |seen + more|) == more;
  }

  lemma FedFrames(c: C.Client, frames: seq<Frame>)
    requires c.e.cx.Valid() && c.input == []
    requires forall f :: f in frames ==> Sendable(DEFAULT_MAX_FRAME_SIZE, f)
    ensures C.Step(c, C.DoFeed(StreamBytes(frames))) == c.(e := C.HandleAll(c.e, frames))
  {
    ServerDepartures.NothingBefore(StreamBytes(frames));
    ServerDepartures.WholeFrames(frames);
  }

  // ----- The two sides get to know each other -----

  const ACK: Frame := SettingsFrame(true, [])

  /** The peer's settings and its acknowledgement make a side open; they ask for what it assumes anyway. */
  lemma Greeted(e: Endpoint)
    requires e.cx.Valid() && e.remote == DEFAULT_SETTINGS && e.maxFrame == 16384 && e.streams == map[] && !e.gotSettings
    ensures var e' := C.HandleAll(e, [LOCAL_SETTINGS, ACK]);
            e' == Opened(e) && e'.streams == map[] && Sendable(16384, LOCAL_SETTINGS) && Sendable(16384, ACK)
    ensures S.HandleAll(S.Core(e, 0), [LOCAL_SETTINGS]) == S.Core(Opened(e), 0)
  {
    LocalSettingsArePlain();
    LocalSettingsChangeNothing(e);
    assert e.HandleSettings(false, LOCAL_SETTINGS.settings) == Opened(e);
    ClientHandlesTwo(e, LOCAL_SETTINGS, ACK);
    assert [LOCAL_SETTINGS][1..] == [];
    assert S.HandleAll(S.Core(e, 0), [LOCAL_SETTINGS]) == S.Handle(S.Core(e, 0), LOCAL_SETTINGS);
  }

  lemma ClientHandlesTwo(e: Endpoint, f: Frame, g: Frame)
    requires e.cx.Valid()
    ensures C.HandleAll(e, [f, g]) == C.Handle(C.Handle(e, f), g)
  {
    var e' := C.Handle(e, f);
    assert [f, g][1..] == [g] && [g][1..] == [];
    assert C.HandleAll(e', [g]) == C.Handle(e', g);
  }

  lemma ServerHandlesTwo(s: S.Core, f: Frame, g: Frame)
    requires s.e.cx.Valid()
    ensures S.HandleAll(s, [f, g]) == S.Handle(S.Handle(s, f), g)
  {
    var s' := S.Handle(s, f);
    assert [f, g][1..] == [g] && [g][1..] == [];
    assert S.HandleAll(s', [g]) == S.Handle(s', g);
  }

  /** A side that has got the settings of the other. */
  function Opened(e: Endpoint): Endpoint {
    var remote := e.remote.(maxConcurrentStreams := 100, maxFrameSize := 16384);
    e.(remote := remote, gotSettings := true, state := ConnectionState.Open).Wrote(ACK).Happened(Ready)
  }

  /**
   Both sides are open, each has the settings of the other, and nothing is under way upwards but an
   acknowledgement.
   */
  ghost predicate Met(cx: Codec, n: Net) {
    && cx.Valid() && n.client == C.Client(Opened(Announced(NewEndpoint(cx))), 1, Some(0), [])
    && n.server == S.Server(S.Core(Opened(Announced(NewEndpoint(cx))), 0), true, [])
    && n.toServer == |PREFACE + StreamBytes([LOCAL_SETTINGS])| && n.toClient == |StreamBytes([LOCAL_SETTINGS, ACK])|
    && n.asked == [] && n.answered == []
  }

  /** The client has sent its preface and settings, and they have arrived. */
  lemma Approach(cx: Codec) returns (actions: seq<Action>, n: Net)
    requires cx.Valid()
    ensures Reaches(cx, actions, n) && n.client == C.Client(Announced(NewEndpoint(cx)), 1, Some(0), [])
    ensures n.server == S.NewServer(cx).(input := PREFACE + StreamBytes([LOCAL_SETTINGS]))
    ensures n.toServer == |PREFACE + StreamBytes([LOCAL_SETTINGS])| && n.toClient == 0
    ensures n.asked == [] && n.answered == []
  {
    actions, n := [], NewNet(cx);
    actions := Then(cx, actions, n, ClientReady);
    n := Step(n, ClientReady);
    assert n.client.e.written == [LOCAL_SETTINGS];
    UpwardFirst(n);
    OutputIs(n.client);
    var up := ToServer(|n.client.Output()|);
    actions := Then(cx, actions, n, up);
    n := Step(n, up);
  }

  lemma Meet(cx: Codec) returns (actions: seq<Action>, n: Net)
    requires cx.Valid()
    ensures Reaches(cx, actions, n) && Met(cx, n)
  {
    actions, n := Approach(cx);
    MetSettings(cx, n.server);
    actions := Then(cx, actions, n, ServerProcess);
    n := Step(n, ServerProcess);
    actions, n := MeetBack(cx, actions, n);
  }

  lemma MetSettings(cx: Codec, s: S.Server)
    requires cx.Valid() && s == S.NewServer(cx).(input := PREFACE + StreamBytes([LOCAL_SETTINGS]))
    ensures S.Process(s) == S.Server(S.Core(Opened(Announced(NewEndpoint(cx))), 0), true, [])
  {
    LocalSettingsArePlain();
    ServerDepartures.ProcessedStart(s, [LOCAL_SETTINGS]);
    Greeted(Announced(NewEndpoint(cx)));
  }

  lemma MetClient(cx: Codec, c: C.Client)
    requires cx.Valid() && c == C.Client(Announced(NewEndpoint(cx)), 1, Some(0), [])
    ensures C.Step(c, C.DoFeed(StreamBytes([LOCAL_SETTINGS, ACK]))) ==
              C.Client(Opened(Announced(NewEndpoint(cx))), 1, Some(0), [])
  {
    Greeted(c.e);
    FedFrames(c, [LOCAL_SETTINGS, ACK]);
  }

  lemma MeetBack(cx: Codec, before: seq<Action>, m: Net) returns (actions: seq<Action>, n: Net)
    requires Reaches(cx, before, m) && m.client == C.Client(Announced(NewEndpoint(cx)), 1, Some(0), [])
    requires m.server == S.Server(S.Core(Opened(Announced(NewEndpoint(cx))), 0), true, [])
    requires m.toServer == |PREFACE + StreamBytes([LOCAL_SETTINGS])| && m.toClient == 0
    requires m.asked == [] && m.answered == []
    ensures Reaches(cx, actions, n) && Met(cx, n)
  {
    var bytes := StreamBytes([LOCAL_SETTINGS, ACK]);
    ServerDepartures.NothingBefore(bytes);
    Downward(m, [], bytes);
    MetClient(cx, m.client);
    var down := ToClient(|m.server.Output()|);
    actions := Then(cx, before, m, down);
    n := Step(m, down);
  }

  // ----- A response that never arrives -----

  const REQUEST: Frame := HeadersFrame(1, false, true, None, [])

  /** A server that has only been greeted. */
  predicate Fresh(cx: Codec, s: S.Core) {
    && s.e.cx == cx && s.lastClientStreamId == 0 && s.e.written == [LOCAL_SETTINGS, ACK] && s.e.streams == map[]
    && s.e.flow == NewFlow(65535) && s.e.remote.initialWindowSize == 65535
  }

  lemma GreetedIsFresh(cx: Codec)
    ensures Fresh(cx, S.Core(Opened(Announced(NewEndpoint(cx))), 0))
  {
  }

  /** The client asks. */
  lemma Asking(cx: Codec) returns (actions: seq<Action>, n: Net)
    requires cx.Valid()
    ensures Reaches(cx, actions, n) && n.answered == [] && n.toClient == |StreamBytes([LOCAL_SETTINGS, ACK])|
    ensures n.toServer == |PREFACE + StreamBytes([LOCAL_SETTINGS])| && n.client.prefaceAt == Some(0)
    ensures n.client.e.cx == cx && n.client.e.written == [LOCAL_SETTINGS] + [ACK, REQUEST]
    ensures n.server.gotPreface && n.server.input == [] && Fresh(cx, n.server.core)
  {
    actions, n := Meet(cx);
    GreetedIsFresh(cx);
    AskWrites(n.client.e);
    AskStep(n);
    var ask := Ask([], false);
    actions := Then(cx, actions, n, ask);
    n := Step(n, ask);
  }

  lemma AskStep(n: Net)
    requires Coded(n) && n.client.e.state == ConnectionState.Open && n.client.nextStreamId == 1
    requires BlockBytes(n.client.e.cx, n.client.e.enc.table, n.client.e.enc.useHuffman, []) ==
               (n.client.e.enc.table, [])
    ensures var n' := Step(n, Ask([], false));
            && n' == n.(client := n'.client, asked := n'.asked) && n'.client.prefaceAt == n.client.prefaceAt
            && n'.client.e.cx == n.client.e.cx && n'.client.e.written == n.client.e.written + [REQUEST]
  {
  }

  /** Everything that the client wrote is delivered. */
  lemma Asked(cx: Codec) returns (actions: seq<Action>, n: Net)
    requires cx.Valid()
    ensures Reaches(cx, actions, n) && n.answered == [] && n.toClient == |StreamBytes([LOCAL_SETTINGS, ACK])|
    ensures n.server.gotPreface && n.server.input == StreamBytes([ACK, REQUEST]) && Fresh(cx, n.server.core)
  {
    actions, n := Asking(cx);
    Upward(n, [LOCAL_SETTINGS], [ACK, REQUEST]);
    ServerDepartures.NothingBefore(StreamBytes([ACK, REQUEST]));
    var up := ToServer(|n.client.Output()|);
    actions := Then(cx, actions, n, up);
    n := Step(n, up);
  }

  lemma AskWrites(e: Endpoint)
    requires |e.cx.huffman| == PrefixCodes.SYMBOLS
    ensures BlockBytes(e.cx, e.enc.table, e.enc.useHuffman, []) == (e.enc.table, [])
  {
  }

  lemma EmptyBlock(cx: Codec, dec: TableView)
    requires cx.Valid()
    ensures BlockOf(cx, dec, DEFAULT_TABLE_SIZE, []) == (dec, Ok([]))
  {
  }

  lemma RequestHandled(s: S.Core)
    requires s.e.cx.Valid() && s.lastClientStreamId == 0 && s.e.streams == map[]
    ensures var e := S.HandleAll(s, [ACK, REQUEST]).e;
            && e.written == s.e.written && e.flow == s.e.flow
            && e.streams == map[1 := NewStream(1, s.e.remote.initialWindowSize)]
  {
    ServerHandlesTwo(s, ACK, REQUEST);
    assert S.Handle(s, ACK) == s;
    EmptyBlock(s.e.cx, s.e.dec);
    assert S.Handle(s, REQUEST).e == s.e.OpenStream(1).Happened(Request(1, [], false));
  }

  lemma RequestProcessed(s: S.Server)
    requires s.core.e.cx.Valid() && s.gotPreface && s.input == StreamBytes([ACK, REQUEST]) && Fresh(s.core.e.cx, s.core)
    ensures var e := S.Process(s).core.e;
            e.written == [LOCAL_SETTINGS, ACK] && e.flow == NewFlow(65535) && e.streams == map[1 := NewStream(1, 65535)]
  {
    LocalSettingsArePlain();
    ServerDepartures.ProcessedFrames(s, [ACK, REQUEST]);
    RequestHandled(s.core);
  }

  /** The request has been taken, and its stream is open. */
  lemma Requested(cx: Codec) returns (actions: seq<Action>, n: Net)
    requires cx.Valid()
    ensures Reaches(cx, actions, n) && n.answered == [] && n.server.core.e.written == [LOCAL_SETTINGS, ACK]
    ensures n.server.core.e.streams == map[1 := NewStream(1, 65535)] && n.server.core.e.flow == NewFlow(65535)
    ensures n.toClient == |StreamBytes([LOCAL_SETTINGS, ACK])|
  {
    actions, n := Asked(cx);
    RequestProcessed(n.server);
    actions := Then(cx, actions, n, ServerProcess);
    n := Step(n, ServerProcess);
  }

  function Response(): seq<byte> {
    ServerDepartures.Zeros(20000)
  }

  const RESPONSE: Frame := DataFrame(1, true, Response())

  /** The server sends 20000 bytes at once. */
  lemma Responded(cx: Codec) returns (actions: seq<Action>, n: Net)
    requires cx.Valid()
    ensures Reaches(cx, actions, n) && n.answered == [Data(1, Response(), true)]
    ensures n.server.core.e.written == [LOCAL_SETTINGS, ACK] + [RESPONSE]
    ensures n.toClient == |StreamBytes([LOCAL_SETTINGS, ACK])|
  {
    actions, n := Requested(cx);
    var data := Response();
    var send := ServerSend(1, data, true);
    assert data[..20000] == data;
    assert Allowance(65535, 65535, 20000, 20000) == 20000;
    actions := Then(cx, actions, n, send);
    n := Step(n, send);
  }

  /** All bytes are delivered, and the client reports nothing. */
  lemma ResponseStuck(cx: Codec) returns (actions: seq<Action>)
    requires cx.Valid()
    ensures AllAllowed(NewNet(cx), actions)
    ensures var n := Run(NewNet(cx), actions);
            && n.toClient == |n.server.Output()| && n.answered == [Data(1, Response(), true)]
            && Messages(n.client.e.events) == [] && n.client.input != []
  {
    var n;
    actions, n := Responded(cx);
    var down := ToClient(|n.server.Output()|);
    StreamBytesAppend([LOCAL_SETTINGS, ACK], [RESPONSE]);
    Downward(n, StreamBytes([LOCAL_SETTINGS, ACK]), StreamBytes([RESPONSE]));
    actions := Then(cx, actions, n, down);
    NothingReported(cx, actions, Step(n, down));
  }

  lemma NothingReported(cx: Codec, actions: seq<Action>, n: Net)
    requires Reaches(cx, actions, n) && n.toClient == |n.server.Output()| && |n.answered| == 1
    requires n.server.core.e.written == [LOCAL_SETTINGS, ACK] + [RESPONSE]
    ensures Messages(n.client.e.events) == [] && n.client.input != []
  {
    EndToEnd.ClientReceives(cx, actions);
    OnlyLarge(RESPONSE);
    EndToEnd.NoBytes([RESPONSE]);
  }

  lemma OnlyLarge(f: Frame)
    requires f.DataFrame? && |f.data| > 16384
    ensures Beyond([LOCAL_SETTINGS, ACK] + [f]) == [f] && Carrying([f]) == 1
  {
    LocalSettingsArePlain();
    assert TooLarge(f) && NoneTooLarge([LOCAL_SETTINGS, ACK]);
    BeyondTaken([LOCAL_SETTINGS, ACK], [f]);
    assert [f][1..] == [];
  }
}
