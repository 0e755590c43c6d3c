/**
 Nobody returns the credit of a stream: over every run of the joined system a stream carries no more
 than the initial window in each direction, and what is left of it is the stream's send window.
 */
module StreamLimits {
  import opened Bytes
  import opened PrefixCodes
  import opened Tables
  import opened HpackCoding
  import opened Frames
  import opened FrameStreams
  import opened Streams
  import opened Endpoints
  import opened PlainTraffic
  import opened Network
  import opened EndToEnd
  import C = ClientProtocol
  import S = ServerProtocol

  // ----- What arrives does not change a send window -----

  predicate SameWindow(e: Endpoint, e': Endpoint, id: u32) {
    && (id in e.streams <==> id in e'.streams)
    && (id in e.streams ==> e'.streams[id].sendWindow == e.streams[id].sendWindow)
  }

  lemma SharedWindow(e: Endpoint, f: Frame, id: u32)
    requires |e.cx.huffman| == SYMBOLS && Plain(e, MAX_FRAME_SIZE) && PlainFrame(f)
    requires !f.HeadersFrame? && !f.PushPromiseFrame?
    ensures SameWindow(e, e.HandleShared(f), id)
  {
    if f.SettingsFrame? {
      LocalSettingsChangeNothing(e);
    }
  }

  lemma {:induction false} ClientFramesWindow(e: Endpoint, frames: seq<Frame>, id: u32)
    requires e.cx.Valid() && Plain(e, MAX_FRAME_SIZE) && PlainLog(frames, 16384)
    ensures SameWindow(e, C.HandleAll(e, frames), id)
    decreases |frames|
  {
    if frames != [] {
      var f := frames[0];
      assert PlainFrame(f);
      if !f.HeadersFrame? && !f.PushPromiseFrame? {
        SharedWindow(e, f, id);
      }
      ClientFramePlain(e, f, MAX_FRAME_SIZE);
      ClientFramesWindow(C.Handle(e, f), frames[1..], id);
    }
  }

  // ----- From the client to the server -----

  /** What was sent on a stream and what is left of its window are the initial window together. */
  predicate UpCounted(c: C.Client, asked: seq<Event>, id: u32) {
    var sent := |StreamData(asked, id)|;
    if id in c.e.streams then sent + c.e.streams[id].sendWindow == 65535 && id < c.nextStreamId else sent == 0
  }

  /** Posting data on a stream takes it out of its window. */
  lemma SendCounts(e: Endpoint, all: seq<Event>, id: u32, on: u32, data: seq<byte>, endStream: bool, most: nat)
    requires Plain(e, MAX_FRAME_SIZE)
    ensures var (e', outcome) := e.SendData(on, data, endStream, most);
            var all' := all + Posted(on, data, endStream, outcome);
            && (id in e.streams <==> id in e'.streams)
            && if id in e.streams then
                 |StreamData(all', id)| + e'.streams[id].sendWindow == |StreamData(all, id)| + e.streams[id].sendWindow
               else |StreamData(all', id)| == |StreamData(all, id)|
  {
    var (e', outcome) := e.SendData(on, data, endStream, most);
    if outcome.Sent? {
      assert PlainStream(on, e.streams[on]);
      var n := outcome.count;
      assert n <= e.streams[on].sendWindow;
      StreamDataPush(all, id, Data(on, data[..n], endStream && n == |data|));
    } else {
      NothingPosted(all);
    }
  }

  lemma ClientSendCounted(n: Net, id: u32, on: u32, data: seq<byte>, endStream: bool)
    requires Shape(n) && UpCounted(n.client, n.asked, id)
    ensures var n' := Step(n, ClientSend(on, data, endStream));
            UpCounted(n'.client, n'.asked, id)
  {
    MoreRoom(n.client.e);
    SendCounts(n.client.e, n.asked, id, on, data, endStream, n.client.e.maxFrame);
  }

  lemma MoreRoom(e: Endpoint)
    requires Plain(e, 16384)
    ensures Plain(e, MAX_FRAME_SIZE)
  {
  }

  lemma AskCounted(n: Net, id: u32, headers: seq<HeaderField>, endStream: bool)
    requires Shape(n) && Allowed(n, Ask(headers, endStream)) && UpCounted(n.client, n.asked, id)
    ensures var n' := Step(n, Ask(headers, endStream));
            UpCounted(n'.client, n'.asked, id)
  {
    var c := n.client;
    if c.e.state == ConnectionState.Open {
      var c', event := C.StartRequest(c, headers, endStream).0, Request(c.nextStreamId, headers, endStream);
      RequestOpens(c, headers, endStream);
      NewStreamCounted(c, c', n.asked, id, event);
    }
  }

  lemma NewStreamCounted(c: C.Client, c': C.Client, asked: seq<Event>, id: u32, event: Event)
    requires UpCounted(c, asked, id) && event.Request? && c'.nextStreamId == c.nextStreamId + 2
    requires c'.e.streams == c.e.streams[c.nextStreamId := NewStream(c.nextStreamId, 65535)]
    ensures UpCounted(c', asked + [event], id)
  {
    StreamDataPush(asked, id, event);
  }

  lemma RequestOpens(c: C.Client, headers: seq<HeaderField>, endStream: bool)
    requires c.e.cx.Valid() && ClientOk(c) && c.e.state == ConnectionState.Open && c.nextStreamId < 0x8000_0000
    ensures var (c', id) := C.StartRequest(c, headers, endStream);
            && id == Some(c.nextStreamId) && c'.nextStreamId == c.nextStreamId + 2
            && c'.e.streams == c.e.streams[c.nextStreamId := NewStream(c.nextStreamId, 65535)]
  {
  }

  lemma ClientFedCounted(n: Net, id: u32, count: nat)
    requires Inv(n) && UpCounted(n.client, n.asked, id)
    ensures var n' := Step(n, ToClient(count));
            UpCounted(n'.client, n'.asked, id)
  {
    var n' := Step(n, ToClient(count));
    var piece := Piece(n.server.Output(), n.toClient, n'.toClient);
    var d := DecodeAll(DEFAULT_MAX_FRAME_SIZE, n.client.input + piece);
    FedPlain(n, n', d);
    MoreRoom(n.client.e);
    ClientFramesWindow(n.client.e, d.frames, id);
    assert n'.client == C.Feed(n.client, piece) && n'.asked == n.asked;
  }

  lemma FedPlain(n: Net, n': Net, d: Batch)
    requires Inv(n) && n.toClient <= n'.toClient <= |n.server.Output()|
    requires d == DecodeAll(DEFAULT_MAX_FRAME_SIZE, n.client.input + Piece(n.server.Output(), n.toClient, n'.toClient))
    requires n'.client == n.client.(e := C.HandleAll(n.client.e, d.frames).Reported(d.error), input := d.tail)
    requires n'.server == n.server && n'.answered == n.answered
    ensures PlainLog(d.frames, 16384)
  {
    var q :| ClientAt(n, q);
    var q' := ClientReads(n, n', q, d);
  }

  lemma StepCountedUp(n: Net, a: Action, id: u32)
    requires Inv(n) && Allowed(n, a) && UpCounted(n.client, n.asked, id)
    ensures UpCounted(Step(n, a).client, Step(n, a).asked, id)
  {
    match a
    case Ask(headers, endStream) => AskCounted(n, id, headers, endStream);
    case ClientSend(on, data, endStream) => ClientSendCounted(n, id, on, data, endStream);
    case ToClient(count) => ClientFedCounted(n, id, count);
    case _ =>
  }

  // ----- From the server to the client -----

  /** So they are for a server, as long as it has the stream; afterwards nothing more is sent. */
  predicate DownCounted(s: S.Core, answered: seq<Event>, id: u32) {
    var sent := |StreamData(answered, id)|;
    if id in s.e.streams then sent + s.e.streams[id].sendWindow == 65535 && id <= s.lastClientStreamId
    else sent <= 65535 && (id > s.lastClientStreamId ==> sent == 0)
  }

  lemma ServerFrameCounted(s: S.Core, f: Frame, answered: seq<Event>, id: u32)
    requires s.e.cx.Valid() && Plain(s.e, MAX_FRAME_SIZE) && PlainFrame(f) && DownCounted(s, answered, id)
    ensures DownCounted(S.Handle(s, f), answered, id)
  {
    if !f.HeadersFrame? && !f.PushPromiseFrame? {
      SharedWindow(s.e, f, id);
    }
  }

  lemma {:induction false} ServerFramesCounted(s: S.Core, frames: seq<Frame>, answered: seq<Event>, id: u32)
    requires s.e.cx.Valid() && Plain(s.e, MAX_FRAME_SIZE) && PlainLog(frames, 16384) && DownCounted(s, answered, id)
    ensures DownCounted(S.HandleAll(s, frames), answered, id)
    decreases |frames|
  {
    if frames != [] {
      assert PlainFrame(frames[0]);
      ServerFrameCounted(s, frames[0], answered, id);
      ServerFramePlain(s, frames[0], MAX_FRAME_SIZE);
      ServerFramesCounted(S.Handle(s, frames[0]), frames[1..], answered, id);
    }
  }

  lemma ProcessCounted(n: Net, id: u32)
    requires Inv(n) && DownCounted(n.server.core, n.answered, id)
    ensures DownCounted(S.Process(n.server).core, n.answered, id)
  {
    var p :| ServerAt(n, p);
    var s := n.server;
    if s.gotPreface {
      var rest := ServerReads(n, p);
      ServerFramesCounted(s.core, DecodeAll(DEFAULT_MAX_FRAME_SIZE, s.input).frames, n.answered, id);
    } else if |s.input| >= |PREFACE| {
      StartCounted(n, p, id);
    }
  }

  lemma StartCounted(n: Net, p: Progress, id: u32)
    requires Shape(n) && ServerAt(n, p) && !n.server.gotPreface && |n.server.input| >= |PREFACE|
    requires DownCounted(n.server.core, n.answered, id)
    ensures DownCounted(S.Process(n.server).core, n.answered, id)
  {
    var a := Admitted(n.server);
    var p' := PrefaceArrives(n, p);
    AdmittedShape(n);
    var rest := ServerReads(n.(server := a), p');
    ServerFramesCounted(a.core, DecodeAll(DEFAULT_MAX_FRAME_SIZE, a.input).frames, n.answered, id);
    assert S.Process(n.server) == S.ProcessFrames(a);
  }

  lemma RespondCounted(n: Net, id: u32, on: u32, headers: seq<HeaderField>, endStream: bool)
    requires Coded(n) && DownCounted(n.server.core, n.answered, id)
    ensures var n' := Step(n, Respond(on, headers, endStream));
            DownCounted(n'.server.core, n'.answered, id)
  {
    if on in n.server.core.e.streams {
      StreamDataPush(n.answered, id, Headers(on, headers, endStream));
    }
  }

  lemma ServerSendCounted(n: Net, id: u32, on: u32, data: seq<byte>, endStream: bool)
    requires Shape(n) && DownCounted(n.server.core, n.answered, id)
    ensures var n' := Step(n, ServerSend(on, data, endStream));
            DownCounted(n'.server.core, n'.answered, id)
  {
    SendCounts(n.server.core.e, n.answered, id, on, data, endStream, |data|);
  }

  lemma RemoveCounted(s: S.Server, answered: seq<Event>, id: u32, on: u32)
    requires PlainStreams(s.core.e.streams) && DownCounted(s.core, answered, id)
    ensures DownCounted(S.RemoveStream(s, on).core, answered, id)
  {
    if id in s.core.e.streams {
      assert PlainStream(id, s.core.e.streams[id]);
    }
  }

  lemma RemoveStep(n: Net, on: u32)
    requires Coded(n)
    ensures Step(n, ServerRemove(on)) == n.(server := S.RemoveStream(n.server, on))
  {
  }

  lemma StepCountedDown(n: Net, a: Action, id: u32)
    requires Inv(n) && Allowed(n, a) && DownCounted(n.server.core, n.answered, id)
    ensures DownCounted(Step(n, a).server.core, Step(n, a).answered, id)
  {
    match a
    case ServerProcess => ProcessCounted(n, id);
    case Respond(on, headers, endStream) => RespondCounted(n, id, on, headers, endStream);
    case ServerSend(on, data, endStream) => ServerSendCounted(n, id, on, data, endStream);
    case ServerRemove(on) =>
      RemoveCounted(n.server, n.answered, id, on);
      RemoveStep(n, on);
    case _ => RestCounted(n, a, id);
  }

  lemma RestCounted(n: Net, a: Action, id: u32)
    requires Coded(n) && DownCounted(n.server.core, n.answered, id)
    requires !a.ServerProcess? && !a.Respond? && !a.ServerSend? && !a.ServerRemove?
    ensures DownCounted(Step(n, a).server.core, Step(n, a).answered, id)
  {
    if a.ServerReset? || a.ServerGoAway? {
      var e, e' := n.server.core.e, Step(n, a).server.core.e;
      assert SameWindow(e, e', id) && Step(n, a).server.core.lastClientStreamId == n.server.core.lastClientStreamId;
    } else {
      ServerUntouched(n, a);
    }
  }

  // ----- Runs -----

  lemma {:induction false} RunCounted(n: Net, actions: seq<Action>, id: u32)
    requires Inv(n) && AllAllowed(n, actions)
    requires UpCounted(n.client, n.asked, id) && DownCounted(n.server.core, n.answered, id)
    ensures var n' := Run(n, actions);
            UpCounted(n'.client, n'.asked, id) && DownCounted(n'.server.core, n'.answered, id)
    decreases |actions|
  {
    if actions != [] {
      StepCountedUp(n, actions[0], id);
      StepCountedDown(n, actions[0], id);
      StepKeeps(n, actions[0]);
      RunCounted(Step(n, actions[0]), actions[1..], id);
    }
  }

  /**
   At most 65535 bytes are ever sent on a stream each way, and a side that has the stream still may
   send just the rest.
   */
  lemma StreamsAreLimited(cx: Codec, actions: seq<Action>, id: u32)
    requires cx.Valid() && AllAllowed(NewNet(cx), actions)
    ensures var n := Run(NewNet(cx), actions);
            var up, down := |StreamData(n.asked, id)|, |StreamData(n.answered, id)|;
            && up <= 65535 && down <= 65535
            && (id in n.client.e.streams ==> n.client.e.streams[id].sendWindow == 65535 - up)
            && (id in n.server.core.e.streams ==> n.server.core.e.streams[id].sendWindow == 65535 - down)
  {
    NewNetIsValid(cx);
    RunCounted(NewNet(cx), actions, id);
    RunKeeps(NewNet(cx), actions);
    var n := Run(NewNet(cx), actions);
    if id in n.client.e.streams {
      assert PlainStream(id, n.client.e.streams[id]);
    }
    if id in n.server.core.e.streams {
      assert PlainStream(id, n.server.core.e.streams[id]);
    }
  }
}
