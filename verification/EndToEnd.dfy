/**
 End-to-end delivery over whole runs of the joined system: what each side reports of what the other
 has sent, when that is everything, and what it is otherwise.
 */
module EndToEnd {
  import opened Bytes
  import opened Tables
  import opened HpackCoding
  import opened Frames
  import opened FrameCoding
  import opened FrameStreams
  import opened FlowControl
  import opened Endpoints
  import opened PlainTraffic
  import opened Channels
  import opened ServerLifecycle
  import opened Delivery
  import opened Network
  import C = ClientProtocol
  import S = ServerProtocol

  // ----- From the client to the server -----

  lemma NothingLeft(way: Way, e: Endpoint, last: nat, left: seq<Frame>, all: seq<Event>, coming: seq<Event>,
                    enc: TableView, next: nat)
    requires e.cx.Valid() && Delivering(way, e, last, left, all, coming, enc, next) && left == []
    ensures Messages(e.events) == all
  {
    assert all == Messages(e.events) + [];
  }

  lemma SmallLeft(w: seq<Frame>, taken: seq<Frame>, left: seq<Frame>)
    requires PlainLog(w, 16384) && w == taken + left
    ensures forall f :: f in left ==> Sendable(MAX_FRAME_SIZE, f) && |PayloadOf(f)| <= 16384
  {
    assert forall f :: f in left ==> f in w;
  }

  /** Once all bytes are there, the server takes everything the next time it looks. */
  lemma FramesTakeAll(n: Net, p: Progress)
    requires Shape(n) && ServerAt(n, p) && n.server.gotPreface && n.toServer == |n.client.Output()|
    ensures var s := S.ProcessFrames(n.server);
            s.input == [] && Messages(s.core.e.events) == n.asked
  {
    var p' := ProcessTakes(n, p);
    var n' := n.(server := S.ProcessFrames(n.server));
    var c, s := n.client, n'.server;
    OutputIs(c);
    SameRest(PREFACE, p'.received, StreamBytes(c.e.written));
    SmallLeft(c.e.written, p'.taken, p'.left);
    ReadingEnds(DEFAULT_MAX_FRAME_SIZE, c.e.written, p'.taken, p'.left, s.input);
    NothingLeft(Up, s.core.e, s.core.lastClientStreamId, p'.left, n.asked, p'.coming, c.e.enc.table, c.nextStreamId);
  }

  lemma ServerTakesAll(n: Net)
    requires Inv(n) && n.toServer == |n.client.Output()|
    ensures var s := S.Process(n.server);
            s.input == [] && Messages(s.core.e.events) == n.asked
  {
    var p :| ServerAt(n, p);
    var s, c := n.server, n.client;
    if s.gotPreface {
      FramesTakeAll(n, p);
    } else if c.prefaceAt.None? {
      NothingSent(n, p);
    } else {
      StartTakesAll(n, p);
    }
  }

  /** Before the client has sent its preface there is nothing to take. */
  lemma NothingSent(n: Net, p: Progress)
    requires Shape(n) && ServerAt(n, p) && n.client.prefaceAt.None? && n.toServer == |n.client.Output()|
    ensures S.Process(n.server) == n.server && n.server.input == [] && Messages(n.server.core.e.events) == n.asked
  {
    var s, c := n.server, n.client;
    NothingOutput(c);
    PrefaceHasBytes();
    NothingLeft(Up, s.core.e, s.core.lastClientStreamId, p.left, n.asked, p.coming, c.e.enc.table, c.nextStreamId);
  }

  /** With the preface, the server takes everything behind it. */
  lemma StartTakesAll(n: Net, p: Progress)
    requires Shape(n) && ServerAt(n, p) && n.client.prefaceAt.Some? && !n.server.gotPreface
    requires n.toServer == |n.client.Output()|
    ensures var s := S.Process(n.server);
            s.input == [] && Messages(s.core.e.events) == n.asked
  {
    OutputIs(n.client);
    var p' := PrefaceArrives(n, p);
    AdmittedShape(n);
    FramesTakeAll(n.(server := Admitted(n.server)), p');
    assert S.Process(n.server) == S.ProcessFrames(Admitted(n.server));
  }

  // ----- From the server to the client -----

  lemma {:induction false} NothingCarried(frames: seq<Frame>)
    ensures Carrying(frames) == 0 <==> NoMessages(frames)
  {
    if frames != [] {
      NothingCarried(frames[1..]);
      assert frames == [frames[0]] + frames[1..];
    }
  }

  lemma NoBytes(frames: seq<Frame>)
    ensures StreamBytes(frames) == [] <==> frames == []
  {
    if frames != [] {
      assert |FrameBytes(frames[0])| >= FRAME_HEADER_SIZE;
    }
  }

  /** At least the messages from the first frame beyond the limit on are never reported. */
  lemma ClientTakesAtMost(n: Net, q: Progress)
    requires Shape(n) && ClientAt(n, q)
    ensures |Messages(n.client.e.events)| + Carrying(Beyond(n.server.core.e.written)) <= |n.answered|
  {
    PendingCounts(Down, n.client.e.cx, n.client.e.dec, 0, q.left, q.coming, n.server.core.e.enc.table, 0);
    BeyondTaken(q.taken, q.left);
    BeyondCarries(q.left);
  }

  /** Once all bytes are there, exactly those are missing, and their frames stay in the buffer. */
  lemma ClientTakesAll(n: Net, q: Progress)
    requires Shape(n) && ClientAt(n, q) && n.toClient == |n.server.Output()|
    ensures q.left == Beyond(n.server.core.e.written) && n.client.input == StreamBytes(q.left)
    ensures |Messages(n.client.e.events)| + Carrying(q.left) == |n.answered|
  {
    var w := n.server.core.e.written;
    assert forall f :: f in q.left ==> f in w;
    ReadingEnds(DEFAULT_MAX_FRAME_SIZE, w, q.taken, q.left, n.client.input);
    BeyondTaken(q.taken, q.left);
    PendingCounts(Down, n.client.e.cx, n.client.e.dec, 0, q.left, q.coming, n.server.core.e.enc.table, 0);
  }

  // ----- Runs -----

  /**
   However the two sides are used and however their bytes are cut up on the way: the requests and the
   data that the server has reported are the first of those that the client sent, in the same order
   and with the same identifiers, headers, bytes and ends; and once all bytes have arrived, the next
   look at the buffer empties it and they are all reported.
   */
  lemma ServerReceives(cx: Codec, actions: seq<Network.Action>)
    requires cx.Valid() && AllAllowed(NewNet(cx), actions)
    ensures var n := Network.Run(NewNet(cx), actions);
            && Messages(n.server.core.e.events) <= n.asked
            && (n.toServer == |n.client.Output()| ==>
                  var s := S.Process(n.server);
                  s.input == [] && Messages(s.core.e.events) == n.asked)
  {
    NewNetIsValid(cx);
    RunKeeps(NewNet(cx), actions);
    var n := Network.Run(NewNet(cx), actions);
    var p :| ServerAt(n, p);
    if n.toServer == |n.client.Output()| {
      ServerTakesAll(n);
    }
  }

  /**
   The response headers and the data that the client has reported are the first of those that the
   server sent. Those from the first frame above 16384 bytes on are never among them, and once all
   bytes have arrived exactly those are missing and their frames are what the buffer holds.
   */
  lemma ClientReceives(cx: Codec, actions: seq<Network.Action>)
    requires cx.Valid() && AllAllowed(NewNet(cx), actions)
    ensures var n := Network.Run(NewNet(cx), actions);
            var reported, stuck := Messages(n.client.e.events), Beyond(n.server.core.e.written);
            && reported <= n.answered && |reported| + Carrying(stuck) <= |n.answered|
            && (n.toClient == |n.server.Output()| ==>
                  |reported| + Carrying(stuck) == |n.answered| && n.client.input == StreamBytes(stuck))
  {
    NewNetIsValid(cx);
    RunKeeps(NewNet(cx), actions);
    var n := Network.Run(NewNet(cx), actions);
    var q :| ClientAt(n, q);
    ClientTakesAtMost(n, q);
    if n.toClient == |n.server.Output()| {
      ClientTakesAll(n, q);
    }
  }

  /**
   So, once all bytes have arrived: the client's buffer is empty exactly if the server wrote no frame
   above 16384 bytes, and everything is reported exactly if no message is in or behind such a frame.
   */
  lemma ClientReceivesExactly(cx: Codec, actions: seq<Network.Action>)
    requires cx.Valid() && AllAllowed(NewNet(cx), actions)
    ensures var n := Network.Run(NewNet(cx), actions);
            var w := n.server.core.e.written;
            n.toClient == |n.server.Output()| ==>
              && (n.client.input == [] <==> NoneTooLarge(w))
              && (Messages(n.client.e.events) == n.answered <==> NoMessages(Beyond(w)))
  {
    ClientReceives(cx, actions);
    var w := Network.Run(NewNet(cx), actions).server.core.e.written;
    NothingBeyond(w);
    NoBytes(Beyond(w));
    NothingCarried(Beyond(w));
  }

  // ----- What keeps the frames small -----

  /** The frame that a server's send writes is within the limit exactly if the data or one of the windows is. */
  lemma ServerFrameSize(s: S.Server, id: u32, data: seq<byte>, endStream: bool)
    requires S.SendData(s, id, data, endStream).1.Sent?
    ensures var e, w := s.core.e, S.SendData(s, id, data, endStream).0.core.e.written;
            && |w| == |e.written| + 1
            && (!TooLarge(w[|e.written|]) <==>
                  |data| <= 16384 || AsUsize(e.flow.window) <= 16384 || AsUsize(e.streams[id].sendWindow) <= 16384)
  {
    var e := s.core.e;
    var (e', outcome) := e.SendData(id, data, endStream, |data|);
    SendPosts(e, id, data, endStream, |data|);
    assert |data[..outcome.count]| == outcome.count;
  }

  /** The server's callers pass no more than fits a frame of the announced size. */
  ghost predicate Careful(n: Net, a: Network.Action)
    requires Coded(n)
  {
    match a
    case Respond(_, headers, _) => BlockFits(n.server.core.e, headers, 16384)
    case ServerSend(_, data, _) => |data| <= 16384
    case ServerGoAway(_, debug) => |debug| <= 16384 - 8
    case _ => true
  }

  ghost predicate AllCareful(n: Net, actions: seq<Network.Action>)
    requires Coded(n)
    decreases |actions|
  {
    actions == [] || (Careful(n, actions[0]) && AllCareful(Network.Step(n, actions[0]), actions[1..]))
  }

  lemma ProcessSmall(n: Net)
    requires Inv(n) && Plain(n.server.core.e, 16384)
    ensures Plain(S.Process(n.server).core.e, 16384)
  {
    var p :| ServerAt(n, p);
    var s := n.server;
    if s.gotPreface {
      var rest := ServerReads(n, p);
      ServerFramesPlain(s.core, DecodeAll(DEFAULT_MAX_FRAME_SIZE, s.input).frames, 16384);
    } else if |s.input| >= |PREFACE| {
      StartSmall(n, p);
    }
  }

  lemma StartSmall(n: Net, p: Progress)
    requires Shape(n) && ServerAt(n, p) && Plain(n.server.core.e, 16384)
    requires !n.server.gotPreface && |n.server.input| >= |PREFACE|
    ensures Plain(S.Process(n.server).core.e, 16384)
  {
    var a := Admitted(n.server);
    var p' := PrefaceArrives(n, p);
    AdmittedShape(n);
    var rest := ServerReads(n.(server := a), p');
    AnnouncedPlain(n.server.core.e, 16384);
    ServerFramesPlain(a.core, DecodeAll(DEFAULT_MAX_FRAME_SIZE, a.input).frames, 16384);
    assert S.Process(n.server) == S.ProcessFrames(a);
  }

  lemma RespondSmall(s: S.Server, id: u32, headers: seq<HeaderField>, endStream: bool)
    requires s.core.e.cx.Valid() && Plain(s.core.e, 16384) && BlockFits(s.core.e, headers, 16384)
    ensures Plain(S.SendHeaders(s, id, headers, endStream).0.core.e, 16384)
  {
    var e := s.core.e;
    if id in e.streams {
      assert PlainStream(id, e.streams[id]);
      HeadersPlain(e, id, headers, endStream, 16384);
      PlainStreamsUpdate(e.streams, id, e.streams[id].SendEndStream());
    }
  }

  lemma SendSmall(s: S.Server, id: u32, data: seq<byte>, endStream: bool)
    requires Plain(s.core.e, 16384) && s.core.e.flow.consumed + |data| <= MOST_CONSUMED && |data| <= 16384
    ensures Plain(S.SendData(s, id, data, endStream).0.core.e, 16384)
  {
    SendPlain(s.core.e, id, data, endStream, |data|, 16384);
  }

  lemma NoticesSmall(s: S.Server, id: u32, code: u32, debug: seq<byte>)
    requires Plain(s.core.e, 16384)
    ensures |debug| <= 16384 - 8 ==> Plain(S.SendGoAway(s, code, debug).core.e, 16384)
    ensures IsStream(id) ==> Plain(S.ResetStream(s, id, code).core.e, 16384)
  {
    var e := s.core.e;
    if |debug| <= 16384 - 8 {
      PlainLogPush(e.written, GoAwayFrame(Mask31(s.core.lastClientStreamId), code, debug), 16384);
    }
    if IsStream(id) {
      PlainLogPush(e.written, RstStreamFrame(id, code), 16384);
      if id in e.streams {
        PlainStreamsUpdate(e.streams, id, e.streams[id].Reset());
      }
    }
  }

  lemma ServerCallSmall(n: Net, a: Network.Action)
    requires Coded(n) && Plain(n.server.core.e, 16384) && Allowed(n, a) && Careful(n, a)
    requires a.Respond? || a.ServerSend? || a.ServerGoAway? || a.ServerReset?
    ensures Plain(Network.Step(n, a).server.core.e, 16384)
  {
    match a
    case Respond(id, headers, endStream) => RespondSmall(n.server, id, headers, endStream);
    case ServerSend(id, data, endStream) => SendSmall(n.server, id, data, endStream);
    case ServerGoAway(code, debug) => NoticesSmall(n.server, 1, code, debug);
    case ServerReset(id, code) => NoticesSmall(n.server, id, code, []);
  }

  lemma RemoveSmall(s: S.Server, id: u32)
    requires Plain(s.core.e, 16384)
    ensures Plain(S.RemoveStream(s, id).core.e, 16384)
  {
  }

  lemma ServerUntouched(n: Net, a: Network.Action)
    requires Coded(n) && (a.ClientReady? || a.Ask? || a.ClientSend? || a.ToServer? || a.ToClient?)
    ensures Network.Step(n, a).server.core == n.server.core
  {
  }

  lemma StepSmall(n: Net, a: Network.Action)
    requires Inv(n) && Plain(n.server.core.e, 16384) && Allowed(n, a) && Careful(n, a)
    ensures Plain(Network.Step(n, a).server.core.e, 16384)
  {
    if a.ServerProcess? {
      ProcessSmall(n);
    } else if a.Respond? || a.ServerSend? || a.ServerGoAway? || a.ServerReset? {
      ServerCallSmall(n, a);
    } else if a.ServerRemove? {
      RemoveSmall(n.server, a.id);
    } else {
      ServerUntouched(n, a);
    }
  }

  lemma {:induction false} RunSmall(n: Net, actions: seq<Network.Action>)
    requires Inv(n) && Plain(n.server.core.e, 16384) && AllAllowed(n, actions) && AllCareful(n, actions)
    ensures Plain(Network.Run(n, actions).server.core.e, 16384)
    decreases |actions|
  {
    if actions != [] {
      StepSmall(n, actions[0]);
      StepKeeps(n, actions[0]);
      RunSmall(Network.Step(n, actions[0]), actions[1..]);
    }
  }

  /** With a server whose callers pass no more than fits a frame, all that it sent is reported in the end. */
  lemma CarefulClientReceives(cx: Codec, actions: seq<Network.Action>)
    requires cx.Valid() && AllAllowed(NewNet(cx), actions) && AllCareful(NewNet(cx), actions)
    ensures var n := Network.Run(NewNet(cx), actions);
            n.toClient == |n.server.Output()| ==> n.client.input == [] && Messages(n.client.e.events) == n.answered
  {
    NewNetIsValid(cx);
    RunSmall(NewNet(cx), actions);
    ClientReceivesExactly(cx, actions);
    NothingBeyond(Network.Run(NewNet(cx), actions).server.core.e.written);
  }

  // ----- Requests alone, and the bytes of one stream -----

  /** The data among these events on one stream, put together. */
  function StreamData(events: seq<Event>, id: u32): seq<byte> {
    if events == [] then []
    else StreamData(events[..|events| - 1], id) + DataOf(events[|events| - 1], id)
  }

  function DataOf(event: Event, id: u32): seq<byte> {
    if event.Data? && event.streamId == id then event.data else []
  }

  lemma StreamDataPush(events: seq<Event>, id: u32, event: Event)
    ensures StreamData(events + [event], id) == StreamData(events, id) + DataOf(event, id)
  {
    assert (events + [event])[..|events|] == events;
  }

  lemma {:induction false} FromMessages(events: seq<Event>, id: u32)
    ensures StreamData(Messages(events), id) == StreamData(events, id)
    ensures Requests(Messages(events)) == Requests(events)
  {
    if events != [] {
      var earlier, last := events[..|events| - 1], events[|events| - 1];
      FromMessages(earlier, id);
      if IsMessage(last) {
        StreamDataPush(Messages(earlier), id, last);
        RequestsPush(Messages(earlier), last);
      }
    }
  }

  /** A first part of the messages holds a first part of the requests, and of the bytes. */
  lemma {:induction false} FirstPart(all: seq<Event>, first: seq<Event>, id: u32)
    requires first <= all
    ensures StreamData(first, id) <= StreamData(all, id)
    ensures Requests(first) <= Requests(all)
    decreases |all|
  {
    if first != all {
      FirstPart(all[..|all| - 1], first, id);
    }
  }

  /** The requests reported are the first of those that the client started, and in the end all of them. */
  lemma RequestsDelivered(cx: Codec, actions: seq<Network.Action>)
    requires cx.Valid() && AllAllowed(NewNet(cx), actions)
    ensures var n := Network.Run(NewNet(cx), actions);
            && Requests(n.server.core.e.events) <= Requests(n.asked)
            && (n.toServer == |n.client.Output()| ==> Requests(S.Process(n.server).core.e.events) == Requests(n.asked))
  {
    ServerReceives(cx, actions);
    var n := Network.Run(NewNet(cx), actions);
    FromMessages(n.server.core.e.events, 0);
    FromMessages(S.Process(n.server).core.e.events, 0);
    FirstPart(n.asked, Messages(n.server.core.e.events), 0);
  }

  lemma {:induction false} StreamDataAppend(a: seq<Event>, b: seq<Event>, id: u32)
    ensures StreamData(a + b, id) == StreamData(a, id) + StreamData(b, id)
    decreases |b|
  {
    if b == [] {
      assert a + b == a;
    } else {
      var init, last := b[..|b| - 1], b[|b| - 1];
      StreamDataAppend(a, init, id);
      assert a + b == (a + init) + [last];
      StreamDataPush(a + init, id, last);
      AppendAssociates(StreamData(a, id), StreamData(init, id), DataOf(last, id));
    }
  }

  /** The data in these frames on one stream. */
  function FrameData(frames: seq<Frame>, id: u32): seq<byte> {
    if frames == [] then []
    else (if frames[0].DataFrame? && frames[0].streamId == id then frames[0].data else []) + FrameData(frames[1..], id)
  }

  lemma OneData(event: Event, id: u32)
    ensures StreamData([event], id) == DataOf(event, id)
  {
    StreamDataPush([], id, event);
    assert [] + [event] == [event];
  }

  lemma {:induction false} PendingData(cx: Codec, dec: TableView, last: nat, frames: seq<Frame>, coming: seq<Event>,
                                       enc: TableView, id: u32)
    requires cx.Valid() && Pending(Down, cx, dec, last, frames, coming, enc, 0)
    ensures StreamData(coming, id) == FrameData(frames, id)
    decreases |frames|
  {
    if frames != [] {
      var f := frames[0];
      var dec' := if f.HeadersFrame? then BlockOf(cx, dec, DEFAULT_TABLE_SIZE, f.block).0 else dec;
      var last' := if f.HeadersFrame? then f.streamId else last;
      PendingData(cx, dec', last', frames[1..], if Carries(f) then coming[1..] else coming, enc, id);
      if Carries(f) {
        assert coming == [coming[0]] + coming[1..];
        StreamDataAppend([coming[0]], coming[1..], id);
        OneData(coming[0], id);
      }
    }
  }

  lemma ClientDataAll(n: Net, q: Progress, id: u32)
    requires Shape(n) && ClientAt(n, q) && n.toClient == |n.server.Output()|
    ensures StreamData(n.client.e.events, id) + FrameData(Beyond(n.server.core.e.written), id)
            == StreamData(n.answered, id)
  {
    ClientTakesAll(n, q);
    var e := n.client.e;
    FromMessages(e.events, id);
    StreamDataAppend(Messages(e.events), q.coming, id);
    PendingData(e.cx, e.dec, 0, q.left, q.coming, n.server.core.e.enc.table, id);
  }

  /**
   The bytes received on a stream are the first of those sent on it, either way. In the end they are
   all of them at the server; at the client all but those from the first frame above 16384 bytes on.
   */
  lemma DataDelivered(cx: Codec, actions: seq<Network.Action>, id: u32)
    requires cx.Valid() && AllAllowed(NewNet(cx), actions)
    ensures var n := Network.Run(NewNet(cx), actions);
            && StreamData(n.server.core.e.events, id) <= StreamData(n.asked, id)
            && StreamData(n.client.e.events, id) <= StreamData(n.answered, id)
            && (n.toServer == |n.client.Output()| ==>
                  StreamData(S.Process(n.server).core.e.events, id) == StreamData(n.asked, id))
            && (n.toClient == |n.server.Output()| ==>
                  StreamData(n.client.e.events, id) + FrameData(Beyond(n.server.core.e.written), id)
                  == StreamData(n.answered, id))
  {
    ServerReceives(cx, actions);
    ClientReceives(cx, actions);
    NewNetIsValid(cx);
    RunKeeps(NewNet(cx), actions);
    var n := Network.Run(NewNet(cx), actions);
    var q :| ClientAt(n, q);
    if n.toClient == |n.server.Output()| {
      ClientDataAll(n, q, id);
    }
    FromMessages(n.server.core.e.events, id);
    FromMessages(S.Process(n.server).core.e.events, id);
    FromMessages(n.client.e.events, id);
    FirstPart(n.asked, Messages(n.server.core.e.events), id);
    FirstPart(n.answered, Messages(n.client.e.events), id);
  }
}
