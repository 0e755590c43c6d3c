/** The joined system: a client, a server, and how far each has been read by the other. */
module Network {
  import opened Bytes
  import opened PrefixCodes
  import opened Tables
  import opened HpackCoding
  import opened Frames
  import opened FrameCoding
  import opened FrameStreams
  import opened Endpoints
  import opened PlainTraffic
  import opened Channels
  import C = ClientProtocol
  import S = ServerProtocol
  import opened Delivery

  /**
   `toServer` and `toClient` count the bytes delivered; `asked` are the requests and the data that
   the client sent, `answered` the response headers, the data and the notices that the server sent.
   */
  datatype Net = Net(
    client: C.Client, server: S.Server, toServer: nat, toClient: nat, asked: seq<Event>, answered: seq<Event>)

  datatype Action =
    | ClientReady
    | Ask(headers: seq<HeaderField>, endStream: bool)
    | ClientSend(id: u32, data: seq<byte>, endStream: bool)
    | ToServer(count: nat)
    | ServerProcess
    | ToClient(count: nat)
    | Respond(id: u32, headers: seq<HeaderField>, endStream: bool)
    | ServerSend(id: u32, data: seq<byte>, endStream: bool)
    | ServerGoAway(errorCode: u32, debugData: seq<byte>)
    | ServerReset(id: u32, errorCode: u32)
    | ServerRemove(id: u32)

  /** How far the reader gets when `count` more bytes are delivered. */
  function Reach(output: seq<byte>, read: nat, count: nat): (end: nat) {
    if read + count <= |output| then read + count
    else if read <= |output| then |output|
    else read
  }

  function Piece(output: seq<byte>, from: nat, to: nat): seq<byte> {
    if from <= to <= |output| then output[from..to] else []
  }

  ghost predicate Coded(n: Net) {
    n.client.e.cx.Valid() && n.server.core.e.cx.Valid()
  }

  function NewNet(cx: Codec): Net {
    Net(C.NewClient(cx), S.NewServer(cx), 0, 0, [], [])
  }

  /** What a send sends: as much of the data as went out, and the end of the stream only with the end of the data. */
  function Posted(id: u32, data: seq<byte>, endStream: bool, outcome: SendOutcome): seq<Event> {
    if outcome.Sent? && outcome.count <= |data| then
      [Data(id, data[..outcome.count], endStream && outcome.count == |data|)]
    else []
  }

  ghost function Act(n: Net, a: S.Action): (n': Net)
    requires Coded(n)
    ensures Coded(n')
  {
    n.(server := S.Step(n.server, a))
  }

  ghost function Step(n: Net, a: Action): (n': Net)
    requires Coded(n)
    ensures Coded(n')
  {
    match a
    case ClientReady => n.(client := C.Step(n.client, C.DoReady))
    case Ask(headers, endStream) =>
      var (client, id) := C.StartRequest(n.client, headers, endStream);
      n.(client := client, asked := if id.Some? then n.asked + [Request(id.value, headers, endStream)] else n.asked)
    case ClientSend(id, data, endStream) =>
      var (client, outcome) := C.SendData(n.client, id, data, endStream);
      n.(client := client, asked := n.asked + Posted(id, data, endStream, outcome))
    case ToServer(count) =>
      var end := Reach(n.client.Output(), n.toServer, count);
      Act(n, S.DoReceive(Piece(n.client.Output(), n.toServer, end))).(toServer := end)
    case ServerProcess => Act(n, S.DoProcess)
    case ToClient(count) =>
      var end := Reach(n.server.Output(), n.toClient, count);
      n.(client := C.Step(n.client, C.DoFeed(Piece(n.server.Output(), n.toClient, end))), toClient := end)
    case Respond(id, headers, endStream) =>
      var (server, found) := S.SendHeaders(n.server, id, headers, endStream);
      n.(server := server, answered := if found then n.answered + [Headers(id, headers, endStream)] else n.answered)
    case ServerSend(id, data, endStream) =>
      var (server, outcome) := S.SendData(n.server, id, data, endStream);
      n.(server := server, answered := n.answered + Posted(id, data, endStream, outcome))
    case ServerGoAway(code, debug) =>
      Act(n, S.DoGoAway(code, debug))
        .(answered := n.answered + [GoAway(LastRequest(n.server.core.e.events), code)])
    case ServerReset(id, code) => Act(n, S.DoReset(id, code)).(answered := n.answered + [StreamReset(id, code)])
    case ServerRemove(id) => Act(n, S.DoRemove(id))
  }

  ghost function Run(n: Net, actions: seq<Action>): (n': Net)
    requires Coded(n)
    ensures Coded(n')
    decreases |actions|
  {
    if actions == [] then n else Run(Step(n, actions[0]), actions[1..])
  }

  predicate BlockFits(e: Endpoint, headers: seq<HeaderField>, most: nat)
    requires |e.cx.huffman| == SYMBOLS
  {
    |BlockBytes(e.cx, e.enc.table, e.enc.useHuffman, headers).1| <= most
  }

  /**
   What the callers have to respect: header blocks that fit a frame, stream identifiers that have
   not run out, less than 2^31 - 16384 bytes waiting to be credited, and proper arguments.
   */
  ghost predicate Allowed(n: Net, a: Action)
    requires Coded(n)
  {
    match a
    case Ask(headers, _) => n.client.nextStreamId < 0x8000_0000 && BlockFits(n.client.e, headers, 16384)
    case ClientSend(_, data, _) => n.client.e.flow.consumed + |data| <= MOST_CONSUMED
    case Respond(_, headers, _) => BlockFits(n.server.core.e, headers, MAX_FRAME_SIZE)
    case ServerSend(_, data, _) => n.server.core.e.flow.consumed + |data| <= MOST_CONSUMED
    case ServerGoAway(_, debug) => |debug| <= MAX_FRAME_SIZE - 8
    case ServerReset(id, _) => IsStream(id)
    case _ => true
  }

  ghost predicate AllAllowed(n: Net, actions: seq<Action>)
    requires Coded(n)
    decreases |actions|
  {
    actions == [] || (Allowed(n, actions[0]) && AllAllowed(Step(n, actions[0]), actions[1..]))
  }

  // ----- The invariant -----

  /** Frames that a client answers with nothing; a server that has not seen the preface writes no others. */
  predicate Silent(f: Frame) {
    f.GoAwayFrame? || f.RstStreamFrame?
  }

  ghost predicate AllSilent(frames: seq<Frame>) {
    forall f :: f in frames ==> Silent(f)
  }

  ghost predicate ClientOk(c: C.Client) {
    && Plain(c.e, 16384) && c.nextStreamId % 2 == 1
    && match c.prefaceAt
       case None => c.e.written == [] && c.e.streams == map[] && c.e.state in {WaitingPreface, Draining}
       case Some(at) => at == 0 && c.e.state != WaitingPreface
  }

  ghost predicate ServerOk(s: S.Server) {
    Plain(s.core.e, MAX_FRAME_SIZE) && (!s.gotPreface ==> AllSilent(s.core.e.written) && s.core.e.streams == map[])
  }

  /** How far a reader has got: frames taken, frames to come, the bytes given to it, and messages to come. */
  datatype Progress = Progress(taken: seq<Frame>, left: seq<Frame>, received: seq<byte>, coming: seq<Event>)

  /** The server has taken the first of the frames that the client wrote, and nothing is lost or reordered. */
  ghost predicate ServerAt(n: Net, p: Progress)
    requires n.server.core.e.cx.Valid() && n.toServer <= |n.client.Output()|
  {
    && Delivering(Up, n.server.core.e, n.server.core.lastClientStreamId, p.left, n.asked, p.coming,
                  n.client.e.enc.table, n.client.nextStreamId)
    && if n.server.gotPreface then
         && Reading(n.client.e.written, p.taken, p.left, n.server.input, p.received)
         && PREFACE + p.received == n.client.Output()[..n.toServer]
       else
         p.left == n.client.e.written && n.server.input == n.client.Output()[..n.toServer]
  }

  /** So has the client of the frames that the server wrote. */
  ghost predicate ClientAt(n: Net, q: Progress)
    requires n.client.e.cx.Valid() && n.toClient <= |n.server.Output()|
  {
    && Delivering(Down, n.client.e, 0, q.left, n.answered, q.coming, n.server.core.e.enc.table, 0)
    && Reading(n.server.core.e.written, q.taken, q.left, n.client.input, q.received)
    && q.received == n.server.Output()[..n.toClient]
    && Settled(q.taken, n.client.input)
  }

  /** A client has taken all that it can take, and nothing that is beyond its limit. */
  ghost predicate Settled(taken: seq<Frame>, input: seq<byte>) {
    NoneTooLarge(taken) && !DecodeFrame(DEFAULT_MAX_FRAME_SIZE, input).Parsed?
  }

  ghost predicate Shape(n: Net) {
    && n.client.e.cx.Valid() && n.server.core.e.cx == n.client.e.cx
    && ClientOk(n.client) && ServerOk(n.server)
    && n.toServer <= |n.client.Output()| && n.toClient <= |n.server.Output()|
    && (n.client.prefaceAt.None? ==> !n.server.gotPreface)
  }

  ghost predicate Inv(n: Net) {
    Shape(n) && (exists p :: ServerAt(n, p)) && (exists q :: ClientAt(n, q))
  }

  // ----- What has been written stays written -----

  lemma OutputIs(c: C.Client)
    requires c.prefaceAt == Some(0)
    ensures c.Output() == PREFACE + StreamBytes(c.e.written)
  {
    assert c.e.written[..0] == [] && c.e.written[0..] == c.e.written;
    assert [] + PREFACE == PREFACE;
  }

  lemma ClientOutputGrows(c: C.Client, c': C.Client)
    requires c.prefaceAt == c'.prefaceAt == Some(0) && c.e.written <= c'.e.written
    ensures c.Output() <= c'.Output()
  {
    OutputIs(c);
    OutputIs(c');
    StreamBytesGrow(c.e.written, c'.e.written);
  }

  lemma SameStart<T>(a: seq<T>, b: seq<T>, n: nat)
    requires a <= b && n <= |a|
    ensures a[..n] == b[..n]
  {
  }

  // ----- One side stays as it is -----

  /** The server has not read anything, and the client has not written. */
  lemma ServerAtKept(n: Net, n': Net, p: Progress)
    requires Shape(n) && ServerAt(n, p)
    requires n'.client.e.written == n.client.e.written && n'.client.prefaceAt == n.client.prefaceAt
    requires n'.client.e.enc == n.client.e.enc && n'.client.nextStreamId == n.client.nextStreamId
    requires n'.toServer == n.toServer && n'.asked == n.asked
    requires n'.server.input == n.server.input && n'.server.gotPreface == n.server.gotPreface
    requires n'.server.core.lastClientStreamId == n.server.core.lastClientStreamId
    requires SameReception(n.server.core.e, n'.server.core.e)
    ensures n'.toServer <= |n'.client.Output()| && ServerAt(n', p)
  {
  }

  /** The client has not read anything, and the server has not written. */
  lemma ClientAtKept(n: Net, n': Net, q: Progress)
    requires Shape(n) && ClientAt(n, q)
    requires n'.server.core.e.written == n.server.core.e.written && n'.server.core.e.enc == n.server.core.e.enc
    requires n'.toClient == n.toClient && n'.answered == n.answered && n'.client.input == n.client.input
    requires SameReception(n.client.e, n'.client.e)
    ensures n'.toClient <= |n'.server.Output()| && ClientAt(n', q)
  {
  }

  /** The server wrote `more`, and perhaps a message came with it. */
  lemma ClientAtMore(n: Net, n': Net, q: Progress, more: seq<Frame>, coming': seq<Event>)
    requires Shape(n) && ClientAt(n, q)
    requires n'.client == n.client && n'.toClient == n.toClient
    requires n'.server.core.e.written == n.server.core.e.written + more
    requires Delivering(Down, n.client.e, 0, q.left + more, n'.answered, coming', n'.server.core.e.enc.table, 0)
    ensures n'.toClient <= |n'.server.Output()|
    ensures ClientAt(n', q.(left := q.left + more, coming := coming'))
  {
    var w, w' := n.server.core.e.written, n'.server.core.e.written;
    StreamBytesGrow(w, w');
    SameStart(n.server.Output(), n'.server.Output(), n.toClient);
    ReadingGrows(w, q.taken, q.left, n.client.input, q.received, more);
  }

  /** The server wrote frames that carry no message. */
  lemma ClientAtOthers(n: Net, n': Net, q: Progress) returns (q': Progress)
    requires Shape(n) && ClientAt(n, q)
    requires n'.client == n.client && n'.toClient == n.toClient && n'.answered == n.answered
    requires Adds(n.server.core.e, n'.server.core.e)
    ensures n'.toClient <= |n'.server.Output()| && ClientAt(n', q')
  {
    var more := AddedFrames(n.server.core.e, n'.server.core.e);
    var e := n.client.e;
    PendingOthers(Down, e.cx, e.dec, 0, q.left, q.coming, n.server.core.e.enc.table, 0, more);
    ClientAtMore(n, n', q, more, q.coming);
    q' := q.(left := q.left + more);
  }

  /** The client wrote `more`, and perhaps a message came with it. */
  lemma ServerAtMore(n: Net, n': Net, p: Progress, more: seq<Frame>, coming': seq<Event>)
    requires Shape(n) && ServerAt(n, p)
    requires n'.server == n.server && n'.toServer == n.toServer
    requires n'.client.prefaceAt == n.client.prefaceAt == Some(0)
    requires n'.client.e.written == n.client.e.written + more
    requires Delivering(Up, n.server.core.e, n.server.core.lastClientStreamId, p.left + more, n'.asked, coming',
                        n'.client.e.enc.table, n'.client.nextStreamId)
    ensures n'.toServer <= |n'.client.Output()|
    ensures ServerAt(n', p.(left := p.left + more, coming := coming'))
  {
    ClientOutputGrows(n.client, n'.client);
    SameStart(n.client.Output(), n'.client.Output(), n.toServer);
    if n.server.gotPreface {
      ReadingGrows(n.client.e.written, p.taken, p.left, n.server.input, p.received, more);
    }
  }

  /** The client wrote frames that carry no message. */
  lemma ServerAtOthers(n: Net, n': Net, p: Progress) returns (p': Progress)
    requires Shape(n) && ServerAt(n, p)
    requires n'.server == n.server && n'.toServer == n.toServer && n'.asked == n.asked
    requires n'.client.prefaceAt == n.client.prefaceAt == Some(0)
    requires n'.client.nextStreamId == n.client.nextStreamId && Adds(n.client.e, n'.client.e)
    ensures n'.toServer <= |n'.client.Output()| && ServerAt(n', p')
  {
    var more := AddedFrames(n.client.e, n'.client.e);
    var s := n.server.core;
    PendingOthers(Up, s.e.cx, s.e.dec, s.lastClientStreamId, p.left, p.coming, n.client.e.enc.table,
      n.client.nextStreamId, more);
    ServerAtMore(n, n', p, more, p.coming);
    p' := p.(left := p.left + more);
  }

  // ----- The client acts -----

  lemma NothingOutput(c: C.Client)
    requires c.prefaceAt.None? && c.e.written == []
    ensures c.Output() == []
  {
  }

  /** The settings that follow the preface are the first frame on the way. */
  lemma PrefaceKeeps(n: Net, p: Progress) returns (p': Progress)
    requires Shape(n) && ServerAt(n, p) && n.client.e.state == WaitingPreface
    ensures var n' := Step(n, ClientReady);
            Shape(n') && ServerAt(n', p')
  {
    var n' := Step(n, ClientReady);
    AnnouncedPlain(n.client.e, 16384);
    NothingOutput(n.client);
    var s := n.server.core;
    PendingOthers(Up, s.e.cx, s.e.dec, s.lastClientStreamId, p.left, p.coming,
                  n.client.e.enc.table, n.client.nextStreamId, [LOCAL_SETTINGS]);
    p' := p.(left := p.left + [LOCAL_SETTINGS]);
  }

  lemma ReadyKeeps(n: Net)
    requires Inv(n)
    ensures Inv(Step(n, ClientReady))
  {
    var n' := Step(n, ClientReady);
    var p :| ServerAt(n, p);
    var q :| ClientAt(n, q);
    if n.client.e.state == WaitingPreface {
      var p' := PrefaceKeeps(n, p);
    } else {
      assert n' == n;
    }
    ClientAtKept(n, n', q);
  }

  lemma RequestIsPlain(c: C.Client, headers: seq<HeaderField>, endStream: bool)
    requires c.e.cx.Valid() && ClientOk(c) && c.e.state == ConnectionState.Open
    requires c.nextStreamId < 0x8000_0000 && BlockFits(c.e, headers, 16384)
    ensures ClientOk(C.StartRequest(c, headers, endStream).0)
  {
    OpenPlain(c.e, c.nextStreamId, 16384);
    HeadersPlain(c.e.OpenStream(c.nextStreamId), c.nextStreamId, headers, endStream, 16384);
  }

  /** What starting a request comes to while the identifiers last. */
  lemma Started(c: C.Client, headers: seq<HeaderField>, endStream: bool)
    requires c.e.cx.Valid() && ClientOk(c) && c.e.state == ConnectionState.Open && c.nextStreamId < 0x8000_0000
    ensures c.prefaceAt == Some(0)
    ensures var (table, block) := BlockBytes(c.e.cx, c.e.enc.table, c.e.enc.useHuffman, headers);
            var (c', id) := C.StartRequest(c, headers, endStream);
            && id == Some(c.nextStreamId) && c'.nextStreamId == c.nextStreamId + 2 && c'.prefaceAt == c.prefaceAt
            && c'.e.enc.table == table && SameReception(c.e, c'.e) && c'.input == c.input
            && c'.e.written == c.e.written + [HeadersFrame(c.nextStreamId, endStream, true, None, block)]
  {
  }

  /** A request joins the end of the queue. */
  lemma RequestKeeps(n: Net, n': Net, p: Progress, headers: seq<HeaderField>, endStream: bool) returns (p': Progress)
    requires Shape(n) && ServerAt(n, p) && BlockFits(n.client.e, headers, 16384) && n.client.nextStreamId < 0x8000_0000
    requires n' == n.(client := n'.client, asked := n.asked + [Request(n.client.nextStreamId, headers, endStream)])
    requires n.client.prefaceAt == n'.client.prefaceAt == Some(0) && n'.client.nextStreamId == n.client.nextStreamId + 2
    requires var e := n.client.e;
             var (table, block) := BlockBytes(e.cx, e.enc.table, e.enc.useHuffman, headers);
             && n'.client.e.enc.table == table
             && n'.client.e.written == e.written + [HeadersFrame(n.client.nextStreamId, endStream, true, None, block)]
    ensures n'.toServer <= |n'.client.Output()| && ServerAt(n', p')
  {
    var c, id, request := n.client, n.client.nextStreamId, Request(n.client.nextStreamId, headers, endStream);
    HeadersQueued(Up, n.server.core.e, n.server.core.lastClientStreamId, p.left, n.asked, p.coming, c.e.enc, id,
                  id, headers, endStream, id + 2);
    var f := HeadersFrame(id, endStream, true, None, BlockBytes(c.e.cx, c.e.enc.table, c.e.enc.useHuffman, headers).1);
    ServerAtMore(n, n', p, [f], p.coming + [request]);
    p' := p.(left := p.left + [f], coming := p.coming + [request]);
  }

  lemma AskKeeps(n: Net, headers: seq<HeaderField>, endStream: bool)
    requires Inv(n) && Allowed(n, Ask(headers, endStream))
    ensures Inv(Step(n, Ask(headers, endStream)))
  {
    var n' := Step(n, Ask(headers, endStream));
    var p :| ServerAt(n, p);
    var q :| ClientAt(n, q);
    if n.client.e.state == ConnectionState.Open {
      Started(n.client, headers, endStream);
      var p' := RequestKeeps(n, n', p, headers, endStream);
      RequestIsPlain(n.client, headers, endStream);
    } else {
      assert n' == n;
    }
    ClientAtKept(n, n', q);
  }

  /** What a send does: it writes one frame that carries what is posted, or it changes nothing. */
  lemma SendPosts(e: Endpoint, id: u32, data: seq<byte>, endStream: bool, most: nat)
    ensures var (e', outcome) := e.SendData(id, data, endStream, most);
            && SameReception(e, e') && e'.enc == e.enc
            && if outcome.Sent? then
                 && outcome.count <= |data|
                 && e'.written
                   == e.written + [DataFrame(id, endStream && outcome.count == |data|, data[..outcome.count])]
               else e' == e && Posted(id, data, endStream, outcome) == []
  {
  }

  /** Data joins the end of the queue. */
  lemma DataKeeps(n: Net, n': Net, p: Progress, id: u32, data: seq<byte>, endStream: bool) returns (p': Progress)
    requires Shape(n) && ServerAt(n, p) && n.client.prefaceAt.Some?
    requires n' == n.(client := n'.client, asked := n.asked + [Data(id, data, endStream)])
    requires n'.client == n.client.(e := n'.client.e) && n'.client.e.enc == n.client.e.enc
    requires n'.client.e.written == n.client.e.written + [DataFrame(id, endStream, data)]
    ensures n'.toServer <= |n'.client.Output()| && ServerAt(n', p')
  {
    var s, message := n.server.core, Data(id, data, endStream);
    MessageQueued(Up, s.e, s.lastClientStreamId, p.left, n.asked, p.coming, n.client.e.enc.table,
      n.client.nextStreamId, DataFrame(id, endStream, data), message);
    ServerAtMore(n, n', p, [DataFrame(id, endStream, data)], p.coming + [message]);
    p' := p.(left := p.left + [DataFrame(id, endStream, data)], coming := p.coming + [message]);
  }

  lemma NothingPosted(all: seq<Event>)
    ensures all + [] == all
  {
  }

  lemma ClientSendKeeps(n: Net, id: u32, data: seq<byte>, endStream: bool)
    requires Inv(n) && Allowed(n, ClientSend(id, data, endStream))
    ensures Inv(Step(n, ClientSend(id, data, endStream)))
  {
    var n' := Step(n, ClientSend(id, data, endStream));
    var p :| ServerAt(n, p);
    var q :| ClientAt(n, q);
    SendPosts(n.client.e, id, data, endStream, n.client.e.maxFrame);
    ClientAtKept(n, n', q);
    var p' := ClientPosts(n, n', p, id, data, endStream);
  }

  lemma ClientPosts(n: Net, n': Net, p: Progress, id: u32, data: seq<byte>, endStream: bool) returns (p': Progress)
    requires Shape(n) && ServerAt(n, p) && Allowed(n, ClientSend(id, data, endStream))
    requires n' == Step(n, ClientSend(id, data, endStream))
    ensures Shape(n') && ServerAt(n', p')
  {
    var outcome := C.SendData(n.client, id, data, endStream).1;
    SendPosts(n.client.e, id, data, endStream, n.client.e.maxFrame);
    if outcome.Sent? {
      var k := outcome.count;
      p' := DataKeeps(n, n', p, id, data[..k], endStream && k == |data|);
      SendPlain(n.client.e, id, data, endStream, 16384, 16384);
    } else {
      NothingPosted(n.asked);
      assert n' == n;
      p' := p;
    }
  }

  // ----- Bytes arrive at the server -----

  lemma PieceOf(out: seq<byte>, from: nat, to: nat)
    requires from <= to <= |out|
    ensures out[..to] == out[..from] + Piece(out, from, to)
  {
  }

  lemma ToServerKeeps(n: Net, count: nat)
    requires Inv(n)
    ensures Inv(Step(n, ToServer(count)))
  {
    var n' := Step(n, ToServer(count));
    var p :| ServerAt(n, p);
    var q :| ClientAt(n, q);
    var piece := Piece(n.client.Output(), n.toServer, n'.toServer);
    PieceOf(n.client.Output(), n.toServer, n'.toServer);
    if n.server.gotPreface {
      ReadingReceives(n.client.e.written, p.taken, p.left, n.server.input, p.received, piece);
      AppendAssociates(PREFACE, p.received, piece);
      assert ServerAt(n', p.(received := p.received + piece));
    } else {
      assert ServerAt(n', p);
    }
    ClientAtKept(n, n', q);
  }

  /** What is complete in the server's buffer are plain frames, the next of those that the client wrote. */
  lemma ServerReads(n: Net, p: Progress) returns (rest: seq<Frame>)
    requires Shape(n) && ServerAt(n, p) && n.server.gotPreface
    ensures var d := DecodeAll(DEFAULT_MAX_FRAME_SIZE, n.server.input);
            && p.left == d.frames + rest && PlainLog(d.frames, 16384) && d.error.None?
            && Reading(n.client.e.written, p.taken + d.frames, rest, d.tail, p.received)
            && !DecodeFrame(DEFAULT_MAX_FRAME_SIZE, d.tail).Parsed?
  {
    var w, s := n.client.e.written, n.server;
    var d := DecodeAll(DEFAULT_MAX_FRAME_SIZE, s.input);
    OutputIs(n.client);
    DropStart(PREFACE, p.received, StreamBytes(w));
    assert forall f :: f in p.left ==> f in w;
    rest := ReadingDecodes(DEFAULT_MAX_FRAME_SIZE, w, p.taken, p.left, s.input, p.received);
    assert forall f :: f in d.frames ==> f in p.left;
  }

  /** The server takes every frame that is complete in its buffer, and meets no error. */
  lemma ProcessTakes(n: Net, p: Progress) returns (p': Progress)
    requires Shape(n) && ServerAt(n, p) && n.server.gotPreface
    ensures var n' := n.(server := S.ProcessFrames(n.server));
            ServerOk(n'.server) && ServerAt(n', p') && Adds(n.server.core.e, n'.server.core.e)
    ensures !DecodeFrame(DEFAULT_MAX_FRAME_SIZE, S.ProcessFrames(n.server).input).Parsed?
  {
    var w, s := n.client.e.written, n.server;
    var d := DecodeAll(DEFAULT_MAX_FRAME_SIZE, s.input);
    var rest := ServerReads(n, p);
    var coming' := ServerFramesTaken(s.core, d.frames, rest, n.asked, p.coming, n.client.e.enc.table,
      n.client.nextStreamId);
    ServerFramesPlain(s.core, d.frames, MAX_FRAME_SIZE);
    p' := Progress(p.taken + d.frames, rest, p.received, coming');
  }

  lemma ProcessFramesKeeps(n: Net, p: Progress, q: Progress)
    requires Shape(n) && ServerAt(n, p) && ClientAt(n, q) && n.server.gotPreface
    ensures Inv(n.(server := S.ProcessFrames(n.server)))
  {
    var p' := ProcessTakes(n, p);
    var q' := ClientAtOthers(n, n.(server := S.ProcessFrames(n.server)), q);
  }

  lemma PrefaceHasBytes()
    ensures |PREFACE| == 24
  {
  }

  /** The server as it is once it has seen the preface. */
  ghost function Admitted(s: S.Server): S.Server
    requires |s.input| >= |PREFACE|
  {
    S.Server(s.core.(e := Announced(s.core.e)), true, s.input[|PREFACE|..])
  }

  /** The first bytes that arrive are the preface. */
  lemma PrefaceArrives(n: Net, p: Progress) returns (p': Progress)
    requires Shape(n) && ServerAt(n, p) && !n.server.gotPreface && |n.server.input| >= |PREFACE|
    ensures n.server.input[..|PREFACE|] == PREFACE
    ensures var n' := n.(server := Admitted(n.server));
            ServerOk(n'.server) && n.client.prefaceAt.Some? && ServerAt(n', p')
              && Adds(n.server.core.e, n'.server.core.e)
  {
    var s, w := n.server, n.client.e.written;
    PrefaceHasBytes();
    if n.client.prefaceAt.None? {
      NothingOutput(n.client);
      assert false;
    } else {
      OutputIs(n.client);
      var received := s.input[|PREFACE|..];
      assert s.input == PREFACE + received;
      AnnouncedPlain(s.core.e, MAX_FRAME_SIZE);
      NothingTaken(w, received);
      p' := Progress([], w, received, p.coming);
    }
  }

  lemma NothingTaken(w: seq<Frame>, input: seq<byte>)
    ensures Reading(w, [], w, input, input)
  {
    assert [] + w == w;
    assert [] + input == input;
  }

  /** What a look at the buffer comes to, if the first bytes are the preface. */
  ghost predicate Processed(n: Net, n': Net)
    requires Coded(n)
  {
    if n.server.gotPreface then n' == n.(server := S.ProcessFrames(n.server))
    else if |n.server.input| < |PREFACE| then n' == n
    else n.server.input[..|PREFACE|] == PREFACE ==> n' == n.(server := S.ProcessFrames(Admitted(n.server)))
  }

  lemma ProcessStep(n: Net)
    requires Coded(n)
    ensures Processed(n, Step(n, ServerProcess))
  {
  }

  lemma ProcessedKeeps(n: Net, n': Net)
    requires Inv(n) && Processed(n, n')
    ensures Inv(n')
  {
    var p :| ServerAt(n, p);
    var q :| ClientAt(n, q);
    if n.server.gotPreface {
      ProcessFramesKeeps(n, p, q);
    } else if |n.server.input| >= |PREFACE| {
      var p' := PrefaceArrives(n, p);
      AdmittedKeeps(n, p', q);
    }
  }

  lemma ProcessKeeps(n: Net)
    requires Inv(n)
    ensures Inv(Step(n, ServerProcess))
  {
    ProcessStep(n);
    ProcessedKeeps(n, Step(n, ServerProcess));
  }

  lemma AdmittedShape(n: Net)
    requires Shape(n) && |n.server.input| >= |PREFACE| && n.client.prefaceAt.Some?
    requires ServerOk(Admitted(n.server)) && Adds(n.server.core.e, Announced(n.server.core.e))
    ensures Shape(n.(server := Admitted(n.server)))
  {
    StreamBytesGrow(n.server.core.e.written, Announced(n.server.core.e).written);
  }

  lemma AdmittedKeeps(n: Net, p': Progress, q: Progress)
    requires Shape(n) && ClientAt(n, q) && !n.server.gotPreface && |n.server.input| >= |PREFACE|
    requires ServerOk(Admitted(n.server)) && n.client.prefaceAt.Some?
             && Adds(n.server.core.e, Announced(n.server.core.e))
    requires ServerAt(n.(server := Admitted(n.server)), p')
    ensures Inv(n.(server := S.ProcessFrames(Admitted(n.server))))
  {
    var n' := n.(server := Admitted(n.server));
    var q' := ClientAtOthers(n, n', q);
    assert Shape(n');
    ProcessFramesKeeps(n', p', q');
  }

  // ----- Bytes arrive at the client -----

  lemma {:induction false} SilentHandled(e: Endpoint, frames: seq<Frame>)
    requires e.cx.Valid() && AllSilent(frames) && e.streams == map[]
    ensures var e' := C.HandleAll(e, frames);
            && e'.written == e.written && e'.streams == map[]
            && (e'.state == e.state || e'.state == Draining)
    decreases |frames|
  {
    if frames != [] {
      assert Silent(frames[0]);
      SilentHandled(C.Handle(e, frames[0]), frames[1..]);
    }
  }

  /** The client takes every frame that is complete in what has arrived. */
  lemma ClientReads(n: Net, n': Net, q: Progress, d: Batch) returns (q': Progress)
    requires Shape(n) && ClientAt(n, q) && n.toClient <= n'.toClient <= |n.server.Output()|
    requires d == DecodeAll(DEFAULT_MAX_FRAME_SIZE, n.client.input + Piece(n.server.Output(), n.toClient, n'.toClient))
    requires n'.client.e == C.HandleAll(n.client.e, d.frames).Reported(d.error) && n'.client.input == d.tail
    requires n'.server == n.server && n'.answered == n.answered
    ensures ClientAt(n', q')
    ensures forall f :: f in d.frames ==> f in n.server.core.e.written && |PayloadOf(f)| <= 16384
  {
    var w, out, end := n.server.core.e.written, n.server.Output(), n'.toClient;
    var piece := Piece(out, n.toClient, end);
    var input := n.client.input + piece;
    PieceOf(out, n.toClient, end);
    ReadingReceives(w, q.taken, q.left, n.client.input, q.received, piece);
    assert forall f :: f in q.left ==> f in w;
    var rest := ReadingDecodes(DEFAULT_MAX_FRAME_SIZE, w, q.taken, q.left, input, q.received + piece);
    assert forall f :: f in d.frames ==> f in q.left;
    DecodedAreSendable(DEFAULT_MAX_FRAME_SIZE, input);
    var coming' := ClientFramesTaken(n.client.e, d.frames, rest, n.answered, q.coming, n.server.core.e.enc.table);
    ReportReception(C.HandleAll(n.client.e, d.frames), d.error);
    SmallTaken(q.taken, d.frames);
    q' := Progress(q.taken + d.frames, rest, out[..end], coming');
  }

  lemma SmallTaken(taken: seq<Frame>, more: seq<Frame>)
    requires NoneTooLarge(taken) && forall f :: f in more ==> |PayloadOf(f)| <= 16384
    ensures NoneTooLarge(taken + more)
  {
  }

  lemma ReportReception(e: Endpoint, error: Option<FrameError>)
    ensures SameReception(e, e.Reported(error))
  {
    QuietReception(e, e.Reported(error), if error.Some? then Error(FrameFault(error.value)) else Ready);
  }

  lemma ToClientKeeps(n: Net, count: nat)
    requires Inv(n)
    ensures Inv(Step(n, ToClient(count)))
  {
    var n' := Step(n, ToClient(count));
    var p :| ServerAt(n, p);
    var q :| ClientAt(n, q);
    var d := DecodeAll(DEFAULT_MAX_FRAME_SIZE, n.client.input + Piece(n.server.Output(), n.toClient, n'.toClient));
    var q' := ClientReads(n, n', q, d);
    var p' := ClientTakes(n, n', p, d);
  }

  /** The client handles frames that the server wrote. */
  lemma ClientTakes(n: Net, n': Net, p: Progress, d: Batch) returns (p': Progress)
    requires Shape(n) && ServerAt(n, p) && n'.toClient <= |n.server.Output()|
    requires forall f :: f in d.frames ==> f in n.server.core.e.written && |PayloadOf(f)| <= 16384
    requires n'.client == n.client.(e := C.HandleAll(n.client.e, d.frames).Reported(d.error), input := d.tail)
    requires n' == n.(client := n'.client, toClient := n'.toClient)
    ensures Shape(n') && ServerAt(n', p')
  {
    assert PlainLog(d.frames, 16384);
    ClientFramesPlain(n.client.e, d.frames, 16384);
    if n.client.prefaceAt.Some? {
      C.FramesKeepStarted(n.client.e, d.frames);
      p' := ServerAtOthers(n, n', p);
    } else {
      assert AllSilent(d.frames);
      SilentHandled(n.client.e, d.frames);
      p' := p;
    }
  }

  // ----- The server acts -----

  /** The server's own doing: what it has read is the same. */
  lemma ServerActs(n: Net, n': Net, p: Progress)
    requires Shape(n) && ServerAt(n, p)
    requires n' == n.(server := n'.server, answered := n'.answered) && n'.server.input == n.server.input
    requires n'.server.gotPreface == n.server.gotPreface && ServerOk(n'.server)
    requires n'.server.core.lastClientStreamId == n.server.core.lastClientStreamId
    requires SameReception(n.server.core.e, n'.server.core.e)
    requires n'.toClient <= |n'.server.Output()|
    ensures Shape(n') && ServerAt(n', p)
  {
    ServerAtKept(n, n', p);
  }

  /** It writes frames that carry no message. */
  lemma ServerNotices(n: Net, n': Net)
    requires Inv(n)
    requires n' == n.(server := n'.server) && n'.server.input == n.server.input
    requires n'.server.gotPreface == n.server.gotPreface && ServerOk(n'.server)
    requires n'.server.core.lastClientStreamId == n.server.core.lastClientStreamId
    requires SameReception(n.server.core.e, n'.server.core.e) && Adds(n.server.core.e, n'.server.core.e)
    ensures Inv(n')
  {
    var p :| ServerAt(n, p);
    var q :| ClientAt(n, q);
    var q' := ClientAtOthers(n, n', q);
    ServerActs(n, n', p);
  }

  lemma ResponseIsPlain(s: S.Server, id: u32, headers: seq<HeaderField>, endStream: bool)
    requires s.core.e.cx.Valid() && ServerOk(s) && BlockFits(s.core.e, headers, MAX_FRAME_SIZE)
    ensures ServerOk(S.SendHeaders(s, id, headers, endStream).0)
  {
    var e := s.core.e;
    if id in e.streams {
      assert PlainStream(id, e.streams[id]);
      HeadersPlain(e, id, headers, endStream, MAX_FRAME_SIZE);
      PlainStreamsUpdate(e.streams, id, e.streams[id].SendEndStream());
    }
  }

  /** A response joins the end of the queue. */
  lemma ResponseQueued(n: Net, n': Net, q: Progress, id: u32, headers: seq<HeaderField>, endStream: bool)
      returns (q': Progress)
    requires Shape(n) && ClientAt(n, q) && BlockFits(n.server.core.e, headers, MAX_FRAME_SIZE)
    requires n' == n.(server := n'.server, answered := n.answered + [Headers(id, headers, endStream)])
    requires var e := n.server.core.e;
             var (table, block) := BlockBytes(e.cx, e.enc.table, e.enc.useHuffman, headers);
             && n'.server.core.e.enc.table == table
             && n'.server.core.e.written == e.written + [HeadersFrame(id, endStream, true, None, block)]
    ensures n'.toClient <= |n'.server.Output()| && ClientAt(n', q')
  {
    var e, message := n.server.core.e, Headers(id, headers, endStream);
    HeadersQueued(Down, n.client.e, 0, q.left, n.answered, q.coming, e.enc, 0, id, headers, endStream, 0);
    var f := HeadersFrame(id, endStream, true, None, BlockBytes(e.cx, e.enc.table, e.enc.useHuffman, headers).1);
    ClientAtMore(n, n', q, [f], q.coming + [message]);
    q' := q.(left := q.left + [f], coming := q.coming + [message]);
  }

  lemma RespondStep(n: Net, id: u32, headers: seq<HeaderField>, endStream: bool)
    requires Coded(n)
    ensures var (server, found) := S.SendHeaders(n.server, id, headers, endStream);
            Step(n, Respond(id, headers, endStream)) ==
              n.(server := server,
                 answered := if found then n.answered + [Headers(id, headers, endStream)] else n.answered)
  {
  }

  lemma RespondKeeps(n: Net, id: u32, headers: seq<HeaderField>, endStream: bool)
    requires Inv(n) && BlockFits(n.server.core.e, headers, MAX_FRAME_SIZE)
    ensures Inv(Step(n, Respond(id, headers, endStream)))
  {
    RespondStep(n, id, headers, endStream);
    if id in n.server.core.e.streams {
      RespondedKeeps(n, Step(n, Respond(id, headers, endStream)), id, headers, endStream);
    }
  }

  lemma RespondedKeeps(n: Net, n': Net, id: u32, headers: seq<HeaderField>, endStream: bool)
    requires Inv(n) && BlockFits(n.server.core.e, headers, MAX_FRAME_SIZE) && id in n.server.core.e.streams
    requires n' == n.(server := S.SendHeaders(n.server, id, headers, endStream).0,
                      answered := n.answered + [Headers(id, headers, endStream)])
    ensures Inv(n')
  {
    var p :| ServerAt(n, p);
    var q :| ClientAt(n, q);
    var q' := ResponseQueued(n, n', q, id, headers, endStream);
    ResponseIsPlain(n.server, id, headers, endStream);
    ServerActs(n, n', p);
  }

  /** Any other message of the server joins the end of the queue. */
  lemma AnswerQueued(n: Net, n': Net, q: Progress, f: Frame, message: Event) returns (q': Progress)
    requires Shape(n) && ClientAt(n, q) && !f.HeadersFrame? && Carried(f) == [message]
    requires n' == n.(server := n'.server, answered := n.answered + [message])
    requires n'.server.core.e.enc == n.server.core.e.enc
    requires n'.server.core.e.written == n.server.core.e.written + [f]
    ensures n'.toClient <= |n'.server.Output()| && ClientAt(n', q')
  {
    MessageQueued(Down, n.client.e, 0, q.left, n.answered, q.coming, n.server.core.e.enc.table, 0, f, message);
    ClientAtMore(n, n', q, [f], q.coming + [message]);
    q' := q.(left := q.left + [f], coming := q.coming + [message]);
  }

  lemma ServerSendStep(n: Net, id: u32, data: seq<byte>, endStream: bool)
    requires Coded(n)
    ensures var (server, outcome) := S.SendData(n.server, id, data, endStream);
            Step(n, ServerSend(id, data, endStream)) ==
              n.(server := server, answered := n.answered + Posted(id, data, endStream, outcome))
  {
  }

  lemma ServerSendKeeps(n: Net, id: u32, data: seq<byte>, endStream: bool)
    requires Inv(n) && n.server.core.e.flow.consumed + |data| <= MOST_CONSUMED
    ensures Inv(Step(n, ServerSend(id, data, endStream)))
  {
    var n' := Step(n, ServerSend(id, data, endStream));
    ServerSendStep(n, id, data, endStream);
    var p :| ServerAt(n, p);
    var q :| ClientAt(n, q);
    var q' := ServerPosts(n, n', q, id, data, endStream);
    ServerSends(n, n', p, id, data, endStream);
  }

  lemma ServerSends(n: Net, n': Net, p: Progress, id: u32, data: seq<byte>, endStream: bool)
    requires Shape(n) && ServerAt(n, p) && n.server.core.e.flow.consumed + |data| <= MOST_CONSUMED
    requires n' == n.(server := S.SendData(n.server, id, data, endStream).0, answered := n'.answered)
    requires n'.toClient <= |n'.server.Output()|
    ensures Shape(n') && ServerAt(n', p)
  {
    SendPosts(n.server.core.e, id, data, endStream, |data|);
    SendPlain(n.server.core.e, id, data, endStream, |data|, MAX_FRAME_SIZE);
    ServerActs(n, n', p);
  }

  lemma ServerPosts(n: Net, n': Net, q: Progress, id: u32, data: seq<byte>, endStream: bool) returns (q': Progress)
    requires Shape(n) && ClientAt(n, q)
    requires var (server, outcome) := S.SendData(n.server, id, data, endStream);
             n' == n.(server := server, answered := n.answered + Posted(id, data, endStream, outcome))
    ensures n'.toClient <= |n'.server.Output()| && ClientAt(n', q')
  {
    var outcome := S.SendData(n.server, id, data, endStream).1;
    SendPosts(n.server.core.e, id, data, endStream, |data|);
    if outcome.Sent? {
      var k := outcome.count;
      var isEnd := endStream && k == |data|;
      q' := AnswerQueued(n, n', q, DataFrame(id, isEnd, data[..k]), Data(id, data[..k], isEnd));
    } else {
      NothingPosted(n.answered);
      assert n' == n;
      q' := q;
    }
  }

  lemma NoticesOk(s: S.Server, id: u32, code: u32, debug: seq<byte>)
    requires ServerOk(s)
    ensures |debug| <= MAX_FRAME_SIZE - 8 ==> ServerOk(S.SendGoAway(s, code, debug))
    ensures IsStream(id) ==> ServerOk(S.ResetStream(s, id, code))
  {
    var e := s.core.e;
    if |debug| <= MAX_FRAME_SIZE - 8 {
      PlainLogPush(e.written, GoAwayFrame(Mask31(s.core.lastClientStreamId), code, debug), MAX_FRAME_SIZE);
    }
    if IsStream(id) {
      PlainLogPush(e.written, RstStreamFrame(id, code), MAX_FRAME_SIZE);
      if id in e.streams {
        PlainStreamsUpdate(e.streams, id, e.streams[id].Reset());
      }
    }
  }

  /** What giving notice changes: one frame is written, and nothing about reading. */
  ghost predicate Noticed(n: Net, n': Net, f: Frame, message: Event) {
    && n' == n.(server := n'.server, answered := n.answered + [message]) && n'.server.input == n.server.input
    && n'.server.gotPreface == n.server.gotPreface
    && n'.server.core.lastClientStreamId == n.server.core.lastClientStreamId
    && SameReception(n.server.core.e, n'.server.core.e) && n'.server.core.e.enc == n.server.core.e.enc
    && n'.server.core.e.written == n.server.core.e.written + [f]
  }

  /** The server gives notice of something: the client will report it. */
  lemma NoticeKeeps(n: Net, n': Net, f: Frame, message: Event)
    requires Inv(n) && !f.HeadersFrame? && Carried(f) == [message]
    requires Noticed(n, n', f, message) && ServerOk(n'.server)
    ensures Inv(n')
  {
    var p :| ServerAt(n, p);
    var q :| ClientAt(n, q);
    var q' := AnswerQueued(n, n', q, f, message);
    ServerActs(n, n', p);
  }

  /** In a joint run, what a server takes for the last identifier is that of the last request it reported. */
  lemma LastIsRequest(n: Net)
    requires Inv(n)
    ensures n.server.core.lastClientStreamId == LastRequest(n.server.core.e.events) < 0x8000_0000
  {
    var p :| ServerAt(n, p);
    LastRequestMessages(n.server.core.e.events);
  }

  lemma GoAwayStep(n: Net, code: u32, debug: seq<byte>)
    requires Coded(n) && n.server.core.lastClientStreamId == LastRequest(n.server.core.e.events) < 0x8000_0000
    ensures var n', last := Step(n, ServerGoAway(code, debug)), n.server.core.lastClientStreamId;
            n'.server == S.SendGoAway(n.server, code, debug)
            && Noticed(n, n', GoAwayFrame(last, code, debug), GoAway(last, code))
  {
  }

  lemma ResetStep(n: Net, id: u32, code: u32)
    requires Coded(n)
    ensures var n' := Step(n, ServerReset(id, code));
            n'.server == S.ResetStream(n.server, id, code)
            && Noticed(n, n', RstStreamFrame(id, code), StreamReset(id, code))
  {
  }

  lemma GoAwayKeeps(n: Net, code: u32, debug: seq<byte>)
    requires Inv(n) && |debug| <= MAX_FRAME_SIZE - 8
    ensures Inv(Step(n, ServerGoAway(code, debug)))
  {
    LastIsRequest(n);
    NoticesOk(n.server, 1, code, debug);
    GoAwayStep(n, code, debug);
    var last := n.server.core.lastClientStreamId;
    NoticeKeeps(n, Step(n, ServerGoAway(code, debug)), GoAwayFrame(last, code, debug), GoAway(last, code));
  }

  lemma ResetKeeps(n: Net, id: u32, code: u32)
    requires Inv(n) && IsStream(id)
    ensures Inv(Step(n, ServerReset(id, code)))
  {
    NoticesOk(n.server, id, code, []);
    ResetStep(n, id, code);
    NoticeKeeps(n, Step(n, ServerReset(id, code)), RstStreamFrame(id, code), StreamReset(id, code));
  }

  lemma RemoveKeeps(n: Net, id: u32)
    requires Inv(n)
    ensures Inv(Act(n, S.DoRemove(id)))
  {
    var n' := Act(n, S.DoRemove(id));
    AddsNothing(n.server.core.e, n'.server.core.e);
    ServerNotices(n, n');
  }

  lemma ClientStepKeeps(n: Net, a: Action)
    requires Inv(n) && Allowed(n, a)
    requires a.ClientReady? || a.Ask? || a.ClientSend? || a.ToClient?
    ensures Inv(Step(n, a))
  {
    match a
    case ClientReady => ReadyKeeps(n);
    case Ask(headers, endStream) => AskKeeps(n, headers, endStream);
    case ClientSend(id, data, endStream) => ClientSendKeeps(n, id, data, endStream);
    case ToClient(count) => ToClientKeeps(n, count);
  }

  /** Every step that the callers may take keeps the invariant. */
  lemma StepKeeps(n: Net, a: Action)
    requires Inv(n) && Allowed(n, a)
    ensures Inv(Step(n, a))
  {
    match a
    case ToServer(count) => ToServerKeeps(n, count);
    case ServerProcess => ProcessKeeps(n);
    case Respond(id, headers, endStream) => RespondKeeps(n, id, headers, endStream);
    case ServerSend(id, data, endStream) => ServerSendKeeps(n, id, data, endStream);
    case ServerGoAway(code, debug) => GoAwayKeeps(n, code, debug);
    case ServerReset(id, code) => ResetKeeps(n, id, code);
    case ServerRemove(id) => RemoveKeeps(n, id);
    case _ => ClientStepKeeps(n, a);
  }

  // ----- Runs -----

  lemma {:induction false} RunKeeps(n: Net, actions: seq<Action>)
    requires Inv(n) && AllAllowed(n, actions)
    ensures Inv(Run(n, actions))
    decreases |actions|
  {
    if actions != [] {
      StepKeeps(n, actions[0]);
      RunKeeps(Step(n, actions[0]), actions[1..]);
    }
  }

  lemma NewNetIsValid(cx: Codec)
    requires cx.Valid()
    ensures Inv(NewNet(cx))
  {
    var n := NewNet(cx);
    NothingTaken([], []);
    var start := Progress([], [], [], []);
    assert ServerAt(n, start);
    assert ClientAt(n, start);
  }
}
