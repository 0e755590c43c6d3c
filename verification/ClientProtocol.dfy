/** The client's side of a connection, as a value and the functions that its methods compute. */
module ClientProtocol {
  import opened Bytes
  import opened PrefixCodes
  import opened Tables
  import opened HpackCoding
  import opened Frames
  import opened FrameCoding
  import opened FrameStreams
  import opened FlowControl
  import opened Endpoints

  /** `prefaceAt` is the number of frames that were written before the preface, once it has been sent. */
  datatype Client = Client(e: Endpoint, nextStreamId: u32, prefaceAt: Option<nat>, input: seq<byte>) {
    function Output(): seq<byte> {
      OutputOf(e.written, prefaceAt)
    }
  }

  function NewClient(cx: Codec): Client {
    Client(NewEndpoint(cx), 1, None, [])
  }

  // ----- Receiving -----

  ghost function HandleHeaders(e: Endpoint, id: u32, endStream: bool, block: seq<byte>): Endpoint
    requires e.cx.Valid()
  {
    var (dec', r) := BlockOf(e.cx, e.dec, DEFAULT_TABLE_SIZE, block);
    var e' := e.(dec := dec');
    match r
    case Err(err) => e'.Failed(HpackFault(err))
    case Ok(headers) =>
      (if endStream then e'.ReceiveEndStream(id) else e').Happened(Headers(id, headers, endStream))
  }

  ghost function Handle(e: Endpoint, f: Frame): (e': Endpoint)
    requires e.cx.Valid()
    ensures e'.cx == e.cx
  {
    match f
    case HeadersFrame(id, endStream, _, _, block) => HandleHeaders(e, id, endStream, block)
    case PushPromiseFrame(_, _, _, _) => e
    case _ => e.HandleShared(f)
  }

  ghost function HandleAll(e: Endpoint, frames: seq<Frame>): (e': Endpoint)
    requires e.cx.Valid()
    ensures e'.cx == e.cx
    decreases |frames|
  {
    if frames == [] then e else HandleAll(Handle(e, frames[0]), frames[1..])
  }

  // ----- A connection that has been started stays started -----

  lemma {:induction false} SettingsKeepState(e: Endpoint, settings: seq<Setting>)
    requires |e.cx.huffman| == SYMBOLS
    ensures e.ApplySettings(settings).state == e.state
    decreases |settings|
  {
    if settings != [] {
      SettingsKeepState(e.ApplySetting(settings[0]), settings[1..]);
    }
  }

  lemma FrameKeepsStarted(e: Endpoint, f: Frame)
    requires e.cx.Valid() && e.state != WaitingPreface
    ensures Handle(e, f).state != WaitingPreface
  {
    if f.SettingsFrame? {
      SettingsKeepState(e, f.settings);
    }
  }

  lemma FrameKeepsStartedOr(e: Endpoint, f: Frame)
    requires e.cx.Valid()
    ensures Handle(e, f).state == WaitingPreface ==> e.state == WaitingPreface
  {
    if e.state != WaitingPreface {
      FrameKeepsStarted(e, f);
    }
  }

  lemma {:induction false} FramesKeepStarted(e: Endpoint, frames: seq<Frame>)
    requires e.cx.Valid() && e.state != WaitingPreface
    ensures HandleAll(e, frames).state != WaitingPreface
    decreases |frames|
  {
    if frames != [] {
      FrameKeepsStarted(e, frames[0]);
      FramesKeepStarted(Handle(e, frames[0]), frames[1..]);
    }
  }

  ghost function Feed(c: Client, data: seq<byte>): (c': Client)
    requires c.e.cx.Valid()
    ensures c'.e.cx == c.e.cx
  {
    var d := DecodeAll(DEFAULT_MAX_FRAME_SIZE, c.input + data);
    c.(e := HandleAll(c.e, d.frames).Reported(d.error), input := d.tail)
  }

  // ----- Acting -----

  function TransportReady(c: Client): (c': Client)
    ensures c'.e.cx == c.e.cx
  {
    if c.e.state != WaitingPreface then c
    else c.(prefaceAt := Some(|c.e.written|), e := Announced(c.e))
  }

  /** Opens a stream for a request, unless the connection is not open. */
  function StartRequest(c: Client, headers: seq<HeaderField>, endStream: bool): (r: (Client, Option<u32>))
    requires |c.e.cx.huffman| == SYMBOLS
    ensures r.0.e.cx == c.e.cx
  {
    if c.e.state != ConnectionState.Open then (c, None)
    else
      var id := Mask31(c.nextStreamId);
      var e := c.e.OpenStream(id).WriteHeaders(id, headers, endStream);
      (c.(nextStreamId := AddU32(c.nextStreamId, 2), e := e), Some(id))
  }

  function SendData(c: Client, id: u32, data: seq<byte>, endStream: bool): (r: (Client, SendOutcome))
    ensures r.0.e.cx == c.e.cx
  {
    var (e', outcome) := c.e.SendData(id, data, endStream, c.e.maxFrame);
    (c.(e := e'), outcome)
  }

  /** What can happen to a client: calls of its methods, and bytes that arrive. */
  datatype Action =
    | DoReady
    | DoFeed(data: seq<byte>)
    | DoRequest(headers: seq<HeaderField>, endStream: bool)
    | DoSend(id: u32, data: seq<byte>, endStream: bool)

  ghost function Step(c: Client, a: Action): (c': Client)
    requires c.e.cx.Valid()
    ensures c'.e.cx == c.e.cx
  {
    match a
    case DoReady => TransportReady(c)
    case DoFeed(data) => Feed(c, data)
    case DoRequest(headers, endStream) => StartRequest(c, headers, endStream).0
    case DoSend(id, data, endStream) => SendData(c, id, data, endStream).0
  }

  ghost function Run(c: Client, actions: seq<Action>): (c': Client)
    requires c.e.cx.Valid()
    ensures c'.e.cx == c.e.cx
    decreases |actions|
  {
    if actions == [] then c else Run(Step(c, actions[0]), actions[1..])
  }
}
