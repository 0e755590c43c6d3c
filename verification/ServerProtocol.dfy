/** The server's side of a connection, as a value and the functions that its methods compute. */
module ServerProtocol {
  import opened Bytes
  import opened PrefixCodes
  import opened Tables
  import opened HpackCoding
  import opened Frames
  import opened FrameCoding
  import opened FrameStreams
  import opened Endpoints

  /** What handling a frame can change. */
  datatype Core = Core(e: Endpoint, lastClientStreamId: u32)

  datatype Server = Server(core: Core, gotPreface: bool, input: seq<byte>) {
    function Output(): seq<byte> {
      OutputOf(core.e.written, None)
    }
  }

  function NewServer(cx: Codec): Server {
    Server(Core(NewEndpoint(cx), 0), false, [])
  }

  // ----- Receiving -----

  /** The identifier is taken note of before the block is decoded; a stream is opened only afterwards. */
  ghost function HandleRequest(s: Core, id: u32, endStream: bool, block: seq<byte>): Core
    requires s.e.cx.Valid()
  {
    if id % 2 == 0 then s.(e := s.e.Failed(EvenStreamId))
    else if id <= s.lastClientStreamId then s.(e := s.e.Failed(StreamIdNotGreater))
    else
      var (dec', r) := BlockOf(s.e.cx, s.e.dec, DEFAULT_TABLE_SIZE, block);
      Accepted(Core(s.e.(dec := dec'), id), id, endStream, r)
  }

  /** A stream is opened for a request whose block could be decoded. */
  function Accepted(s: Core, id: u32, endStream: bool, headers: BlockResult): Core {
    match headers
    case Err(err) => s.(e := s.e.Failed(HpackFault(err)))
    case Ok(h) =>
      var e := s.e.OpenStream(id);
      s.(e := (if endStream then e.ReceiveEndStream(id) else e).Happened(Request(id, h, endStream)))
  }

  ghost function Handle(s: Core, f: Frame): (s': Core)
    requires s.e.cx.Valid()
    ensures s'.e.cx == s.e.cx
  {
    match f
    case HeadersFrame(id, endStream, _, _, block) => HandleRequest(s, id, endStream, block)
    case PushPromiseFrame(_, _, _, _) => s.(e := s.e.Failed(UnexpectedPushPromise))
    case _ => s.(e := s.e.HandleShared(f))
  }

  ghost function HandleAll(s: Core, frames: seq<Frame>): (s': Core)
    requires s.e.cx.Valid()
    ensures s'.e.cx == s.e.cx
    decreases |frames|
  {
    if frames == [] then s else HandleAll(Handle(s, frames[0]), frames[1..])
  }

  ghost function ProcessFrames(s: Server): (s': Server)
    requires s.core.e.cx.Valid()
    ensures s'.core.e.cx == s.core.e.cx
  {
    var d := DecodeAll(DEFAULT_MAX_FRAME_SIZE, s.input);
    var core := HandleAll(s.core, d.frames);
    s.(core := core.(e := core.e.Reported(d.error)), input := d.tail)
  }

  /** Nothing is done before the whole preface is there, and nothing is taken if it is wrong. */
  ghost function Process(s: Server): (s': Server)
    requires s.core.e.cx.Valid()
    ensures s'.core.e.cx == s.core.e.cx
  {
    if s.gotPreface then ProcessFrames(s)
    else if |s.input| < |PREFACE| then s
    else if s.input[..|PREFACE|] == PREFACE then
      ProcessFrames(Server(s.core.(e := Announced(s.core.e)), true, s.input[|PREFACE|..]))
    else
      s.(core := s.core.(e := s.core.e.Failed(InvalidPreface)))
  }

  // ----- Acting -----

  function SendHeaders(s: Server, id: u32, headers: seq<HeaderField>, endStream: bool): (r: (Server, bool))
    requires |s.core.e.cx.huffman| == SYMBOLS
    ensures r.0.core.e.cx == s.core.e.cx
  {
    var e := s.core.e;
    if id !in e.streams then (s, false)
    else
      var e' := e.WriteHeaders(id, headers, endStream);
      (s.(core := s.core.(e := if endStream then e'.SendEndStream(id) else e')), true)
  }

  /** Not limited by the peer's maximum frame size. */
  function SendData(s: Server, id: u32, data: seq<byte>, endStream: bool): (r: (Server, SendOutcome))
    ensures r.0.core.e.cx == s.core.e.cx
  {
    var (e', outcome) := s.core.e.SendData(id, data, endStream, |data|);
    (s.(core := s.core.(e := e')), outcome)
  }

  function SendGoAway(s: Server, errorCode: u32, debugData: seq<byte>): (s': Server)
    ensures s'.core.e.cx == s.core.e.cx
  {
    var e := s.core.e.Wrote(GoAwayFrame(Mask31(s.core.lastClientStreamId), errorCode, debugData));
    s.(core := s.core.(e := e.(state := Draining)))
  }

  function ResetStream(s: Server, id: u32, errorCode: u32): (s': Server)
    ensures s'.core.e.cx == s.core.e.cx
  {
    var e := s.core.e.Wrote(RstStreamFrame(id, errorCode));
    s.(core := s.core.(e := e.(streams := e.WithReset(id))))
  }

  function RemoveStream(s: Server, id: u32): (s': Server)
    ensures s'.core.e.cx == s.core.e.cx
  {
    s.(core := s.core.(e := s.core.e.(streams := s.core.e.streams - {id})))
  }

  /** What can happen to a server: calls of its methods, and bytes that arrive. */
  datatype Action =
    | DoReceive(data: seq<byte>)
    | DoProcess
    | DoHeaders(id: u32, headers: seq<HeaderField>, endStream: bool)
    | DoSend(id: u32, data: seq<byte>, endStream: bool)
    | DoGoAway(errorCode: u32, debugData: seq<byte>)
    | DoReset(id: u32, errorCode: u32)
    | DoRemove(id: u32)

  ghost function Step(s: Server, a: Action): (s': Server)
    requires s.core.e.cx.Valid()
    ensures s'.core.e.cx == s.core.e.cx
  {
    match a
    case DoReceive(data) => s.(input := s.input + data)
    case DoProcess => Process(s)
    case DoHeaders(id, headers, endStream) => SendHeaders(s, id, headers, endStream).0
    case DoSend(id, data, endStream) => SendData(s, id, data, endStream).0
    case DoGoAway(code, debug) => SendGoAway(s, code, debug)
    case DoReset(id, code) => ResetStream(s, id, code)
    case DoRemove(id) => RemoveStream(s, id)
  }

  ghost function Run(s: Server, actions: seq<Action>): (s': Server)
    requires s.core.e.cx.Valid()
    ensures s'.core.e.cx == s.core.e.cx
    decreases |actions|
  {
    if actions == [] then s else Run(Step(s, actions[0]), actions[1..])
  }
}
