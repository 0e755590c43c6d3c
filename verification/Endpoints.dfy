/**
 What the two kinds of connection have in common, as a value: the settings, the codecs, the streams
 and the windows; the frames written so far and the events reported so far; and how a received
 frame or a send changes them.
 */
module Endpoints {
  import opened Bytes
  import opened PrefixCodes
  import opened HpackErrors
  import opened Tables
  import opened HpackCoding
  import opened HpackSession
  import opened Frames
  import opened FrameStreams
  import opened FlowControl
  import opened Streams
  import StaticTable

  const DEFAULT_TABLE_SIZE := 4096

  /** "PRI * HTTP/2.0\r\n\r\nSM\r\n\r\n", section 3.5 of RFC 7540. */
  const PREFACE: seq<byte> := StaticTable.Ascii("PRI * HTTP/2.0\r\n\r\nSM\r\n\r\n")

  datatype ConnectionState =
    | WaitingPreface
    | WaitingSettings
    | Open
    | Draining
    | Closed

  /** The settings of the peer that a connection keeps. */
  datatype Settings = Settings(
    maxConcurrentStreams: u32, initialWindowSize: u32, maxFrameSize: u32, maxHeaderListSize: u32)

  const DEFAULT_SETTINGS := Settings(100, 65535, 16384, 16384)

  /** The settings that both sides announce. */
  const LOCAL_SETTINGS: Frame :=
    SettingsFrame(false,
      [Setting(MaxConcurrentStreams, 100), Setting(InitialWindowSize, 65535), Setting(MaxFrameSize, 16384)])

  datatype Fault =
    | FrameFault(frameError: FrameError)
    | HpackFault(hpackError: HpackError)
    | InvalidPreface
    | UnexpectedContinuation
    | UnexpectedPushPromise
    | EvenStreamId
    | StreamIdNotGreater
    | WindowOverflow(overflowing: u32, increment: u32)

  datatype Event =
    | Ready
    | Headers(streamId: u32, headers: seq<HeaderField>, endStream: bool)
    | Request(streamId: u32, headers: seq<HeaderField>, endStream: bool)
    | Data(streamId: u32, data: seq<byte>, endStream: bool)
    | StreamReset(streamId: u32, errorCode: u32)
    | GoAway(lastStreamId: u32, errorCode: u32)
    | Error(fault: Fault)

  /**
   What has been granted to and sent on one stream, the initial window it was opened with, and how
   much had been written and reported on the connection by then.
   */
  datatype Credit = Credit(granted: nat, sent: nat, initial: u32, written: nat, reported: nat)

  /** The credit that was accepted, and the data that went either way, since the connection began. */
  datatype Ledger = Ledger(granted: nat, sent: nat, received: nat, streams: map<u32, Credit>)

  datatype SendOutcome = Sent(count: nat) | NotFound | WouldBlock

  /** How much of `length` bytes may go out: the windows are cast to unsigned words first. */
  function Allowance(connection: i32, stream: i32, length: nat, most: nat): (n: nat)
    ensures n <= length
  {
    var available := if AsUsize(connection) < AsUsize(stream) then AsUsize(connection) else AsUsize(stream);
    var n := if length < available then length else available;
    if n < most then n else most
  }

  datatype Endpoint = Endpoint(
    cx: Codec,
    state: ConnectionState,
    remote: Settings,
    gotSettings: bool,
    maxFrame: u32,
    enc: EncoderView,
    dec: TableView,
    streams: StreamMap,
    flow: Flow,
    written: seq<Frame>,
    events: seq<Event>,
    ledger: Ledger) {

    function Wrote(f: Frame): Endpoint {
      this.(written := written + [f])
    }

    function Happened(event: Event): Endpoint {
      this.(events := events + [event])
    }

    function Failed(fault: Fault): Endpoint {
      Happened(Error(fault))
    }

    /** A new initial window size moves the window of every stream by the difference. */
    function Resized(initial: u32): Endpoint {
      ResizedBy(initial, Wrap(AsI32(initial) - AsI32(remote.initialWindowSize)))
    }

    function ResizedBy(initial: u32, delta: i32): Endpoint {
      this.(remote := remote.(initialWindowSize := initial), streams := Adjusted(streams, delta))
    }

    function ApplySetting(s: Setting): Endpoint
      requires |cx.huffman| == SYMBOLS
    {
      match s.id
      case HeaderTableSize => this.(enc := Acted(cx, enc, SetTableSize(s.value)).0)
      case MaxConcurrentStreams => this.(remote := remote.(maxConcurrentStreams := s.value))
      case InitialWindowSize => Resized(s.value)
      case MaxFrameSize => this.(remote := remote.(maxFrameSize := s.value), maxFrame := s.value)
      case MaxHeaderListSize => this.(remote := remote.(maxHeaderListSize := s.value))
      case _ => this
    }

    function ApplySettings(settings: seq<Setting>): (e: Endpoint)
      requires |cx.huffman| == SYMBOLS
      ensures e.cx == cx
      decreases |settings|
    {
      if settings == [] then this else ApplySetting(settings[0]).ApplySettings(settings[1..])
    }

    function HandleSettings(ack: bool, settings: seq<Setting>): Endpoint
      requires |cx.huffman| == SYMBOLS
    {
      if ack then this
      else
        var e := ApplySettings(settings).Wrote(SettingsFrame(true, []));
        if e.gotSettings then e else e.(gotSettings := true, state := ConnectionState.Open).Happened(Ready)
    }

    function HandlePing(ack: bool, opaqueData: seq<byte>): Endpoint {
      if ack then this else Wrote(PingFrame(true, opaqueData))
    }

    function HandleGoAway(lastStreamId: u32, errorCode: u32): Endpoint {
      this.(state := Draining).Happened(GoAway(lastStreamId, errorCode))
    }

    function HandleWindowUpdate(id: u32, increment: u32): Endpoint {
      if id == 0 then
        if flow.Accepts(increment) then
          this.(flow := flow.Increase(increment), ledger := ledger.(granted := ledger.granted + increment))
        else Failed(WindowOverflow(id, increment))
      else if id in streams then
        if streams[id].Accepts(increment) then
          this.(streams := streams[id := streams[id].IncreaseSendWindow(increment)], ledger := Granted(id, increment))
        else Failed(WindowOverflow(id, increment))
      else this
    }

    function CreditOf(id: u32): Credit {
      if id in ledger.streams then ledger.streams[id] else Credit(0, 0, 0, 0, 0)
    }

    function Granted(id: u32, increment: nat): Ledger {
      var c := CreditOf(id);
      ledger.(streams := ledger.streams[id := c.(granted := c.granted + increment)])
    }

    function Spent(id: u32, n: nat): Ledger {
      var c := CreditOf(id);
      ledger.(sent := ledger.sent + n, streams := ledger.streams[id := c.(sent := c.sent + n)])
    }

    /** The streams after data has arrived on one of them. */
    function WithData(id: u32, size: u32, endStream: bool): StreamMap {
      if id !in streams then streams
      else
        var s := streams[id].ReceiveData(size);
        streams[id := if endStream then s.ReceiveEndStream() else s]
    }

    /** Data has been consumed: enough of it is given back, and announced, at once. */
    function ReturnCredit(size: u32): Endpoint {
      var e, due := this.(flow := flow.Receive(size)), flow.Due(size);
      if due.Some? then e.Wrote(WindowUpdateFrame(0, due.value)) else e
    }

    /** Data of this length has arrived; its size as a word is what the windows count. */
    function Took(id: u32, size: u32, endStream: bool, length: nat): Endpoint {
      this.(streams := WithData(id, size, endStream), ledger := ledger.(received := ledger.received + length))
    }

    function HandleData(id: u32, endStream: bool, data: seq<byte>): Endpoint {
      var size := AsU32(|data|);
      Took(id, size, endStream, |data|).ReturnCredit(size).Happened(Data(id, data, endStream))
    }

    function WithReset(id: u32): StreamMap {
      if id in streams then streams[id := streams[id].Reset()] else streams
    }

    function HandleRstStream(id: u32, errorCode: u32): Endpoint {
      this.(streams := WithReset(id)).Happened(StreamReset(id, errorCode))
    }

    /** Every kind of frame that both sides treat alike. */
    function HandleShared(f: Frame): (e: Endpoint)
      requires |cx.huffman| == SYMBOLS
      requires !f.HeadersFrame? && !f.PushPromiseFrame?
      ensures e.cx == cx
    {
      match f
      case SettingsFrame(ack, settings) => HandleSettings(ack, settings)
      case PingFrame(ack, data) => HandlePing(ack, data)
      case GoAwayFrame(last, code, _) => HandleGoAway(last, code)
      case WindowUpdateFrame(id, increment) => HandleWindowUpdate(id, increment)
      case DataFrame(id, endStream, data) => HandleData(id, endStream, data)
      case RstStreamFrame(id, code) => HandleRstStream(id, code)
      case ContinuationFrame(_, _, _) => Failed(UnexpectedContinuation)
      case _ => this
    }

    /** The error that stopped the decoder is reported after everything before it has been handled. */
    function Reported(error: Option<FrameError>): Endpoint {
      if error.Some? then Failed(FrameFault(error.value)) else this
    }

    /** A new stream, with the windows that the peer's settings give it. */
    function OpenStream(id: u32): Endpoint {
      this.(streams := streams[id := NewStream(id, remote.initialWindowSize)],
            ledger := ledger.(streams := ledger.streams[id := FreshCredit()]))
    }

    function FreshCredit(): Credit {
      Credit(0, 0, remote.initialWindowSize, |written|, |events|)
    }

    function WriteHeaders(id: u32, headers: seq<HeaderField>, endStream: bool): Endpoint
      requires |cx.huffman| == SYMBOLS
    {
      var (table, block) := BlockBytes(cx, enc.table, enc.useHuffman, headers);
      this.(enc := enc.(table := table)).Wrote(HeadersFrame(id, endStream, true, None, block))
    }

    function ReceiveEndStream(id: u32): Endpoint {
      if id in streams then this.(streams := streams[id := streams[id].ReceiveEndStream()]) else this
    }

    function SendEndStream(id: u32): Endpoint {
      if id in streams then this.(streams := streams[id := streams[id].SendEndStream()]) else this
    }

    function SendData(id: u32, data: seq<byte>, endStream: bool, most: nat): (Endpoint, SendOutcome) {
      if id !in streams then (this, NotFound)
      else SendSome(id, data, endStream, Allowance(flow.window, streams[id].sendWindow, |data|, most))
    }

    /** Sends the first `n` bytes; the end of the stream only goes with the end of the data. */
    function SendSome(id: u32, data: seq<byte>, endStream: bool, n: nat): (Endpoint, SendOutcome)
      requires id in streams && n <= |data|
    {
      if n == 0 && data != [] then (this, WouldBlock)
      else
        var isEnd := endStream && n == |data|;
        (Spend(id, n, isEnd).Wrote(DataFrame(id, isEnd, data[..n])), Sent(n))
    }

    /** Takes `n` bytes out of the connection's window and of a stream's. */
    function Spend(id: u32, n: nat, isEnd: bool): Endpoint
      requires id in streams
    {
      var s := streams[id].SendData(AsU32(n));
      this.(flow := flow.Consume(AsU32(n)), streams := streams[id := if isEnd then s.SendEndStream() else s],
            ledger := Spent(id, n))
    }
  }

  function NewEndpoint(cx: Codec): Endpoint {
    Endpoint(cx, WaitingPreface, DEFAULT_SETTINGS, false, DEFAULT_MAX_FRAME_SIZE,
             EncoderView(TableView([], DEFAULT_TABLE_SIZE), true), TableView([], DEFAULT_TABLE_SIZE),
             map[], NewFlow(DEFAULT_INITIAL_WINDOW_SIZE), [], [], Ledger(0, 0, 0, map[]))
  }

  /** Everything written so far, in order; a client's preface comes after the first `prefaceAt` frames. */
  function OutputOf(written: seq<Frame>, prefaceAt: Option<nat>): seq<byte> {
    if prefaceAt.Some? && prefaceAt.value <= |written| then
      StreamBytes(written[..prefaceAt.value]) + PREFACE + StreamBytes(written[prefaceAt.value..])
    else
      StreamBytes(written)
  }

  /** Announcing the settings, at the very beginning. */
  function Announced(e: Endpoint): Endpoint {
    e.(state := WaitingSettings).Wrote(LOCAL_SETTINGS)
  }
}
