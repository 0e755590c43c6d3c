/**
 The state that both kinds of connection keep, with the codecs, tables and buffers as objects that
 are updated in place, and the handlers that both of them have.
 */
module ConnectionCore {
  import opened Bytes
  import opened Tables
  import opened HpackCoding
  import opened HpackSession
  import HpackEncoder
  import HpackDecoder
  import opened Frames
  import opened FrameCoding
  import opened FrameStreams
  import FrameEncoder
  import FrameDecoder
  import opened FlowControl
  import opened Streams
  import opened Endpoints

  class ConnectionCore {
    const cx: Codec
    var state: ConnectionState
    var remote: Settings
    var gotSettings: bool
    const frameEncoder: FrameEncoder.Encoder
    const frameDecoder: FrameDecoder.Decoder
    const hpackEncoder: HpackEncoder.Encoder
    const hpackDecoder: HpackDecoder.Decoder
    const streams: StreamTable
    const flowControl: FlowControl
    const writeBuf: ByteBuffer
    const readBuf: ByteBuffer
    var events: seq<Event>

    /** All that was written and reported since the connection began, and how much of it has been taken away. */
    ghost var written: seq<Frame>
    ghost var prefaceAt: Option<nat>
    ghost var handedOver: nat
    ghost var reported: seq<Event>
    ghost var polled: nat
    ghost var ledger: Ledger

    ghost function Repr(): set<object>
      reads streams
    {
      {this, frameEncoder, frameDecoder, hpackEncoder, hpackEncoder.table, hpackDecoder, hpackDecoder.table,
       streams, flowControl, writeBuf, readBuf} + streams.Objects()
    }

    /** The codecs are sound, and they decode with the limits that this side announces. */
    ghost predicate Coded()
      reads frameDecoder, hpackEncoder, hpackEncoder.table, hpackDecoder, hpackDecoder.table
    {
      && cx.Valid() && hpackEncoder.Valid() && hpackDecoder.Valid()
      && hpackEncoder.cx == cx && hpackDecoder.cx == cx && hpackDecoder.maxTableSize == DEFAULT_TABLE_SIZE
      && frameDecoder.maxFrameSize == DEFAULT_MAX_FRAME_SIZE && hpackEncoder.table != hpackDecoder.table
    }

    /** What is waiting is the rest of what was written, and of what was reported. */
    ghost predicate Logged()
      reads this, writeBuf
    {
      && (prefaceAt.Some? ==> prefaceAt.value <= |written|)
      && IsRest(writeBuf.bytes, OutputOf(written, prefaceAt), handedOver)
      && IsRest(events, reported, polled)
    }

    ghost predicate Valid()
      reads Repr()
    {
      Coded() && streams.Valid() && Logged() && writeBuf != readBuf
    }

    ghost function View(): Endpoint
      reads Repr()
    {
      Endpoint(cx, state, remote, gotSettings, frameEncoder.maxFrameSize, hpackEncoder.View(),
               hpackDecoder.table.View(), streams.View(), flowControl.View(), written, reported, ledger)
    }

    /** A new connection, put together from its new parts. */
    constructor (hpackEncoder: HpackEncoder.Encoder, hpackDecoder: HpackDecoder.Decoder,
                 frameEncoder: FrameEncoder.Encoder, frameDecoder: FrameDecoder.Decoder,
                 streams: StreamTable, flowControl: FlowControl, writeBuf: ByteBuffer, readBuf: ByteBuffer)
      requires hpackEncoder.Valid() && hpackDecoder.Valid() && hpackDecoder.cx == hpackEncoder.cx
      requires hpackEncoder.View() == EncoderView(TableView([], DEFAULT_TABLE_SIZE), true)
      requires hpackDecoder.table.View() == TableView([], DEFAULT_TABLE_SIZE)
      requires hpackDecoder.maxTableSize == DEFAULT_TABLE_SIZE && hpackEncoder.table != hpackDecoder.table
      requires frameEncoder.maxFrameSize == frameDecoder.maxFrameSize == DEFAULT_MAX_FRAME_SIZE
      requires streams.Valid() && streams.View() == map[] && streams.Objects() == {}
      requires flowControl.View() == NewFlow(DEFAULT_INITIAL_WINDOW_SIZE)
      requires writeBuf.bytes == readBuf.bytes == [] && writeBuf != readBuf
      ensures Valid() && View() == NewEndpoint(hpackEncoder.cx) && cx == hpackEncoder.cx
      ensures this.hpackEncoder == hpackEncoder && this.hpackDecoder == hpackDecoder
      ensures this.frameEncoder == frameEncoder && this.frameDecoder == frameDecoder
      ensures this.streams == streams && this.flowControl == flowControl
      ensures this.writeBuf == writeBuf && this.readBuf == readBuf
      ensures prefaceAt == None
    {
      cx, this.hpackEncoder, this.hpackDecoder := hpackEncoder.cx, hpackEncoder, hpackDecoder;
      this.frameEncoder, this.frameDecoder := frameEncoder, frameDecoder;
      this.streams, this.flowControl, this.writeBuf, this.readBuf := streams, flowControl, writeBuf, readBuf;
      state, remote, gotSettings, events := WaitingPreface, DEFAULT_SETTINGS, false, [];
      written, prefaceAt, handedOver, reported, polled, ledger := [], None, 0, [], 0, Ledger(0, 0, 0, map[]);
    }

    method WriteFrame(f: Frame)
      requires Valid()
      modifies writeBuf, this`written
      ensures Valid() && View() == old(View()).Wrote(f)
    {
      FrameAppended(writeBuf.bytes, written, prefaceAt, handedOver, f);
      frameEncoder.Encode(f, writeBuf);
      written := written + [f];
    }

    /** The client's preface goes after everything written so far. */
    method WritePreface()
      requires Valid() && prefaceAt.None?
      modifies writeBuf, this`prefaceAt
      ensures Valid() && View() == old(View()) && prefaceAt == Some(|written|)
    {
      PrefaceAppended(writeBuf.bytes, written, handedOver);
      writeBuf.Extend(PREFACE);
      prefaceAt := Some(|written|);
    }

    method Enter(newState: ConnectionState)
      requires Valid()
      modifies this`state
      ensures Valid() && View() == old(View()).(state := newState)
    {
      state := newState;
    }

    /** Writes the settings and waits for the peer's. */
    method Announce()
      requires Valid()
      modifies this`state, this`written, writeBuf
      ensures Valid() && View() == Announced(old(View()))
    {
      Enter(WaitingSettings);
      WriteFrame(LOCAL_SETTINGS);
    }

    method Notify(event: Event)
      requires Valid()
      modifies this`events, this`reported
      ensures Valid() && View() == old(View()).Happened(event)
    {
      IsRestPush(events, reported, polled, [event]);
      events := events + [event];
      reported := reported + [event];
    }

    method Fail(fault: Fault)
      requires Valid()
      modifies this`events, this`reported
      ensures Valid() && View() == old(View()).Failed(fault)
    {
      Notify(Error(fault));
    }

    /** The transport, or the caller, takes the first `n` bytes that are waiting. */
    method HandOver(n: nat)
      requires Valid() && n <= |writeBuf.bytes|
      modifies writeBuf, this`handedOver
      ensures Valid() && View() == old(View())
      ensures handedOver == old(handedOver) + n && writeBuf.bytes == old(writeBuf.bytes[n..])
    {
      IsRestDrop(writeBuf.bytes, OutputOf(written, prefaceAt), handedOver, n);
      var taken := writeBuf.SplitTo(n);
      handedOver := handedOver + n;
    }

    /** The events since the last call. */
    method PollEvents() returns (pending: seq<Event>)
      requires Valid()
      modifies this`events, this`polled
      ensures Valid() && View() == old(View())
      ensures pending == old(events) && events == [] && polled == old(polled) + |pending|
    {
      pending := events;
      events := [];
      polled := |reported|;
    }

    // ----- Streams and windows -----

    ghost method Record(l: Ledger)
      requires Valid()
      modifies this`ledger
      ensures Valid() && View() == old(View()).(ledger := l)
    {
      ledger := l;
    }

    predicate HasStream(id: u32)
      requires Valid()
      reads Repr()
      ensures HasStream(id) == (id in View().streams)
    {
      id in streams.streams
    }

    method AdjustStreams(delta: i32)
      requires Valid()
      modifies streams.Objects()
      ensures Valid() && View() == old(View()).(streams := Adjusted(old(View()).streams, delta))
      ensures streams.Objects() == old(streams.Objects())
    {
      streams.AdjustAll(delta);
    }

    method ReceiveOnStream(id: u32, size: u32, endStream: bool)
      requires Valid()
      modifies streams.Objects()
      ensures Valid() && View() == old(View()).(streams := old(View()).WithData(id, size, endStream))
      ensures streams.Objects() == old(streams.Objects())
    {
      streams.ReceiveData(id, size, endStream);
    }

    method TakeData(id: u32, size: u32, endStream: bool, length: nat)
      requires Valid()
      modifies streams.Objects(), this`ledger
      ensures Valid() && View() == old(View()).Took(id, size, endStream, length)
      ensures streams.Objects() == old(streams.Objects())
    {
      ReceiveOnStream(id, size, endStream);
      Record(ledger.(received := ledger.received + length));
    }

    method ResetStream(id: u32)
      requires Valid()
      modifies streams.Objects()
      ensures Valid() && View() == old(View()).(streams := old(View()).WithReset(id))
      ensures streams.Objects() == old(streams.Objects())
    {
      streams.Reset(id);
    }

    method ReceiveEndStream(id: u32)
      requires Valid()
      modifies streams.Objects()
      ensures Valid() && View() == old(View()).ReceiveEndStream(id)
      ensures streams.Objects() == old(streams.Objects())
    {
      streams.ReceiveEndStream(id);
    }

    method SendEndStream(id: u32)
      requires Valid()
      modifies streams.Objects()
      ensures Valid() && View() == old(View()).SendEndStream(id)
      ensures streams.Objects() == old(streams.Objects())
    {
      streams.SendEndStream(id);
    }

    method RemoveStream(id: u32)
      requires Valid()
      modifies streams
      ensures Valid() && View() == old(View()).(streams := old(View()).streams - {id})
      ensures streams.Objects() <= old(streams.Objects())
    {
      streams.Remove(id);
    }

    method OpenStream(id: u32)
      requires Valid()
      modifies streams, this`ledger
      ensures Valid() && View() == old(View()).OpenStream(id)
      ensures forall s :: s in streams.Objects() && s !in old(streams.Objects()) ==> fresh(s)
    {
      ghost var credit := View().FreshCredit();
      InsertStream(id);
      Record(ledger.(streams := ledger.streams[id := credit]));
    }

    method InsertStream(id: u32)
      requires Valid()
      modifies streams
      ensures Valid()
      ensures View() == old(View()).(streams := old(View()).streams[id := NewStream(id, remote.initialWindowSize)])
      ensures forall s :: s in streams.Objects() && s !in old(streams.Objects()) ==> fresh(s)
    {
      streams.Insert(id, remote.initialWindowSize);
    }

    /** Takes `n` bytes out of the connection's window and of a stream's. */
    method Spend(id: u32, n: nat, isEnd: bool)
      requires Valid() && id in View().streams
      modifies streams.Objects(), flowControl, this`ledger
      ensures Valid() && View() == old(View()).Spend(id, n, isEnd)
      ensures streams.Objects() == old(streams.Objects())
    {
      ghost var after := View().Spent(id, n);
      ConsumeOnly(AsU32(n));
      SpendOnStream(id, AsU32(n), isEnd);
      Record(after);
    }

    method SpendOnStream(id: u32, size: u32, isEnd: bool)
      requires Valid() && id in View().streams
      modifies streams.Objects()
      ensures var s := old(View()).streams;
              Valid() && View() == old(View()).(streams :=
                s[id := if isEnd then s[id].SendData(size).SendEndStream() else s[id].SendData(size)])
      ensures streams.Objects() == old(streams.Objects())
    {
      streams.SendData(id, size, isEnd);
    }

    method ConsumeOnly(amount: u32)
      requires Valid()
      modifies flowControl
      ensures Valid() && View() == old(View()).(flow := old(View()).flow.Consume(amount))
    {
      flowControl.Consume(amount);
    }

    method ResetPending()
      requires Valid()
      modifies flowControl
      ensures Valid() && View() == old(View()).(flow := old(View()).flow.ResetPending())
    {
      flowControl.ResetPending();
    }

    /** Data has arrived: gives its credit back if enough has been consumed, and says how much was given back. */
    method ReceiveCredit(size: u32) returns (due: Option<u32>)
      requires Valid()
      modifies flowControl
      ensures Valid() && View() == old(View()).(flow := old(View()).flow.Receive(size))
      ensures due == old(View()).flow.Due(size)
    {
      ConsumeOnly(size);
      due := None;
      if flowControl.ShouldUpdate() {
        due := Some(flowControl.consumed);
        ResetPending();
      }
    }

    /** What is given back is announced to the peer. */
    method ReturnCredit(size: u32)
      requires Valid()
      modifies flowControl, writeBuf, this`written
      ensures Valid() && View() == old(View()).ReturnCredit(size)
    {
      var due := ReceiveCredit(size);
      if due.Some? {
        WriteFrame(WindowUpdateFrame(0, due.value));
      }
    }

    method GrantConnection(increment: u32) returns (applied: bool)
      requires Valid()
      modifies flowControl, this`ledger
      ensures Valid() && applied == old(View()).flow.Accepts(increment)
      ensures View() == if applied then old(View()).HandleWindowUpdate(0, increment) else old(View())
    {
      applied := IncreaseWindow(increment);
      if applied {
        Record(ledger.(granted := ledger.granted + increment));
      }
    }

    method IncreaseWindow(increment: u32) returns (applied: bool)
      requires Valid()
      modifies flowControl
      ensures Valid() && applied == old(View()).flow.Accepts(increment)
      ensures View() == old(View()).(flow := old(View()).flow.Increase(increment))
    {
      applied := flowControl.IncreaseWindow(increment);
    }

    method GrantStream(id: u32, increment: u32) returns (applied: bool)
      requires Valid() && id != 0 && id in View().streams
      modifies streams.Objects(), this`ledger
      ensures Valid() && applied == old(View()).streams[id].Accepts(increment)
      ensures View() == if applied then old(View()).HandleWindowUpdate(id, increment) else old(View())
      ensures streams.Objects() == old(streams.Objects())
    {
      ghost var after := View().Granted(id, increment);
      applied := IncreaseStream(id, increment);
      if applied {
        Record(after);
      }
    }

    method IncreaseStream(id: u32, increment: u32) returns (applied: bool)
      requires Valid() && id in View().streams
      modifies streams.Objects()
      ensures var s := old(View()).streams;
              Valid() && applied == s[id].Accepts(increment)
              && View() == old(View()).(streams := s[id := s[id].IncreaseSendWindow(increment)])
      ensures streams.Objects() == old(streams.Objects())
    {
      applied := streams.Increase(id, increment);
    }

    // ----- Settings -----

    method SetTableSize(size: nat)
      requires Valid()
      modifies hpackEncoder.table
      ensures Valid() && View() == old(View()).(enc := Acted(cx, old(View()).enc, HpackSession.SetTableSize(size)).0)
    {
      hpackEncoder.DoSetTableSize(size);
    }

    method SetMaxFrameSize(size: u32)
      requires Valid()
      modifies frameEncoder
      ensures Valid() && View() == old(View()).(maxFrame := size)
    {
      frameEncoder.SetMaxFrameSize(size);
    }

    method SetRemote(settings: Settings)
      requires Valid()
      modifies this`remote
      ensures Valid() && View() == old(View()).(remote := settings)
    {
      remote := settings;
    }

    /** A new initial window size moves the window of every stream by the difference. */
    method ResizeWindows(initial: u32)
      requires Valid()
      modifies this`remote, streams.Objects()
      ensures Valid() && View() == old(View()).Resized(initial)
      ensures streams.Objects() == old(streams.Objects())
    {
      ResizeBy(initial, Wrap(AsI32(initial) - AsI32(remote.initialWindowSize)));
    }

    method ResizeBy(initial: u32, delta: i32)
      requires Valid()
      modifies this`remote, streams.Objects()
      ensures Valid() && View() == old(View()).ResizedBy(initial, delta)
      ensures streams.Objects() == old(streams.Objects())
    {
      SetRemote(remote.(initialWindowSize := initial));
      AdjustStreams(delta);
    }

    method LimitFrames(size: u32)
      requires Valid()
      modifies this`remote, frameEncoder
      ensures Valid() && View() == old(View()).(remote := old(remote).(maxFrameSize := size), maxFrame := size)
    {
      SetRemote(remote.(maxFrameSize := size));
      SetMaxFrameSize(size);
    }

    method ApplySetting(s: Setting)
      requires Valid()
      modifies this`remote, hpackEncoder.table, frameEncoder, streams.Objects()
      ensures Valid() && View() == old(View()).ApplySetting(s)
      ensures streams.Objects() == old(streams.Objects())
    {
      match s.id {
        case HeaderTableSize =>
          SetTableSize(s.value);
        case MaxConcurrentStreams =>
          SetRemote(remote.(maxConcurrentStreams := s.value));
        case InitialWindowSize =>
          ResizeWindows(s.value);
        case MaxFrameSize =>
          LimitFrames(s.value);
        case MaxHeaderListSize =>
          SetRemote(remote.(maxHeaderListSize := s.value));
        case _ =>
      }
    }

    method ApplySettings(settings: seq<Setting>)
      requires Valid()
      modifies this`remote, hpackEncoder.table, frameEncoder, streams.Objects()
      ensures Valid() && View() == old(View()).ApplySettings(settings)
      ensures streams.Objects() == old(streams.Objects())
    {
      assert settings[0..] == settings;
      for i := 0 to |settings|
        invariant Valid() && streams.Objects() == old(streams.Objects())
        invariant View().cx == cx && View().ApplySettings(settings[i..]) == old(View()).ApplySettings(settings)
      {
        assert settings[i..][1..] == settings[i + 1..];
        ApplySetting(settings[i]);
      }
    }

    // ----- Handlers -----

    method HandleSettings(ack: bool, settings: seq<Setting>)
      requires Valid()
      modifies this`remote, this`gotSettings, this`state, this`written, this`events, this`reported
      modifies hpackEncoder.table, frameEncoder, writeBuf, streams.Objects()
      ensures Valid() && View() == old(View()).HandleSettings(ack, settings)
      ensures streams.Objects() == old(streams.Objects())
    {
      if ack {
        return;
      }
      ApplySettings(settings);
      WriteFrame(SettingsFrame(true, []));
      if !gotSettings {
        Start();
      }
    }

    /** The peer's first settings have arrived. */
    method Start()
      requires Valid()
      modifies this`gotSettings, this`state, this`events, this`reported
      ensures Valid() && View() == old(View()).(gotSettings := true, state := ConnectionState.Open).Happened(Ready)
    {
      gotSettings := true;
      state := ConnectionState.Open;
      Notify(Ready);
    }

    method HandlePing(ack: bool, opaqueData: seq<byte>)
      requires Valid()
      modifies this`written, writeBuf
      ensures Valid() && View() == old(View()).HandlePing(ack, opaqueData)
    {
      if !ack {
        WriteFrame(PingFrame(true, opaqueData));
      }
    }

    method HandleGoAway(lastStreamId: u32, errorCode: u32)
      requires Valid()
      modifies this`state, this`events, this`reported
      ensures Valid() && View() == old(View()).HandleGoAway(lastStreamId, errorCode)
    {
      state := Draining;
      Notify(GoAway(lastStreamId, errorCode));
    }

    method HandleWindowUpdate(id: u32, increment: u32)
      requires Valid()
      modifies this`ledger, this`events, this`reported, flowControl, streams.Objects()
      ensures Valid() && View() == old(View()).HandleWindowUpdate(id, increment)
      ensures streams.Objects() == old(streams.Objects())
    {
      var applied := true;
      if id == 0 {
        applied := GrantConnection(increment);
      } else if HasStream(id) {
        applied := GrantStream(id, increment);
      }
      if !applied {
        Fail(WindowOverflow(id, increment));
      }
    }

    method HandleData(id: u32, endStream: bool, data: seq<byte>)
      requires Valid()
      modifies this`ledger, this`written, this`events, this`reported, flowControl, writeBuf, streams.Objects()
      ensures Valid() && View() == old(View()).HandleData(id, endStream, data)
      ensures streams.Objects() == old(streams.Objects())
    {
      var size := AsU32(|data|);
      TakeData(id, size, endStream, |data|);
      CreditAndReport(size, Data(id, data, endStream));
    }

    method CreditAndReport(size: u32, event: Event)
      requires Valid()
      modifies this`written, this`events, this`reported, flowControl, writeBuf
      ensures Valid() && View() == old(View()).ReturnCredit(size).Happened(event)
      ensures streams.Objects() == old(streams.Objects())
    {
      ReturnCredit(size);
      Notify(event);
    }

    method HandleRstStream(id: u32, errorCode: u32)
      requires Valid()
      modifies this`events, this`reported, streams.Objects()
      ensures Valid() && View() == old(View()).HandleRstStream(id, errorCode)
      ensures streams.Objects() == old(streams.Objects())
    {
      ResetStream(id);
      Notify(StreamReset(id, errorCode));
    }

    method HandleShared(f: Frame)
      requires Valid() && !f.HeadersFrame? && !f.PushPromiseFrame?
      modifies this`remote, this`gotSettings, this`state, this`ledger, this`written, this`events, this`reported
      modifies hpackEncoder.table, frameEncoder, flowControl, writeBuf, streams.Objects()
      ensures Valid() && View() == old(View()).HandleShared(f)
      ensures streams.Objects() == old(streams.Objects())
    {
      if f.SettingsFrame? {
        HandleSettings(f.ack, f.settings);
      } else if f.PingFrame? {
        HandlePing(f.ack, f.opaqueData);
      } else if f.GoAwayFrame? {
        HandleGoAway(f.lastStreamId, f.errorCode);
      } else if f.ContinuationFrame? {
        Fail(UnexpectedContinuation);
      } else if f.WindowUpdateFrame? || f.DataFrame? || f.RstStreamFrame? {
        HandleOnStream(f);
      }
    }

    method HandleOnStream(f: Frame)
      requires Valid() && (f.WindowUpdateFrame? || f.DataFrame? || f.RstStreamFrame?)
      modifies this`ledger, this`written, this`events, this`reported, flowControl, writeBuf, streams.Objects()
      ensures Valid() && View() == old(View()).HandleShared(f)
      ensures streams.Objects() == old(streams.Objects())
    {
      if f.WindowUpdateFrame? {
        HandleWindowUpdate(f.streamId, f.increment);
      } else if f.DataFrame? {
        HandleData(f.streamId, f.endStream, f.data);
      } else {
        HandleRstStream(f.streamId, f.errorCode);
      }
    }

    // ----- Header blocks and data -----

    /** Decodes a header block; the table keeps what was learned even if the block turns out to be broken. */
    method DecodeBlock(block: seq<byte>) returns (r: BlockResult)
      requires Valid()
      modifies hpackDecoder.table
      ensures var (dec', result) := BlockOf(cx, old(View()).dec, DEFAULT_TABLE_SIZE, block);
              Valid() && View() == old(View()).(dec := dec') && r == result
      ensures streams.Objects() == old(streams.Objects())
    {
      r := hpackDecoder.Decode(block);
    }

    method EncodeInto(headers: seq<HeaderField>, buf: ByteBuffer)
      requires Valid() && buf !in Repr() && buf.bytes == []
      modifies hpackEncoder.table, buf
      ensures var e := old(View());
              var (table, bytes) := BlockBytes(cx, e.enc.table, e.enc.useHuffman, headers);
              Valid() && View() == e.(enc := e.enc.(table := table)) && buf.bytes == [] + bytes
    {
      hpackEncoder.Encode(headers, buf);
    }

    method EncodeBlock(headers: seq<HeaderField>) returns (block: seq<byte>)
      requires Valid()
      modifies hpackEncoder.table
      ensures var e := old(View());
              var (table, bytes) := BlockBytes(cx, e.enc.table, e.enc.useHuffman, headers);
              Valid() && View() == e.(enc := e.enc.(table := table)) && block == bytes
    {
      var buf := new ByteBuffer();
      EncodeInto(headers, buf);
      block := buf.bytes;
    }

    method WriteHeaders(id: u32, headers: seq<HeaderField>, endStream: bool)
      requires Valid()
      modifies hpackEncoder.table, writeBuf, this`written
      ensures Valid() && View() == old(View()).WriteHeaders(id, headers, endStream)
    {
      var block := EncodeBlock(headers);
      WriteFrame(HeadersFrame(id, endStream, true, None, block));
    }

    function Available(id: u32, length: nat, most: nat): (n: nat)
      requires Valid() && id in View().streams
      reads Repr()
      ensures n == Allowance(View().flow.window, View().streams[id].sendWindow, length, most) <= length
    {
      Allowance(flowControl.window, streams.streams[id].sendWindow, length, most)
    }

    /** Opens a stream and writes the headers of a request on it. */
    method WriteRequest(id: u32, headers: seq<HeaderField>, endStream: bool)
      requires Valid()
      modifies this`ledger, this`written, streams, hpackEncoder.table, writeBuf
      ensures Valid() && View() == old(View()).OpenStream(id).WriteHeaders(id, headers, endStream)
      ensures forall s :: s in streams.Objects() && s !in old(streams.Objects()) ==> fresh(s)
    {
      OpenStream(id);
      WriteHeaders(id, headers, endStream);
    }

    /** Opens the stream of a request that was received, and reports it. */
    method AcceptStream(id: u32, endStream: bool, event: Event)
      requires Valid()
      modifies this`ledger, this`events, this`reported, streams, streams.Objects()
      ensures var e := old(View()).OpenStream(id);
              Valid() && View() == (if endStream then e.ReceiveEndStream(id) else e).Happened(event)
      ensures forall s :: s in streams.Objects() && s !in old(streams.Objects()) ==> fresh(s)
    {
      OpenStream(id);
      ReportHeaders(id, endStream, event);
    }

    method WriteResponse(id: u32, headers: seq<HeaderField>, endStream: bool)
      requires Valid()
      modifies this`written, hpackEncoder.table, writeBuf, streams.Objects()
      ensures var e := old(View()).WriteHeaders(id, headers, endStream);
              Valid() && View() == if endStream then e.SendEndStream(id) else e
      ensures streams.Objects() == old(streams.Objects())
    {
      WriteHeaders(id, headers, endStream);
      if endStream {
        SendEndStream(id);
      }
    }

    /** Reports received headers, and takes note of the end of the stream if they are all there is. */
    method ReportHeaders(id: u32, endStream: bool, event: Event)
      requires Valid()
      modifies this`events, this`reported, streams.Objects()
      ensures var e := old(View());
              Valid() && View() == (if endStream then e.ReceiveEndStream(id) else e).Happened(event)
      ensures streams.Objects() == old(streams.Objects())
    {
      if endStream {
        ReceiveEndStream(id);
      }
      Notify(event);
    }

    /** Sends as much of the data as the windows and `most` allow. */
    method SendData(id: u32, data: seq<byte>, endStream: bool, most: nat) returns (outcome: SendOutcome)
      requires Valid()
      modifies this`ledger, this`written, flowControl, writeBuf, streams.Objects()
      ensures Valid() && (View(), outcome) == old(View()).SendData(id, data, endStream, most)
      ensures streams.Objects() == old(streams.Objects())
    {
      if !HasStream(id) {
        return NotFound;
      }
      var toSend := Available(id, |data|, most);
      outcome := SendSome(id, data, endStream, toSend);
    }

    method SendSome(id: u32, data: seq<byte>, endStream: bool, toSend: nat) returns (outcome: SendOutcome)
      requires Valid() && id in View().streams && toSend <= |data|
      modifies this`ledger, this`written, flowControl, writeBuf, streams.Objects()
      ensures Valid() && (View(), outcome) == old(View()).SendSome(id, data, endStream, toSend)
      ensures streams.Objects() == old(streams.Objects())
    {
      if toSend == 0 && data != [] {
        return WouldBlock;
      }
      var isEnd := endStream && toSend == |data|;
      WriteData(id, isEnd, data[..toSend]);
      return Sent(toSend);
    }

    method WriteData(id: u32, isEnd: bool, data: seq<byte>)
      requires Valid() && id in View().streams
      modifies this`ledger, this`written, flowControl, writeBuf, streams.Objects()
      ensures Valid() && View() == old(View()).Spend(id, |data|, isEnd).Wrote(DataFrame(id, isEnd, data))
      ensures streams.Objects() == old(streams.Objects())
    {
      Spend(id, |data|, isEnd);
      WriteFrame(DataFrame(id, isEnd, data));
    }
  }

  /** HPACK codecs with empty tables of their own. */
  method NewCodecs(cx: Codec) returns (hpackEncoder: HpackEncoder.Encoder, hpackDecoder: HpackDecoder.Decoder)
    requires cx.Valid()
    ensures hpackEncoder.Valid() && hpackDecoder.Valid() && hpackDecoder.cx == hpackEncoder.cx == cx
    ensures hpackEncoder.View() == EncoderView(TableView([], DEFAULT_TABLE_SIZE), true)
    ensures hpackDecoder.table.View() == TableView([], DEFAULT_TABLE_SIZE)
    ensures hpackDecoder.maxTableSize == DEFAULT_TABLE_SIZE && hpackEncoder.table != hpackDecoder.table
    ensures fresh({hpackEncoder, hpackEncoder.table, hpackDecoder, hpackDecoder.table})
  {
    hpackEncoder := new HpackEncoder.Encoder(cx, DEFAULT_TABLE_SIZE);
    hpackDecoder := new HpackDecoder.Decoder(cx, DEFAULT_TABLE_SIZE);
  }

  /** A new connection with codecs of its own. */
  method NewCore(cx: Codec) returns (core: ConnectionCore)
    requires cx.Valid()
    ensures core.Valid() && core.cx == cx && core.View() == NewEndpoint(cx)
    ensures core.prefaceAt == None && core.readBuf.bytes == []
    ensures fresh(core) && fresh(core.frameEncoder) && fresh(core.frameDecoder)
    ensures fresh(core.hpackEncoder) && fresh(core.hpackEncoder.table)
    ensures fresh(core.hpackDecoder) && fresh(core.hpackDecoder.table)
    ensures fresh(core.streams) && core.streams.Objects() == {} && fresh(core.flowControl)
    ensures fresh(core.writeBuf) && fresh(core.readBuf)
  {
    var writeBuf := new ByteBuffer();
    var readBuf := new ByteBuffer();
    var frameEncoder := new FrameEncoder.Encoder();
    var frameDecoder := new FrameDecoder.Decoder();
    var flowControl := new FlowControl(DEFAULT_INITIAL_WINDOW_SIZE);
    var streams := new StreamTable();
    var hpackEncoder, hpackDecoder := NewCodecs(cx);
    core := new ConnectionCore(hpackEncoder, hpackDecoder, frameEncoder, frameDecoder, streams, flowControl,
                               writeBuf, readBuf);
  }

  /** `rest` is what is left of `all` without its first `n` elements. */
  ghost predicate IsRest<T>(rest: seq<T>, all: seq<T>, n: nat) {
    n + |rest| == |all| && forall i {:trigger rest[i]} :: 0 <= i < |rest| ==> rest[i] == all[n + i]
  }

  lemma IsRestPush<T>(rest: seq<T>, all: seq<T>, n: nat, more: seq<T>)
    requires IsRest(rest, all, n)
    ensures IsRest(rest + more, all + more, n)
  {
  }

  lemma IsRestDrop<T>(rest: seq<T>, all: seq<T>, n: nat, k: nat)
    requires IsRest(rest, all, n) && k <= |rest|
    ensures IsRest(rest[k..], all, n + k)
  {
  }

  /** The buffer stays the rest of what was written when a frame, or the preface, is appended. */
  lemma FrameAppended(waiting: seq<byte>, written: seq<Frame>, prefaceAt: Option<nat>, taken: nat, f: Frame)
    requires prefaceAt.Some? ==> prefaceAt.value <= |written|
    requires IsRest(waiting, OutputOf(written, prefaceAt), taken)
    ensures IsRest(waiting + FrameBytes(f), OutputOf(written + [f], prefaceAt), taken)
  {
    OutputPush(written, prefaceAt, f);
    IsRestPush(waiting, OutputOf(written, prefaceAt), taken, FrameBytes(f));
  }

  lemma PrefaceAppended(waiting: seq<byte>, written: seq<Frame>, taken: nat)
    requires IsRest(waiting, OutputOf(written, None), taken)
    ensures IsRest(waiting + PREFACE, OutputOf(written, Some(|written|)), taken)
  {
    PrefacePush(written);
    IsRestPush(waiting, OutputOf(written, None), taken, PREFACE);
  }

  lemma PrefacePush(written: seq<Frame>)
    ensures OutputOf(written, Some(|written|)) == OutputOf(written, None) + PREFACE
  {
    assert written[..|written|] == written && written[|written|..] == [];
    assert StreamBytes(written) + PREFACE + [] == StreamBytes(written) + PREFACE;
  }

  lemma OutputPush(written: seq<Frame>, prefaceAt: Option<nat>, f: Frame)
    requires prefaceAt.Some? ==> prefaceAt.value <= |written|
    ensures OutputOf(written + [f], prefaceAt) == OutputOf(written, prefaceAt) + FrameBytes(f)
  {
    StreamBytesPush(written, f);
    if prefaceAt.Some? {
      var at := prefaceAt.value;
      assert (written + [f])[..at] == written[..at];
      assert (written + [f])[at..] == written[at..] + [f];
      StreamBytesPush(written[at..], f);
      AppendAssociates(StreamBytes(written[..at]) + PREFACE, StreamBytes(written[at..]), FrameBytes(f));
    }
  }
}
