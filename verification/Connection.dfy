/** The client connection: methods on objects, each proved to compute the step that the protocol describes. */
module Connection {
  import opened Bytes
  import opened Tables
  import opened Frames
  import opened FrameCoding
  import opened FrameStreams
  import opened Endpoints
  import opened ConnectionCore
  import opened FlowControl
  import C = ClientProtocol

  class Connection {
    const core: ConnectionCore
    var nextStreamId: u32

    ghost function Repr(): set<object>
      reads core.streams
    {
      {this} + core.Repr()
    }

    ghost predicate Valid()
      reads Repr()
    {
      this !in core.Repr() && core.Valid() && (core.state == WaitingPreface ==> core.prefaceAt.None?)
    }

    ghost function View(): C.Client
      reads Repr()
    {
      C.Client(core.View(), nextStreamId, core.prefaceAt, core.readBuf.bytes)
    }

    constructor (core: ConnectionCore)
      requires core.Valid() && core.View() == NewEndpoint(core.cx)
      requires core.prefaceAt == None && core.readBuf.bytes == []
      ensures Valid() && View() == C.NewClient(core.cx) && Repr() == {this} + core.Repr()
    {
      this.core := core;
      nextStreamId := 1;
    }

    /** Offers the waiting bytes to the transport, which takes any number of them. */
    method Flush()
      requires Valid()
      modifies core.writeBuf, core`handedOver
      ensures Valid() && View() == old(View()) && core.streams.Objects() == old(core.streams.Objects())
    {
      var n: nat :| n <= |core.writeBuf.bytes|;
      core.HandOver(n);
    }

    /** The transport is ready: the preface and the settings go out, once. */
    method OnTransportReady()
      requires Valid()
      modifies core`state, core`written, core`prefaceAt, core`handedOver, core.writeBuf
      ensures Valid() && View() == C.TransportReady(old(View()))
    {
      if core.state == WaitingPreface {
        SendPreface();
        Flush();
      }
    }

    method SendPreface()
      requires Valid() && core.state == WaitingPreface
      modifies core`state, core`written, core`prefaceAt, core.writeBuf
      ensures Valid() && View() == C.TransportReady(old(View()))
    {
      core.WritePreface();
      core.Announce();
    }

    // ----- Receiving -----

    /** Appends bytes to the buffer and handles every frame that is complete in it. */
    method FeedData(data: seq<byte>)
      requires Valid()
      modifies core.Repr()
      ensures Valid() && View() == C.Feed(old(View()), data)
      ensures core.streams.Objects() == old(core.streams.Objects())
    {
      Append(data);
      ProcessFrames();
    }

    method Append(data: seq<byte>)
      requires Valid()
      modifies core.readBuf
      ensures Valid() && View() == old(View()).(input := old(View()).input + data)
    {
      core.readBuf.Extend(data);
    }

    /** Takes frames off the buffer until one is incomplete or broken. */
    method ProcessFrames()
      requires Valid()
      modifies core.Repr()
      ensures Valid() && View() == Processed(old(View()))
      ensures core.streams.Objects() == old(core.streams.Objects())
    {
      var done := false;
      while !done
        invariant Valid() && core.streams.Objects() == old(core.streams.Objects())
        invariant View().e.cx == core.cx
        invariant if done then View() == Processed(old(View())) else Processed(View()) == Processed(old(View()))
        decreases !done, |core.readBuf.bytes|
      {
        ProcessedStep(View());
        done := ProcessFrame();
      }
    }

    /** Handles the next frame, if there is one; says whether that was the end of it. */
    method ProcessFrame() returns (done: bool)
      requires Valid()
      modifies core.Repr()
      ensures Valid() && core.streams.Objects() == old(core.streams.Objects())
      ensures (View(), done) == Turn(old(View()))
    {
      var r := NextFrame();
      match r
      case Ok(None) => return true;
      case Err(e) =>
        core.Fail(FrameFault(e));
        return true;
      case Ok(Some(f)) =>
        HandleFrame(f);
        return false;
    }

    method NextFrame() returns (r: Result<Option<Frame>, FrameError>)
      requires Valid()
      modifies core.readBuf
      ensures Valid()
      ensures match DecodeFrame(DEFAULT_MAX_FRAME_SIZE, old(core.readBuf.bytes))
              case NeedMore => r == Ok(None) && View() == old(View())
              case Oversized(e) => r == Err(e) && View() == old(View())
              case Malformed(e, rest) => r == Err(e) && View() == old(View()).(input := rest)
              case Parsed(f, rest) => r == Ok(Some(f)) && View() == old(View()).(input := rest)
    {
      r := core.frameDecoder.Decode(core.readBuf);
    }

    method HandleFrame(f: Frame)
      requires Valid()
      modifies core`remote, core`gotSettings, core`state, core`ledger, core`written, core`events, core`reported
      modifies core`handedOver, core.hpackEncoder.table, core.hpackDecoder.table, core.frameEncoder, core.flowControl
      modifies core.writeBuf, core.streams.Objects()
      ensures Valid() && View() == old(View()).(e := C.Handle(old(View()).e, f))
      ensures core.streams.Objects() == old(core.streams.Objects())
    {
      C.FrameKeepsStartedOr(core.View(), f);
      if f.HeadersFrame? {
        HandleHeaders(f.streamId, f.endStream, f.block);
      } else if !f.PushPromiseFrame? {
        var before := |core.writeBuf.bytes|;
        core.HandleShared(f);
        if |core.writeBuf.bytes| > before {
          Flush();
        }
      }
    }

    method HandleHeaders(id: u32, endStream: bool, block: seq<byte>)
      requires Valid()
      modifies core`events, core`reported, core.hpackDecoder.table, core.streams.Objects()
      ensures Valid() && View() == old(View()).(e := C.HandleHeaders(old(View()).e, id, endStream, block))
      ensures core.streams.Objects() == old(core.streams.Objects())
    {
      var headers := core.DecodeBlock(block);
      match headers {
        case Err(e) =>
          core.Fail(HpackFault(e));
        case Ok(h) =>
          core.ReportHeaders(id, endStream, Headers(id, h, endStream));
      }
    }

    // ----- Requests -----

    /** Opens a stream and sends its headers; refused unless the connection is open. */
    method StartRequest(headers: seq<HeaderField>, endStream: bool) returns (id: Option<u32>)
      requires Valid()
      modifies this`nextStreamId, core`ledger, core`written, core`handedOver
      modifies core.streams, core.hpackEncoder.table, core.writeBuf
      ensures Valid() && (View(), id) == C.StartRequest(old(View()), headers, endStream)
      ensures forall s :: s in core.streams.Objects() && s !in old(core.streams.Objects()) ==> fresh(s)
    {
      if core.state == ConnectionState.Open {
        var streamId := OpenRequest(headers, endStream);
        id := Some(streamId);
      } else {
        id := None;
      }
    }

    method OpenRequest(headers: seq<HeaderField>, endStream: bool) returns (id: u32)
      requires Valid() && View().e.state == ConnectionState.Open
      modifies this`nextStreamId, core`ledger, core`written, core`handedOver
      modifies core.streams, core.hpackEncoder.table, core.writeBuf
      ensures Valid() && (View(), Some(id)) == C.StartRequest(old(View()), headers, endStream)
      ensures forall s :: s in core.streams.Objects() && s !in old(core.streams.Objects()) ==> fresh(s)
    {
      id := Mask31(nextStreamId);
      SendRequest(id, headers, endStream);
      nextStreamId := AddU32(nextStreamId, 2);
    }

    method SendRequest(id: u32, headers: seq<HeaderField>, endStream: bool)
      requires Valid()
      modifies core`ledger, core`written, core`handedOver, core.streams, core.hpackEncoder.table, core.writeBuf
      ensures Valid() && View() == old(View()).(e := old(View()).e.OpenStream(id).WriteHeaders(id, headers, endStream))
      ensures forall s :: s in core.streams.Objects() && s !in old(core.streams.Objects()) ==> fresh(s)
    {
      core.WriteRequest(id, headers, endStream);
      Flush();
    }

    /** Sends as much of the data as the windows and the peer's maximum frame size allow. */
    method SendData(id: u32, data: seq<byte>, endStream: bool) returns (outcome: SendOutcome)
      requires Valid()
      modifies core`ledger, core`written, core`handedOver, core.flowControl, core.writeBuf, core.streams.Objects()
      ensures Valid() && (View(), outcome) == C.SendData(old(View()), id, data, endStream)
      ensures core.streams.Objects() == old(core.streams.Objects())
    {
      outcome := core.SendData(id, data, endStream, core.frameEncoder.maxFrameSize);
      Flush();
    }

    method PollEvents() returns (pending: seq<Event>)
      requires Valid()
      modifies core`events, core`polled
      ensures Valid() && View() == old(View())
      ensures pending == old(core.events) && core.events == []
    {
      pending := core.PollEvents();
    }
  }

  // ----- The loop over the buffer -----

  /** The client after every frame that is complete in its buffer has been handled. */
  ghost function Processed(c: C.Client): C.Client
    requires c.e.cx.Valid()
  {
    var d := DecodeAll(DEFAULT_MAX_FRAME_SIZE, c.input);
    c.(e := C.HandleAll(c.e, d.frames).Reported(d.error), input := d.tail)
  }

  /** One turn of the loop, and whether it was the last. */
  ghost function Turn(c: C.Client): (r: (C.Client, bool))
    requires c.e.cx.Valid()
    ensures !r.1 ==> |r.0.input| < |c.input|
  {
    match DecodeFrame(DEFAULT_MAX_FRAME_SIZE, c.input)
    case NeedMore => (c, true)
    case Oversized(e) => (c.(e := c.e.Failed(FrameFault(e))), true)
    case Malformed(e, rest) => (c.(e := c.e.Failed(FrameFault(e)), input := rest), true)
    case Parsed(f, rest) => (c.(e := C.Handle(c.e, f), input := rest), false)
  }

  lemma ProcessedStep(c: C.Client)
    requires c.e.cx.Valid()
    ensures Turn(c).0.e.cx == c.e.cx
    ensures Processed(c) == if Turn(c).1 then Turn(c).0 else Processed(Turn(c).0)
  {
    var a := DecodeFrame(DEFAULT_MAX_FRAME_SIZE, c.input);
    if a.Parsed? {
      var rest := DecodeAll(DEFAULT_MAX_FRAME_SIZE, a.rest).frames;
      assert ([a.frame] + rest)[1..] == rest;
    }
  }
}
