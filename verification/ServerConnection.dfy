/** The server connection: methods on objects, each proved to compute the step that the protocol describes. */
module ServerConnection {
  import opened Bytes
  import opened Tables
  import opened HpackCoding
  import opened Frames
  import opened FrameCoding
  import opened FrameStreams
  import opened Endpoints
  import opened ConnectionCore
  import S = ServerProtocol

  class ServerConnection {
    const core: ConnectionCore
    var gotPreface: bool
    var lastClientStreamId: u32

    ghost predicate Valid()
      reads this, core.Repr()
    {
      this !in core.Repr() && core.Valid() && core.prefaceAt.None?
    }

    ghost function Core(): S.Core
      reads this, core.Repr()
    {
      S.Core(core.View(), lastClientStreamId)
    }

    ghost function View(): S.Server
      reads this, core.Repr()
    {
      S.Server(Core(), gotPreface, core.readBuf.bytes)
    }

    constructor (core: ConnectionCore)
      requires core.Valid() && core.View() == NewEndpoint(core.cx)
      requires core.prefaceAt == None && core.readBuf.bytes == []
      ensures Valid() && View() == S.NewServer(core.cx) && this.core == core
    {
      this.core := core;
      gotPreface, lastClientStreamId := false, 0;
    }

    // ----- Receiving -----

    method OnRecv(data: seq<byte>)
      requires Valid()
      modifies core.readBuf
      ensures Valid() && View() == S.Step(old(View()), S.DoReceive(data))
      ensures core.streams.Objects() == old(core.streams.Objects())
    {
      core.readBuf.Extend(data);
    }

    /** Checks the preface, once it is there, and handles every frame that is complete in the buffer. */
    method Process()
      requires Valid()
      modifies this, core.Repr()
      ensures Valid() && View() == S.Process(old(View()))
    {
      if !gotPreface {
        if |core.readBuf.bytes| < |PREFACE| {
          return;
        }
        if core.readBuf.bytes[..|PREFACE|] != PREFACE {
          core.Fail(InvalidPreface);
          return;
        }
        AcceptPreface();
      }
      ProcessFrames();
    }

    method AcceptPreface()
      requires Valid() && |core.readBuf.bytes| >= |PREFACE|
      modifies this`gotPreface, core`state, core`written, core.writeBuf, core.readBuf
      ensures Valid() && core.streams.Objects() == old(core.streams.Objects())
      ensures var s := old(View());
              View() == S.Server(s.core.(e := Announced(s.core.e)), true, s.input[|PREFACE|..])
    {
      TakePreface();
      core.Announce();
    }

    method TakePreface()
      requires Valid() && |core.readBuf.bytes| >= |PREFACE|
      modifies this`gotPreface, core.readBuf
      ensures Valid() && core.streams.Objects() == old(core.streams.Objects())
      ensures View() == old(View()).(gotPreface := true, input := old(View()).input[|PREFACE|..])
    {
      var preface := core.readBuf.SplitTo(|PREFACE|);
      gotPreface := true;
    }

    method ProcessFrames()
      requires Valid()
      modifies this`lastClientStreamId, core.Repr()
      ensures Valid() && View() == S.ProcessFrames(old(View()))
    {
      var done := false;
      while !done
        invariant Valid() && View().core.e.cx == core.cx
        invariant forall s :: s in core.streams.Objects() && s !in old(core.streams.Objects()) ==> fresh(s)
        invariant if done then View() == S.ProcessFrames(old(View()))
                  else S.ProcessFrames(View()) == S.ProcessFrames(old(View()))
        decreases !done, |core.readBuf.bytes|
      {
        ProcessFramesStep(View());
        done := ProcessFrame();
      }
    }

    /** Handles the next frame, if there is one; says whether that was the end of it. */
    method ProcessFrame() returns (done: bool)
      requires Valid()
      modifies this`lastClientStreamId, core.Repr()
      ensures Valid() && forall s :: s in core.streams.Objects() && s !in old(core.streams.Objects()) ==> fresh(s)
      ensures (View(), done) == Turn(old(View()))
    {
      var r := NextFrame();
      match r
      case Ok(None) => return true;
      case Err(e) =>
        core.Fail(FrameFault(e));
        return true;
      case Ok(Some(f)) =>
        HandleFrame(f);
        return false;
    }

    method NextFrame() returns (r: Result<Option<Frame>, FrameError>)
      requires Valid()
      modifies core.readBuf
      ensures Valid() && core.streams.Objects() == old(core.streams.Objects())
      ensures match DecodeFrame(DEFAULT_MAX_FRAME_SIZE, old(core.readBuf.bytes))
              case NeedMore => r == Ok(None) && View() == old(View())
              case Oversized(e) => r == Err(e) && View() == old(View())
              case Malformed(e, rest) => r == Err(e) && View() == old(View()).(input := rest)
              case Parsed(f, rest) => r == Ok(Some(f)) && View() == old(View()).(input := rest)
    {
      r := core.frameDecoder.Decode(core.readBuf);
    }

    method HandleFrame(f: Frame)
      requires Valid()
      modifies this`lastClientStreamId
      modifies core`remote, core`gotSettings, core`state, core`ledger, core`written, core`events, core`reported
      modifies core.hpackEncoder.table, core.hpackDecoder.table, core.frameEncoder, core.flowControl
      modifies core.writeBuf, core.streams, core.streams.Objects()
      ensures Valid() && View() == old(View()).(core := S.Handle(old(View()).core, f))
      ensures forall s :: s in core.streams.Objects() && s !in old(core.streams.Objects()) ==> fresh(s)
    {
      if f.HeadersFrame? {
        HandleHeaders(f.streamId, f.endStream, f.block);
      } else {
        HandleOther(f);
      }
    }

    method HandleOther(f: Frame)
      requires Valid() && !f.HeadersFrame?
      modifies core`remote, core`gotSettings, core`state, core`ledger, core`written, core`events, core`reported
      modifies core.hpackEncoder.table, core.frameEncoder, core.flowControl, core.writeBuf, core.streams.Objects()
      ensures Valid() && View() == old(View()).(core := S.Handle(old(View()).core, f))
      ensures core.streams.Objects() == old(core.streams.Objects())
    {
      if f.PushPromiseFrame? {
        core.Fail(UnexpectedPushPromise);
      } else {
        core.HandleShared(f);
      }
    }

    /** A request: its identifier must be odd and new. It counts as used even if the block is broken. */
    method HandleHeaders(id: u32, endStream: bool, block: seq<byte>)
      requires Valid()
      modifies this`lastClientStreamId, core`ledger, core`events, core`reported
      modifies core.hpackDecoder.table, core.streams, core.streams.Objects()
      ensures Valid() && View() == old(View()).(core := S.HandleRequest(old(View()).core, id, endStream, block))
      ensures forall s :: s in core.streams.Objects() && s !in old(core.streams.Objects()) ==> fresh(s)
    {
      if id % 2 == 0 {
        core.Fail(EvenStreamId);
      } else if id <= lastClientStreamId {
        core.Fail(StreamIdNotGreater);
      } else {
        AcceptRequest(id, endStream, block);
      }
    }

    method AcceptRequest(id: u32, endStream: bool, block: seq<byte>)
      requires Valid() && id % 2 == 1 && id > lastClientStreamId
      modifies this`lastClientStreamId, core`ledger, core`events, core`reported
      modifies core.hpackDecoder.table, core.streams, core.streams.Objects()
      ensures Valid() && View() == old(View()).(core := S.HandleRequest(old(View()).core, id, endStream, block))
      ensures forall s :: s in core.streams.Objects() && s !in old(core.streams.Objects()) ==> fresh(s)
    {
      var headers := DecodeRequest(id, block);
      Answer(id, endStream, headers);
    }

    method DecodeRequest(id: u32, block: seq<byte>) returns (headers: BlockResult)
      requires Valid()
      modifies this`lastClientStreamId, core.hpackDecoder.table
      ensures var e := old(View()).core.e;
              var (dec', r) := BlockOf(e.cx, e.dec, DEFAULT_TABLE_SIZE, block);
              Valid() && View() == old(View()).(core := S.Core(e.(dec := dec'), id)) && headers == r
      ensures core.streams.Objects() == old(core.streams.Objects())
    {
      lastClientStreamId := id;
      headers := core.DecodeBlock(block);
    }

    method Answer(id: u32, endStream: bool, headers: BlockResult)
      requires Valid()
      modifies core`ledger, core`events, core`reported, core.streams, core.streams.Objects()
      ensures Valid() && View() == old(View()).(core := S.Accepted(old(Core()), id, endStream, headers))
      ensures forall s :: s in core.streams.Objects() && s !in old(core.streams.Objects()) ==> fresh(s)
    {
      match headers {
        case Err(e) => core.Fail(HpackFault(e));
        case Ok(h) => core.AcceptStream(id, endStream, Request(id, h, endStream));
      }
    }

    // ----- Responses -----

    /** Writes response headers; refused if there is no such stream. */
    method SendHeaders(id: u32, headers: seq<HeaderField>, endStream: bool) returns (found: bool)
      requires Valid()
      modifies core`written, core.hpackEncoder.table, core.writeBuf, core.streams.Objects()
      ensures Valid() && (View(), found) == S.SendHeaders(old(View()), id, headers, endStream)
      ensures core.streams.Objects() == old(core.streams.Objects())
    {
      if !core.HasStream(id) {
        return false;
      }
      core.WriteResponse(id, headers, endStream);
      return true;
    }

    /** Sends as much of the data as the windows allow; the peer's maximum frame size is not looked at. */
    method SendData(id: u32, data: seq<byte>, endStream: bool) returns (outcome: SendOutcome)
      requires Valid()
      modifies core`ledger, core`written, core.flowControl, core.writeBuf, core.streams.Objects()
      ensures Valid() && (View(), outcome) == S.SendData(old(View()), id, data, endStream)
      ensures core.streams.Objects() == old(core.streams.Objects())
    {
      outcome := core.SendData(id, data, endStream, |data|);
    }

    method SendGoAway(errorCode: u32, debugData: seq<byte>)
      requires Valid()
      modifies core`state, core`written, core.writeBuf
      ensures Valid() && View() == S.SendGoAway(old(View()), errorCode, debugData)
    {
      core.WriteFrame(GoAwayFrame(Mask31(lastClientStreamId), errorCode, debugData));
      core.Enter(Draining);
    }

    method ResetStream(id: u32, errorCode: u32)
      requires Valid()
      modifies core`written, core.writeBuf, core.streams.Objects()
      ensures Valid() && View() == S.ResetStream(old(View()), id, errorCode)
      ensures core.streams.Objects() == old(core.streams.Objects())
    {
      core.WriteFrame(RstStreamFrame(id, errorCode));
      core.ResetStream(id);
    }

    method RemoveStream(id: u32)
      requires Valid()
      modifies core.streams
      ensures Valid() && View() == S.RemoveStream(old(View()), id)
      ensures core.streams.Objects() <= old(core.streams.Objects())
    {
      core.RemoveStream(id);
    }

    /** The caller has sent the first `n` of the waiting bytes. */
    method AdvanceSend(n: nat)
      requires Valid() && n <= |core.writeBuf.bytes|
      modifies core.writeBuf, core`handedOver
      ensures Valid() && View() == old(View())
      ensures core.writeBuf.bytes == old(core.writeBuf.bytes[n..]) && core.handedOver == old(core.handedOver) + n
    {
      core.HandOver(n);
    }

    method PollEvents() returns (pending: seq<Event>)
      requires Valid()
      modifies core`events, core`polled
      ensures Valid() && View() == old(View())
      ensures pending == old(core.events) && core.events == []
    {
      pending := core.PollEvents();
    }
  }

  /** One turn of the loop over the buffer, and whether it was the last. */
  ghost function Turn(s: S.Server): (r: (S.Server, bool))
    requires s.core.e.cx.Valid()
    ensures !r.1 ==> |r.0.input| < |s.input|
  {
    match DecodeFrame(DEFAULT_MAX_FRAME_SIZE, s.input)
    case NeedMore => (s, true)
    case Oversized(e) => (s.(core := s.core.(e := s.core.e.Failed(FrameFault(e)))), true)
    case Malformed(e, rest) => (s.(core := s.core.(e := s.core.e.Failed(FrameFault(e))), input := rest), true)
    case Parsed(f, rest) => (s.(core := S.Handle(s.core, f), input := rest), false)
  }

  lemma ProcessFramesStep(s: S.Server)
    requires s.core.e.cx.Valid()
    ensures Turn(s).0.core.e.cx == s.core.e.cx
    ensures S.ProcessFrames(s) == if Turn(s).1 then Turn(s).0 else S.ProcessFrames(Turn(s).0)
  {
    var a := DecodeFrame(DEFAULT_MAX_FRAME_SIZE, s.input);
    if a.Parsed? {
      var rest := DecodeAll(DEFAULT_MAX_FRAME_SIZE, a.rest).frames;
      assert ([a.frame] + rest)[1..] == rest;
    }
  }
}
