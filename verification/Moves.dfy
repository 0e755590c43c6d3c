/**
 Both kinds of connection are runs of one machine: whatever a client or a server does to its
 endpoint is a sequence of the moves below, so what every move keeps holds in every run of either.
 */
module Moves {
  import opened Bytes
  import opened PrefixCodes
  import opened Tables
  import opened HpackCoding
  import opened Frames
  import opened FrameCoding
  import opened FrameStreams
  import opened Endpoints
  import C = ClientProtocol
  import S = ServerProtocol

  datatype Move =
    | Receive(f: Frame)
    | Learn(dec: TableView)
    | Notice(event: Event)
    | Begin(id: u32)
    | EndReceived(id: u32)
    | EndSent(id: u32)
    | Reset(id: u32)
    | Remove(id: u32)
    | Block(id: u32, headers: seq<HeaderField>, endStream: bool)
    | Send(id: u32, data: seq<byte>, endStream: bool, most: nat)
    | Write(f: Frame)
    | Enter(state: ConnectionState)

  predicate Proper(m: Move) {
    match m
    case Receive(f) => Sendable(DEFAULT_MAX_FRAME_SIZE, f) && !f.HeadersFrame? && !f.PushPromiseFrame?
    case Notice(event) => !event.Data?
    case Write(f) => !f.DataFrame? && !f.WindowUpdateFrame?
    case _ => true
  }

  function Moved(e: Endpoint, m: Move): (e': Endpoint)
    requires |e.cx.huffman| == SYMBOLS && Proper(m)
    ensures e'.cx == e.cx
  {
    match m
    case Receive(f) => e.HandleShared(f)
    case Learn(dec) => e.(dec := dec)
    case Notice(event) => e.Happened(event)
    case Begin(id) => e.OpenStream(id)
    case EndReceived(id) => e.ReceiveEndStream(id)
    case EndSent(id) => e.SendEndStream(id)
    case Reset(id) => e.(streams := e.WithReset(id))
    case Remove(id) => e.(streams := e.streams - {id})
    case Block(id, headers, endStream) => e.WriteHeaders(id, headers, endStream)
    case Send(id, data, endStream, most) => e.SendData(id, data, endStream, most).0
    case Write(f) => e.Wrote(f)
    case Enter(state) => e.(state := state)
  }

  predicate AllProper(moves: seq<Move>) {
    forall m :: m in moves ==> Proper(m)
  }

  function MovedAll(e: Endpoint, moves: seq<Move>): (e': Endpoint)
    requires |e.cx.huffman| == SYMBOLS && AllProper(moves)
    ensures e'.cx == e.cx
    decreases |moves|
  {
    if moves == [] then e else MovedAll(Moved(e, moves[0]), moves[1..])
  }

  lemma {:induction false} MovedAppend(e: Endpoint, first: seq<Move>, rest: seq<Move>)
    requires |e.cx.huffman| == SYMBOLS && AllProper(first) && AllProper(rest)
    ensures AllProper(first + rest)
    ensures MovedAll(e, first + rest) == MovedAll(MovedAll(e, first), rest)
    decreases |first|
  {
    if first == [] {
      assert [] + rest == rest;
    } else {
      MovedAppend(Moved(e, first[0]), first[1..], rest);
      assert (first + rest)[1..] == first[1..] + rest;
    }
  }

  /** The moves lead from one state to the other. */
  ghost predicate Leads(e: Endpoint, moves: seq<Move>, e': Endpoint) {
    |e.cx.huffman| == SYMBOLS && AllProper(moves) && e' == MovedAll(e, moves)
  }

  lemma LeadsNowhere(e: Endpoint)
    requires |e.cx.huffman| == SYMBOLS
    ensures Leads(e, [], e)
  {
  }

  lemma LeadsOne(e: Endpoint, m: Move)
    requires |e.cx.huffman| == SYMBOLS && Proper(m)
    ensures Leads(e, [m], Moved(e, m))
  {
    assert [m][1..] == [];
    LeadsNowhere(Moved(e, m));
  }

  lemma LeadsAppend(e: Endpoint, first: seq<Move>, e': Endpoint, rest: seq<Move>, e'': Endpoint)
    requires Leads(e, first, e') && Leads(e', rest, e'')
    ensures Leads(e, first + rest, e'')
  {
    MovedAppend(e, first, rest);
  }

  lemma LeadsThen(e: Endpoint, first: seq<Move>, e': Endpoint, m: Move)
    requires Leads(e, first, e') && Proper(m)
    ensures Leads(e, first + [m], Moved(e', m))
  {
    LeadsOne(e', m);
    LeadsAppend(e, first, e', [m], Moved(e', m));
  }

  // ----- A client's moves -----

  lemma ClientFrameMoves(e: Endpoint, f: Frame) returns (moves: seq<Move>)
    requires e.cx.Valid() && Sendable(DEFAULT_MAX_FRAME_SIZE, f)
    ensures Leads(e, moves, C.Handle(e, f))
  {
    LeadsNowhere(e);
    if f.HeadersFrame? {
      var (dec', r) := BlockOf(e.cx, e.dec, DEFAULT_TABLE_SIZE, f.block);
      moves := [Learn(dec')];
      LeadsOne(e, Learn(dec'));
      var e' := e.(dec := dec');
      if r.Ok? {
        if f.endStream {
          LeadsThen(e, moves, e', EndReceived(f.streamId));
          moves, e' := moves + [EndReceived(f.streamId)], e'.ReceiveEndStream(f.streamId);
        }
        var event := Headers(f.streamId, r.value, f.endStream);
        LeadsThen(e, moves, e', Notice(event));
        moves := moves + [Notice(event)];
      } else {
        LeadsThen(e, moves, e', Notice(Error(HpackFault(r.error))));
        moves := moves + [Notice(Error(HpackFault(r.error)))];
      }
    } else if f.PushPromiseFrame? {
      moves := [];
    } else {
      LeadsOne(e, Receive(f));
      moves := [Receive(f)];
    }
  }

  lemma {:induction false} ClientFramesMoves(e: Endpoint, frames: seq<Frame>) returns (moves: seq<Move>)
    requires e.cx.Valid() && forall f :: f in frames ==> Sendable(DEFAULT_MAX_FRAME_SIZE, f)
    ensures Leads(e, moves, C.HandleAll(e, frames))
    decreases |frames|
  {
    if frames == [] {
      moves := [];
      LeadsNowhere(e);
    } else {
      assert Sendable(DEFAULT_MAX_FRAME_SIZE, frames[0]);
      var first := ClientFrameMoves(e, frames[0]);
      var e' := C.Handle(e, frames[0]);
      var rest := ClientFramesMoves(e', frames[1..]);
      LeadsAppend(e, first, e', rest, C.HandleAll(e', frames[1..]));
      moves := first + rest;
    }
  }

  lemma ReportedMoves(e: Endpoint, error: Option<FrameError>) returns (moves: seq<Move>)
    requires |e.cx.huffman| == SYMBOLS
    ensures Leads(e, moves, e.Reported(error))
  {
    LeadsNowhere(e);
    moves := [];
    if error.Some? {
      LeadsOne(e, Notice(Error(FrameFault(error.value))));
      moves := [Notice(Error(FrameFault(error.value)))];
    }
  }

  lemma AnnouncedMoves(e: Endpoint) returns (moves: seq<Move>)
    requires |e.cx.huffman| == SYMBOLS
    ensures Leads(e, moves, Announced(e))
  {
    LeadsOne(e, Enter(WaitingSettings));
    LeadsThen(e, [Enter(WaitingSettings)], e.(state := WaitingSettings), Write(LOCAL_SETTINGS));
    moves := [Enter(WaitingSettings)] + [Write(LOCAL_SETTINGS)];
  }

  lemma ClientStepMoves(c: C.Client, a: C.Action) returns (moves: seq<Move>)
    requires c.e.cx.Valid()
    ensures Leads(c.e, moves, C.Step(c, a).e)
  {
    LeadsNowhere(c.e);
    moves := [];
    match a
    case DoReady =>
      if c.e.state == WaitingPreface {
        moves := AnnouncedMoves(c.e);
      }
    case DoFeed(data) =>
      var d := DecodeAll(DEFAULT_MAX_FRAME_SIZE, c.input + data);
      DecodedAreSendable(DEFAULT_MAX_FRAME_SIZE, c.input + data);
      var first := ClientFramesMoves(c.e, d.frames);
      var e' := C.HandleAll(c.e, d.frames);
      var rest := ReportedMoves(e', d.error);
      LeadsAppend(c.e, first, e', rest, e'.Reported(d.error));
      moves := first + rest;
    case DoRequest(headers, endStream) =>
      if c.e.state == ConnectionState.Open {
        var id := Mask31(c.nextStreamId);
        LeadsOne(c.e, Begin(id));
        LeadsThen(c.e, [Begin(id)], c.e.OpenStream(id), Block(id, headers, endStream));
        moves := [Begin(id)] + [Block(id, headers, endStream)];
      }
    case DoSend(id, data, endStream) =>
      LeadsOne(c.e, Send(id, data, endStream, c.e.maxFrame));
      moves := [Send(id, data, endStream, c.e.maxFrame)];
  }

  lemma {:induction false} ClientRunMoves(c: C.Client, actions: seq<C.Action>) returns (moves: seq<Move>)
    requires c.e.cx.Valid()
    ensures Leads(c.e, moves, C.Run(c, actions).e)
    decreases |actions|
  {
    if actions == [] {
      moves := [];
      LeadsNowhere(c.e);
    } else {
      var first := ClientStepMoves(c, actions[0]);
      var c' := C.Step(c, actions[0]);
      var rest := ClientRunMoves(c', actions[1..]);
      LeadsAppend(c.e, first, c'.e, rest, C.Run(c', actions[1..]).e);
      moves := first + rest;
    }
  }

  // ----- A server's moves -----

  lemma ServerFrameMoves(s: S.Core, f: Frame) returns (moves: seq<Move>)
    requires s.e.cx.Valid() && Sendable(DEFAULT_MAX_FRAME_SIZE, f)
    ensures Leads(s.e, moves, S.Handle(s, f).e)
  {
    if f.HeadersFrame? {
      moves := RequestMoves(s, f.streamId, f.endStream, f.block);
    } else {
      var m := if f.PushPromiseFrame? then Notice(Error(UnexpectedPushPromise)) else Receive(f);
      LeadsOne(s.e, m);
      moves := [m];
    }
  }

  lemma RequestMoves(s: S.Core, id: u32, endStream: bool, block: seq<byte>) returns (moves: seq<Move>)
    requires s.e.cx.Valid()
    ensures Leads(s.e, moves, S.HandleRequest(s, id, endStream, block).e)
  {
    var e := s.e;
    if id % 2 == 0 {
      LeadsOne(e, Notice(Error(EvenStreamId)));
      moves := [Notice(Error(EvenStreamId))];
    } else if id <= s.lastClientStreamId {
      LeadsOne(e, Notice(Error(StreamIdNotGreater)));
      moves := [Notice(Error(StreamIdNotGreater))];
    } else {
      var (dec', r) := BlockOf(e.cx, e.dec, DEFAULT_TABLE_SIZE, block);
      LeadsOne(e, Learn(dec'));
      moves := [Learn(dec')];
      var e' := e.(dec := dec');
      if r.Ok? {
        LeadsThen(e, moves, e', Begin(id));
        moves, e' := moves + [Begin(id)], e'.OpenStream(id);
        if endStream {
          LeadsThen(e, moves, e', EndReceived(id));
          moves, e' := moves + [EndReceived(id)], e'.ReceiveEndStream(id);
        }
        LeadsThen(e, moves, e', Notice(Request(id, r.value, endStream)));
        moves := moves + [Notice(Request(id, r.value, endStream))];
      } else {
        LeadsThen(e, moves, e', Notice(Error(HpackFault(r.error))));
        moves := moves + [Notice(Error(HpackFault(r.error)))];
      }
    }
  }

  lemma {:induction false} ServerFramesMoves(s: S.Core, frames: seq<Frame>) returns (moves: seq<Move>)
    requires s.e.cx.Valid() && forall f :: f in frames ==> Sendable(DEFAULT_MAX_FRAME_SIZE, f)
    ensures Leads(s.e, moves, S.HandleAll(s, frames).e)
    decreases |frames|
  {
    if frames == [] {
      moves := [];
      LeadsNowhere(s.e);
    } else {
      assert Sendable(DEFAULT_MAX_FRAME_SIZE, frames[0]);
      var first := ServerFrameMoves(s, frames[0]);
      var s' := S.Handle(s, frames[0]);
      var rest := ServerFramesMoves(s', frames[1..]);
      LeadsAppend(s.e, first, s'.e, rest, S.HandleAll(s', frames[1..]).e);
      moves := first + rest;
    }
  }

  lemma ServerProcessFramesMoves(s: S.Server) returns (moves: seq<Move>)
    requires s.core.e.cx.Valid()
    ensures Leads(s.core.e, moves, S.ProcessFrames(s).core.e)
  {
    var d := DecodeAll(DEFAULT_MAX_FRAME_SIZE, s.input);
    DecodedAreSendable(DEFAULT_MAX_FRAME_SIZE, s.input);
    var first := ServerFramesMoves(s.core, d.frames);
    var e' := S.HandleAll(s.core, d.frames).e;
    var rest := ReportedMoves(e', d.error);
    LeadsAppend(s.core.e, first, e', rest, e'.Reported(d.error));
    moves := first + rest;
  }

  lemma ServerProcessMoves(s: S.Server) returns (moves: seq<Move>)
    requires s.core.e.cx.Valid()
    ensures Leads(s.core.e, moves, S.Process(s).core.e)
  {
    var e := s.core.e;
    if s.gotPreface {
      moves := ServerProcessFramesMoves(s);
    } else if |s.input| < |PREFACE| {
      LeadsNowhere(e);
      moves := [];
    } else if s.input[..|PREFACE|] == PREFACE {
      var s' := S.Server(s.core.(e := Announced(e)), true, s.input[|PREFACE|..]);
      var first := AnnouncedMoves(e);
      var rest := ServerProcessFramesMoves(s');
      LeadsAppend(e, first, s'.core.e, rest, S.ProcessFrames(s').core.e);
      moves := first + rest;
    } else {
      LeadsOne(e, Notice(Error(InvalidPreface)));
      moves := [Notice(Error(InvalidPreface))];
    }
  }

  lemma ResponseMoves(e: Endpoint, id: u32, headers: seq<HeaderField>, endStream: bool) returns (moves: seq<Move>)
    requires |e.cx.huffman| == SYMBOLS
    ensures var e' := e.WriteHeaders(id, headers, endStream);
            Leads(e, moves, if endStream then e'.SendEndStream(id) else e')
  {
    LeadsOne(e, Block(id, headers, endStream));
    moves := [Block(id, headers, endStream)];
    if endStream {
      LeadsThen(e, moves, e.WriteHeaders(id, headers, endStream), EndSent(id));
      moves := moves + [EndSent(id)];
    }
  }

  lemma WriteMoves(e: Endpoint, f: Frame, m: Move) returns (moves: seq<Move>)
    requires |e.cx.huffman| == SYMBOLS && Proper(Write(f)) && Proper(m)
    ensures Leads(e, moves, Moved(e.Wrote(f), m))
  {
    LeadsOne(e, Write(f));
    LeadsThen(e, [Write(f)], e.Wrote(f), m);
    moves := [Write(f)] + [m];
  }

  lemma ServerStepMoves(s: S.Server, a: S.Action) returns (moves: seq<Move>)
    requires s.core.e.cx.Valid()
    ensures Leads(s.core.e, moves, S.Step(s, a).core.e)
  {
    var e := s.core.e;
    LeadsNowhere(e);
    moves := [];
    match a
    case DoReceive(_) =>
    case DoProcess => moves := ServerProcessMoves(s);
    case DoHeaders(id, headers, endStream) =>
      if id in e.streams {
        moves := ResponseMoves(e, id, headers, endStream);
      }
    case DoSend(id, data, endStream) =>
      LeadsOne(e, Send(id, data, endStream, |data|));
      moves := [Send(id, data, endStream, |data|)];
    case DoGoAway(code, debug) =>
      moves := WriteMoves(e, GoAwayFrame(Mask31(s.core.lastClientStreamId), code, debug), Enter(Draining));
    case DoReset(id, code) =>
      moves := WriteMoves(e, RstStreamFrame(id, code), Reset(id));
    case DoRemove(id) =>
      LeadsOne(e, Remove(id));
      moves := [Remove(id)];
  }

  lemma {:induction false} ServerRunMoves(s: S.Server, actions: seq<S.Action>) returns (moves: seq<Move>)
    requires s.core.e.cx.Valid()
    ensures Leads(s.core.e, moves, S.Run(s, actions).core.e)
    decreases |actions|
  {
    if actions == [] {
      moves := [];
      LeadsNowhere(s.core.e);
    } else {
      var first := ServerStepMoves(s, actions[0]);
      var s' := S.Step(s, actions[0]);
      var rest := ServerRunMoves(s', actions[1..]);
      LeadsAppend(s.core.e, first, s'.core.e, rest, S.Run(s', actions[1..]).core.e);
      moves := first + rest;
    }
  }
}
