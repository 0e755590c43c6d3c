/** The books of a connection's flow control window, kept over whole runs of a client or a server. */
module Accounting {
  import opened Bytes
  import opened HpackCoding
  import opened PrefixCodes
  import opened Frames
  import opened FrameCoding
  import opened FrameStreams
  import opened FlowControl
  import opened Endpoints
  import opened Moves
  import C = ClientProtocol
  import S = ServerProtocol

  // ----- What the logs say -----

  /** The connection-level credit given to the peer. */
  function Emitted(frames: seq<Frame>): nat {
    if frames == [] then 0 else Emitted(frames[..|frames| - 1]) + UpdateIn(frames[|frames| - 1])
  }

  function UpdateIn(f: Frame): nat {
    if f.WindowUpdateFrame? && f.streamId == 0 then f.increment else 0
  }

  function DataWritten(frames: seq<Frame>): nat {
    if frames == [] then 0 else DataWritten(frames[..|frames| - 1]) + DataIn(frames[|frames| - 1])
  }

  function DataIn(f: Frame): nat {
    if f.DataFrame? then |f.data| else 0
  }

  function DataReported(events: seq<Event>): nat {
    if events == [] then 0 else DataReported(events[..|events| - 1]) + DataOf(events[|events| - 1])
  }

  function DataOf(e: Event): nat {
    if e.Data? then |e.data| else 0
  }

  lemma LogsPush(frames: seq<Frame>, f: Frame)
    ensures Emitted(frames + [f]) == Emitted(frames) + UpdateIn(f)
    ensures DataWritten(frames + [f]) == DataWritten(frames) + DataIn(f)
  {
    assert (frames + [f])[..|frames|] == frames;
  }

  lemma ReportsPush(events: seq<Event>, e: Event)
    ensures DataReported(events + [e]) == DataReported(events) + DataOf(e)
  {
    assert (events + [e])[..|events|] == events;
  }

  // ----- The invariant -----

  datatype Accounts = Accounts(
    flow: Flow, written: seq<Frame>, events: seq<Event>, granted: nat, sent: nat, received: nat)

  function AccountsOf(e: Endpoint): Accounts {
    Accounts(e.flow, e.written, e.events, e.ledger.granted, e.ledger.sent, e.ledger.received)
  }

  /** The credit in circulation: what a connection starts with and what its peer has added. */
  function Circulating(e: Endpoint): nat {
    65535 + e.ledger.granted
  }

  predicate UpdateDue(f: Frame, most: nat) {
    f.WindowUpdateFrame? ==> f.streamId == 0 && 32767 <= f.increment <= most
  }

  ghost predicate UpdatesDue(frames: seq<Frame>, most: nat) {
    forall f :: f in frames ==> UpdateDue(f, most)
  }

  lemma UpdatesDueMonotone(frames: seq<Frame>, most: nat, more: nat)
    requires UpdatesDue(frames, most) && most <= more
    ensures UpdatesDue(frames, more)
  {
    forall f | f in frames
      ensures UpdateDue(f, more)
    {
      assert UpdateDue(f, most);
    }
  }

  lemma UpdatesDuePush(frames: seq<Frame>, f: Frame, most: nat)
    requires UpdatesDue(frames, most) && UpdateDue(f, most)
    ensures UpdatesDue(frames + [f], most)
  {
  }

  /**
   The window is not negative; what is missing from the circulating credit waits to be given back;
   what was sent and received is either waiting or was announced; the ledger agrees with the logs;
   and every announcement is at least half of the initial window.
   */
  ghost predicate Balanced(a: Accounts) {
    && a.flow.threshold == 32767
    && 0 <= a.flow.window && a.flow.window + a.flow.consumed == 65535 + a.granted
    && Emitted(a.written) + a.flow.consumed == a.sent + a.received
    && a.sent == DataWritten(a.written) && a.received == DataReported(a.events)
    && UpdatesDue(a.written, 65535 + a.granted + 16384)
  }

  predicate WithinLimit(e: Endpoint) {
    Circulating(e) <= MAX_WINDOW
  }

  // ----- Steps -----

  lemma WroteBalanced(a: Accounts, f: Frame)
    requires Balanced(a) && !f.DataFrame? && !f.WindowUpdateFrame?
    ensures Balanced(a.(written := a.written + [f]))
  {
    LogsPush(a.written, f);
    UpdatesDuePush(a.written, f, 65535 + a.granted + 16384);
  }

  lemma HappenedBalanced(a: Accounts, event: Event)
    requires Balanced(a) && !event.Data?
    ensures Balanced(a.(events := a.events + [event]))
  {
    ReportsPush(a.events, event);
  }

  lemma {:induction false} SettingsKeepAccounts(e: Endpoint, settings: seq<Setting>)
    requires |e.cx.huffman| == SYMBOLS
    ensures AccountsOf(e.ApplySettings(settings)) == AccountsOf(e)
    decreases |settings|
  {
    if settings != [] {
      SettingsKeepAccounts(e.ApplySetting(settings[0]), settings[1..]);
    }
  }

  lemma SettingsBalanced(e: Endpoint, ack: bool, settings: seq<Setting>)
    requires |e.cx.huffman| == SYMBOLS && Balanced(AccountsOf(e))
    ensures Balanced(AccountsOf(e.HandleSettings(ack, settings)))
  {
    SettingsKeepAccounts(e, settings);
    var a := AccountsOf(e);
    WroteBalanced(a, SettingsFrame(true, []));
    HappenedBalanced(a.(written := a.written + [SettingsFrame(true, [])]), Ready);
  }

  lemma GrantBalanced(e: Endpoint, id: u32, increment: u32)
    requires Balanced(AccountsOf(e))
    ensures Balanced(AccountsOf(e.HandleWindowUpdate(id, increment)))
  {
    HappenedBalanced(AccountsOf(e), Error(WindowOverflow(id, increment)));
    if id == 0 && e.flow.Accepts(increment) {
      UpdatesDueMonotone(e.written, 65535 + e.ledger.granted + 16384, 65535 + e.ledger.granted + increment + 16384);
    }
  }

  lemma DataBalanced(e: Endpoint, id: u32, endStream: bool, data: seq<byte>)
    requires Balanced(AccountsOf(e)) && WithinLimit(e) && |data| <= DEFAULT_MAX_FRAME_SIZE
    ensures Balanced(AccountsOf(e.HandleData(id, endStream, data)))
  {
    var event, due := Data(id, data, endStream), e.flow.Due(|data|);
    ReportsPush(e.events, event);
    var a := AccountsOf(e);
    var a' := a.(events := a.events + [event], received := a.received + |data|, flow := a.flow.Receive(|data|));
    ReceiptBalanced(a, a', |data|);
    assert AccountsOf(e.HandleData(id, endStream, data)) ==
           if due.Some? then a'.(written := a.written + [WindowUpdateFrame(0, due.value)]) else a';
  }

  /** Bytes arrive: they wait, or all that waits is announced. */
  lemma ReceiptBalanced(a: Accounts, a': Accounts, n: nat)
    requires Balanced(a) && 65535 + a.granted <= MAX_WINDOW && n <= DEFAULT_MAX_FRAME_SIZE
    requires a' == a.(events := a'.events, received := a.received + n, flow := a.flow.Receive(n))
    requires DataReported(a'.events) == DataReported(a.events) + n
    ensures match a.flow.Due(n)
            case None => Balanced(a')
            case Some(due) => Balanced(a'.(written := a.written + [WindowUpdateFrame(0, due)]))
  {
    var k, due := 65535 + a.granted, a.flow.Due(n);
    ReceiveStaysNonNegative(a.flow, k, n);
    if due.Some? {
      LogsPush(a.written, WindowUpdateFrame(0, due.value));
      UpdatesDuePush(a.written, WindowUpdateFrame(0, due.value), k + 16384);
    }
  }

  lemma SendBalanced(e: Endpoint, id: u32, data: seq<byte>, endStream: bool, most: nat)
    requires Balanced(AccountsOf(e)) && WithinLimit(e)
    ensures Balanced(AccountsOf(e.SendData(id, data, endStream, most).0))
  {
    var (e', outcome) := e.SendData(id, data, endStream, most);
    if outcome.Sent? {
      var f := e'.written[|e.written|];
      assert e'.written == e.written + [f];
      LogsPush(e.written, f);
      UpdatesDuePush(e.written, f, 65535 + e.ledger.granted + 16384);
    }
  }

  lemma NoticeBalanced(e: Endpoint, id: u32, code: u32)
    requires Balanced(AccountsOf(e))
    ensures Balanced(AccountsOf(e.HandleGoAway(id, code)))
    ensures Balanced(AccountsOf(e.HandleRstStream(id, code)))
  {
    HappenedBalanced(AccountsOf(e), GoAway(id, code));
    HappenedBalanced(AccountsOf(e), StreamReset(id, code));
  }

  lemma PingBalanced(e: Endpoint, ack: bool, data: seq<byte>)
    requires Balanced(AccountsOf(e))
    ensures Balanced(AccountsOf(e.HandlePing(ack, data)))
  {
    WroteBalanced(AccountsOf(e), PingFrame(true, data));
  }

  lemma FailedBalanced(e: Endpoint, fault: Fault)
    requires Balanced(AccountsOf(e))
    ensures Balanced(AccountsOf(e.Failed(fault)))
  {
    HappenedBalanced(AccountsOf(e), Error(fault));
  }

  /** The credit in circulation never shrinks. */
  lemma SharedGrows(e: Endpoint, f: Frame)
    requires |e.cx.huffman| == SYMBOLS && !f.HeadersFrame? && !f.PushPromiseFrame?
    ensures e.ledger.granted <= e.HandleShared(f).ledger.granted
  {
    if f.SettingsFrame? {
      SettingsKeepAccounts(e, f.settings);
    }
  }

  lemma SharedBalanced(e: Endpoint, f: Frame)
    requires |e.cx.huffman| == SYMBOLS && !f.HeadersFrame? && !f.PushPromiseFrame?
    requires Balanced(AccountsOf(e)) && WithinLimit(e) && Sendable(DEFAULT_MAX_FRAME_SIZE, f)
    ensures Balanced(AccountsOf(e.HandleShared(f)))
  {
    match f
    case SettingsFrame(ack, settings) => SettingsBalanced(e, ack, settings);
    case PingFrame(ack, data) => PingBalanced(e, ack, data);
    case GoAwayFrame(last, code, _) => NoticeBalanced(e, last, code);
    case WindowUpdateFrame(id, increment) => GrantBalanced(e, id, increment);
    case DataFrame(id, endStream, data) => DataBalanced(e, id, endStream, data);
    case RstStreamFrame(id, code) => NoticeBalanced(e, id, code);
    case ContinuationFrame(_, _, _) => FailedBalanced(e, UnexpectedContinuation);
    case _ =>
  }

  // ----- Runs -----

  lemma MoveGrows(e: Endpoint, m: Move)
    requires |e.cx.huffman| == SYMBOLS && Proper(m)
    ensures e.ledger.granted <= Moved(e, m).ledger.granted
  {
    if m.Receive? {
      SharedGrows(e, m.f);
    }
  }

  lemma {:induction false} MovesGrow(e: Endpoint, moves: seq<Move>)
    requires |e.cx.huffman| == SYMBOLS && AllProper(moves)
    ensures e.ledger.granted <= MovedAll(e, moves).ledger.granted
    decreases |moves|
  {
    if moves != [] {
      MoveGrows(e, moves[0]);
      MovesGrow(Moved(e, moves[0]), moves[1..]);
    }
  }

  lemma MoveBalanced(e: Endpoint, m: Move)
    requires |e.cx.huffman| == SYMBOLS && Proper(m)
    requires Balanced(AccountsOf(e)) && WithinLimit(e)
    ensures Balanced(AccountsOf(Moved(e, m)))
  {
    match m
    case Receive(f) => SharedBalanced(e, f);
    case Notice(event) => HappenedBalanced(AccountsOf(e), event);
    case Block(_, _, _) => WroteBalanced(AccountsOf(e), Moved(e, m).written[|e.written|]);
    case Send(id, data, endStream, most) => SendBalanced(e, id, data, endStream, most);
    case Write(f) => WroteBalanced(AccountsOf(e), f);
    case _ =>
  }

  lemma {:induction false} MovesBalanced(e: Endpoint, moves: seq<Move>)
    requires |e.cx.huffman| == SYMBOLS && AllProper(moves) && Balanced(AccountsOf(e))
    requires WithinLimit(MovedAll(e, moves))
    ensures Balanced(AccountsOf(MovedAll(e, moves)))
    decreases |moves|
  {
    if moves != [] {
      MovesGrow(e, moves);
      MoveBalanced(e, moves[0]);
      MovesBalanced(Moved(e, moves[0]), moves[1..]);
    }
  }

  lemma NewBalanced(cx: Codec)
    ensures Balanced(AccountsOf(NewEndpoint(cx)))
  {
  }

  /**
   Whatever a client is told to do and whatever bytes it is fed: as long as the credit in
   circulation fits a window, its books are balanced, so its window is not negative.
   */
  lemma ClientBalanced(cx: Codec, actions: seq<C.Action>)
    requires cx.Valid() && WithinLimit(C.Run(C.NewClient(cx), actions).e)
    ensures Balanced(AccountsOf(C.Run(C.NewClient(cx), actions).e))
  {
    var moves := ClientRunMoves(C.NewClient(cx), actions);
    NewBalanced(cx);
    MovesBalanced(NewEndpoint(cx), moves);
  }

  lemma ServerBalanced(cx: Codec, actions: seq<S.Action>)
    requires cx.Valid() && WithinLimit(S.Run(S.NewServer(cx), actions).core.e)
    ensures Balanced(AccountsOf(S.Run(S.NewServer(cx), actions).core.e))
  {
    var moves := ServerRunMoves(S.NewServer(cx), actions);
    NewBalanced(cx);
    MovesBalanced(NewEndpoint(cx), moves);
  }

  /**
   A balanced endpoint announces only increments that the peer's decoder accepts, if there is room
   for one more frame.
   */
  lemma AnnouncementsAccepted(e: Endpoint, f: Frame, rest: seq<byte>)
    requires Balanced(AccountsOf(e)) && Circulating(e) + DEFAULT_MAX_FRAME_SIZE <= MAX_WINDOW
    requires f in e.written && f.WindowUpdateFrame?
    ensures f.streamId == 0 && f.increment >= 32767
    ensures DecodeFrame(DEFAULT_MAX_FRAME_SIZE, FrameBytes(f) + rest) == Parsed(f, rest)
  {
    assert UpdateDue(f, 65535 + e.ledger.granted + 16384);
    FrameRoundTrip(DEFAULT_MAX_FRAME_SIZE, f, rest);
  }

  // ----- Without the limit -----

  /**
   The law that survives every overflow: the window is the two's complement of the credit not waiting
   to be given back.
   */
  ghost predicate WindowLaw(e: Endpoint) {
    e.flow.window == Wrap(Circulating(e) - e.flow.consumed)
  }

  lemma SendKeepsWindowLaw(e: Endpoint, id: u32, data: seq<byte>, endStream: bool, most: nat)
    requires WindowLaw(e)
    ensures WindowLaw(e.SendData(id, data, endStream, most).0)
  {
    if id in e.streams {
      var n := Allowance(e.flow.window, e.streams[id].sendWindow, |data|, most);
      ConsumeKeepsCredit(e.flow, Circulating(e), AsU32(n));
    }
  }

  lemma FrameKeepsWindowLaw(e: Endpoint, f: Frame)
    requires |e.cx.huffman| == SYMBOLS && !f.HeadersFrame? && !f.PushPromiseFrame? && WindowLaw(e)
    ensures WindowLaw(e.HandleShared(f))
  {
    if f.DataFrame? {
      DataKeepsWindowLaw(e, f.streamId, f.endStream, f.data);
    } else if f.WindowUpdateFrame? {
      UpdateKeepsWindowLaw(e, f.streamId, f.increment);
    } else if f.SettingsFrame? {
      SettingsKeepAccounts(e, f.settings);
    }
  }

  lemma DataKeepsWindowLaw(e: Endpoint, id: u32, endStream: bool, data: seq<byte>)
    requires WindowLaw(e)
    ensures WindowLaw(e.HandleData(id, endStream, data))
  {
    ReceiveKeepsCredit(e.flow, Circulating(e), AsU32(|data|));
    var e' := e.HandleData(id, endStream, data);
    assert e'.flow == e.flow.Receive(AsU32(|data|)) && e'.ledger.granted == e.ledger.granted;
  }

  lemma UpdateKeepsWindowLaw(e: Endpoint, id: u32, increment: u32)
    requires WindowLaw(e)
    ensures WindowLaw(e.HandleWindowUpdate(id, increment))
  {
    IncreaseKeepsCredit(e.flow, Circulating(e), increment);
  }

  lemma MoveKeepsWindowLaw(e: Endpoint, m: Move)
    requires |e.cx.huffman| == SYMBOLS && Proper(m) && WindowLaw(e)
    ensures WindowLaw(Moved(e, m))
  {
    if m.Send? {
      SendKeepsWindowLaw(e, m.id, m.data, m.endStream, m.most);
    } else if m.Receive? {
      FrameKeepsWindowLaw(e, m.f);
    }
  }

  lemma {:induction false} MovesKeepWindowLaw(e: Endpoint, moves: seq<Move>)
    requires |e.cx.huffman| == SYMBOLS && AllProper(moves) && WindowLaw(e)
    ensures WindowLaw(MovedAll(e, moves))
    decreases |moves|
  {
    if moves != [] {
      MoveKeepsWindowLaw(e, moves[0]);
      MovesKeepWindowLaw(Moved(e, moves[0]), moves[1..]);
    }
  }

  /**
   Exactly when the limit is passed, giving back what has been consumed makes the window negative:
   the credit in circulation contains what the endpoint sent itself, which is given back with what it received.
   */
  lemma ClientOverflows(cx: Codec, actions: seq<C.Action>)
    requires cx.Valid()
    ensures var e := C.Run(C.NewClient(cx), actions).e;
            && WindowLaw(e)
            && (Circulating(e) < 0x1_0000_0000 ==> (0 <= e.flow.ResetPending().window <==> WithinLimit(e)))
  {
    var moves := ClientRunMoves(C.NewClient(cx), actions);
    var e := C.Run(C.NewClient(cx), actions).e;
    MovesKeepWindowLaw(NewEndpoint(cx), moves);
    WrapAddU32(Circulating(e) - e.flow.consumed, e.flow.consumed);
  }

  lemma ServerOverflows(cx: Codec, actions: seq<S.Action>)
    requires cx.Valid()
    ensures var e := S.Run(S.NewServer(cx), actions).core.e;
            && WindowLaw(e)
            && (Circulating(e) < 0x1_0000_0000 ==> (0 <= e.flow.ResetPending().window <==> WithinLimit(e)))
  {
    var moves := ServerRunMoves(S.NewServer(cx), actions);
    var e := S.Run(S.NewServer(cx), actions).core.e;
    MovesKeepWindowLaw(NewEndpoint(cx), moves);
    WrapAddU32(Circulating(e) - e.flow.consumed, e.flow.consumed);
  }

  /**
   No more is sent than the peer granted exactly as long as no more is announced than was received
   or is still in the window: announcing what was sent itself is what overdraws the connection.
   */
  lemma ClientOverspends(cx: Codec, actions: seq<C.Action>)
    requires cx.Valid() && WithinLimit(C.Run(C.NewClient(cx), actions).e)
    ensures var e := C.Run(C.NewClient(cx), actions).e;
            DataWritten(e.written) > Circulating(e) <==> Emitted(e.written) > DataReported(e.events) + e.flow.window
  {
    ClientBalanced(cx, actions);
  }

  lemma ServerOverspends(cx: Codec, actions: seq<S.Action>)
    requires cx.Valid() && WithinLimit(S.Run(S.NewServer(cx), actions).core.e)
    ensures var e := S.Run(S.NewServer(cx), actions).core.e;
            DataWritten(e.written) > Circulating(e) <==> Emitted(e.written) > DataReported(e.events) + e.flow.window
  {
    ServerBalanced(cx, actions);
  }

  /** What a send does to the books that tell whether too much was sent. */
  lemma SendSpends(e: Endpoint, id: u32, data: seq<byte>, endStream: bool, most: nat)
    requires Balanced(AccountsOf(e)) && e.SendData(id, data, endStream, most).1.Sent?
    ensures var (e', outcome) := e.SendData(id, data, endStream, most);
            && DataWritten(e'.written) == DataWritten(e.written) + outcome.count
            && Circulating(e') == Circulating(e)
  {
    var (e', outcome) := e.SendData(id, data, endStream, most);
    LogsPush(e.written, e'.written[|e.written|]);
  }

  /** The guard that is missing: a send of n bytes overspends exactly if n more than was announced would. */
  lemma ClientSendOverspends(cx: Codec, actions: seq<C.Action>, id: u32, data: seq<byte>, endStream: bool)
    requires cx.Valid() && WithinLimit(C.Run(C.NewClient(cx), actions).e)
    ensures var c := C.Run(C.NewClient(cx), actions);
            var (c', outcome) := C.SendData(c, id, data, endStream);
            outcome.Sent? ==>
              (DataWritten(c'.e.written) > Circulating(c'.e) <==>
                 Emitted(c.e.written) + outcome.count > DataReported(c.e.events) + c.e.flow.window)
  {
    var c := C.Run(C.NewClient(cx), actions);
    ClientBalanced(cx, actions);
    if C.SendData(c, id, data, endStream).1.Sent? {
      SendSpends(c.e, id, data, endStream, c.e.maxFrame);
    }
  }

  lemma ServerSendOverspends(cx: Codec, actions: seq<S.Action>, id: u32, data: seq<byte>, endStream: bool)
    requires cx.Valid() && WithinLimit(S.Run(S.NewServer(cx), actions).core.e)
    ensures var s := S.Run(S.NewServer(cx), actions);
            var e := s.core.e;
            var (s', outcome) := S.SendData(s, id, data, endStream);
            outcome.Sent? ==>
              (DataWritten(s'.core.e.written) > Circulating(s'.core.e) <==>
                 Emitted(e.written) + outcome.count > DataReported(e.events) + e.flow.window)
  {
    var s := S.Run(S.NewServer(cx), actions);
    ServerBalanced(cx, actions);
    if S.SendData(s, id, data, endStream).1.Sent? {
      SendSpends(s.core.e, id, data, endStream, |data|);
    }
  }
}
