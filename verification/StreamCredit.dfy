/** The credit of each stream, over whole runs of a client or a server. */
module StreamCredit {
  import opened Bytes
  import opened PrefixCodes
  import opened HpackCoding
  import opened Frames
  import opened FrameStreams
  import opened FlowControl
  import opened Endpoints
  import opened Moves
  import C = ClientProtocol
  import S = ServerProtocol

  /**
   What a stream may still send: the initial window the peer asks for now, plus its increments, less
   what was sent.
   */
  function Balance(e: Endpoint, id: u32): int {
    e.remote.initialWindowSize + e.CreditOf(id).granted - e.CreditOf(id).sent
  }

  predicate HeldAt(e: Endpoint, id: u32) {
    id in e.streams ==> e.streams[id].sendWindow == Wrap(Balance(e, id))
  }

  /** Every send window is the two's complement of the stream's balance, whatever overflows there were. */
  ghost predicate CreditHeld(e: Endpoint) {
    forall id: u32 :: HeldAt(e, id)
  }

  // ----- Conservation -----

  /** Changing the initial window size moves every window by the same amount. */
  lemma ResizedHeld(e: Endpoint, initial: u32)
    requires CreditHeld(e)
    ensures CreditHeld(e.Resized(initial))
  {
    forall id: u32
      ensures HeldAt(e.Resized(initial), id)
    {
      assert HeldAt(e, id);
      ResizedWindow(Balance(e, id), e.remote.initialWindowSize, initial);
    }
  }

  lemma ResizedWindow(balance: int, before: u32, after: u32)
    ensures Wrap(Wrap(balance) + Wrap(AsI32(after) - AsI32(before))) == Wrap(balance + after - before)
  {
    var delta: int := after - before;
    WrapSubU32(after, before);
    WrapAdd(balance, Wrap(delta));
    WrapAdd(delta, balance);
  }

  lemma {:induction false} SettingsHeld(e: Endpoint, settings: seq<Setting>)
    requires |e.cx.huffman| == SYMBOLS && CreditHeld(e)
    ensures CreditHeld(e.ApplySettings(settings))
    decreases |settings|
  {
    if settings != [] {
      SettingHeld(e, settings[0]);
      SettingsHeld(e.ApplySetting(settings[0]), settings[1..]);
    }
  }

  /** Nothing that the balances and the windows depend on has changed. */
  predicate SameCredit(e: Endpoint, e': Endpoint) {
    && e'.remote.initialWindowSize == e.remote.initialWindowSize
    && e'.ledger.streams == e.ledger.streams
    && forall id :: id in e'.streams ==> id in e.streams && e'.streams[id].sendWindow == e.streams[id].sendWindow
  }

  lemma SameCreditHeld(e: Endpoint, e': Endpoint)
    requires CreditHeld(e) && SameCredit(e, e')
    ensures CreditHeld(e')
  {
    forall id: u32
      ensures HeldAt(e', id)
    {
      assert HeldAt(e, id);
    }
  }

  lemma SettingHeld(e: Endpoint, s: Setting)
    requires |e.cx.huffman| == SYMBOLS && CreditHeld(e)
    ensures CreditHeld(e.ApplySetting(s))
  {
    if s.id == InitialWindowSize {
      ResizedHeld(e, s.value);
    } else {
      SameCreditHeld(e, e.ApplySetting(s));
    }
  }

  lemma UpdateHeld(e: Endpoint, id: u32, increment: u32)
    requires CreditHeld(e)
    ensures CreditHeld(e.HandleWindowUpdate(id, increment))
  {
    var e' := e.HandleWindowUpdate(id, increment);
    forall i: u32
      ensures HeldAt(e', i)
    {
      assert HeldAt(e, i);
      if i == id {
        WrapAdd(Balance(e, id), increment);
      }
    }
  }

  lemma SendHeld(e: Endpoint, id: u32, data: seq<byte>, endStream: bool, most: nat)
    requires CreditHeld(e)
    ensures CreditHeld(e.SendData(id, data, endStream, most).0)
  {
    if id in e.streams {
      var n := Allowance(e.flow.window, e.streams[id].sendWindow, |data|, most);
      if n > 0 || data == [] {
        var spent := e.Spend(id, n, endStream && n == |data|);
        SpendHeld(e, id, n, endStream && n == |data|);
        SameCreditHeld(spent, e.SendData(id, data, endStream, most).0);
      }
    }
  }

  lemma SpendHeld(e: Endpoint, id: u32, n: nat, isEnd: bool)
    requires CreditHeld(e) && id in e.streams
    ensures CreditHeld(e.Spend(id, n, isEnd))
  {
    var e' := e.Spend(id, n, isEnd);
    forall i: u32
      ensures HeldAt(e', i)
    {
      assert HeldAt(e, i);
      if i == id {
        WrapSubTruncated(Balance(e, id), n);
      }
    }
  }

  lemma OpenHeld(e: Endpoint, id: u32)
    requires CreditHeld(e)
    ensures CreditHeld(e.OpenStream(id))
  {
    forall i: u32
      ensures HeldAt(e.OpenStream(id), i)
    {
      assert HeldAt(e, i);
    }
  }

  lemma FrameHeld(e: Endpoint, f: Frame)
    requires |e.cx.huffman| == SYMBOLS && !f.HeadersFrame? && !f.PushPromiseFrame? && CreditHeld(e)
    ensures CreditHeld(e.HandleShared(f))
  {
    if f.WindowUpdateFrame? {
      UpdateHeld(e, f.streamId, f.increment);
    } else if f.SettingsFrame? {
      SettingsHeld(e, f.settings);
      if !f.ack {
        SameCreditHeld(e.ApplySettings(f.settings), e.HandleShared(f));
      }
    } else {
      SameCreditHeld(e, e.HandleShared(f));
    }
  }

  lemma MoveHeld(e: Endpoint, m: Move)
    requires |e.cx.huffman| == SYMBOLS && Proper(m) && CreditHeld(e)
    ensures CreditHeld(Moved(e, m))
  {
    if m.Send? {
      SendHeld(e, m.id, m.data, m.endStream, m.most);
    } else if m.Begin? {
      OpenHeld(e, m.id);
    } else if m.Receive? {
      FrameHeld(e, m.f);
    } else {
      SameCreditHeld(e, Moved(e, m));
    }
  }

  lemma {:induction false} MovesHeld(e: Endpoint, moves: seq<Move>)
    requires |e.cx.huffman| == SYMBOLS && AllProper(moves) && CreditHeld(e)
    ensures CreditHeld(MovedAll(e, moves))
    decreases |moves|
  {
    if moves != [] {
      MoveHeld(e, moves[0]);
      MovesHeld(Moved(e, moves[0]), moves[1..]);
    }
  }

  /** Stream credit is conserved in every reachable state of a client. */
  lemma ClientCreditHeld(cx: Codec, actions: seq<C.Action>)
    requires cx.Valid()
    ensures CreditHeld(C.Run(C.NewClient(cx), actions).e)
  {
    var moves := ClientRunMoves(C.NewClient(cx), actions);
    assert CreditHeld(NewEndpoint(cx));
    MovesHeld(NewEndpoint(cx), moves);
  }

  lemma ServerCreditHeld(cx: Codec, actions: seq<S.Action>)
    requires cx.Valid()
    ensures CreditHeld(S.Run(S.NewServer(cx), actions).core.e)
  {
    var moves := ServerRunMoves(S.NewServer(cx), actions);
    assert CreditHeld(NewEndpoint(cx));
    MovesHeld(NewEndpoint(cx), moves);
  }

  // ----- Solvency -----

  predicate SolventAt(e: Endpoint, id: u32) {
    id in e.streams ==> 0 <= Balance(e, id) <= MAX_WINDOW
  }

  /** No stream has sent more than it was granted, and no balance is too large for a window. */
  ghost predicate Solvent(e: Endpoint) {
    e.remote.initialWindowSize <= MAX_WINDOW && forall id: u32 :: SolventAt(e, id)
  }

  /** Then the windows are the balances, and none is negative. */
  lemma SolventWindow(e: Endpoint, id: u32)
    requires CreditHeld(e) && Solvent(e) && id in e.streams
    ensures 0 <= e.streams[id].sendWindow == Balance(e, id)
    ensures e.CreditOf(id).sent <= e.remote.initialWindowSize + e.CreditOf(id).granted
  {
    assert HeldAt(e, id) && SolventAt(e, id);
  }

  /**
   Whatever settings there were: a window is negative exactly when its stream is overdrawn, while 32
   bits can tell.
   */
  lemma OverdrawnExactly(e: Endpoint, id: u32)
    requires CreditHeld(e) && id in e.streams && -0x8000_0000 <= Balance(e, id) <= MAX_WINDOW
    ensures e.streams[id].sendWindow < 0 <==> e.CreditOf(id).sent > e.remote.initialWindowSize + e.CreditOf(id).granted
  {
    assert HeldAt(e, id);
  }

  predicate FitsAt(e: Endpoint, id: u32, value: u32) {
    id in e.streams ==> 0 <= e.streams[id].sendWindow + value - e.remote.initialWindowSize <= MAX_WINDOW
  }

  /** Does a new initial window size leave every window within its range? */
  ghost predicate SettingFits(e: Endpoint, s: Setting) {
    s.id == InitialWindowSize ==> forall id: u32 :: FitsAt(e, id, s.value)
  }

  /** A setting keeps the streams solvent exactly when it leaves every window within its range: this is not checked. */
  lemma SettingSolvent(e: Endpoint, s: Setting)
    requires |e.cx.huffman| == SYMBOLS && CreditHeld(e) && Solvent(e) && WellFormedSetting(s)
    ensures Solvent(e.ApplySetting(s)) <==> SettingFits(e, s)
  {
    if s.id == InitialWindowSize {
      forall id: u32
        ensures SolventAt(e.ApplySetting(s), id) <==> FitsAt(e, id, s.value)
      {
        assert HeldAt(e, id) && SolventAt(e, id);
      }
      if Solvent(e.ApplySetting(s)) {
        forall id: u32
          ensures FitsAt(e, id, s.value)
        {
          assert SolventAt(e.ApplySetting(s), id);
        }
      }
    } else {
      SameCreditSolvent(e, e.ApplySetting(s));
    }
  }

  lemma SameCreditSolvent(e: Endpoint, e': Endpoint)
    requires Solvent(e) && SameCredit(e, e')
    ensures Solvent(e')
  {
    forall id: u32
      ensures SolventAt(e', id)
    {
      assert SolventAt(e, id);
    }
  }

  ghost predicate SettingsFit(e: Endpoint, settings: seq<Setting>)
    requires |e.cx.huffman| == SYMBOLS
    decreases |settings|
  {
    settings == [] || (SettingFits(e, settings[0]) && SettingsFit(e.ApplySetting(settings[0]), settings[1..]))
  }

  lemma {:induction false} SettingsSolvent(e: Endpoint, settings: seq<Setting>)
    requires |e.cx.huffman| == SYMBOLS && CreditHeld(e) && Solvent(e)
    requires forall s :: s in settings ==> WellFormedSetting(s)
    requires SettingsFit(e, settings)
    ensures Solvent(e.ApplySettings(settings))
    decreases |settings|
  {
    if settings != [] {
      assert WellFormedSetting(settings[0]);
      SettingSolvent(e, settings[0]);
      SettingHeld(e, settings[0]);
      SettingsSolvent(e.ApplySetting(settings[0]), settings[1..]);
    }
  }

  /** An increment that does not fit is refused, so it cannot make a stream insolvent. */
  lemma UpdateSolvent(e: Endpoint, id: u32, increment: u32)
    requires CreditHeld(e) && Solvent(e)
    ensures Solvent(e.HandleWindowUpdate(id, increment))
  {
    var e' := e.HandleWindowUpdate(id, increment);
    forall i: u32
      ensures SolventAt(e', i)
    {
      assert HeldAt(e, i) && SolventAt(e, i);
    }
  }

  /** Data is only sent out of a solvent stream's balance. */
  lemma SendSolvent(e: Endpoint, id: u32, data: seq<byte>, endStream: bool, most: nat)
    requires CreditHeld(e) && Solvent(e)
    ensures Solvent(e.SendData(id, data, endStream, most).0)
  {
    var (e', outcome) := e.SendData(id, data, endStream, most);
    if outcome.Sent? {
      forall i: u32
        ensures SolventAt(e', i)
      {
        assert HeldAt(e, i) && SolventAt(e, i);
      }
    }
  }

  lemma OpenSolvent(e: Endpoint, id: u32)
    requires Solvent(e)
    ensures Solvent(e.OpenStream(id))
  {
    forall i: u32
      ensures SolventAt(e.OpenStream(id), i)
    {
      assert SolventAt(e, i);
    }
  }

  /**
   A new initial window size that is not smaller leaves every window non-negative, so only the
   upper end of the range is in question.
   */
  lemma RaisingFits(e: Endpoint, s: Setting)
    requires CreditHeld(e) && Solvent(e) && e.remote.initialWindowSize <= s.value
    requires forall id :: id in e.streams ==>
               e.streams[id].sendWindow <= MAX_WINDOW - (s.value - e.remote.initialWindowSize)
    ensures SettingFits(e, s)
  {
    forall id: u32
      ensures FitsAt(e, id, s.value)
    {
      assert HeldAt(e, id) && SolventAt(e, id);
    }
  }

  /** If anything is sent, it respects both windows exactly when neither is negative: the cast hides the sign. */
  lemma AllowanceRespectsWindows(connection: i32, stream: i32, length: nat, most: nat)
    ensures var n := Allowance(connection, stream, length, most);
            n > 0 ==> (n <= connection && n <= stream <==> connection >= 0 && stream >= 0)
  {
  }

  /** What goes out is the least of four limits; a negative window limits only data of nearly 2^64 bytes. */
  lemma AllowanceIsLeast(connection: i32, stream: i32, length: nat, most: nat)
    ensures var n := Allowance(connection, stream, length, most);
            && n <= length && n <= most && (connection >= 0 ==> n <= connection) && (stream >= 0 ==> n <= stream)
            && (n == length || n == most || n == connection || n == stream || length > 0xffff_ffff_8000_0000)
  {
  }

  /** The one thing a peer can do to overdraw a stream: settings whose initial window size does not fit. */
  ghost predicate FrameFits(e: Endpoint, f: Frame)
    requires |e.cx.huffman| == SYMBOLS
  {
    f.SettingsFrame? && !f.ack ==> SettingsFit(e, f.settings)
  }

  lemma SettingsFrameSolvent(e: Endpoint, settings: seq<Setting>)
    requires |e.cx.huffman| == SYMBOLS && CreditHeld(e) && Solvent(e)
    requires WellFormed(SettingsFrame(false, settings)) && SettingsFit(e, settings)
    ensures Solvent(e.HandleSettings(false, settings))
  {
    SettingsSolvent(e, settings);
    SameCreditSolvent(e.ApplySettings(settings), e.HandleSettings(false, settings));
  }

  lemma FrameSolvent(e: Endpoint, f: Frame)
    requires |e.cx.huffman| == SYMBOLS && CreditHeld(e) && Solvent(e)
    requires WellFormed(f) && !f.HeadersFrame? && !f.PushPromiseFrame? && FrameFits(e, f)
    ensures Solvent(e.HandleShared(f))
  {
    if f.WindowUpdateFrame? {
      UpdateSolvent(e, f.streamId, f.increment);
    } else if f.SettingsFrame? && !f.ack {
      SettingsFrameSolvent(e, f.settings);
    } else {
      SameCreditSolvent(e, e.HandleShared(f));
    }
  }

  /** Both laws at once. */
  ghost predicate Sound(e: Endpoint) {
    CreditHeld(e) && Solvent(e)
  }

  lemma SharedSound(e: Endpoint, f: Frame)
    requires |e.cx.huffman| == SYMBOLS && Sound(e)
    requires WellFormed(f) && !f.HeadersFrame? && !f.PushPromiseFrame? && FrameFits(e, f)
    ensures Sound(e.HandleShared(f))
  {
    FrameHeld(e, f);
    FrameSolvent(e, f);
  }

  lemma SameSound(e: Endpoint, e': Endpoint)
    requires Sound(e) && SameCredit(e, e')
    ensures Sound(e')
  {
    SameCreditHeld(e, e');
    SameCreditSolvent(e, e');
  }

  lemma OpenSound(e: Endpoint, id: u32)
    requires Sound(e)
    ensures Sound(e.OpenStream(id))
  {
    OpenHeld(e, id);
    OpenSolvent(e, id);
  }

  lemma SendSound(e: Endpoint, id: u32, data: seq<byte>, endStream: bool, most: nat)
    requires Sound(e)
    ensures Sound(e.SendData(id, data, endStream, most).0)
  {
    SendHeld(e, id, data, endStream, most);
    SendSolvent(e, id, data, endStream, most);
  }

  lemma NewSound(cx: Codec)
    ensures Sound(NewEndpoint(cx))
  {
  }

  // ----- Runs of a client -----

  ghost predicate ClientFramesFit(e: Endpoint, frames: seq<Frame>)
    requires e.cx.Valid()
    decreases |frames|
  {
    frames == [] || (FrameFits(e, frames[0]) && ClientFramesFit(C.Handle(e, frames[0]), frames[1..]))
  }

  lemma ClientFrameSound(e: Endpoint, f: Frame)
    requires e.cx.Valid() && Sound(e) && WellFormed(f) && FrameFits(e, f)
    ensures Sound(C.Handle(e, f))
  {
    if f.HeadersFrame? || f.PushPromiseFrame? {
      SameSound(e, C.Handle(e, f));
    } else {
      SharedSound(e, f);
    }
  }

  lemma {:induction false} ClientFramesSound(e: Endpoint, frames: seq<Frame>)
    requires e.cx.Valid() && Sound(e) && ClientFramesFit(e, frames)
    requires forall f :: f in frames ==> Sendable(DEFAULT_MAX_FRAME_SIZE, f)
    ensures Sound(C.HandleAll(e, frames))
    decreases |frames|
  {
    if frames != [] {
      assert Sendable(DEFAULT_MAX_FRAME_SIZE, frames[0]);
      ClientFrameSound(e, frames[0]);
      ClientFramesSound(C.Handle(e, frames[0]), frames[1..]);
    }
  }

  ghost predicate ClientRunFits(c: C.Client, actions: seq<C.Action>)
    requires c.e.cx.Valid()
    decreases |actions|
  {
    actions == [] ||
    (&& (actions[0].DoFeed? ==>
           ClientFramesFit(c.e, DecodeAll(DEFAULT_MAX_FRAME_SIZE, c.input + actions[0].data).frames))
     && ClientRunFits(C.Step(c, actions[0]), actions[1..]))
  }

  lemma ClientStepSound(c: C.Client, a: C.Action)
    requires c.e.cx.Valid() && Sound(c.e) && ClientRunFits(c, [a])
    ensures Sound(C.Step(c, a).e)
  {
    match a
    case DoReady => SameSound(c.e, C.Step(c, a).e);
    case DoFeed(data) =>
      var d := DecodeAll(DEFAULT_MAX_FRAME_SIZE, c.input + data);
      DecodedAreSendable(DEFAULT_MAX_FRAME_SIZE, c.input + data);
      ClientFramesSound(c.e, d.frames);
      SameSound(C.HandleAll(c.e, d.frames), C.Step(c, a).e);
    case DoRequest(_, _) =>
      if c.e.state == ConnectionState.Open {
        var id := FrameCoding.Mask31(c.nextStreamId);
        OpenSound(c.e, id);
        SameSound(c.e.OpenStream(id), C.Step(c, a).e);
      }
    case DoSend(id, data, endStream) => SendSound(c.e, id, data, endStream, c.e.maxFrame);
  }

  /**
   Over any run of a client in which no setting takes a window out of its range, no window is
   negative and no stream sends more than its initial window and its increments allow.
   */
  lemma {:induction false} ClientRunSound(c: C.Client, actions: seq<C.Action>)
    requires c.e.cx.Valid() && Sound(c.e) && ClientRunFits(c, actions)
    ensures Sound(C.Run(c, actions).e)
    decreases |actions|
  {
    if actions != [] {
      ClientStepSound(c, actions[0]);
      ClientRunSound(C.Step(c, actions[0]), actions[1..]);
    }
  }

  // ----- Runs of a server -----

  ghost predicate ServerFramesFit(s: S.Core, frames: seq<Frame>)
    requires s.e.cx.Valid()
    decreases |frames|
  {
    frames == [] || (FrameFits(s.e, frames[0]) && ServerFramesFit(S.Handle(s, frames[0]), frames[1..]))
  }

  lemma RequestSound(s: S.Core, id: u32, endStream: bool, block: seq<byte>)
    requires s.e.cx.Valid() && Sound(s.e)
    ensures Sound(S.HandleRequest(s, id, endStream, block).e)
  {
    var e' := S.HandleRequest(s, id, endStream, block).e;
    if id % 2 == 1 && id > s.lastClientStreamId && BlockOf(s.e.cx, s.e.dec, DEFAULT_TABLE_SIZE, block).1.Ok? {
      OpenSound(s.e, id);
      SameSound(s.e.OpenStream(id), e');
    } else {
      SameSound(s.e, e');
    }
  }

  lemma ServerFrameSound(s: S.Core, f: Frame)
    requires s.e.cx.Valid() && Sound(s.e) && WellFormed(f) && FrameFits(s.e, f)
    ensures Sound(S.Handle(s, f).e)
  {
    if f.HeadersFrame? {
      RequestSound(s, f.streamId, f.endStream, f.block);
    } else if f.PushPromiseFrame? {
      SameSound(s.e, S.Handle(s, f).e);
    } else {
      SharedSound(s.e, f);
    }
  }

  lemma {:induction false} ServerFramesSound(s: S.Core, frames: seq<Frame>)
    requires s.e.cx.Valid() && Sound(s.e) && ServerFramesFit(s, frames)
    requires forall f :: f in frames ==> Sendable(DEFAULT_MAX_FRAME_SIZE, f)
    ensures Sound(S.HandleAll(s, frames).e)
    decreases |frames|
  {
    if frames != [] {
      assert Sendable(DEFAULT_MAX_FRAME_SIZE, frames[0]);
      ServerFrameSound(s, frames[0]);
      ServerFramesSound(S.Handle(s, frames[0]), frames[1..]);
    }
  }

  /** The server as it starts on the frames in its buffer: the preface is out of the way. */
  function Admitted(s: S.Server): S.Server {
    if s.gotPreface || |s.input| < |PREFACE| || s.input[..|PREFACE|] != PREFACE then s
    else S.Server(s.core.(e := Announced(s.core.e)), true, s.input[|PREFACE|..])
  }

  ghost predicate ServerRunFits(s: S.Server, actions: seq<S.Action>)
    requires s.core.e.cx.Valid()
    decreases |actions|
  {
    actions == [] ||
    (&& (actions[0].DoProcess? && Admitted(s).gotPreface ==>
           ServerFramesFit(Admitted(s).core, DecodeAll(DEFAULT_MAX_FRAME_SIZE, Admitted(s).input).frames))
     && ServerRunFits(S.Step(s, actions[0]), actions[1..]))
  }

  lemma ServerProcessSound(s: S.Server)
    requires s.core.e.cx.Valid() && Sound(s.core.e) && ServerRunFits(s, [S.DoProcess])
    ensures Sound(S.Process(s).core.e)
  {
    var a := Admitted(s);
    SameSound(s.core.e, a.core.e);
    if a.gotPreface {
      var d := DecodeAll(DEFAULT_MAX_FRAME_SIZE, a.input);
      DecodedAreSendable(DEFAULT_MAX_FRAME_SIZE, a.input);
      ServerFramesSound(a.core, d.frames);
      SameSound(S.HandleAll(a.core, d.frames).e, S.Process(s).core.e);
    } else {
      SameSound(s.core.e, S.Process(s).core.e);
    }
  }

  lemma ServerStepSound(s: S.Server, a: S.Action)
    requires s.core.e.cx.Valid() && Sound(s.core.e) && ServerRunFits(s, [a])
    ensures Sound(S.Step(s, a).core.e)
  {
    if a.DoProcess? {
      ServerProcessSound(s);
    } else if a.DoSend? {
      SendSound(s.core.e, a.id, a.data, a.endStream, |a.data|);
    } else {
      SameSound(s.core.e, S.Step(s, a).core.e);
    }
  }

  lemma {:induction false} ServerRunSound(s: S.Server, actions: seq<S.Action>)
    requires s.core.e.cx.Valid() && Sound(s.core.e) && ServerRunFits(s, actions)
    ensures Sound(S.Run(s, actions).core.e)
    decreases |actions|
  {
    if actions != [] {
      ServerStepSound(s, actions[0]);
      ServerRunSound(S.Step(s, actions[0]), actions[1..]);
    }
  }

  // ----- A peer that only raises the initial size -----

  predicate RaisesAt(e: Endpoint, id: u32, value: u32) {
    id in e.streams ==> value + e.CreditOf(id).granted <= MAX_WINDOW
  }

  /** The size is not lowered, and together with the increments of any stream it fits a window. */
  ghost predicate SettingRaises(e: Endpoint, s: Setting) {
    s.id == InitialWindowSize ==> e.remote.initialWindowSize <= s.value && forall id: u32 :: RaisesAt(e, id, s.value)
  }

  ghost predicate SettingsRaise(e: Endpoint, settings: seq<Setting>)
    requires |e.cx.huffman| == SYMBOLS
    decreases |settings|
  {
    settings == [] || (SettingRaises(e, settings[0]) && SettingsRaise(e.ApplySetting(settings[0]), settings[1..]))
  }

  ghost predicate FrameRaises(e: Endpoint, f: Frame)
    requires |e.cx.huffman| == SYMBOLS
  {
    f.SettingsFrame? && !f.ack ==> SettingsRaise(e, f.settings)
  }

  lemma SettingRaisesFits(e: Endpoint, s: Setting)
    requires Sound(e) && SettingRaises(e, s)
    ensures SettingFits(e, s)
  {
    if s.id == InitialWindowSize {
      forall id | id in e.streams
        ensures e.streams[id].sendWindow <= MAX_WINDOW - (s.value - e.remote.initialWindowSize)
      {
        SolventWindow(e, id);
        assert RaisesAt(e, id, s.value);
      }
      RaisingFits(e, s);
    }
  }

  lemma {:induction false} SettingsRaiseFit(e: Endpoint, settings: seq<Setting>)
    requires |e.cx.huffman| == SYMBOLS && Sound(e) && SettingsRaise(e, settings)
    requires forall s :: s in settings ==> WellFormedSetting(s)
    ensures SettingsFit(e, settings)
    decreases |settings|
  {
    if settings != [] {
      assert WellFormedSetting(settings[0]);
      SettingRaisesFits(e, settings[0]);
      SettingSolvent(e, settings[0]);
      SettingHeld(e, settings[0]);
      SettingsRaiseFit(e.ApplySetting(settings[0]), settings[1..]);
    }
  }

  lemma FrameRaisesFits(e: Endpoint, f: Frame)
    requires |e.cx.huffman| == SYMBOLS && Sound(e) && WellFormed(f) && FrameRaises(e, f)
    ensures FrameFits(e, f)
  {
    if f.SettingsFrame? && !f.ack {
      SettingsRaiseFit(e, f.settings);
    }
  }

  ghost predicate ClientFramesRaise(e: Endpoint, frames: seq<Frame>)
    requires e.cx.Valid()
    decreases |frames|
  {
    frames == [] || (FrameRaises(e, frames[0]) && ClientFramesRaise(C.Handle(e, frames[0]), frames[1..]))
  }

  lemma {:induction false} ClientFramesRaiseFit(e: Endpoint, frames: seq<Frame>)
    requires e.cx.Valid() && Sound(e) && ClientFramesRaise(e, frames)
    requires forall f :: f in frames ==> Sendable(DEFAULT_MAX_FRAME_SIZE, f)
    ensures ClientFramesFit(e, frames)
    decreases |frames|
  {
    if frames != [] {
      assert Sendable(DEFAULT_MAX_FRAME_SIZE, frames[0]);
      FrameRaisesFits(e, frames[0]);
      ClientFrameSound(e, frames[0]);
      ClientFramesRaiseFit(C.Handle(e, frames[0]), frames[1..]);
    }
  }

  ghost predicate ClientRunRaises(c: C.Client, actions: seq<C.Action>)
    requires c.e.cx.Valid()
    decreases |actions|
  {
    actions == [] ||
    (&& (actions[0].DoFeed? ==>
           ClientFramesRaise(c.e, DecodeAll(DEFAULT_MAX_FRAME_SIZE, c.input + actions[0].data).frames))
     && ClientRunRaises(C.Step(c, actions[0]), actions[1..]))
  }

  lemma ClientStepRaiseFits(c: C.Client, a: C.Action)
    requires c.e.cx.Valid() && Sound(c.e) && ClientRunRaises(c, [a])
    ensures ClientRunFits(c, [a])
  {
    if a.DoFeed? {
      DecodedAreSendable(DEFAULT_MAX_FRAME_SIZE, c.input + a.data);
      ClientFramesRaiseFit(c.e, DecodeAll(DEFAULT_MAX_FRAME_SIZE, c.input + a.data).frames);
    }
  }

  lemma {:induction false} ClientRunRaiseFits(c: C.Client, actions: seq<C.Action>)
    requires c.e.cx.Valid() && Sound(c.e) && ClientRunRaises(c, actions)
    ensures ClientRunFits(c, actions)
    decreases |actions|
  {
    if actions != [] {
      ClientStepRaiseFits(c, actions[0]);
      ClientStepSound(c, actions[0]);
      ClientRunRaiseFits(C.Step(c, actions[0]), actions[1..]);
    }
  }

  /** No window of the stream is negative, and no more was sent on it than it was granted. */
  predicate InCreditAt(e: Endpoint, id: u32) {
    id in e.streams ==>
      0 <= e.streams[id].sendWindow && e.CreditOf(id).sent <= e.remote.initialWindowSize + e.CreditOf(id).granted
  }

  /** Over every run of a new client whose peer only raises the initial size, no stream is overdrawn. */
  lemma ClientNeverOverdrawn(cx: Codec, actions: seq<C.Action>, id: u32)
    requires cx.Valid() && ClientRunRaises(C.NewClient(cx), actions)
    ensures InCreditAt(C.Run(C.NewClient(cx), actions).e, id)
  {
    NewSound(cx);
    ClientRunRaiseFits(C.NewClient(cx), actions);
    ClientRunSound(C.NewClient(cx), actions);
    var e := C.Run(C.NewClient(cx), actions).e;
    if id in e.streams {
      SolventWindow(e, id);
    }
  }

  ghost predicate ServerFramesRaise(s: S.Core, frames: seq<Frame>)
    requires s.e.cx.Valid()
    decreases |frames|
  {
    frames == [] || (FrameRaises(s.e, frames[0]) && ServerFramesRaise(S.Handle(s, frames[0]), frames[1..]))
  }

  lemma {:induction false} ServerFramesRaiseFit(s: S.Core, frames: seq<Frame>)
    requires s.e.cx.Valid() && Sound(s.e) && ServerFramesRaise(s, frames)
    requires forall f :: f in frames ==> Sendable(DEFAULT_MAX_FRAME_SIZE, f)
    ensures ServerFramesFit(s, frames)
    decreases |frames|
  {
    if frames != [] {
      assert Sendable(DEFAULT_MAX_FRAME_SIZE, frames[0]);
      FrameRaisesFits(s.e, frames[0]);
      ServerFrameSound(s, frames[0]);
      ServerFramesRaiseFit(S.Handle(s, frames[0]), frames[1..]);
    }
  }

  ghost predicate ServerRunRaises(s: S.Server, actions: seq<S.Action>)
    requires s.core.e.cx.Valid()
    decreases |actions|
  {
    actions == [] ||
    (&& (actions[0].DoProcess? && Admitted(s).gotPreface ==>
           ServerFramesRaise(Admitted(s).core, DecodeAll(DEFAULT_MAX_FRAME_SIZE, Admitted(s).input).frames))
     && ServerRunRaises(S.Step(s, actions[0]), actions[1..]))
  }

  lemma ServerStepRaiseFits(s: S.Server, a: S.Action)
    requires s.core.e.cx.Valid() && Sound(s.core.e) && ServerRunRaises(s, [a])
    ensures ServerRunFits(s, [a])
  {
    var admitted := Admitted(s);
    if a.DoProcess? && admitted.gotPreface {
      SameSound(s.core.e, admitted.core.e);
      DecodedAreSendable(DEFAULT_MAX_FRAME_SIZE, admitted.input);
      ServerFramesRaiseFit(admitted.core, DecodeAll(DEFAULT_MAX_FRAME_SIZE, admitted.input).frames);
    }
  }

  lemma {:induction false} ServerRunRaiseFits(s: S.Server, actions: seq<S.Action>)
    requires s.core.e.cx.Valid() && Sound(s.core.e) && ServerRunRaises(s, actions)
    ensures ServerRunFits(s, actions)
    decreases |actions|
  {
    if actions != [] {
      ServerStepRaiseFits(s, actions[0]);
      ServerStepSound(s, actions[0]);
      ServerRunRaiseFits(S.Step(s, actions[0]), actions[1..]);
    }
  }

  lemma ServerNeverOverdrawn(cx: Codec, actions: seq<S.Action>, id: u32)
    requires cx.Valid() && ServerRunRaises(S.NewServer(cx), actions)
    ensures InCreditAt(S.Run(S.NewServer(cx), actions).core.e, id)
  {
    NewSound(cx);
    ServerRunRaiseFits(S.NewServer(cx), actions);
    ServerRunSound(S.NewServer(cx), actions);
    var e := S.Run(S.NewServer(cx), actions).core.e;
    if id in e.streams {
      SolventWindow(e, id);
    }
  }
}
