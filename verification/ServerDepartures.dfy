/** Runs of a new server, and of a server joined to a client, that end where the standard would not have them. */
module ServerDepartures {
  import opened Bytes
  import opened HpackCoding
  import opened Frames
  import opened FrameStreams
  import opened Endpoints
  import opened ServerProtocol
  import opened Delivery

  // ----- Building runs -----

  lemma {:induction false} RunThen(s: Server, actions: seq<Action>, a: Action)
    requires s.core.e.cx.Valid()
    ensures Run(s, actions + [a]) == Step(Run(s, actions), a)
    decreases |actions|
  {
    if actions == [] {
      assert [] + [a] == [a] && [a][1..] == [];
    } else {
      assert (actions + [a])[1..] == actions[1..] + [a];
      RunThen(Step(s, actions[0]), actions[1..], a);
    }
  }

  /** A run reaches a server. */
  ghost predicate Reaches(cx: Codec, actions: seq<Action>, s: Server) {
    cx.Valid() && s == Run(NewServer(cx), actions)
  }

  lemma ThenCall(cx: Codec, actions: seq<Action>, s: Server, a: Action) returns (longer: seq<Action>)
    requires Reaches(cx, actions, s)
    ensures s.core.e.cx == cx && Reaches(cx, longer, Step(s, a)) && actions <= longer
  {
    RunThen(NewServer(cx), actions, a);
    longer := actions + [a];
  }

  lemma NothingBefore(b: seq<byte>)
    ensures [] + b == b
  {
  }

  lemma NothingAfter(b: seq<byte>)
    ensures b + [] == b
  {
  }

  lemma WholeFrames(frames: seq<Frame>)
    requires forall f :: f in frames ==> Sendable(DEFAULT_MAX_FRAME_SIZE, f)
    ensures DecodeAll(DEFAULT_MAX_FRAME_SIZE, StreamBytes(frames)) == Batch(frames, [], None)
  {
    NothingAfter(StreamBytes(frames));
    StreamRoundTrip(DEFAULT_MAX_FRAME_SIZE, frames, []);
  }

  /** Processing the bytes of frames is handling the frames. */
  lemma ProcessedFrames(s: Server, frames: seq<Frame>)
    requires s.core.e.cx.Valid() && s.gotPreface && s.input == StreamBytes(frames)
    requires forall f :: f in frames ==> Sendable(DEFAULT_MAX_FRAME_SIZE, f)
    ensures Process(s) == s.(core := HandleAll(s.core, frames), input := [])
  {
    WholeFrames(frames);
  }

  /** With the preface in front of them, the settings are announced first. */
  lemma ProcessedStart(s: Server, frames: seq<Frame>)
    requires s.core.e.cx.Valid() && !s.gotPreface && s.input == PREFACE + StreamBytes(frames)
    requires forall f :: f in frames ==> Sendable(DEFAULT_MAX_FRAME_SIZE, f)
    ensures Process(s) == Server(HandleAll(s.core.(e := Announced(s.core.e)), frames), true, [])
  {
    assert s.input[..|PREFACE|] == PREFACE && s.input[|PREFACE|..] == StreamBytes(frames);
    ProcessedFrames(Server(s.core.(e := Announced(s.core.e)), true, StreamBytes(frames)), frames);
  }

  lemma ThenStart(cx: Codec, actions: seq<Action>, s: Server, frames: seq<Frame>)
      returns (longer: seq<Action>, s': Server)
    requires Reaches(cx, actions, s) && !s.gotPreface && s.input == []
    requires forall f :: f in frames ==> Sendable(DEFAULT_MAX_FRAME_SIZE, f)
    ensures s.core.e.cx == cx && Reaches(cx, longer, s') && actions <= longer
    ensures s' == Server(HandleAll(s.core.(e := Announced(s.core.e)), frames), true, [])
  {
    var bytes := PREFACE + StreamBytes(frames);
    longer := ThenCall(cx, actions, s, DoReceive(bytes));
    s' := Step(s, DoReceive(bytes));
    NothingBefore(bytes);
    longer := ThenCall(cx, longer, s', DoProcess);
    ProcessedStart(s', frames);
    s' := Step(s', DoProcess);
  }

  lemma ThenFrame(cx: Codec, actions: seq<Action>, s: Server, f: Frame) returns (longer: seq<Action>, s': Server)
    requires Reaches(cx, actions, s) && s.gotPreface && s.input == [] && Sendable(DEFAULT_MAX_FRAME_SIZE, f)
    ensures s.core.e.cx == cx && Reaches(cx, longer, s') && actions <= longer && s' == s.(core := Handle(s.core, f))
  {
    var bytes := StreamBytes([f]);
    longer := ThenCall(cx, actions, s, DoReceive(bytes));
    s' := Step(s, DoReceive(bytes));
    NothingBefore(bytes);
    longer := ThenCall(cx, longer, s', DoProcess);
    ProcessedFrames(s', [f]);
    assert [f][1..] == [] && HandleAll(s.core, [f]) == Handle(s.core, f);
    s' := Step(s', DoProcess);
  }

  function Zeros(n: nat): seq<byte> {
    seq(n, _ => 0)
  }

  // ----- Frames that the peer refuses -----

  /** A server writes a frame of 20000 bytes though its peer has not allowed more than 16384. */
  lemma LargeFrame(cx: Codec) returns (actions: seq<Action>)
    requires cx.Valid()
    ensures var e := Run(NewServer(cx), actions).core.e;
            && e.maxFrame == 16384 && |e.written| > 0
            && e.written[|e.written| - 1] == DataFrame(1, false, Zeros(20000))
            && TooLarge(e.written[|e.written| - 1])
  {
    var s := NewServer(cx);
    var request := HeadersFrame(1, false, true, None, []);
    actions, s := ThenStart(cx, [], s, [request]);
    assert [request][1..] == [];
    var d := DoSend(1, Zeros(20000), false);
    actions := ThenCall(cx, actions, s, d);
    assert Zeros(20000)[..20000] == Zeros(20000);
  }

  // ----- Draining -----

  /** Admitting the preface makes a server forget that it was told to drain. */
  lemma PrefaceEndsDraining(cx: Codec, code: u32) returns (before: seq<Action>, after: seq<Action>)
    requires cx.Valid()
    ensures Run(NewServer(cx), before).core.e.state == Draining && before <= after
    ensures Run(NewServer(cx), after).core.e.state == WaitingSettings
  {
    var s := NewServer(cx);
    before := ThenCall(cx, [], s, DoGoAway(code, []));
    s := Step(s, DoGoAway(code, []));
    after, s := ThenStart(cx, before, s, []);
  }

  /** So do the client's first settings. */
  lemma SettingsEndDraining(cx: Codec, code: u32) returns (before: seq<Action>, after: seq<Action>)
    requires cx.Valid()
    ensures Run(NewServer(cx), before).core.e.state == Draining && before <= after
    ensures Run(NewServer(cx), after).core.e.state == ConnectionState.Open
  {
    var s := NewServer(cx);
    before, s := ThenStart(cx, [], s, []);
    before := ThenCall(cx, before, s, DoGoAway(code, []));
    s := Step(s, DoGoAway(code, []));
    after, s := ThenFrame(cx, before, s, SettingsFrame(false, []));
  }
}
