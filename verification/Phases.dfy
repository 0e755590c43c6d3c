/**
 The state of a connection over whole runs: which frames and calls change it, when a connection that
 drains stops draining, and when a client still sends its preface.
 */
module Phases {
  import opened Bytes
  import opened PrefixCodes
  import opened HpackCoding
  import opened Frames
  import opened FrameStreams
  import opened Endpoints
  import opened ServerLifecycle
  import C = ClientProtocol
  import S = ServerProtocol

  datatype Phase = Phase(state: ConnectionState, gotSettings: bool)

  function PhaseOf(e: Endpoint): Phase {
    Phase(e.state, e.gotSettings)
  }

  /** Settings that are not an acknowledgement. */
  predicate Opening(f: Frame) {
    f.SettingsFrame? && !f.ack
  }

  /** What a frame does to the phase: all others leave it alone. */
  function Passed(p: Phase, f: Frame): Phase {
    if Opening(f) && !p.gotSettings then Phase(ConnectionState.Open, true)
    else if f.GoAwayFrame? then p.(state := Draining)
    else p
  }

  function PassedAll(p: Phase, frames: seq<Frame>): Phase
    decreases |frames|
  {
    if frames == [] then p else PassedAll(Passed(p, frames[0]), frames[1..])
  }

  // ----- Both sides go through these phases -----

  lemma SharedPhase(e: Endpoint, f: Frame)
    requires |e.cx.huffman| == SYMBOLS && !f.HeadersFrame? && !f.PushPromiseFrame?
    ensures PhaseOf(e.HandleShared(f)) == Passed(PhaseOf(e), f)
  {
    if f.SettingsFrame? {
      SettingsQuiet(e, f.settings);
    }
  }

  lemma ClientFramePhase(e: Endpoint, f: Frame)
    requires e.cx.Valid()
    ensures PhaseOf(C.Handle(e, f)) == Passed(PhaseOf(e), f)
  {
    if !f.HeadersFrame? && !f.PushPromiseFrame? {
      SharedPhase(e, f);
    }
  }

  lemma {:induction false} ClientFramesPhase(e: Endpoint, frames: seq<Frame>)
    requires e.cx.Valid()
    ensures PhaseOf(C.HandleAll(e, frames)) == PassedAll(PhaseOf(e), frames)
    decreases |frames|
  {
    if frames != [] {
      ClientFramePhase(e, frames[0]);
      ClientFramesPhase(C.Handle(e, frames[0]), frames[1..]);
    }
  }

  lemma ServerFramePhase(s: S.Core, f: Frame)
    requires s.e.cx.Valid()
    ensures PhaseOf(S.Handle(s, f).e) == Passed(PhaseOf(s.e), f)
  {
    if !f.HeadersFrame? && !f.PushPromiseFrame? {
      SharedPhase(s.e, f);
    }
  }

  lemma {:induction false} ServerFramesPhase(s: S.Core, frames: seq<Frame>)
    requires s.e.cx.Valid()
    ensures PhaseOf(S.HandleAll(s, frames).e) == PassedAll(PhaseOf(s.e), frames)
    decreases |frames|
  {
    if frames != [] {
      ServerFramePhase(s, frames[0]);
      ServerFramesPhase(S.Handle(s, frames[0]), frames[1..]);
    }
  }

  // ----- Steps -----

  /** The frames that feeding these bytes makes a client handle. */
  function Fed(c: C.Client, data: seq<byte>): seq<Frame> {
    DecodeAll(DEFAULT_MAX_FRAME_SIZE, c.input + data).frames
  }

  /** The phase of a client changes with the frames it is fed, and when it sends its preface. */
  lemma ClientStepPhase(c: C.Client, a: C.Action)
    requires c.e.cx.Valid()
    ensures PhaseOf(C.Step(c, a).e) ==
              if a.DoFeed? then PassedAll(PhaseOf(c.e), Fed(c, a.data))
              else if a.DoReady? && c.e.state == WaitingPreface then PhaseOf(c.e).(state := WaitingSettings)
              else PhaseOf(c.e)
  {
    if a.DoFeed? {
      ClientFramesPhase(c.e, Fed(c, a.data));
    }
  }

  /** The preface is complete and right: the next look at the buffer announces the settings. */
  predicate Admits(s: S.Server) {
    !s.gotPreface && |s.input| >= |PREFACE| && s.input[..|PREFACE|] == PREFACE
  }

  /** The frames that the next look at the buffer makes a server handle. */
  function Due(s: S.Server): seq<Frame> {
    if s.gotPreface then DecodeAll(DEFAULT_MAX_FRAME_SIZE, s.input).frames
    else if Admits(s) then DecodeAll(DEFAULT_MAX_FRAME_SIZE, s.input[|PREFACE|..]).frames
    else []
  }

  /** Where a server starts on those frames from: admitting the preface forgets that it drains. */
  function Start(s: S.Server): Phase {
    if Admits(s) then PhaseOf(s.core.e).(state := WaitingSettings) else PhaseOf(s.core.e)
  }

  lemma ProcessPhase(s: S.Server)
    requires s.core.e.cx.Valid()
    ensures PhaseOf(S.Process(s).core.e) == PassedAll(Start(s), Due(s))
  {
    if s.gotPreface {
      ServerFramesPhase(s.core, Due(s));
    } else if Admits(s) {
      ServerFramesPhase(s.core.(e := Announced(s.core.e)), Due(s));
    }
  }

  lemma ServerStepPhase(s: S.Server, a: S.Action)
    requires s.core.e.cx.Valid()
    ensures PhaseOf(S.Step(s, a).core.e) ==
              if a.DoProcess? then PassedAll(Start(s), Due(s))
              else if a.DoGoAway? then PhaseOf(s.core.e).(state := Draining)
              else PhaseOf(s.core.e)
  {
    if a.DoProcess? {
      ProcessPhase(s);
    }
  }

  // ----- Draining -----

  /** Is there an opening frame that no GOAWAY follows, and no opening frame before it? */
  predicate Reopens(frames: seq<Frame>) {
    frames != [] && if Opening(frames[0]) then NoGoAway(frames[1..]) else Reopens(frames[1..])
  }

  predicate NoGoAway(frames: seq<Frame>) {
    forall f :: f in frames ==> !f.GoAwayFrame?
  }

  /** Once the settings are there, frames only ever make a connection drain. */
  lemma {:induction false} SettledPhase(p: Phase, frames: seq<Frame>)
    requires p.gotSettings
    ensures PassedAll(p, frames) == if NoGoAway(frames) then p else p.(state := Draining)
    decreases |frames|
  {
    if frames != [] {
      assert frames == [frames[0]] + frames[1..];
      SettledPhase(Passed(p, frames[0]), frames[1..]);
    }
  }

  /** Frames end draining exactly if the settings have not arrived before and the first of them reopens it for good. */
  lemma {:induction false} FramesEndDraining(p: Phase, frames: seq<Frame>)
    requires p.state == Draining
    ensures PassedAll(p, frames).state != Draining <==> !p.gotSettings && Reopens(frames)
    decreases |frames|
  {
    if p.gotSettings {
      SettledPhase(p, frames);
    } else if frames != [] {
      if Opening(frames[0]) {
        SettledPhase(Phase(ConnectionState.Open, true), frames[1..]);
      } else {
        FramesEndDraining(p, frames[1..]);
      }
    }
  }

  /**
   A server that drains stops draining in exactly two ways: it admits the preface only now, and no
   GOAWAY comes with it after that; or the client's first settings arrive, and no GOAWAY after them.
   */
  lemma ServerEndsDraining(s: S.Server, a: S.Action)
    requires s.core.e.cx.Valid() && s.core.e.state == Draining
    ensures S.Step(s, a).core.e.state != Draining <==>
              a.DoProcess? && if Admits(s) then !DrainsAgain(s.core.e.gotSettings, Due(s))
                              else !s.core.e.gotSettings && Reopens(Due(s))
  {
    ServerStepPhase(s, a);
    if a.DoProcess? {
      if Admits(s) {
        FramesDrain(Start(s), Due(s));
      } else {
        FramesEndDraining(Start(s), Due(s));
      }
    }
  }

  /** Does a connection that does not drain drain after these frames? */
  predicate DrainsAgain(gotSettings: bool, frames: seq<Frame>) {
    !NoGoAway(frames) && (gotSettings || !Reopens(frames))
  }

  lemma {:induction false} FramesDrain(p: Phase, frames: seq<Frame>)
    requires p.state != Draining
    ensures PassedAll(p, frames).state == Draining <==> DrainsAgain(p.gotSettings, frames)
    decreases |frames|
  {
    if p.gotSettings {
      SettledPhase(p, frames);
    } else if frames != [] {
      var f, rest := frames[0], frames[1..];
      assert frames == [f] + rest;
      if Opening(f) {
        SettledPhase(Phase(ConnectionState.Open, true), rest);
      } else if f.GoAwayFrame? {
        FramesEndDraining(p.(state := Draining), rest);
      } else {
        FramesDrain(p, rest);
      }
    }
  }

  /** So does a client, in the second way only: it sends no preface once it drains. */
  lemma ClientEndsDraining(c: C.Client, a: C.Action)
    requires c.e.cx.Valid() && c.e.state == Draining
    ensures C.Step(c, a).e.state != Draining <==> a.DoFeed? && !c.e.gotSettings && Reopens(Fed(c, a.data))
  {
    ClientStepPhase(c, a);
    if a.DoFeed? {
      FramesEndDraining(PhaseOf(c.e), Fed(c, a.data));
    }
  }

  /** A client that has the server's settings and drains never stops draining. */
  lemma {:induction false} ClientDrainingForGood(c: C.Client, actions: seq<C.Action>)
    requires c.e.cx.Valid() && c.e.gotSettings && c.e.state == Draining
    ensures C.Run(c, actions).e.state == Draining
    decreases |actions|
  {
    if actions != [] {
      ClientEndsDraining(c, actions[0]);
      ClientStepPhase(c, actions[0]);
      if actions[0].DoFeed? {
        SettledPhase(PhaseOf(c.e), Fed(c, actions[0].data));
      }
      ClientDrainingForGood(C.Step(c, actions[0]), actions[1..]);
    }
  }

  // ----- The client's preface -----

  /** Frames after which a client no longer waits to send its preface. */
  predicate Wakes(f: Frame) {
    Opening(f) || f.GoAwayFrame?
  }

  lemma {:induction false} StillWaiting(p: Phase, frames: seq<Frame>)
    requires p == Phase(WaitingPreface, false)
    ensures PassedAll(p, frames).state == WaitingPreface <==> forall f :: f in frames ==> !Wakes(f)
    decreases |frames|
  {
    if frames != [] {
      var f, rest := frames[0], frames[1..];
      assert frames == [f] + rest;
      if Wakes(f) {
        assert f in frames;
        NeverWaits(Passed(p, f), rest);
      } else {
        StillWaiting(p, rest);
      }
    }
  }

  lemma {:induction false} NeverWaits(p: Phase, frames: seq<Frame>)
    requires p.state != WaitingPreface
    ensures PassedAll(p, frames).state != WaitingPreface
    decreases |frames|
  {
    if frames != [] {
      NeverWaits(Passed(p, frames[0]), frames[1..]);
    }
  }

  /**
   A client that is fed before its transport is ready still sends its preface exactly if no settings
   and no GOAWAY were among what it was fed; and as the first thing exactly if, besides, it has not
   answered anything.
   */
  lemma PrefaceExactly(c: C.Client, data: seq<byte>)
    requires c.e.cx.Valid() && c.prefaceAt.None? && PhaseOf(c.e) == Phase(WaitingPreface, false)
    ensures var fed := C.Feed(c, data);
            var ready, woken := C.TransportReady(fed), exists f :: f in Fed(c, data) && Wakes(f);
            && (ready.prefaceAt.Some? <==> !woken)
            && (ready.prefaceAt == Some(0) <==> !woken && fed.e.written == [])
  {
    ClientFramesPhase(c.e, Fed(c, data));
    StillWaiting(PhaseOf(c.e), Fed(c, data));
  }

  lemma {:induction false} StaysStarted(c: C.Client, actions: seq<C.Action>)
    requires c.e.cx.Valid() && c.e.state != WaitingPreface
    ensures C.Run(c, actions).prefaceAt == c.prefaceAt && C.Run(c, actions).e.state != WaitingPreface
    decreases |actions|
  {
    if actions != [] {
      ClientStepPhase(c, actions[0]);
      if actions[0].DoFeed? {
        NeverWaits(PhaseOf(c.e), Fed(c, actions[0].data));
      }
      StaysStarted(C.Step(c, actions[0]), actions[1..]);
    }
  }

  /** A client whose transport is ready before it is fed anything begins with the preface, whatever happens then. */
  lemma ReadyFirst(cx: Codec, actions: seq<C.Action>)
    requires cx.Valid() && actions != [] && actions[0] == C.DoReady
    ensures PREFACE <= C.Run(C.NewClient(cx), actions).Output()
  {
    var c := C.Step(C.NewClient(cx), C.DoReady);
    StaysStarted(c, actions[1..]);
    var e := C.Run(c, actions[1..]).e;
    assert e.written[..0] == [] && [] + PREFACE == PREFACE;
  }
}
