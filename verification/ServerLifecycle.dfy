/** The life of a server connection over whole runs: which streams there are, and which events are reported. */
module ServerLifecycle {
  import opened Bytes
  import opened PrefixCodes
  import opened HpackCoding
  import opened Frames
  import opened FrameStreams
  import opened Endpoints
  import opened ServerProtocol

  // ----- What the events say -----

  function Requests(events: seq<Event>): seq<Event> {
    if events == [] then []
    else
      var earlier, last := Requests(events[..|events| - 1]), events[|events| - 1];
      if last.Request? then earlier + [last] else earlier
  }

  function Readies(events: seq<Event>): nat {
    if events == [] then 0
    else Readies(events[..|events| - 1]) + if events[|events| - 1].Ready? then 1 else 0
  }

  lemma RequestsPush(events: seq<Event>, e: Event)
    ensures Requests(events + [e]) == if e.Request? then Requests(events) + [e] else Requests(events)
    ensures Readies(events + [e]) == Readies(events) + if e.Ready? then 1 else 0
  {
    assert (events + [e])[..|events|] == events;
  }

  /** Odd, strictly increasing, and none beyond `last`. */
  ghost predicate InOrder(requests: seq<Event>, last: nat) {
    && (forall r :: r in requests ==> r.Request? && r.streamId % 2 == 1 && r.streamId <= last)
    && (forall i, j :: 0 <= i < j < |requests| && requests[i].Request? && requests[j].Request? ==>
          requests[i].streamId < requests[j].streamId)
  }

  lemma InOrderPush(requests: seq<Event>, last: nat, r: Event)
    requires InOrder(requests, last) && r.Request? && r.streamId % 2 == 1 && last < r.streamId
    ensures InOrder(requests + [r], r.streamId)
  {
    var all := requests + [r];
    forall x | x in all
      ensures x.Request? && x.streamId % 2 == 1 && x.streamId <= r.streamId
    {
      assert x in requests || x == r;
    }
    forall i, j | 0 <= i < j < |all| && all[i].Request? && all[j].Request?
      ensures all[i].streamId < all[j].streamId
    {
      assert all[i] in requests;
    }
  }

  predicate StreamKnown(id: u32, last: nat) {
    id % 2 == 1 && id <= last
  }

  /** What holds between any two calls. */
  ghost predicate Orderly(s: Core) {
    && InOrder(Requests(s.e.events), s.lastClientStreamId)
    && (forall id :: id in s.e.streams ==> StreamKnown(id, s.lastClientStreamId))
    && Readies(s.e.events) == if s.e.gotSettings then 1 else 0
  }

  /**
   What never happens again: an old identifier comes back, readiness or draining is undone, an event
   is taken back.
   */
  ghost predicate Later(s: Core, s': Core) {
    && s.lastClientStreamId <= s'.lastClientStreamId
    && (forall id :: id in s'.e.streams ==> id in s.e.streams || id > s.lastClientStreamId)
    && (s.e.gotSettings ==> s'.e.gotSettings)
    && (s.e.gotSettings && s.e.state == Draining ==> s'.e.state == Draining)
    && s.e.events <= s'.e.events
  }

  lemma LaterTransitive(a: Core, b: Core, c: Core)
    requires Later(a, b) && Later(b, c)
    ensures Later(a, c)
  {
  }

  // ----- Steps -----

  /** Changes that leave the identifiers and the progress of the connection alone. */
  predicate Quiet(e: Endpoint, e': Endpoint) {
    && e'.streams.Keys <= e.streams.Keys
    && e'.gotSettings == e.gotSettings
    && (e'.state == e.state || e'.state == Draining)
    && (e'.events == e.events || (|e'.events| == |e.events| + 1 && e.events <= e'.events
                                  && !e'.events[|e.events|].Request? && !e'.events[|e.events|].Ready?))
  }

  lemma QuietOrderly(s: Core, e': Endpoint)
    requires Orderly(s) && Quiet(s.e, e')
    ensures Orderly(s.(e := e')) && Later(s, s.(e := e'))
  {
    if e'.events != s.e.events {
      assert e'.events == s.e.events + [e'.events[|s.e.events|]];
      RequestsPush(s.e.events, e'.events[|s.e.events|]);
    }
    assert forall id :: id in e'.streams ==> id in e'.streams.Keys && id in s.e.streams.Keys;
  }

  lemma {:induction false} SettingsQuiet(e: Endpoint, settings: seq<Setting>)
    requires |e.cx.huffman| == SYMBOLS
    ensures var e' := e.ApplySettings(settings);
            e'.streams.Keys == e.streams.Keys && e'.gotSettings == e.gotSettings && e'.state == e.state
            && e'.events == e.events
    decreases |settings|
  {
    if settings != [] {
      assert e.ApplySetting(settings[0]).streams.Keys == e.streams.Keys;
      SettingsQuiet(e.ApplySetting(settings[0]), settings[1..]);
    }
  }

  lemma SettingsOrderly(s: Core, ack: bool, settings: seq<Setting>)
    requires |s.e.cx.huffman| == SYMBOLS && Orderly(s)
    ensures var s' := s.(e := s.e.HandleSettings(ack, settings));
            Orderly(s') && Later(s, s')
  {
    SettingsQuiet(s.e, settings);
    var applied := s.e.ApplySettings(settings).Wrote(SettingsFrame(true, []));
    if ack {
      QuietOrderly(s, s.e);
    } else {
      QuietOrderly(s, applied);
      RequestsPush(s.e.events, Ready);
    }
  }

  lemma SharedOrderly(s: Core, f: Frame)
    requires |s.e.cx.huffman| == SYMBOLS && !f.HeadersFrame? && !f.PushPromiseFrame? && Orderly(s)
    ensures var s' := s.(e := s.e.HandleShared(f));
            Orderly(s') && Later(s, s')
  {
    if f.SettingsFrame? {
      SettingsOrderly(s, f.ack, f.settings);
    } else {
      QuietOrderly(s, s.e.HandleShared(f));
    }
  }

  /** A new identifier is used up, whether its stream is opened or its header block turns out to be broken. */
  lemma NewIdOrderly(s: Core, id: u32, e': Endpoint, event: Event)
    requires Orderly(s) && id % 2 == 1 && s.lastClientStreamId < id
    requires e'.gotSettings == s.e.gotSettings && e'.state == s.e.state
    requires e'.streams.Keys <= s.e.streams.Keys + {id} && e'.events == s.e.events + [event]
    requires event.Error? || (event.Request? && event.streamId == id)
    ensures Orderly(Core(e', id)) && Later(s, Core(e', id))
  {
    RequestsPush(s.e.events, event);
    if event.Request? {
      InOrderPush(Requests(s.e.events), s.lastClientStreamId, event);
    }
    forall i | i in e'.streams
      ensures StreamKnown(i, id) && (i in s.e.streams || i > s.lastClientStreamId)
    {
      assert i in e'.streams.Keys;
      assert i != id ==> i in s.e.streams && StreamKnown(i, s.lastClientStreamId);
    }
  }

  lemma RequestOrderly(s: Core, id: u32, endStream: bool, block: seq<byte>)
    requires s.e.cx.Valid() && Orderly(s)
    ensures var s' := HandleRequest(s, id, endStream, block);
            Orderly(s') && Later(s, s')
  {
    var s' := HandleRequest(s, id, endStream, block);
    if id % 2 == 0 || id <= s.lastClientStreamId {
      QuietOrderly(s, s'.e);
    } else {
      NewIdOrderly(s, id, s'.e, s'.e.events[|s.e.events|]);
    }
  }

  lemma FrameOrderly(s: Core, f: Frame)
    requires s.e.cx.Valid() && Orderly(s)
    ensures Orderly(Handle(s, f)) && Later(s, Handle(s, f))
  {
    if f.HeadersFrame? {
      RequestOrderly(s, f.streamId, f.endStream, f.block);
    } else if f.PushPromiseFrame? {
      QuietOrderly(s, Handle(s, f).e);
    } else {
      SharedOrderly(s, f);
    }
  }

  lemma {:induction false} FramesOrderly(s: Core, frames: seq<Frame>)
    requires s.e.cx.Valid() && Orderly(s)
    ensures Orderly(HandleAll(s, frames)) && Later(s, HandleAll(s, frames))
    decreases |frames|
  {
    if frames != [] {
      var s' := Handle(s, frames[0]);
      FrameOrderly(s, frames[0]);
      FramesOrderly(s', frames[1..]);
      LaterTransitive(s, s', HandleAll(s', frames[1..]));
    }
  }

  // ----- Runs -----

  /** Before the preface nothing has been handled. */
  ghost predicate Valid(s: Server) {
    Orderly(s.core) && (!s.gotPreface ==> !s.core.e.gotSettings)
  }

  lemma ProcessFramesOrderly(s: Server)
    requires s.core.e.cx.Valid() && Orderly(s.core)
    ensures Orderly(ProcessFrames(s).core) && Later(s.core, ProcessFrames(s).core)
  {
    var d := DecodeAll(DEFAULT_MAX_FRAME_SIZE, s.input);
    var core := HandleAll(s.core, d.frames);
    FramesOrderly(s.core, d.frames);
    QuietOrderly(core, core.e.Reported(d.error));
    LaterTransitive(s.core, core, ProcessFrames(s).core);
  }

  lemma ProcessOrderly(s: Server)
    requires s.core.e.cx.Valid() && Valid(s)
    ensures Valid(Process(s)) && Later(s.core, Process(s).core)
  {
    if s.gotPreface {
      ProcessFramesOrderly(s);
    } else if |s.input| >= |PREFACE| && s.input[..|PREFACE|] == PREFACE {
      var s' := Server(s.core.(e := Announced(s.core.e)), true, s.input[|PREFACE|..]);
      ProcessFramesOrderly(s');
      LaterTransitive(s.core, s'.core, ProcessFrames(s').core);
    } else {
      QuietOrderly(s.core, Process(s).core.e);
    }
  }

  lemma StepOrderly(s: Server, a: Action)
    requires s.core.e.cx.Valid() && Valid(s)
    ensures Valid(Step(s, a)) && Later(s.core, Step(s, a).core)
  {
    if a.DoProcess? {
      ProcessOrderly(s);
    } else {
      QuietOrderly(s.core, Step(s, a).core.e);
    }
  }

  /**
   Over every run of a server: what held keeps holding, the identifiers of the requests are odd
   and strictly increasing, every stream has one of them, and readiness was reported exactly once
   if the client's settings have arrived, and not otherwise.
   */
  lemma {:induction false} RunOrderly(s: Server, actions: seq<Action>)
    requires s.core.e.cx.Valid() && Valid(s)
    ensures Valid(Run(s, actions)) && Later(s.core, Run(s, actions).core)
    decreases |actions|
  {
    if actions != [] {
      var s' := Step(s, actions[0]);
      StepOrderly(s, actions[0]);
      RunOrderly(s', actions[1..]);
      LaterTransitive(s.core, s'.core, Run(s', actions[1..]).core);
    }
  }

  lemma NewServerIsValid(cx: Codec)
    ensures Valid(NewServer(cx))
  {
  }

  /** A removed stream never comes back, whatever the client sends. */
  lemma RemovedForGood(cx: Codec, before: seq<Action>, id: u32, after: seq<Action>)
    requires cx.Valid() && id in Run(NewServer(cx), before).core.e.streams
    ensures id !in Run(Step(Run(NewServer(cx), before), DoRemove(id)), after).core.e.streams
  {
    NewServerIsValid(cx);
    RunOrderly(NewServer(cx), before);
    var s := Run(NewServer(cx), before);
    assert StreamKnown(id, s.core.lastClientStreamId);
    StepOrderly(s, DoRemove(id));
    RunOrderly(Step(s, DoRemove(id)), after);
  }

  /** Once the client's settings have arrived, a server that drains never stops draining. */
  lemma DrainingForGood(cx: Codec, before: seq<Action>, after: seq<Action>)
    requires cx.Valid()
    requires Run(NewServer(cx), before).core.e.gotSettings && Run(NewServer(cx), before).core.e.state == Draining
    ensures Run(Run(NewServer(cx), before), after).core.e.state == Draining
  {
    NewServerIsValid(cx);
    RunOrderly(NewServer(cx), before);
    RunOrderly(Run(NewServer(cx), before), after);
  }

  /** Settings take a draining connection back to work exactly if they are the first. */
  lemma SettingsEndDraining(e: Endpoint, settings: seq<Setting>)
    requires |e.cx.huffman| == SYMBOLS && e.state == Draining
    ensures e.HandleSettings(false, settings).state == (if e.gotSettings then Draining else ConnectionState.Open)
  {
    SettingsQuiet(e, settings);
  }
}
