/**
 Servers whose callers ask whether a stream may still be written to before they write: over every
 run, nothing follows the end of a stream.
 */
module Guarded {
  import opened Bytes
  import opened PrefixCodes
  import opened Tables
  import opened HpackCoding
  import opened Frames
  import opened FrameStreams
  import opened Endpoints
  import opened ServerProtocol
  import opened StreamStates
  import Accounting

  // ----- What the log says -----

  predicate OnStream(f: Frame, id: u32) {
    (f.HeadersFrame? || f.DataFrame?) && f.streamId == id
  }

  predicate EndsStream(f: Frame, id: u32) {
    OnStream(f, id) && f.endStream
  }

  predicate HasEnd(frames: seq<Frame>, id: u32) {
    frames != [] && (EndsStream(frames[|frames| - 1], id) || HasEnd(frames[..|frames| - 1], id))
  }

  /** No HEADERS or DATA comes after the end of its stream. */
  predicate NothingAfterEnd(frames: seq<Frame>, id: u32) {
    forall i, j :: 0 <= i < j < |frames| && EndsStream(frames[i], id) ==> !OnStream(frames[j], id)
  }

  lemma {:induction false} HasEndIs(frames: seq<Frame>, id: u32)
    ensures HasEnd(frames, id) <==> exists i :: 0 <= i < |frames| && EndsStream(frames[i], id)
  {
    if frames != [] {
      var n := |frames| - 1;
      HasEndIs(frames[..n], id);
      assert forall i :: 0 <= i < n ==> frames[..n][i] == frames[i];
      if i :| 0 <= i < |frames| && EndsStream(frames[i], id) {
        assert i < n ==> EndsStream(frames[..n][i], id);
      }
    }
  }

  lemma EndPush(frames: seq<Frame>, id: u32, f: Frame)
    ensures HasEnd(frames + [f], id) <==> HasEnd(frames, id) || EndsStream(f, id)
    ensures NothingAfterEnd(frames, id) && (OnStream(f, id) ==> !HasEnd(frames, id)) ==>
              NothingAfterEnd(frames + [f], id)
  {
    assert (frames + [f])[..|frames|] == frames;
    HasEndIs(frames, id);
  }

  // ----- The invariant -----

  /** Nothing was written after the end of the stream, and if it was ended the guard says so. */
  predicate Kept(s: Core, id: u32) {
    && NothingAfterEnd(s.e.written, id)
    && (id in s.e.streams ==> id <= s.lastClientStreamId)
    && (HasEnd(s.e.written, id) ==>
          id <= s.lastClientStreamId && (id in s.e.streams ==> !s.e.streams[id].state.CanSend()))
  }

  predicate WritesOther(e: Endpoint, e': Endpoint, id: u32) {
    || e'.written == e.written
    || (|e'.written| == |e.written| + 1 && e.written <= e'.written && !OnStream(e'.written[|e.written|], id))
  }

  /** What does not write on the stream, and does not open it, keeps this. */
  lemma OtherKept(s: Core, s': Core, id: u32)
    requires Kept(s, id) && WritesOther(s.e, s'.e, id) && s.lastClientStreamId <= s'.lastClientStreamId
    requires id <= s.lastClientStreamId ==> AdvancesAt(s.e, s'.e, id)
    requires id in s'.e.streams ==> id <= s'.lastClientStreamId
    ensures Kept(s', id)
  {
    if s'.e.written != s.e.written {
      var f := s'.e.written[|s.e.written|];
      assert s'.e.written == s.e.written + [f];
      EndPush(s.e.written, id, f);
    }
  }

  // ----- Frames that arrive -----

  lemma SharedWrites(e: Endpoint, f: Frame, id: u32)
    requires |e.cx.huffman| == SYMBOLS && !f.HeadersFrame? && !f.PushPromiseFrame?
    ensures WritesOther(e, e.HandleShared(f), id)
  {
    if f.SettingsFrame? {
      Accounting.SettingsKeepAccounts(e, f.settings);
      assert Accounting.AccountsOf(e.ApplySettings(f.settings)).written == e.written;
    }
  }

  lemma SharedKept(s: Core, f: Frame, id: u32)
    requires s.e.cx.Valid() && Kept(s, id) && !f.HeadersFrame? && !f.PushPromiseFrame?
    ensures Kept(s.(e := s.e.HandleShared(f)), id)
  {
    SharedWrites(s.e, f, id);
    SharedAdvances(s.e, id, f);
    OtherKept(s, s.(e := s.e.HandleShared(f)), id);
  }

  lemma RequestKept(s: Core, id: u32, on: u32, endStream: bool, block: seq<byte>)
    requires s.e.cx.Valid() && Kept(s, id)
    ensures Kept(HandleRequest(s, on, endStream, block), id)
  {
    if id <= s.lastClientStreamId {
      ServerRequestAdvances(s, id, on, endStream, block);
    }
    OtherKept(s, HandleRequest(s, on, endStream, block), id);
  }

  lemma FrameKept(s: Core, f: Frame, id: u32)
    requires s.e.cx.Valid() && Kept(s, id)
    ensures Kept(Handle(s, f), id)
  {
    if f.HeadersFrame? {
      RequestKept(s, id, f.streamId, f.endStream, f.block);
    } else if f.PushPromiseFrame? {
      OtherKept(s, Handle(s, f), id);
    } else {
      SharedKept(s, f, id);
    }
  }

  lemma {:induction false} FramesKept(s: Core, frames: seq<Frame>, id: u32)
    requires s.e.cx.Valid() && Kept(s, id)
    ensures Kept(HandleAll(s, frames), id)
    decreases |frames|
  {
    if frames != [] {
      FrameKept(s, frames[0], id);
      FramesKept(Handle(s, frames[0]), frames[1..], id);
    }
  }

  lemma ProcessFramesKept(s: Server, id: u32)
    requires s.core.e.cx.Valid() && Kept(s.core, id)
    ensures Kept(ProcessFrames(s).core, id)
  {
    var d := DecodeAll(DEFAULT_MAX_FRAME_SIZE, s.input);
    FramesKept(s.core, d.frames, id);
    OtherKept(HandleAll(s.core, d.frames), ProcessFrames(s).core, id);
  }

  lemma ProcessKept(s: Server, id: u32)
    requires s.core.e.cx.Valid() && Kept(s.core, id)
    ensures Kept(Process(s).core, id)
  {
    if s.gotPreface {
      ProcessFramesKept(s, id);
    } else if |s.input| >= |PREFACE| && s.input[..|PREFACE|] == PREFACE {
      var core := s.core.(e := Announced(s.core.e));
      OtherKept(s.core, core, id);
      ProcessFramesKept(Server(core, true, s.input[|PREFACE|..]), id);
    } else {
      OtherKept(s.core, Process(s).core, id);
    }
  }

  // ----- Calls -----

  /** The caller has asked whether the stream may be written to. */
  predicate Asks(s: Server, a: Action) {
    (a.DoHeaders? || a.DoSend?) && a.id in s.core.e.streams ==> s.core.e.streams[a.id].state.CanSend()
  }

  ghost predicate AlwaysAsks(s: Server, actions: seq<Action>)
    requires s.core.e.cx.Valid()
    decreases |actions|
  {
    actions == [] || (Asks(s, actions[0]) && AlwaysAsks(Step(s, actions[0]), actions[1..]))
  }

  /** One more frame on the stream, which was not ended; if this ends it the state says so. */
  lemma OnStreamKept(s: Core, s': Core, id: u32, f: Frame)
    requires Kept(s, id) && id in s.e.streams && s.e.streams[id].state.CanSend() && OnStream(f, id)
    requires s'.e.written == s.e.written + [f] && s'.lastClientStreamId == s.lastClientStreamId
    requires id in s'.e.streams && (f.endStream ==> !s'.e.streams[id].state.CanSend())
    ensures Kept(s', id)
  {
    EndPush(s.e.written, id, f);
  }

  lemma SendKept(s: Server, id: u32, on: u32, data: seq<byte>, endStream: bool)
    requires Kept(s.core, id) && Asks(s, DoSend(on, data, endStream))
    ensures Kept(SendData(s, on, data, endStream).0.core, id)
  {
    var (s', outcome) := SendData(s, on, data, endStream);
    if outcome.Sent? && on == id {
      OnStreamKept(s.core, s'.core, id, s'.core.e.written[|s.core.e.written|]);
    } else {
      OtherKept(s.core, s'.core, id);
    }
  }

  lemma HeadersKept(s: Server, id: u32, on: u32, headers: seq<HeaderField>, endStream: bool)
    requires s.core.e.cx.Valid() && Kept(s.core, id) && Asks(s, DoHeaders(on, headers, endStream))
    ensures Kept(SendHeaders(s, on, headers, endStream).0.core, id)
  {
    var (s', found) := SendHeaders(s, on, headers, endStream);
    if found && on == id {
      OnStreamKept(s.core, s'.core, id, s'.core.e.written[|s.core.e.written|]);
    } else {
      OtherKept(s.core, s'.core, id);
    }
  }

  lemma StepKept(s: Server, id: u32, a: Action)
    requires s.core.e.cx.Valid() && Kept(s.core, id) && Asks(s, a)
    ensures Kept(Step(s, a).core, id)
  {
    match a
    case DoProcess => ProcessKept(s, id);
    case DoHeaders(on, headers, endStream) => HeadersKept(s, id, on, headers, endStream);
    case DoSend(on, data, endStream) => SendKept(s, id, on, data, endStream);
    case _ => OtherKept(s.core, Step(s, a).core, id);
  }

  lemma {:induction false} RunKept(s: Server, id: u32, actions: seq<Action>)
    requires s.core.e.cx.Valid() && Kept(s.core, id) && AlwaysAsks(s, actions)
    ensures Kept(Run(s, actions).core, id)
    decreases |actions|
  {
    if actions != [] {
      StepKept(s, id, actions[0]);
      RunKept(Step(s, actions[0]), id, actions[1..]);
    }
  }

  /** If every call of send_headers and send_data asks can_send first, nothing follows the end of any stream. */
  lemma AskingSuffices(cx: Codec, actions: seq<Action>, id: u32)
    requires cx.Valid() && AlwaysAsks(NewServer(cx), actions)
    ensures NothingAfterEnd(Run(NewServer(cx), actions).core.e.written, id)
  {
    RunKept(NewServer(cx), id, actions);
  }

  /** A call that does not ask can break it: exactly on a stream that was ended before. */
  lemma NotAskingBreaks(s: Server, id: u32, data: seq<byte>, endStream: bool)
    requires NothingAfterEnd(s.core.e.written, id) && SendData(s, id, data, endStream).1.Sent?
    ensures NothingAfterEnd(SendData(s, id, data, endStream).0.core.e.written, id) <==> !HasEnd(s.core.e.written, id)
  {
    var w, w' := s.core.e.written, SendData(s, id, data, endStream).0.core.e.written;
    var f := w'[|w|];
    assert w' == w + [f] && OnStream(f, id);
    EndPush(w, id, f);
    HasEndIs(w, id);
    if HasEnd(w, id) {
      var i :| 0 <= i < |w| && EndsStream(w[i], id);
      assert EndsStream(w'[i], id) && OnStream(w'[|w|], id);
    }
  }
}
