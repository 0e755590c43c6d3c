/** However the bytes of a stream are cut into pieces, a connection that is fed them ends in the same state. */
module Chunking {
  import opened Bytes
  import opened Frames
  import opened FrameStreams
  import opened Endpoints
  import C = ClientProtocol
  import S = ServerProtocol

  lemma NoErrorBefore(b: seq<byte>, more: seq<byte>)
    requires DecodeAll(DEFAULT_MAX_FRAME_SIZE, b + more).error.None?
    ensures var d := DecodeAll(DEFAULT_MAX_FRAME_SIZE, b);
            && d.error.None?
            && DecodeAll(DEFAULT_MAX_FRAME_SIZE, b + more)
              == Then(d.frames, DecodeAll(DEFAULT_MAX_FRAME_SIZE, d.tail + more))
  {
    DecodeAllAppend(DEFAULT_MAX_FRAME_SIZE, b, more);
  }

  // ----- A client -----

  lemma {:induction false} ClientHandlesAppend(e: Endpoint, first: seq<Frame>, rest: seq<Frame>)
    requires e.cx.Valid()
    ensures C.HandleAll(e, first + rest) == C.HandleAll(C.HandleAll(e, first), rest)
    decreases |first|
  {
    if first == [] {
      assert first + rest == rest;
    } else {
      assert (first + rest)[1..] == first[1..] + rest;
      ClientHandlesAppend(C.Handle(e, first[0]), first[1..], rest);
    }
  }

  /** Two pieces, of which the first has no error, are as good as one. */
  lemma ClientFedTwice(c: C.Client, a: seq<byte>, b: seq<byte>)
    requires c.e.cx.Valid() && DecodeAll(DEFAULT_MAX_FRAME_SIZE, c.input + (a + b)).error.None?
    ensures DecodeAll(DEFAULT_MAX_FRAME_SIZE, C.Feed(c, a).input + b).error.None?
    ensures C.Feed(C.Feed(c, a), b) == C.Feed(c, a + b)
  {
    AppendAssociates(c.input, a, b);
    NoErrorBefore(c.input + a, b);
    var d := DecodeAll(DEFAULT_MAX_FRAME_SIZE, c.input + a);
    ClientHandlesAppend(c.e, d.frames, DecodeAll(DEFAULT_MAX_FRAME_SIZE, d.tail + b).frames);
  }

  ghost function ClientFed(c: C.Client, chunks: seq<seq<byte>>): (c': C.Client)
    requires c.e.cx.Valid()
    ensures c'.e.cx == c.e.cx
    decreases |chunks|
  {
    if chunks == [] then c else ClientFed(C.Feed(c, chunks[0]), chunks[1..])
  }

  /** Chunk independence for a client, as long as the decoder meets no error. */
  lemma {:induction false} ClientChunks(c: C.Client, chunks: seq<seq<byte>>)
    requires c.e.cx.Valid() && chunks != []
    requires DecodeAll(DEFAULT_MAX_FRAME_SIZE, c.input + Concat(chunks)).error.None?
    ensures ClientFed(c, chunks) == C.Feed(c, Concat(chunks))
    decreases |chunks|
  {
    if |chunks| == 1 {
      assert Concat(chunks[1..]) == [] && chunks[0] + [] == chunks[0];
    } else {
      ClientFedTwice(c, chunks[0], Concat(chunks[1..]));
      ClientChunks(C.Feed(c, chunks[0]), chunks[1..]);
    }
  }

  // ----- A server -----

  lemma {:induction false} ServerHandlesAppend(s: S.Core, first: seq<Frame>, rest: seq<Frame>)
    requires s.e.cx.Valid()
    ensures S.HandleAll(s, first + rest) == S.HandleAll(S.HandleAll(s, first), rest)
    decreases |first|
  {
    if first == [] {
      assert first + rest == rest;
    } else {
      assert (first + rest)[1..] == first[1..] + rest;
      ServerHandlesAppend(S.Handle(s, first[0]), first[1..], rest);
    }
  }

  ghost function Fed(s: S.Server, data: seq<byte>): (s': S.Server)
    requires s.core.e.cx.Valid()
    ensures s'.core.e.cx == s.core.e.cx
  {
    S.Process(s.(input := s.input + data))
  }

  /** Neither the preface nor a frame is broken in what the server would have to look at. */
  predicate Sane(s: S.Server, input: seq<byte>) {
    if s.gotPreface then DecodeAll(DEFAULT_MAX_FRAME_SIZE, input).error.None?
    else if |input| < |PREFACE| then input <= PREFACE
    else input[..|PREFACE|] == PREFACE && DecodeAll(DEFAULT_MAX_FRAME_SIZE, input[|PREFACE|..]).error.None?
  }

  lemma ServerProcessedTwice(s: S.Server, more: seq<byte>)
    requires s.core.e.cx.Valid() && DecodeAll(DEFAULT_MAX_FRAME_SIZE, s.input + more).error.None?
    ensures var s1 := S.ProcessFrames(s);
            && S.ProcessFrames(s1.(input := s1.input + more)) == S.ProcessFrames(s.(input := s.input + more))
            && DecodeAll(DEFAULT_MAX_FRAME_SIZE, s1.input + more).error.None?
  {
    NoErrorBefore(s.input, more);
    var d := DecodeAll(DEFAULT_MAX_FRAME_SIZE, s.input);
    ServerHandlesAppend(s.core, d.frames, DecodeAll(DEFAULT_MAX_FRAME_SIZE, d.tail + more).frames);
  }

  lemma PrefaceFirst(input: seq<byte>, more: seq<byte>)
    requires |input| >= |PREFACE|
    ensures (input + more)[..|PREFACE|] == input[..|PREFACE|]
    ensures (input + more)[|PREFACE|..] == input[|PREFACE|..] + more
  {
  }

  lemma ServerFedTwice(s: S.Server, a: seq<byte>, b: seq<byte>)
    requires s.core.e.cx.Valid() && Sane(s, s.input + (a + b))
    ensures Sane(Fed(s, a), Fed(s, a).input + b)
    ensures Fed(Fed(s, a), b) == Fed(s, a + b)
  {
    AppendAssociates(s.input, a, b);
    var first := s.(input := s.input + a);
    if s.gotPreface {
      ServerProcessedTwice(first, b);
    } else if |s.input + a| >= |PREFACE| {
      PrefaceFirst(s.input + a, b);
      ServerProcessedTwice(S.Server(s.core.(e := Announced(s.core.e)), true, (s.input + a)[|PREFACE|..]), b);
    }
  }

  ghost function ServerFed(s: S.Server, chunks: seq<seq<byte>>): (s': S.Server)
    requires s.core.e.cx.Valid()
    ensures s'.core.e.cx == s.core.e.cx
    decreases |chunks|
  {
    if chunks == [] then s else ServerFed(Fed(s, chunks[0]), chunks[1..])
  }

  /** Chunk independence for a server, wherever the preface and the frames are cut. */
  lemma {:induction false} ServerChunks(s: S.Server, chunks: seq<seq<byte>>)
    requires s.core.e.cx.Valid() && chunks != [] && Sane(s, s.input + Concat(chunks))
    ensures ServerFed(s, chunks) == Fed(s, Concat(chunks))
    decreases |chunks|
  {
    if |chunks| == 1 {
      assert Concat(chunks[1..]) == [] && chunks[0] + [] == chunks[0];
    } else {
      ServerFedTwice(s, chunks[0], Concat(chunks[1..]));
      ServerChunks(Fed(s, chunks[0]), chunks[1..]);
    }
  }
}
