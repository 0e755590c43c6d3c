/**
 What the frame decoder makes of a whole byte stream: it only returns well-formed frames, it does
 not matter how the stream is cut into pieces, and it undoes the concatenation of encodings.
 */
module FrameStreams {
  import opened Bytes
  import opened Frames
  import opened FrameCoding

  // ----- Normalisation -----

  lemma {:induction false} ReadSettingsWellFormed(payload: seq<byte>)
    requires |payload| % 6 == 0 && ReadSettings(payload).Ok?
    ensures forall s :: s in ReadSettings(payload).value ==> WellFormedSetting(s)
  {
    if payload != [] {
      ReadSettingsWellFormed(payload[6..]);
      var s := Setting(SettingIdOf(U16Of(payload[..2])), U32Of(payload[2..6]));
      assert WellFormedSetting(s);
      assert ReadSettings(payload).value == [s] + ReadSettings(payload[6..]).value;
    }
  }

  lemma ParsedWellFormed(h: FrameHeader, payload: seq<byte>)
    requires Is31(h.streamId) && ParseFrame(h, payload).Ok?
    ensures var f := ParseFrame(h, payload).value;
            WellFormed(f) && |PayloadOf(f)| <= |payload|
  {
    if h.frameType == 4 {
      ReadSettingsWellFormed(payload);
    }
  }

  /**
   Whatever bytes come in, a frame that goes out is well formed, and encoding it takes no more
   bytes than it was read from and decodes to the same frame: padding and reserved bits are lost,
   nothing else.
   */
  lemma DecoderNormalises(max: nat, b: seq<byte>, after: seq<byte>)
    requires DecodeFrame(max, b).Parsed?
    ensures var (f, rest) := (DecodeFrame(max, b).frame, DecodeFrame(max, b).rest);
            && WellFormed(f)
            && |FrameBytes(f)| + |rest| <= |b|
            && DecodeFrame(max, FrameBytes(f) + after) == Parsed(f, after)
  {
    var h := PeekHeader(b);
    var payload := b[FRAME_HEADER_SIZE..FRAME_HEADER_SIZE + h.length];
    ParsedWellFormed(h, payload);
    FrameRoundTrip(max, DecodeFrame(max, b).frame, after);
  }

  // ----- Padding -----

  /** A DATA frame the way section 6.1 of RFC 7540 lays it out with padding. */
  function PaddedDataBytes(id: u32, endStream: bool, data: seq<byte>, padding: seq<byte>): seq<byte>
    requires |padding| < 0x100
  {
    HeaderBytes(1 + |data| + |padding|, 0, Flag(endStream, 1) + 8, id) + ([|padding|] + data + padding)
  }

  lemma SplitFrame(header: seq<byte>, payload: seq<byte>, rest: seq<byte>)
    ensures (header + payload + rest)[|header|..|header| + |payload|] == payload
    ensures (header + payload + rest)[|header| + |payload|..] == rest
    ensures header + payload + rest == header + (payload + rest)
  {
  }

  lemma PaddedDataParses(h: FrameHeader, endStream: bool, data: seq<byte>, padding: seq<byte>)
    requires h.frameType == 0 && h.flags == Flag(endStream, 1) + 8 && h.streamId != 0 && |padding| < 0x100
    ensures ParseFrame(h, [|padding|] + data + padding) ==
              if data == [] then Err(InvalidPadding(|padding|, 1 + |padding|))
              else Ok(DataFrame(h.streamId, endStream, data))
  {
    assert h.Has(PADDED) && h.Has(END_STREAM) == endStream;
    assert ([|padding|] + data + padding)[1..] == data + padding;
    assert (data + padding)[..|data|] == data;
  }

  /**
   Padding is removed, whatever its bytes are, exactly when some data is left: a frame of nothing
   but padding, which section 6.1 of RFC 7540 allows, is refused.
   */
  lemma PaddedDataDecodes(max: nat, id: u32, endStream: bool, data: seq<byte>, padding: seq<byte>, rest: seq<byte>)
    requires IsStream(id) && |padding| < 0x100 && 1 + |data| + |padding| <= max <= MAX_FRAME_SIZE
    ensures DecodeFrame(max, PaddedDataBytes(id, endStream, data, padding) + rest) ==
              if data == [] then Malformed(InvalidPadding(|padding|, 1 + |padding|), rest)
              else Parsed(DataFrame(id, endStream, data), rest)
  {
    var payload := [|padding|] + data + padding;
    var flags: byte := Flag(endStream, 1) + 8;
    var header := HeaderBytes(|payload|, 0, flags, id);
    SplitFrame(header, payload, rest);
    HeaderRoundTrip(|payload|, 0, flags, id, payload + rest);
    PaddedDataParses(FrameHeader(|payload|, 0, flags, id), endStream, data, padding);
  }

  /** The kinds of frames that can be padded. */
  predicate Paddable(frameType: byte) {
    frameType == 0 || frameType == 1 || frameType == 5
  }

  /**
   It is refused in every kind that can be padded, also where section 6.2 of RFC 7540 allows it: an
   empty header block behind padding is as malformed as empty data.
   */
  lemma AllPaddingRefused(max: nat, frameType: byte, flags: byte, id: u32, padding: seq<byte>, rest: seq<byte>)
    requires Paddable(frameType) && flags / PADDED % 2 == 1 && IsStream(id)
    requires |padding| < 0x100 && 1 + |padding| <= max <= MAX_FRAME_SIZE
    ensures DecodeFrame(max, HeaderBytes(1 + |padding|, frameType, flags, id) + ([|padding|] + padding) + rest) ==
              Malformed(InvalidPadding(|padding|, 1 + |padding|), rest)
  {
    var payload := [|padding|] + padding;
    var header := HeaderBytes(|payload|, frameType, flags, id);
    SplitFrame(header, payload, rest);
    HeaderRoundTrip(|payload|, frameType, flags, id, payload + rest);
    var h := FrameHeader(|payload|, frameType, flags, id);
    assert h.Has(PADDED) && payload[1..] == padding;
    assert RemovePadding(payload) == Err(InvalidPadding(|padding|, 1 + |padding|));
  }

  /** What is left of a payload when its padding is taken off. */
  lemma PaddingRemoved(kept: seq<byte>, padding: seq<byte>)
    requires |padding| < 0x100
    ensures RemovePadding([|padding|] + kept + padding) ==
              if kept == [] then Err(InvalidPadding(|padding|, 1 + |padding|)) else Ok(kept)
  {
    assert ([|padding|] + kept + padding)[1..] == kept + padding;
    assert (kept + padding)[..|kept|] == kept;
  }

  /** Padding is removed from a header block, with or without a priority, exactly when something else is left. */
  lemma PaddedBlockParses(h: FrameHeader, priority: Option<Priority>, block: seq<byte>, padding: seq<byte>)
    requires h.frameType == 1 && h.Has(PADDED) && h.Has(PRIORITY) == priority.Some? && h.streamId != 0
    requires |padding| < 0x100 && (priority.Some? ==> Is31(priority.value.dependency))
    ensures var kept := if priority.Some? then PriorityBytes(priority.value) + block else block;
            ParseFrame(h, [|padding|] + kept + padding) ==
              if kept == [] then Err(InvalidPadding(|padding|, 1 + |padding|))
              else Ok(HeadersFrame(h.streamId, h.Has(END_STREAM), h.Has(END_HEADERS), priority, block))
  {
    PaddingRemoved(if priority.Some? then PriorityBytes(priority.value) + block else block, padding);
    if priority.Some? {
      PriorityRoundTrip(priority.value, block);
      assert (PriorityBytes(priority.value) + block)[5..] == block;
    }
  }

  /** So it is from a promise; the first bit of the promised identifier is ignored. */
  lemma PaddedPromiseParses(h: FrameHeader, promised: u32, block: seq<byte>, padding: seq<byte>)
    requires h.frameType == 5 && h.Has(PADDED) && h.streamId != 0 && |padding| < 0x100
    ensures ParseFrame(h, [|padding|] + (U32Bytes(promised) + block) + padding) ==
              Ok(PushPromiseFrame(h.streamId, h.Has(END_HEADERS), promised % 0x8000_0000, block))
  {
    PaddingRemoved(U32Bytes(promised) + block, padding);
    U32Prefix(promised, block);
  }

  // ----- Pieces of a stream -----

  /** More bytes change nothing about an attempt that has been decided. */
  lemma DecodeFrameAppend(max: nat, b: seq<byte>, more: seq<byte>)
    ensures match DecodeFrame(max, b)
            case NeedMore => true
            case Oversized(e) => DecodeFrame(max, b + more) == Oversized(e)
            case Malformed(e, rest) => DecodeFrame(max, b + more) == Malformed(e, rest + more)
            case Parsed(f, rest) => DecodeFrame(max, b + more) == Parsed(f, rest + more)
  {
    if |b| >= FRAME_HEADER_SIZE {
      assert (b + more)[5..9] == b[5..9];
      assert PeekHeader(b + more) == PeekHeader(b);
      var total := FRAME_HEADER_SIZE + PeekHeader(b).length;
      if |b| >= total {
        assert (b + more)[FRAME_HEADER_SIZE..total] == b[FRAME_HEADER_SIZE..total];
        assert (b + more)[total..] == b[total..] + more;
      }
    }
  }

  /** The frames taken off a buffer, what is left in it, and the error that stopped the decoder. */
  datatype Batch = Batch(frames: seq<Frame>, tail: seq<byte>, error: Option<FrameError>)

  function DecodeAll(max: nat, b: seq<byte>): Batch
    decreases |b|
  {
    match DecodeFrame(max, b)
    case NeedMore => Batch([], b, None)
    case Oversized(e) => Batch([], b, Some(e))
    case Malformed(e, rest) => Batch([], rest, Some(e))
    case Parsed(f, rest) => Then([f], DecodeAll(max, rest))
  }

  function Then(frames: seq<Frame>, d: Batch): Batch {
    d.(frames := frames + d.frames)
  }

  /** What a decoder that holds `d` has after more bytes; an error is final. */
  function Feed(max: nat, d: Batch, more: seq<byte>): Batch {
    if d.error.Some? then d.(tail := d.tail + more)
    else Then(d.frames, DecodeAll(max, d.tail + more))
  }

  function FeedAll(max: nat, d: Batch, chunks: seq<seq<byte>>): Batch
    decreases |chunks|
  {
    if chunks == [] then d else FeedAll(max, Feed(max, d, chunks[0]), chunks[1..])
  }

  function Concat(chunks: seq<seq<byte>>): seq<byte> {
    if chunks == [] then [] else chunks[0] + Concat(chunks[1..])
  }

  lemma FeedThen(max: nat, frames: seq<Frame>, d: Batch, more: seq<byte>)
    ensures Feed(max, Then(frames, d), more) == Then(frames, Feed(max, d, more))
  {
    var rest := DecodeAll(max, d.tail + more).frames;
    AppendAssociates(frames, d.frames, rest);
  }

  /** Decoding in two steps is decoding at once. */
  lemma {:induction false} DecodeAllAppend(max: nat, b: seq<byte>, more: seq<byte>)
    ensures DecodeAll(max, b + more) == Feed(max, DecodeAll(max, b), more)
    decreases |b|
  {
    DecodeFrameAppend(max, b, more);
    match DecodeFrame(max, b)
    case NeedMore =>
      var d := DecodeAll(max, b + more);
      assert [] + d.frames == d.frames;
    case Parsed(f, rest) =>
      DecodeAllAppend(max, rest, more);
      FeedThen(max, [f], DecodeAll(max, rest), more);
    case _ =>
  }

  lemma {:induction false} FeedAllIsFeed(max: nat, b: seq<byte>, chunks: seq<seq<byte>>)
    ensures FeedAll(max, DecodeAll(max, b), chunks) == DecodeAll(max, b + Concat(chunks))
    decreases |chunks|
  {
    if chunks == [] {
      assert b + [] == b;
    } else {
      DecodeAllAppend(max, b, chunks[0]);
      FeedAllIsFeed(max, b + chunks[0], chunks[1..]);
      AppendAssociates(b, chunks[0], Concat(chunks[1..]));
    }
  }

  /**
   Chunk independence: two ways of cutting one stream give the same frames, the same error if
   there is one, and the same bytes left over.
   */
  lemma ChunksDoNotMatter(max: nat, chunks: seq<seq<byte>>, others: seq<seq<byte>>)
    requires Concat(chunks) == Concat(others)
    ensures FeedAll(max, Batch([], [], None), chunks) == FeedAll(max, Batch([], [], None), others)
  {
    assert DecodeAll(max, []) == Batch([], [], None);
    FeedAllIsFeed(max, [], chunks);
    FeedAllIsFeed(max, [], others);
  }

  // ----- Streams of encodings -----

  /** Well formed, and within both the decoder's limit and the 24 bits of the length field. */
  predicate Sendable(max: nat, f: Frame) {
    WellFormed(f) && |PayloadOf(f)| <= max && |PayloadOf(f)| <= MAX_FRAME_SIZE
  }

  /** All that a decoder returns could have been sent to it the plain way. */
  lemma {:induction false} DecodedAreSendable(max: nat, b: seq<byte>)
    ensures forall f :: f in DecodeAll(max, b).frames ==> Sendable(max, f)
    decreases |b|
  {
    if DecodeFrame(max, b).Parsed? {
      var h := PeekHeader(b);
      ParsedWellFormed(h, b[FRAME_HEADER_SIZE..FRAME_HEADER_SIZE + h.length]);
      DecodedAreSendable(max, DecodeFrame(max, b).rest);
    }
  }

  function StreamBytes(frames: seq<Frame>): seq<byte> {
    if frames == [] then [] else FrameBytes(frames[0]) + StreamBytes(frames[1..])
  }

  lemma {:induction false} StreamBytesPush(frames: seq<Frame>, f: Frame)
    ensures StreamBytes(frames + [f]) == StreamBytes(frames) + FrameBytes(f)
  {
    if frames == [] {
      assert [] + [f] == [f] && [f][1..] == [];
      assert FrameBytes(f) + [] == [] + FrameBytes(f);
    } else {
      StreamBytesPush(frames[1..], f);
      assert (frames + [f])[1..] == frames[1..] + [f];
      AppendAssociates(FrameBytes(frames[0]), StreamBytes(frames[1..]), FrameBytes(f));
    }
  }

  lemma DecodeAllFront(max: nat, f: Frame, rest: seq<byte>)
    requires Sendable(max, f)
    ensures DecodeAll(max, FrameBytes(f) + rest) == Then([f], DecodeAll(max, rest))
  {
    FrameRoundTrip(max, f, rest);
  }

  /** The encodings of frames, followed by anything that is not yet a frame, yield those frames. */
  lemma {:induction false} StreamRoundTrip(max: nat, frames: seq<Frame>, tail: seq<byte>)
    requires forall f :: f in frames ==> Sendable(max, f)
    requires DecodeFrame(max, tail).NeedMore?
    ensures DecodeAll(max, StreamBytes(frames) + tail) == Batch(frames, tail, None)
    decreases |frames|
  {
    if frames == [] {
      assert [] + tail == tail;
    } else {
      var rest := StreamBytes(frames[1..]) + tail;
      AppendAssociates(FrameBytes(frames[0]), StreamBytes(frames[1..]), tail);
      assert Sendable(max, frames[0]);
      DecodeAllFront(max, frames[0], rest);
      StreamRoundTrip(max, frames[1..], tail);
      assert frames == [frames[0]] + frames[1..];
    }
  }

  lemma StreamBytesFront(f: Frame, frames: seq<Frame>, tail: seq<byte>)
    ensures StreamBytes([f] + frames) + tail == FrameBytes(f) + (StreamBytes(frames) + tail)
  {
    assert ([f] + frames)[1..] == frames;
    AppendAssociates(FrameBytes(f), StreamBytes(frames), tail);
  }

  /** A piece that ends inside the first frame is not enough to decode it. */
  lemma PartNeedsMore(max: nat, f: Frame, part: seq<byte>)
    requires Sendable(max, f) && part <= FrameBytes(f) && part != FrameBytes(f)
    ensures DecodeFrame(max, part) == NeedMore
  {
    var missing := FrameBytes(f)[|part|..];
    assert part + missing == FrameBytes(f) == FrameBytes(f) + [];
    assert |missing| > 0;
    FrameRoundTrip(max, f, []);
    DecodeFrameAppend(max, part, missing);
  }

  /** A frame beyond the decoder's limit is never taken, however much of it is there. */
  lemma LargeFrameStops(max: nat, f: Frame, rest: seq<byte>, piece: seq<byte>)
    requires Sendable(MAX_FRAME_SIZE, f) && |PayloadOf(f)| > max && piece <= FrameBytes(f) + rest
    ensures DecodeFrame(max, piece) in {NeedMore, Oversized(FrameTooLarge(|PayloadOf(f)|, max))}
  {
    if |piece| >= FRAME_HEADER_SIZE {
      var header := HeaderBytes(|PayloadOf(f)|, TypeOf(f), FlagsOf(f), StreamOf(f));
      HeaderRoundTrip(|PayloadOf(f)|, TypeOf(f), FlagsOf(f), StreamOf(f), piece[FRAME_HEADER_SIZE..]);
      AppendAssociates(header, PayloadOf(f), rest);
      assert piece == header + piece[FRAME_HEADER_SIZE..];
    }
  }

  /** `piece` is the encoding of the first frames, all found in `d`, and something that is left. */
  predicate CutFrom(frames: seq<Frame>, piece: seq<byte>, d: Batch) {
    d.frames <= frames && StreamBytes(d.frames) + d.tail == piece
  }

  lemma CutFromFront(frames: seq<Frame>, rest: seq<byte>, d: Batch)
    requires frames != [] && CutFrom(frames[1..], rest, d)
    ensures CutFrom(frames, FrameBytes(frames[0]) + rest, Then([frames[0]], d))
  {
    StreamBytesFront(frames[0], d.frames, d.tail);
    assert frames == [frames[0]] + frames[1..];
  }

  lemma CutFromStart(frames: seq<Frame>, d: Batch)
    requires d.frames == []
    ensures CutFrom(frames, d.tail, d)
  {
    assert [] + d.tail == d.tail;
  }

  lemma RestOfPiece(piece: seq<byte>, first: seq<byte>, others: seq<byte>) returns (rest: seq<byte>)
    requires piece <= first + others && |first| <= |piece|
    ensures piece == first + rest && rest <= others
  {
    rest := piece[|first|..];
    assert (first + others)[|first|..] == others;
  }

  /**
   Any piece of the stream, wherever it ends, yields its first frames and leaves the rest; and all
   the frames that are complete in it, if none is beyond the decoder's limit.
   */
  lemma {:induction false} PrefixDecodes(max: nat, frames: seq<Frame>, piece: seq<byte>)
    requires forall f :: f in frames ==> Sendable(MAX_FRAME_SIZE, f)
    requires piece <= StreamBytes(frames)
    ensures CutFrom(frames, piece, DecodeAll(max, piece))
    ensures !DecodeFrame(max, DecodeAll(max, piece).tail).Parsed?
    ensures (forall f :: f in frames ==> |PayloadOf(f)| <= max) ==>
              DecodeAll(max, piece).error == None && DecodeFrame(max, DecodeAll(max, piece).tail) == NeedMore
    decreases |frames|
  {
    if frames == [] {
      CutFromStart(frames, DecodeAll(max, piece));
    } else {
      var first, others := FrameBytes(frames[0]), StreamBytes(frames[1..]);
      assert Sendable(MAX_FRAME_SIZE, frames[0]);
      if |PayloadOf(frames[0])| > max {
        LargeFrameStops(max, frames[0], others, piece);
        CutFromStart(frames, DecodeAll(max, piece));
      } else if |piece| < |first| {
        assert piece == first[..|piece|];
        PartNeedsMore(max, frames[0], piece);
        CutFromStart(frames, DecodeAll(max, piece));
      } else {
        var rest := RestOfPiece(piece, first, others);
        DecodeAllFront(max, frames[0], rest);
        PrefixDecodes(max, frames[1..], rest);
        CutFromFront(frames, rest, DecodeAll(max, rest));
      }
    }
  }
}
