/** Reading a stream of frames that is still being written: nothing is lost, repeated or reordered. */
module Channels {
  import opened Bytes
  import opened Frames
  import opened FrameCoding
  import opened FrameStreams

  /**
   Of the frames `written`, a reader that was given the bytes `received` has taken `taken`; `left`
   are still to come, and `input` is what it has of them.
   */
  predicate Reading(written: seq<Frame>, taken: seq<Frame>, left: seq<Frame>, input: seq<byte>, received: seq<byte>) {
    written == taken + left && StreamBytes(taken) + input == received
  }

  lemma {:induction false} StreamBytesAppend(a: seq<Frame>, b: seq<Frame>)
    ensures StreamBytes(a + b) == StreamBytes(a) + StreamBytes(b)
    decreases |a|
  {
    if a == [] {
      NothingBefore(b);
    } else {
      var f, rest := a[0], a[1..];
      StreamBytesAppend(rest, b);
      FrameBefore(f, rest, b);
      assert a == [f] + rest;
    }
  }

  lemma FrameBefore(f: Frame, rest: seq<Frame>, b: seq<Frame>)
    requires StreamBytes(rest + b) == StreamBytes(rest) + StreamBytes(b)
    ensures StreamBytes([f] + rest + b) == StreamBytes([f] + rest) + StreamBytes(b)
  {
    StreamBytesCons(f, rest);
    StreamBytesCons(f, rest + b);
    AppendAssociates([f], rest, b);
    AppendAssociates(FrameBytes(f), StreamBytes(rest), StreamBytes(b));
  }

  lemma StreamBytesCons(f: Frame, rest: seq<Frame>)
    ensures StreamBytes([f] + rest) == FrameBytes(f) + StreamBytes(rest)
  {
    assert ([f] + rest)[1..] == rest;
  }

  lemma NothingBefore(b: seq<Frame>)
    ensures StreamBytes([] + b) == StreamBytes([]) + StreamBytes(b)
  {
    assert [] + b == b;
    assert [] + StreamBytes(b) == StreamBytes(b);
  }

  lemma SplitOff<T>(all: seq<T>, first: seq<T>) returns (rest: seq<T>)
    requires first <= all
    ensures all == first + rest
  {
    rest := all[|first|..];
  }

  lemma StreamBytesGrow(w: seq<Frame>, w': seq<Frame>)
    requires w <= w'
    ensures StreamBytes(w) <= StreamBytes(w')
  {
    var more := SplitOff(w', w);
    StreamBytesAppend(w, more);
  }

  lemma DropStart(start: seq<byte>, rest: seq<byte>, whole: seq<byte>)
    requires start + rest <= start + whole
    ensures rest <= whole
  {
    assert (start + rest)[|start|..] == rest && (start + whole)[|start|..] == whole;
  }

  /** More bytes arrive. */
  lemma ReadingReceives(written: seq<Frame>, taken: seq<Frame>, left: seq<Frame>, input: seq<byte>, received: seq<byte>,
                        more: seq<byte>)
    requires Reading(written, taken, left, input, received)
    ensures Reading(written, taken, left, input + more, received + more)
  {
    AppendAssociates(StreamBytes(taken), input, more);
  }

  /** More frames are written. */
  lemma ReadingGrows(written: seq<Frame>, taken: seq<Frame>, left: seq<Frame>, input: seq<byte>, received: seq<byte>,
                     more: seq<Frame>)
    requires Reading(written, taken, left, input, received)
    ensures Reading(written + more, taken, left + more, input, received)
  {
    AppendAssociates(taken, left, more);
  }

  /** Decoding what is there takes the next frames, whatever part of the stream has arrived. */
  lemma ReadingDecodes(max: nat, written: seq<Frame>, taken: seq<Frame>, left: seq<Frame>, input: seq<byte>,
                       received: seq<byte>)
      returns (rest: seq<Frame>)
    requires Reading(written, taken, left, input, received) && received <= StreamBytes(written)
    requires forall f :: f in left ==> Sendable(MAX_FRAME_SIZE, f)
    ensures var d := DecodeAll(max, input);
            left == d.frames + rest && Reading(written, taken + d.frames, rest, d.tail, received)
    ensures !DecodeFrame(max, DecodeAll(max, input).tail).Parsed?
    ensures (forall f :: f in left ==> |PayloadOf(f)| <= max) ==> DecodeAll(max, input).error == None
  {
    var d := DecodeAll(max, input);
    StreamBytesAppend(taken, left);
    DropStart(StreamBytes(taken), input, StreamBytes(left));
    PrefixDecodes(max, left, input);
    rest := SplitOff(left, d.frames);
    StreamBytesAppend(taken, d.frames);
    AppendAssociates(StreamBytes(taken), StreamBytes(d.frames), d.tail);
    AppendAssociates(taken, d.frames, rest);
  }

  /** When all the bytes have arrived, what is in the buffer are the frames that are left. */
  lemma ReadingRest(written: seq<Frame>, taken: seq<Frame>, left: seq<Frame>, input: seq<byte>)
    requires Reading(written, taken, left, input, StreamBytes(written))
    ensures input == StreamBytes(left)
  {
    StreamBytesAppend(taken, left);
    SameRest(StreamBytes(taken), input, StreamBytes(left));
  }

  lemma SameRest(start: seq<byte>, a: seq<byte>, b: seq<byte>)
    requires start + a == start + b
    ensures a == b
  {
    assert (start + a)[|start|..] == a && (start + b)[|start|..] == b;
  }

  /**
   A reader that has all the bytes and takes no more has taken everything, or it is stuck at a frame
   beyond its limit.
   */
  lemma ReadingEnds(max: nat, written: seq<Frame>, taken: seq<Frame>, left: seq<Frame>, input: seq<byte>)
    requires Reading(written, taken, left, input, StreamBytes(written)) && !DecodeFrame(max, input).Parsed?
    requires forall f :: f in left ==> Sendable(MAX_FRAME_SIZE, f)
    ensures input == StreamBytes(left)
    ensures left == [] || |PayloadOf(left[0])| > max
  {
    ReadingRest(written, taken, left, input);
    if left != [] {
      assert Sendable(MAX_FRAME_SIZE, left[0]);
      if |PayloadOf(left[0])| <= max {
        FrameRoundTrip(max, left[0], StreamBytes(left[1..]));
      }
    }
  }
}
