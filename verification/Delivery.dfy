/**
 Messages on their way between a client and a server: header blocks, which only make sense to a
 decoder whose table has kept up, data, and the notices that a server gives. What a side reports are
 the first of the messages that the other side sent, in the same order.
 */
module Delivery {
  import opened Bytes
  import opened PrefixCodes
  import opened Integers
  import opened Tables
  import opened HpackCoding
  import opened HpackSession
  import opened HpackEncoder
  import opened Frames
  import opened FrameCoding
  import opened Endpoints
  import opened PlainTraffic
  import C = ClientProtocol
  import S = ServerProtocol

  /** From the client to the server, or from the server to the client. */
  datatype Way = Up | Down

  predicate IsMessage(event: Event) {
    event.Request? || event.Headers? || event.Data? || event.GoAway? || event.StreamReset?
  }

  function Messages(events: seq<Event>): seq<Event> {
    if events == [] then []
    else
      var earlier, last := Messages(events[..|events| - 1]), events[|events| - 1];
      if IsMessage(last) then earlier + [last] else earlier
  }

  lemma MessagesPush(events: seq<Event>, event: Event)
    ensures Messages(events + [event]) == if IsMessage(event) then Messages(events) + [event] else Messages(events)
  {
    assert (events + [event])[..|events|] == events;
  }

  /** The identifier of the last request among these events, or 0. */
  function LastRequest(events: seq<Event>): u32 {
    if events == [] then 0
    else if events[|events| - 1].Request? then events[|events| - 1].streamId
    else LastRequest(events[..|events| - 1])
  }

  lemma LastRequestPush(events: seq<Event>, event: Event)
    ensures LastRequest(events + [event]) == if event.Request? then event.streamId else LastRequest(events)
  {
    assert (events + [event])[..|events|] == events;
  }

  lemma {:induction false} LastRequestMessages(events: seq<Event>)
    ensures LastRequest(Messages(events)) == LastRequest(events)
  {
    if events != [] {
      var earlier, last := events[..|events| - 1], events[|events| - 1];
      LastRequestMessages(earlier);
      if IsMessage(last) {
        LastRequestPush(Messages(earlier), last);
      }
    }
  }

  /** How the header block of a message is reported. */
  function Arrival(way: Way, id: u32, headers: seq<HeaderField>, endStream: bool): Event {
    if way.Up? then Request(id, headers, endStream) else Headers(id, headers, endStream)
  }

  // ----- Messages on their way -----

  /** A server only takes requests whose identifier is odd and greater than the last. */
  predicate Acceptable(way: Way, last: nat, id: u32) {
    way.Up? ==> id % 2 == 1 && last < id && Is31(id)
  }

  /** What a frame other than HEADERS is reported as. */
  function Carried(f: Frame): (events: seq<Event>)
    ensures events == [] <==> f.HeadersFrame? || !Carries(f)
    ensures |events| <= 1 && forall event :: event in events ==> IsMessage(event) && !event.Request?
  {
    match f
    case DataFrame(id, endStream, data) => [Data(id, data, endStream)]
    case RstStreamFrame(id, code) => [StreamReset(id, code)]
    case GoAwayFrame(last, code, _) => [GoAway(last, code)]
    case _ => []
  }

  /**
   `frames` are on their way to a side whose decoder table is `dec` and, if it is a server, whose
   last identifier is `last`. The header blocks, the data and the notices among them are, in order,
   the messages `coming`, and after the last block the table is related to the sender's encoder
   table `enc`.
   */
  ghost predicate Pending(way: Way, cx: Codec, dec: TableView, last: nat, frames: seq<Frame>, coming: seq<Event>,
                          enc: TableView, next: nat)
    requires cx.Valid()
    decreases |frames|
  {
    if frames == [] then
      coming == [] && Related(enc, dec) && dec.max <= USIZE_MAX && (way.Up? ==> last < next)
    else if frames[0].HeadersFrame? then
      var (dec', r) := BlockOf(cx, dec, DEFAULT_TABLE_SIZE, frames[0].block);
      && coming != [] && r.Ok? && coming[0] == Arrival(way, frames[0].streamId, r.value, frames[0].endStream)
      && Acceptable(way, last, frames[0].streamId)
      && Pending(way, cx, dec', frames[0].streamId, frames[1..], coming[1..], enc, next)
    else if Carries(frames[0]) then
      && coming != [] && [coming[0]] == Carried(frames[0])
      && Pending(way, cx, dec, last, frames[1..], coming[1..], enc, next)
    else
      Pending(way, cx, dec, last, frames[1..], coming, enc, next)
  }

  /** A frame at the end of the queue that is no header block. */
  lemma {:induction false} PendingFrame(way: Way, cx: Codec, dec: TableView, last: nat, frames: seq<Frame>,
                                        coming: seq<Event>, enc: TableView, next: nat, f: Frame)
    requires cx.Valid() && Pending(way, cx, dec, last, frames, coming, enc, next) && !f.HeadersFrame?
    ensures Pending(way, cx, dec, last, frames + [f], coming + Carried(f), enc, next)
    decreases |frames|
  {
    if frames == [] {
      OnlyLast(way, cx, dec, last, enc, next, f);
      assert frames + [f] == [f] && coming + Carried(f) == Carried(f);
    } else {
      assert (frames + [f])[1..] == frames[1..] + [f];
      if Carries(frames[0]) {
        assert (coming + Carried(f))[1..] == coming[1..] + Carried(f);
        var dec' := if frames[0].HeadersFrame? then BlockOf(cx, dec, DEFAULT_TABLE_SIZE, frames[0].block).0 else dec;
        var last' := if frames[0].HeadersFrame? then frames[0].streamId else last;
        PendingFrame(way, cx, dec', last', frames[1..], coming[1..], enc, next, f);
      } else {
        PendingFrame(way, cx, dec, last, frames[1..], coming, enc, next, f);
      }
    }
  }

  lemma OnlyLast(way: Way, cx: Codec, dec: TableView, last: nat, enc: TableView, next: nat, f: Frame)
    requires cx.Valid() && Pending(way, cx, dec, last, [], [], enc, next) && !f.HeadersFrame?
    ensures Pending(way, cx, dec, last, [f], Carried(f), enc, next)
  {
    assert [f][1..] == [];
    assert Carries(f) ==> Carried(f)[1..] == [];
  }

  lemma {:induction false} PendingOthers(way: Way, cx: Codec, dec: TableView, last: nat, frames: seq<Frame>,
                                         coming: seq<Event>, enc: TableView, next: nat, more: seq<Frame>)
    requires cx.Valid() && Pending(way, cx, dec, last, frames, coming, enc, next) && NoMessages(more)
    ensures Pending(way, cx, dec, last, frames + more, coming, enc, next)
    decreases |more|
  {
    if more == [] {
      assert frames + more == frames;
    } else {
      assert !Carries(more[0]);
      PendingFrame(way, cx, dec, last, frames, coming, enc, next, more[0]);
      assert coming + Carried(more[0]) == coming;
      PendingOthers(way, cx, dec, last, frames + [more[0]], coming, enc, next, more[1..]);
      assert frames + [more[0]] + more[1..] == frames + more;
    }
  }

  /** One more header block at the end of the queue: the tables will be related when the reader gets there. */
  lemma {:induction false} PendingHeaders(way: Way, cx: Codec, dec: TableView, last: nat, frames: seq<Frame>,
                                          coming: seq<Event>, e: EncoderView, next: nat, id: u32,
                                          headers: seq<HeaderField>, endStream: bool, after: nat)
    requires cx.Valid() && Pending(way, cx, dec, last, frames, coming, e.table, next)
    requires |BlockBytes(cx, e.table, e.useHuffman, headers).1| <= USIZE_MAX
    requires way.Up? ==> id == next && id % 2 == 1 && id < after && Is31(id)
    ensures var (enc', block) := BlockBytes(cx, e.table, e.useHuffman, headers);
            Pending(way, cx, dec, last, frames + [HeadersFrame(id, endStream, true, None, block)],
                    coming + [Arrival(way, id, headers, endStream)], enc', after)
    decreases |frames|
  {
    var f := HeadersFrame(id, endStream, true, None, BlockBytes(cx, e.table, e.useHuffman, headers).1);
    var message := Arrival(way, id, headers, endStream);
    if frames == [] {
      HeadersRoundTrip(cx, e.table, dec, e.useHuffman, DEFAULT_TABLE_SIZE, headers);
      assert frames + [f] == [f] && [f][1..] == [];
      assert coming + [message] == [message] && [message][1..] == [];
    } else {
      assert (frames + [f])[1..] == frames[1..] + [f];
      if Carries(frames[0]) {
        assert (coming + [message])[1..] == coming[1..] + [message];
        var dec' := if frames[0].HeadersFrame? then BlockOf(cx, dec, DEFAULT_TABLE_SIZE, frames[0].block).0 else dec;
        var last' := if frames[0].HeadersFrame? then frames[0].streamId else last;
        PendingHeaders(way, cx, dec', last', frames[1..], coming[1..], e, next, id, headers, endStream, after);
      } else {
        PendingHeaders(way, cx, dec, last, frames[1..], coming, e, next, id, headers, endStream, after);
      }
    }
  }

  // ----- What a reader cannot take -----

  /** How many messages these frames carry. */
  function Carrying(frames: seq<Frame>): nat {
    if frames == [] then 0 else (if Carries(frames[0]) then 1 else 0) + Carrying(frames[1..])
  }

  lemma {:induction false} PendingCounts(way: Way, cx: Codec, dec: TableView, last: nat, frames: seq<Frame>,
                                         coming: seq<Event>, enc: TableView, next: nat)
    requires cx.Valid() && Pending(way, cx, dec, last, frames, coming, enc, next)
    ensures |coming| == Carrying(frames)
    decreases |frames|
  {
    if frames != [] {
      var f := frames[0];
      var dec' := if f.HeadersFrame? then BlockOf(cx, dec, DEFAULT_TABLE_SIZE, f.block).0 else dec;
      var last' := if f.HeadersFrame? then f.streamId else last;
      PendingCounts(way, cx, dec', last', frames[1..], if Carries(f) then coming[1..] else coming, enc, next);
    }
  }

  predicate TooLarge(f: Frame) {
    |PayloadOf(f)| > DEFAULT_MAX_FRAME_SIZE
  }

  ghost predicate NoneTooLarge(frames: seq<Frame>) {
    forall f :: f in frames ==> !TooLarge(f)
  }

  /** The first frame that is beyond the decoder's limit, and everything behind it. */
  function Beyond(frames: seq<Frame>): seq<Frame> {
    if frames == [] || TooLarge(frames[0]) then frames else Beyond(frames[1..])
  }

  lemma {:induction false} NothingBeyond(frames: seq<Frame>)
    ensures Beyond(frames) == [] <==> NoneTooLarge(frames)
  {
    if frames != [] && !TooLarge(frames[0]) {
      NothingBeyond(frames[1..]);
      assert frames == [frames[0]] + frames[1..];
    }
  }

  lemma {:induction false} BeyondTaken(taken: seq<Frame>, left: seq<Frame>)
    requires NoneTooLarge(taken)
    ensures Beyond(taken + left) == Beyond(left)
    decreases |taken|
  {
    if taken == [] {
      assert taken + left == left;
    } else {
      assert !TooLarge(taken[0]) && (taken + left)[1..] == taken[1..] + left;
      BeyondTaken(taken[1..], left);
    }
  }

  lemma {:induction false} BeyondCarries(frames: seq<Frame>)
    ensures Carrying(Beyond(frames)) <= Carrying(frames)
  {
    if frames != [] && !TooLarge(frames[0]) {
      BeyondCarries(frames[1..]);
    }
  }

  // ----- A side takes them -----

  /** Of the messages `all`, those reported so far are the first, and `coming` are on their way in `frames`. */
  ghost predicate Delivering(way: Way, e: Endpoint, last: nat, frames: seq<Frame>, all: seq<Event>, coming: seq<Event>,
                             enc: TableView, next: nat)
    requires e.cx.Valid()
  {
    && all == Messages(e.events) + coming
    && (way.Up? ==> last == LastRequest(Messages(e.events)) && last < 0x8000_0000)
    && Pending(way, e.cx, e.dec, last, frames, coming, enc, next)
  }

  /** A new header block queues up behind what is on its way. */
  lemma HeadersQueued(way: Way, r: Endpoint, last: nat, frames: seq<Frame>, all: seq<Event>, coming: seq<Event>,
                      e: EncoderView, next: nat, id: u32, headers: seq<HeaderField>, endStream: bool, after: nat)
    requires r.cx.Valid() && Delivering(way, r, last, frames, all, coming, e.table, next)
    requires |BlockBytes(r.cx, e.table, e.useHuffman, headers).1| <= USIZE_MAX
    requires way.Up? ==> id == next && id % 2 == 1 && id < after && Is31(id)
    ensures var (enc', block) := BlockBytes(r.cx, e.table, e.useHuffman, headers);
            var f, message := HeadersFrame(id, endStream, true, None, block), Arrival(way, id, headers, endStream);
            Delivering(way, r, last, frames + [f], all + [message], coming + [message], enc', after)
  {
    PendingHeaders(way, r.cx, r.dec, last, frames, coming, e, next, id, headers, endStream, after);
    AppendAssociates(Messages(r.events), coming, [Arrival(way, id, headers, endStream)]);
  }

  /** So does any other message. */
  lemma MessageQueued(way: Way, r: Endpoint, last: nat, frames: seq<Frame>, all: seq<Event>, coming: seq<Event>,
                      enc: TableView, next: nat, f: Frame, message: Event)
    requires r.cx.Valid() && Delivering(way, r, last, frames, all, coming, enc, next)
    requires !f.HeadersFrame? && Carried(f) == [message]
    ensures Delivering(way, r, last, frames + [f], all + [message], coming + [message], enc, next)
  {
    PendingFrame(way, r.cx, r.dec, last, frames, coming, enc, next, f);
    AppendAssociates(Messages(r.events), coming, [message]);
  }

  /** Nothing that delivery depends on has changed. */
  predicate SameReception(e: Endpoint, e': Endpoint) {
    e'.cx == e.cx && e'.dec == e.dec && Messages(e'.events) == Messages(e.events)
  }

  lemma QuietReception(e: Endpoint, e': Endpoint, event: Event)
    requires e'.cx == e.cx && e'.dec == e.dec && !IsMessage(event)
    requires e'.events == e.events || e'.events == e.events + [event]
    ensures SameReception(e, e')
  {
    MessagesPush(e.events, event);
  }

  lemma {:induction false} SettingsReception(e: Endpoint, settings: seq<Setting>)
    requires |e.cx.huffman| == SYMBOLS
    ensures e.ApplySettings(settings).dec == e.dec && e.ApplySettings(settings).events == e.events
    decreases |settings|
  {
    if settings != [] {
      SettingsReception(e.ApplySetting(settings[0]), settings[1..]);
    }
  }

  /** Frames that carry no message are reported as none. */
  lemma OtherReception(e: Endpoint, f: Frame)
    requires |e.cx.huffman| == SYMBOLS && !f.PushPromiseFrame? && !Carries(f)
    ensures SameReception(e, e.HandleShared(f))
  {
    var e' := e.HandleShared(f);
    if f.SettingsFrame? {
      SettingsReception(e, f.settings);
    }
    QuietReception(e, e', if e'.events == e.events then Ready else e'.events[|e.events|]);
  }

  /** The first message is reported. */
  lemma MessageTaken(events: seq<Event>, all: seq<Event>, coming: seq<Event>) returns (coming': seq<Event>)
    requires all == Messages(events) + coming && coming != [] && IsMessage(coming[0])
    ensures coming' == coming[1..] && all == Messages(events + [coming[0]]) + coming'
    ensures LastRequest(Messages(events + [coming[0]])) ==
              if coming[0].Request? then coming[0].streamId else LastRequest(Messages(events))
  {
    coming' := coming[1..];
    assert coming == [coming[0]] + coming';
    AppendAssociates(Messages(events), [coming[0]], coming');
    MessagesPush(events, coming[0]);
    LastRequestPush(Messages(events), coming[0]);
  }

  // ----- The server -----

  /** The server takes the next frame. */
  lemma ServerFrameTaken(s: S.Core, f: Frame, left: seq<Frame>, all: seq<Event>, coming: seq<Event>, enc: TableView,
                         next: nat)
      returns (coming': seq<Event>)
    requires s.e.cx.Valid() && Delivering(Up, s.e, s.lastClientStreamId, [f] + left, all, coming, enc, next)
    ensures var s' := S.Handle(s, f);
            Delivering(Up, s'.e, s'.lastClientStreamId, left, all, coming', enc, next)
  {
    assert ([f] + left)[1..] == left;
    coming' := coming;
    if Carries(f) {
      coming' := MessageTaken(s.e.events, all, coming);
      assert S.Handle(s, f).e.events == s.e.events + [coming[0]];
    } else if f.PushPromiseFrame? {
      QuietReception(s.e, S.Handle(s, f).e, Error(UnexpectedPushPromise));
    } else {
      OtherReception(s.e, f);
    }
  }

  lemma {:induction false} ServerFramesTaken(s: S.Core, taken: seq<Frame>, left: seq<Frame>, all: seq<Event>,
                                             coming: seq<Event>, enc: TableView, next: nat)
      returns (coming': seq<Event>)
    requires s.e.cx.Valid() && Delivering(Up, s.e, s.lastClientStreamId, taken + left, all, coming, enc, next)
    ensures var s' := S.HandleAll(s, taken);
            Delivering(Up, s'.e, s'.lastClientStreamId, left, all, coming', enc, next)
    decreases |taken|
  {
    if taken == [] {
      coming' := coming;
      assert taken + left == left;
    } else {
      var f, others := taken[0], taken[1..];
      assert taken + left == [f] + (others + left);
      var after := ServerFrameTaken(s, f, others + left, all, coming, enc, next);
      coming' := ServerFramesTaken(S.Handle(s, f), others, left, all, after, enc, next);
    }
  }

  // ----- The client -----

  /** A client does not look at identifiers. */
  lemma {:induction false} DownIgnoresIds(cx: Codec, dec: TableView, last: nat, frames: seq<Frame>,
                                          coming: seq<Event>, enc: TableView)
    requires cx.Valid() && Pending(Down, cx, dec, last, frames, coming, enc, 0)
    ensures Pending(Down, cx, dec, 0, frames, coming, enc, 0)
    decreases |frames|
  {
    if frames != [] && !frames[0].HeadersFrame? {
      DownIgnoresIds(cx, dec, last, frames[1..], if Carries(frames[0]) then coming[1..] else coming, enc);
    }
  }

  /** The client takes the next frame. */
  lemma ClientFrameTaken(e: Endpoint, f: Frame, left: seq<Frame>, all: seq<Event>, coming: seq<Event>, enc: TableView)
      returns (coming': seq<Event>)
    requires e.cx.Valid() && Delivering(Down, e, 0, [f] + left, all, coming, enc, 0)
    ensures Delivering(Down, C.Handle(e, f), 0, left, all, coming', enc, 0)
  {
    assert ([f] + left)[1..] == left;
    coming' := coming;
    if Carries(f) {
      coming' := MessageTaken(e.events, all, coming);
      var e' := C.Handle(e, f);
      assert e'.events == e.events + [coming[0]];
      DownIgnoresIds(e.cx, e'.dec, if f.HeadersFrame? then f.streamId else 0, left, coming', enc);
    } else if !f.PushPromiseFrame? {
      OtherReception(e, f);
    }
  }

  lemma {:induction false} ClientFramesTaken(e: Endpoint, taken: seq<Frame>, left: seq<Frame>, all: seq<Event>,
                                             coming: seq<Event>, enc: TableView) returns (coming': seq<Event>)
    requires e.cx.Valid() && Delivering(Down, e, 0, taken + left, all, coming, enc, 0)
    ensures Delivering(Down, C.HandleAll(e, taken), 0, left, all, coming', enc, 0)
    decreases |taken|
  {
    if taken == [] {
      coming' := coming;
      assert taken + left == left;
    } else {
      var f, others := taken[0], taken[1..];
      assert taken + left == [f] + (others + left);
      var after := ClientFrameTaken(e, f, others + left, all, coming, enc);
      coming' := ClientFramesTaken(C.Handle(e, f), others, left, all, after, enc);
    }
  }
}
