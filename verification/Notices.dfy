/**
 The notices that a server gives over a joint run, GOAWAY and RST_STREAM, are reported by the client
 in order and with the numbers of the calls.
 */
module Notices {
  import opened Bytes
  import opened HpackCoding
  import opened Endpoints
  import opened Delivery
  import opened Network
  import EndToEnd

  predicate IsNotice(event: Event) {
    event.GoAway? || event.StreamReset?
  }

  function NoticesIn(events: seq<Event>): seq<Event> {
    if events == [] then []
    else
      var earlier, last := NoticesIn(events[..|events| - 1]), events[|events| - 1];
      if IsNotice(last) then earlier + [last] else earlier
  }

  lemma NoticesPush(events: seq<Event>, event: Event)
    ensures NoticesIn(events + [event]) ==
              if IsNotice(event) then NoticesIn(events) + [event] else NoticesIn(events)
  {
    assert (events + [event])[..|events|] == events;
  }

  lemma {:induction false} NoticesOfMessages(events: seq<Event>)
    ensures NoticesIn(Messages(events)) == NoticesIn(events)
  {
    if events != [] {
      var earlier, last := events[..|events| - 1], events[|events| - 1];
      NoticesOfMessages(earlier);
      if IsMessage(last) {
        NoticesPush(Messages(earlier), last);
      }
    }
  }

  lemma {:induction false} FirstNotices(all: seq<Event>, first: seq<Event>)
    requires first <= all
    ensures NoticesIn(first) <= NoticesIn(all)
    decreases |all|
  {
    if first != all {
      FirstNotices(all[..|all| - 1], first);
    }
  }

  /** What a call gives notice of: the last request reported so far goes with a GOAWAY. */
  function NoticeOf(n: Net, a: Action): seq<Event> {
    match a
    case ServerGoAway(errorCode, _) => [GoAway(LastRequest(n.server.core.e.events), errorCode)]
    case ServerReset(id, errorCode) => [StreamReset(id, errorCode)]
    case _ => []
  }

  ghost function Notified(n: Net, actions: seq<Action>): seq<Event>
    requires Coded(n)
    decreases |actions|
  {
    if actions == [] then [] else NoticeOf(n, actions[0]) + Notified(Step(n, actions[0]), actions[1..])
  }

  /** A call that gives no notice adds at most one message of another kind. */
  lemma OtherAnswer(all: seq<Event>, all': seq<Event>)
    requires all' == all || (|all'| == |all| + 1 && all <= all' && !IsNotice(all'[|all|]))
    ensures NoticesIn(all') == NoticesIn(all) + []
  {
    if all' != all {
      NoticesPush(all, all'[|all|]);
      assert all' == all + [all'[|all|]];
    }
  }

  lemma StepNotifies(n: Net, a: Action)
    requires Coded(n)
    ensures NoticesIn(Step(n, a).answered) == NoticesIn(n.answered) + NoticeOf(n, a)
  {
    match a
    case ServerGoAway(code, _) => NoticesPush(n.answered, GoAway(LastRequest(n.server.core.e.events), code));
    case ServerReset(id, code) => NoticesPush(n.answered, StreamReset(id, code));
    case _ =>
      OtherAnswered(n, a);
      OtherAnswer(n.answered, Step(n, a).answered);
  }

  lemma OtherAnswered(n: Net, a: Action)
    requires Coded(n) && !a.ServerGoAway? && !a.ServerReset?
    ensures var all, all' := n.answered, Step(n, a).answered;
            all' == all || (|all'| == |all| + 1 && all <= all' && !IsNotice(all'[|all|]))
  {
  }

  lemma {:induction false} RunNotifies(n: Net, actions: seq<Action>)
    requires Coded(n)
    ensures NoticesIn(Run(n, actions).answered) == NoticesIn(n.answered) + Notified(n, actions)
    decreases |actions|
  {
    if actions == [] {
      assert NoticesIn(n.answered) + [] == NoticesIn(n.answered);
    } else {
      var n' := Step(n, actions[0]);
      StepNotifies(n, actions[0]);
      RunNotifies(n', actions[1..]);
      AppendAssociates(NoticesIn(n.answered), NoticeOf(n, actions[0]), Notified(n', actions[1..]));
    }
  }

  /**
   Over every joint run the client's GOAWAY and RST_STREAM events are, in order, the first of the
   server's calls: with the error code and the stream of the call, and with the identifier of the
   last request that the server had reported by then. Once all bytes have arrived they are all of
   them, if no frame is beyond the client's limit.
   */
  lemma NoticesDelivered(cx: Codec, actions: seq<Action>)
    requires cx.Valid() && AllAllowed(NewNet(cx), actions)
    ensures var n := Run(NewNet(cx), actions);
            var reported, given := NoticesIn(n.client.e.events), Notified(NewNet(cx), actions);
            && reported <= given
            && (n.toClient == |n.server.Output()| && NoneTooLarge(n.server.core.e.written) ==> reported == given)
  {
    var n := Run(NewNet(cx), actions);
    EndToEnd.ClientReceives(cx, actions);
    EndToEnd.ClientReceivesExactly(cx, actions);
    RunNotifies(NewNet(cx), actions);
    assert [] + Notified(NewNet(cx), actions) == Notified(NewNet(cx), actions);
    NoticesOfMessages(n.client.e.events);
    FirstNotices(n.answered, Messages(n.client.e.events));
    NothingBeyond(n.server.core.e.written);
  }
}
