/** Streams: their state, their windows, and the table of the streams of a connection. */
module Streams {
  import opened Bytes
  import opened FlowControl

  datatype StreamState = Idle | ReservedRemote | Open | HalfClosedLocal | HalfClosedRemote | Closed {
    function SentEnd(): StreamState {
      match this
      case Open => HalfClosedLocal
      case HalfClosedRemote => Closed
      case other => other
    }

    function ReceivedEnd(): StreamState {
      match this
      case Open => HalfClosedRemote
      case HalfClosedLocal => Closed
      case other => other
    }

    predicate CanSend() {
      Open? || HalfClosedRemote?
    }

    predicate CanReceive() {
      Open? || HalfClosedLocal?
    }
  }

  datatype StreamView = StreamView(
    id: u32, state: StreamState, sendWindow: i32, recvWindow: i32, bytesReceived: u32) {

    function SendData(size: u32): StreamView {
      this.(sendWindow := Wrap(sendWindow - AsI32(size)))
    }

    function SendEndStream(): StreamView {
      this.(state := state.SentEnd())
    }

    function ReceiveData(size: u32): StreamView {
      this.(recvWindow := Wrap(recvWindow - AsI32(size)), bytesReceived := AddU32(bytesReceived, size))
    }

    function ReceiveEndStream(): StreamView {
      this.(state := state.ReceivedEnd())
    }

    /** Is there room for a WINDOW_UPDATE of this size? */
    predicate Accepts(increment: u32) {
      sendWindow + increment <= MAX_WINDOW
    }

    function IncreaseSendWindow(increment: u32): StreamView {
      if sendWindow + increment <= 0x7fff_ffff then this.(sendWindow := sendWindow + increment) else this
    }

    /** Not checked, unlike an increment. */
    function AdjustSendWindow(delta: i32): StreamView {
      this.(sendWindow := Wrap(sendWindow + delta))
    }

    function Reset(): StreamView {
      this.(state := Closed)
    }
  }

  function NewStream(id: u32, initial: u32): StreamView {
    StreamView(id, Open, AsI32(initial), AsI32(initial), 0)
  }

  class Stream {
    var id: u32
    var state: StreamState
    var sendWindow: i32
    var recvWindow: i32
    var bytesReceived: u32

    function View(): StreamView
      reads this
    {
      StreamView(id, state, sendWindow, recvWindow, bytesReceived)
    }

    constructor (id: u32, initial: u32)
      ensures View() == NewStream(id, initial)
    {
      this.id, state := id, Open;
      sendWindow, recvWindow, bytesReceived := AsI32(initial), AsI32(initial), 0;
    }

    method SendData(size: u32)
      modifies this
      ensures View() == old(View()).SendData(size)
    {
      sendWindow := Wrap(sendWindow - AsI32(size));
    }

    method SendEndStream()
      modifies this
      ensures View() == old(View()).SendEndStream()
      ensures !state.CanSend() && state.CanReceive() == old(state).CanReceive()
    {
      match state {
        case Open => state := HalfClosedLocal;
        case HalfClosedRemote => state := Closed;
        case _ =>
      }
    }

    method ReceiveData(size: u32)
      modifies this
      ensures View() == old(View()).ReceiveData(size)
    {
      recvWindow := Wrap(recvWindow - AsI32(size));
      bytesReceived := AddU32(bytesReceived, size);
    }

    method ReceiveEndStream()
      modifies this
      ensures View() == old(View()).ReceiveEndStream()
      ensures !state.CanReceive() && state.CanSend() == old(state).CanSend()
    {
      match state {
        case Open => state := HalfClosedRemote;
        case HalfClosedLocal => state := Closed;
        case _ =>
      }
    }

    method IncreaseSendWindow(increment: u32) returns (applied: bool)
      modifies this
      ensures applied == old(View()).Accepts(increment)
      ensures View() == old(View()).IncreaseSendWindow(increment)
    {
      if sendWindow + increment <= MAX_WINDOW {
        sendWindow := sendWindow + increment;
        return true;
      }
      return false;
    }

    method AdjustSendWindow(delta: i32)
      modifies this
      ensures View() == old(View()).AdjustSendWindow(delta)
    {
      sendWindow := Wrap(sendWindow + delta);
    }

    method Reset()
      modifies this
      ensures View() == old(View()).Reset()
    {
      state := Closed;
    }
  }

  // ----- The table of streams -----

  type StreamMap = map<u32, StreamView>

  /** Every stream's send window moves by the change of the initial window size. */
  function Adjusted(streams: StreamMap, delta: i32): StreamMap {
    map id | id in streams :: streams[id].AdjustSendWindow(delta)
  }

  /** Every identifier has an object of its own. */
  ghost predicate Distinct(streams: map<u32, Stream>) {
    forall i, j :: i in streams && j in streams && i != j ==> streams[i] != streams[j]
  }

  class StreamTable {
    var streams: map<u32, Stream>

    ghost predicate Valid()
      reads this
    {
      Distinct(streams)
    }

    ghost function Objects(): set<Stream>
      reads this
    {
      streams.Values
    }

    ghost function View(): StreamMap
      reads this, Objects()
    {
      map id | id in streams :: streams[id].View()
    }

    constructor ()
      ensures Valid() && View() == map[] && Objects() == {}
    {
      streams := map[];
    }

    method Insert(id: u32, initial: u32)
      requires Valid()
      modifies this
      ensures Valid() && View() == old(View())[id := NewStream(id, initial)]
      ensures fresh(Objects() - old(Objects()))
    {
      var s := new Stream(id, initial);
      streams := streams[id := s];
    }

    method Remove(id: u32)
      requires Valid()
      modifies this
      ensures Valid() && View() == old(View()) - {id}
      ensures Objects() <= old(Objects())
    {
      streams := streams - {id};
    }

    /** Takes note of data, and perhaps of the end of the stream; nothing happens if there is no such stream. */
    method ReceiveData(id: u32, size: u32, endStream: bool)
      requires Valid()
      modifies Objects()
      ensures Valid() && Objects() == old(Objects())
      ensures var s := old(View());
              View() == if id !in s then s
                        else s[id := if endStream then s[id].ReceiveData(size).ReceiveEndStream()
                          else s[id].ReceiveData(size)]
    {
      if id in streams {
        streams[id].ReceiveData(size);
        if endStream {
          streams[id].ReceiveEndStream();
        }
      }
    }

    method ReceiveEndStream(id: u32)
      requires Valid()
      modifies Objects()
      ensures Valid() && Objects() == old(Objects())
      ensures var s := old(View());
              View() == if id !in s then s else s[id := s[id].ReceiveEndStream()]
    {
      if id in streams {
        streams[id].ReceiveEndStream();
      }
    }

    method SendData(id: u32, size: u32, endStream: bool)
      requires Valid()
      modifies Objects()
      ensures Valid() && Objects() == old(Objects())
      ensures var s := old(View());
              View() == if id !in s then s
                        else s[id := if endStream then s[id].SendData(size).SendEndStream() else s[id].SendData(size)]
    {
      if id in streams {
        streams[id].SendData(size);
        if endStream {
          streams[id].SendEndStream();
        }
      }
    }

    method SendEndStream(id: u32)
      requires Valid()
      modifies Objects()
      ensures Valid() && Objects() == old(Objects())
      ensures var s := old(View());
              View() == if id !in s then s else s[id := s[id].SendEndStream()]
    {
      if id in streams {
        streams[id].SendEndStream();
      }
    }

    method Increase(id: u32, increment: u32) returns (applied: bool)
      requires Valid() && id in streams
      modifies Objects()
      ensures Valid() && Objects() == old(Objects())
      ensures applied == old(View())[id].Accepts(increment)
      ensures View() == old(View())[id := old(View())[id].IncreaseSendWindow(increment)]
    {
      applied := streams[id].IncreaseSendWindow(increment);
    }

    method Reset(id: u32)
      requires Valid()
      modifies Objects()
      ensures Valid() && Objects() == old(Objects())
      ensures var s := old(View());
              View() == if id !in s then s else s[id := s[id].Reset()]
    {
      if id in streams {
        streams[id].Reset();
      }
    }

    method AdjustAll(delta: i32)
      requires Valid()
      modifies Objects()
      ensures Valid() && Objects() == old(Objects())
      ensures View() == Adjusted(old(View()), delta)
    {
      var left := streams.Keys;
      while left != {}
        invariant left <= streams.Keys && Valid()
        invariant forall id :: id in streams ==>
                    streams[id].View() ==
                      if id in left then old(streams[id].View()) else old(streams[id].View()).AdjustSendWindow(delta)
        decreases |left|
      {
        var id :| id in left;
        streams[id].AdjustSendWindow(delta);
        left := left - {id};
      }
    }
  }
}
