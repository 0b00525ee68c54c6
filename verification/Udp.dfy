/** A byte stream over datagrams: what does not fit the reader's buffer is kept for the next poll. */
module Udp {
  import opened Bytes

  const SCRATCH := 65535

  /** What the socket has next. */
  datatype Event = Datagram(data: seq<u8>) | Failed

  /** `Ready` carries the bytes put into the reader's buffer. */
  datatype Poll = Ready(put: seq<u8>) | Error | Pending

  function Min(a: nat, b: nat): nat { if a < b then a else b }

  /** A datagram is received into a scratch area and cut to it. */
  function Cut(d: seq<u8>): seq<u8> { d[..Min(|d|, SCRATCH)] }

  class UdpSocket {
    var events: seq<Event>

    constructor (events: seq<Event>)
      ensures this.events == events
    {
      this.events := events;
    }

    /** Receives into `scratch` and returns it with the number of bytes filled. */
    method PollRecv(scratch: seq<u8>) returns (r: Option<Result<nat, ()>>, filled: seq<u8>)
      modifies this
      ensures |filled| == |scratch|
      ensures old(events) == [] ==> r.None? && events == []
      ensures old(events) != [] ==> events == old(events)[1..]
      ensures old(events) != [] && old(events)[0].Failed? ==> r == Some(Err(()))
      ensures old(events) != [] && old(events)[0].Datagram? ==>
                var d := old(events)[0].data;
                var n := Min(|d|, |scratch|);
                r == Some(Ok(n)) && filled == d[..n] + scratch[n..]
    {
      filled := scratch;
      if events == [] {
        return None, scratch;
      }
      var event := events[0];
      events := events[1..];
      match event {
        case Failed => r := Some(Err(()));
        case Datagram(d) =>
          var n := Min(|d|, |scratch|);
          filled := d[..n] + scratch[n..];
          r := Some(Ok(n));
      }
    }
  }

  class UdpTransport {
    const socket: UdpSocket
    var readBuf: seq<u8>

    constructor (socket: UdpSocket)
      ensures this.socket == socket && readBuf == []
    {
      this.socket, readBuf := socket, [];
    }

    /** Reads into a buffer with room for `room` bytes. */
    method PollRead(room: nat) returns (r: Poll)
      modifies this, socket
      ensures (r, Stream(readBuf, socket.events)) == Step(Stream(old(readBuf), old(socket.events)), room)
    {
      if readBuf != [] {
        var n := Min(|readBuf|, room);
        r := Ready(readBuf[..n]);
        readBuf := readBuf[n..];
        return;
      }
      var received, scratch := socket.PollRecv(seq<u8>(SCRATCH, _ => 0));
      readBuf := scratch;
      match received {
        case Some(Ok(filled)) =>
          var n := Min(filled, room);
          r := Ready(readBuf[..n]);
          readBuf := readBuf[n..];
          readBuf := readBuf[..filled - n];
          ghost var d := Cut(old(socket.events)[0].data);
          assert scratch[..n] == d[..n] && scratch[n..][..filled - n] == d[n..];
        case Some(Err(_)) =>
          readBuf := [];
          r := Error;
        case None =>
          readBuf := [];
          r := Pending;
      }
    }

    /** Polls with the given rooms one after another. */
    method PollAll(rooms: seq<nat>) returns (delivered: seq<u8>)
      modifies this, socket
      ensures (delivered, Stream(readBuf, socket.events)) == Run(Stream(old(readBuf), old(socket.events)), rooms)
    {
      delivered := [];
      for i := 0 to |rooms|
        invariant (delivered, Stream(readBuf, socket.events))
               == Run(Stream(old(readBuf), old(socket.events)), rooms[..i])
      {
        assert rooms[..i + 1][..i] == rooms[..i];
        var r := PollRead(rooms[i]);
        delivered := delivered + Put(r);
      }
      assert rooms[..|rooms|] == rooms;
    }
  }

  /** The transport: bytes held back, and what the socket will deliver. */
  datatype Stream = Stream(readBuf: seq<u8>, events: seq<Event>)

  function Put(p: Poll): seq<u8> { if p.Ready? then p.put else [] }

  function Step(s: Stream, room: nat): (Poll, Stream) {
    if s.readBuf != [] then
      var n := Min(|s.readBuf|, room);
      (Ready(s.readBuf[..n]), s.(readBuf := s.readBuf[n..]))
    else if s.events == [] then (Pending, s)
    else
      match s.events[0]
      case Failed => (Error, Stream([], s.events[1..]))
      case Datagram(d) =>
        var n := Min(|Cut(d)|, room);
        (Ready(Cut(d)[..n]), Stream(Cut(d)[n..], s.events[1..]))
  }

  /** All the bytes delivered by polling with the given rooms, and the transport afterwards. */
  function Run(s: Stream, rooms: seq<nat>): (seq<u8>, Stream) {
    if rooms == [] then ([], s)
    else
      var (delivered, t) := Run(s, rooms[..|rooms| - 1]);
      var (p, u) := Step(t, rooms[|rooms| - 1]);
      (delivered + Put(p), u)
  }

  /** Everything the transport still owes: the bytes held back, then those of every datagram to come. */
  function Owed(s: Stream): seq<u8> { s.readBuf + Payloads(s.events) }

  function Payloads(events: seq<Event>): seq<u8> {
    if events == [] then []
    else (if events[0].Datagram? then Cut(events[0].data) else []) + Payloads(events[1..])
  }

  /** However the polls cut it, every byte of every datagram is delivered once and in order; the rest is still owed. */
  lemma {:induction false} NothingLostOrRepeated(s: Stream, rooms: seq<nat>)
    ensures Run(s, rooms).0 + Owed(Run(s, rooms).1) == Owed(s)
  {
    if rooms != [] {
      var before := rooms[..|rooms| - 1];
      NothingLostOrRepeated(s, before);
      var (delivered, t) := Run(s, before);
      StepConserves(t, rooms[|rooms| - 1]);
      var (p, u) := Step(t, rooms[|rooms| - 1]);
      assert (delivered + Put(p)) + Owed(u) == delivered + (Put(p) + Owed(u));
    } else {
      assert [] + Owed(s) == Owed(s);
    }
  }

  lemma StepConserves(s: Stream, room: nat)
    ensures Put(Step(s, room).0) + Owed(Step(s, room).1) == Owed(s)
  {
    hide Cut;
    if s.readBuf != [] {
      hide Payloads;
      Split(s.readBuf, Min(|s.readBuf|, room), Payloads(s.events));
    } else if s.events != [] && s.events[0].Datagram? {
      var d := Cut(s.events[0].data);
      Split(d, Min(|d|, room), Payloads(s.events[1..]));
      assert s.readBuf + Payloads(s.events) == Payloads(s.events);
    } else {
      Nothing(s);
    }
  }

  lemma Nothing(s: Stream)
    requires s.readBuf == [] && (s.events == [] || s.events[0].Failed?)
    ensures s.events == [] ==> [] + Owed(s) == Owed(s)
    ensures s.events != [] ==> [] + Owed(Stream([], s.events[1..])) == Owed(s)
  {
  }

  lemma Split(a: seq<u8>, n: nat, rest: seq<u8>)
    requires n <= |a|
    ensures a[..n] + (a[n..] + rest) == a + rest
  {
    assert a == a[..n] + a[n..];
  }

  /** The bytes held back never exceed one datagram. */
  lemma {:induction false} BufferIsBounded(s: Stream, rooms: seq<nat>)
    requires |s.readBuf| <= SCRATCH
    ensures |Run(s, rooms).1.readBuf| <= SCRATCH
  {
    if rooms != [] {
      BufferIsBounded(s, rooms[..|rooms| - 1]);
    }
  }

  /** A reader with room is told of no bytes, the end of a stream, exactly when the next datagram is empty. */
  lemma EndOfStream(s: Stream, room: nat)
    requires room > 0
    ensures Step(s, room).0 == Ready([]) <==> s.readBuf == [] && s.events != [] && s.events[0] == Datagram([])
  {
    if s.readBuf != [] {
      assert |s.readBuf[..Min(|s.readBuf|, room)]| > 0;
    } else if s.events != [] && s.events[0].Datagram? {
      var d := s.events[0].data;
      assert |Cut(d)[..Min(|Cut(d)|, room)]| == Min(|Cut(d)|, room);
    }
  }

  /** A poll puts as much as is there and as fits; a datagram is whole up to 65535 bytes. */
  lemma PollFills(s: Stream, room: nat)
    ensures var there := if s.readBuf != [] then s.readBuf
                         else if s.events != [] && s.events[0].Datagram? then
                           var d := s.events[0].data; if |d| <= 65535 then d else d[..65535]
                         else [];
            |Put(Step(s, room).0)| == if |there| < room then |there| else room
  {
  }
}
