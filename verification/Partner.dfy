/** Two partners that send each other block messages: stop-and-wait fragments over two byte channels. */
module Partner {
  import opened Bytes
  import opened PartnerWire

  /** Between suspension points a partner is idle, waits for an acknowledgement, or waits for a fragment. */
  datatype Mode =
    | Idle
    | Sending(m: Message, offset: nat, first: bool, seqNo: u8, idSeq: u8, pduRef: u16)
    | Receiving(buf: seq<u8>, first: bool, seqNo: u8)

  /** A partner, the bytes that have arrived for it, its counters, the non-empty messages given to it to send, those its
      receive calls returned, and how many of its calls ended in an error. */
  datatype Peer = Peer(
    pduSize: u16, mode: Mode, inbox: seq<u8>, counter: u8, nextRef: u16,
    given: seq<Message>, taken: seq<Message>, bytesSent: nat, bytesRecv: nat, errors: nat)

  function Slice(p: Peer): (n: nat)
    ensures n > 0
  {
    MaxSlice(p.pduSize)
  }

  /** The fragment a sender is waiting to have acknowledged. */
  function Current(p: Peer): seq<u8>
    requires p.mode.Sending? && p.mode.offset < |p.mode.m.data|
  {
    var s := p.mode;
    FragmentFrame(s.m, s.offset, End(s.m, s.offset, Slice(p)), s.first, s.seqNo, s.idSeq, s.pduRef)
  }

  /** A partner and the bytes it puts on the wire. */
  datatype Out = Out(peer: Peer, wire: seq<u8>)

  function SendCurrent(p: Peer): Out
    requires p.mode.Sending? && p.mode.offset < |p.mode.m.data|
  {
    Out(p.(bytesSent := p.bytesSent + |Current(p)|), Iso(Current(p)))
  }

  function Failed(p: Peer): Out { Out(p.(mode := Idle, errors := p.errors + 1), []) }

  /** A send call up to its first acknowledgement. Too long a message is refused; an empty one is never sent. */
  function BeginSend(p: Peer, m: Message): Out {
    if |m.data| > MAX_MESSAGE then Failed(p)
    else
      var long := |m.data| > Slice(p);
      var q := p.(nextRef := Low16(p.nextRef + 1), counter := if long then Low8(p.counter + 1) else p.counter);
      if m.data == [] then Out(q, [])
      else
        var idSeq := if long then p.counter else 0;
        SendCurrent(q.(mode := Sending(m, 0, true, 0, idSeq, p.nextRef), given := p.given + [m]))
  }

  /** A sender takes the next frame as its acknowledgement. */
  function OnAck(p: Peer): Out
    requires p.mode.Sending? && p.mode.offset < |p.mode.m.data|
  {
    match Recv(p.inbox)
    case Incomplete => Out(p, [])
    case Malformed(rest) => Failed(p.(inbox := rest))
    case Frame(f, rest) =>
      var q := p.(inbox := rest);
      match TakeAck(f)
      case None => Failed(q)
      case Some(seqNo) =>
        var end := End(p.mode.m, p.mode.offset, Slice(p));
        if end == |p.mode.m.data| then Out(q.(mode := Idle), [])
        else SendCurrent(q.(mode := p.mode.(offset := end, first := false, seqNo := seqNo)))
  }

  function BeginReceive(p: Peer): Out {
    Out(p.(mode := Receiving([], true, p.counter), counter := Low8(p.counter + 1)), [])
  }

  /** A receiver takes the next frame as a fragment, and acknowledges it. */
  function OnFragment(p: Peer): Out
    requires p.mode.Receiving?
  {
    match Recv(p.inbox)
    case Incomplete => Out(p, [])
    case Malformed(rest) => Failed(p.(inbox := rest))
    case Frame(f, rest) =>
      var q := p.(inbox := rest, bytesRecv := p.bytesRecv + |f|);
      match TakePiece(f, p.mode.first)
      case None => Failed(q)
      case Some(piece) =>
        var buf := p.mode.buf + piece.slice;
        var ack := AckFrame(p.mode.seqNo, p.nextRef);
        var acked := q.(nextRef := Low16(p.nextRef + 1), bytesSent := p.bytesSent + |ack|);
        if piece.eos == 0x00 then
          Out(acked.(mode := Idle, taken := p.taken + [Message(piece.id, buf)]), Iso(ack))
        else
          Out(acked.(mode := Receiving(buf, false, Low8(p.mode.seqNo + 1))), Iso(ack))
  }

  // -- The partner as an object ---------------------------------------------------------------

  class Channel {
    var bytes: seq<u8>

    constructor ()
      ensures bytes == []
    {
      bytes := [];
    }
  }

  /** The loops of the two calls, cut where they wait. */
  class S7Partner {
    const pduSize: u16
    const inbox: Channel
    const outbox: Channel
    var mode: Mode
    var counter: u8
    var nextRef: u16
    var bytesSent: nat
    var bytesRecv: nat
    var errors: nat
    ghost var given: seq<Message>
    ghost var taken: seq<Message>

    ghost function View(): Peer
      reads this, inbox
    {
      Peer(pduSize, mode, inbox.bytes, counter, nextRef, given, taken, bytesSent, bytesRecv, errors)
    }

    constructor (pduSize: u16, inbox: Channel, outbox: Channel)
      ensures this.inbox == inbox && this.outbox == outbox
      ensures View() == Fresh(pduSize).(inbox := inbox.bytes)
    {
      this.pduSize, this.inbox, this.outbox := pduSize, inbox, outbox;
      mode, counter, nextRef, bytesSent, bytesRecv, errors := Idle, 0, 1, 0, 0, 0;
      given, taken := [], [];
    }

    method SendFragment()
      requires inbox != outbox && mode.Sending? && mode.offset < |mode.m.data|
      modifies this, outbox
      ensures View() == SendCurrent(old(View())).peer
      ensures outbox.bytes == old(outbox.bytes) + SendCurrent(old(View())).wire
    {
      hide FragmentFrame, Iso, MaxSlice;
      var end := End(mode.m, mode.offset, MaxSlice(pduSize));
      var frame := FragmentFrame(mode.m, mode.offset, end, mode.first, mode.seqNo, mode.idSeq, mode.pduRef);
      outbox.bytes := outbox.bytes + Iso(frame);
      bytesSent := bytesSent + |frame|;
    }

    method BSend(id: u32, data: seq<u8>)
      requires inbox != outbox && mode.Idle?
      modifies this, outbox
      ensures View() == BeginSend(old(View()), Message(id, data)).peer
      ensures outbox.bytes == old(outbox.bytes) + BeginSend(old(View()), Message(id, data)).wire
    {
      hide Low16, Low8, SendCurrent, MaxSlice;
      if |data| > MAX_MESSAGE {
        errors := errors + 1;
        return;
      }
      var pduRef := nextRef;
      nextRef := Low16(nextRef + 1);
      var idSeq: u8 := 0x00;
      if |data| > MaxSlice(pduSize) {
        idSeq := counter;
        counter := Low8(counter + 1);
      }
      if 0 < |data| {
        mode := Sending(Message(id, data), 0, true, 0, idSeq, pduRef);
        given := given + [Message(id, data)];
        SendFragment();
      }
    }

    method TakeAcknowledgement()
      requires inbox != outbox && mode.Sending? && mode.offset < |mode.m.data|
      modifies this, inbox, outbox
      ensures View() == OnAck(old(View())).peer
      ensures outbox.bytes == old(outbox.bytes) + OnAck(old(View())).wire
    {
      hide Recv, TakeAck, SendCurrent, MaxSlice;
      match Recv(inbox.bytes) {
        case Incomplete =>
        case Malformed(rest) =>
          inbox.bytes, mode, errors := rest, Idle, errors + 1;
        case Frame(f, rest) =>
          inbox.bytes := rest;
          var ack := TakeAck(f);
          if ack.None? {
            mode, errors := Idle, errors + 1;
            return;
          }
          var end := End(mode.m, mode.offset, MaxSlice(pduSize));
          if end < |mode.m.data| {
            mode := mode.(offset := end, first := false, seqNo := ack.value);
            SendFragment();
          } else {
            mode := Idle;
          }
      }
    }

    method BRecv()
      requires mode.Idle?
      modifies this
      ensures View() == BeginReceive(old(View())).peer
    {
      mode := Receiving([], true, counter);
      counter := Low8(counter + 1);
    }

    method TakeFragment() returns (message: Option<Message>)
      requires inbox != outbox && mode.Receiving?
      modifies this, inbox, outbox
      ensures View() == OnFragment(old(View())).peer
      ensures outbox.bytes == old(outbox.bytes) + OnFragment(old(View())).wire
      ensures taken == if message.Some? then old(taken) + [message.value] else old(taken)
    {
      hide TakePiece, Recv, Iso, AckFrame, Low8, Low16;
      message := None;
      match Recv(inbox.bytes) {
        case Incomplete =>
        case Malformed(rest) =>
          inbox.bytes, mode, errors := rest, Idle, errors + 1;
        case Frame(f, rest) =>
          inbox.bytes := rest;
          bytesRecv := bytesRecv + |f|;
          var piece := TakePiece(f, mode.first);
          if piece.None? {
            mode, errors := Idle, errors + 1;
            return;
          }
          var buf := mode.buf + piece.value.slice;
          var ack := AckFrame(mode.seqNo, nextRef);
          nextRef := Low16(nextRef + 1);
          outbox.bytes := outbox.bytes + Iso(ack);
          bytesSent := bytesSent + |ack|;
          if piece.value.eos == 0x00 {
            mode := Idle;
            message := Some(Message(piece.value.id, buf));
            taken := taken + [Message(piece.value.id, buf)];
          } else {
            mode := Receiving(buf, false, Low8(mode.seqNo + 1));
          }
      }
    }
  }

  /** Sequence numbers and references: a send is refused above 65536 bytes, takes the next reference, and takes the
      counter as its number only if it needs several fragments; its next fragment repeats the number of the
      acknowledgement. A receive call takes the counter, and its acknowledgements count on from it. */
  lemma Numbering(p: Peer, m: Message)
    ensures BeginSend(p, m).peer.errors == p.errors + (if |m.data| > 65536 then 1 else 0)
    ensures 0 < |m.data| <= 65536 ==>
              var s := BeginSend(p, m).peer;
              && s.mode.pduRef == p.nextRef && s.nextRef == (p.nextRef + 1) % 0x1_0000 && s.mode.seqNo == 0
              && (if |m.data| > MaxSlice(p.pduSize)
                  then s.mode.idSeq == p.counter && s.counter == (p.counter + 1) % 0x100
                  else s.mode.idSeq == 0 && s.counter == p.counter)
    ensures BeginReceive(p).peer.mode == Receiving([], true, p.counter)
    ensures BeginReceive(p).peer.counter == (p.counter + 1) % 0x100
    ensures p.mode.Sending? && p.mode.offset < |p.mode.m.data| && Recv(p.inbox).Frame? ==>
              var s := OnAck(p).peer.mode;
              s.Sending? ==>
                && TakeAck(Recv(p.inbox).payload) == Some(s.seqNo)
                && s.idSeq == p.mode.idSeq && s.pduRef == p.mode.pduRef
    ensures p.mode.Receiving? && Recv(p.inbox).Frame? && TakePiece(Recv(p.inbox).payload, p.mode.first).Some? ==>
              var out := OnFragment(p);
              && out.wire == Iso(AckFrame(p.mode.seqNo, p.nextRef)) && out.peer.nextRef == (p.nextRef + 1) % 0x1_0000
              && (out.peer.mode.Receiving? ==> out.peer.mode.seqNo == (p.mode.seqNo + 1) % 0x100)
  {
    hide Low16, Recv, TakePiece, TakeAck, Iso, AckFrame, FragmentFrame, MaxSlice;
    Low16IsRemainder(p.nextRef + 1);
  }

  function Fresh(pduSize: u16): Peer { Peer(pduSize, Idle, [], 0, 1, [], [], 0, 0, 0) }
}
