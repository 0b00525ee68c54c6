/** Frames between two partners: fragments of a message, their acknowledgements, and the length framing around both. */
module PartnerWire {
  import opened Bytes

  const GR_BSEND: u8 := 0x46
  const GR_BSEND_ACK: u8 := 0x86
  const MAX_MESSAGE := 65536

  datatype Message = Message(id: u32, data: seq<u8>)

  datatype Params = Params(tg: u8, subFun: u8, seqNo: u8, idSeq: u8, eos: u8, err: u16)

  function HeaderBytes(pduRef: u16, paramLen: u16, dataLen: u16): (s: seq<u8>)
    ensures |s| == 10
  {
    [0x32, 0x07, 0x00, 0x00] + Be16(pduRef) + Be16(paramLen) + Be16(dataLen)
  }

  function ParamBytes(p: Params): (s: seq<u8>)
    ensures |s| == 12 && s[5] == p.tg && s[7] == p.seqNo && s[9] == p.eos && U16(s[10], s[11]) == p.err
  {
    [0x00, 0x01, 0x12, 0x08, 0x12, p.tg, p.subFun, p.seqNo, p.idSeq, p.eos] + Be16(p.err)
  }

  function DataHead(len: u16, id: u32): (s: seq<u8>)
    ensures |s| == 12 && U16(s[2], s[3]) == len && U32(s[8], s[9], s[10], s[11]) == id
  {
    [0xFF, 0x09] + Be16(len) + [0x12, 0x06, 0x13, 0x00] + Be32(id)
  }

  /** How many bytes of a message go into one fragment. */
  function MaxSlice(pduSize: u16): (n: nat)
    ensures n >= 1
  {
    if pduSize > 37 then pduSize - 36 else 1
  }

  /** Where the fragment that begins at `offset` ends. */
  function End(m: Message, offset: nat, slice: nat): (end: nat)
    requires offset < |m.data| && slice > 0
    ensures offset < end <= |m.data|
  {
    if offset + slice < |m.data| then offset + slice else |m.data|
  }

  function Extra(first: bool): nat { if first then 2 else 0 }

  /** A fragment: the first one carries the total length, which wraps at 65536. */
  function FragmentFrame(m: Message, offset: nat, end: nat, first: bool, seqNo: u8, idSeq: u8, pduRef: u16): seq<u8>
    requires offset < end <= |m.data|
  {
    var n := end - offset;
    HeaderBytes(pduRef, 12, Low16(12 + n + Extra(first)))
    + ParamBytes(Params(GR_BSEND, 0x01, seqNo, idSeq, if end == |m.data| then 0x00 else 0x01, 0))
    + DataHead(Low16(n + 8 + Extra(first)), m.id)
    + (if first then Be16(Low16(|m.data|)) else [])
    + m.data[offset..end]
  }

  function AckFrame(seqNo: u8, pduRef: u16): (s: seq<u8>)
    ensures |s| == 26
  {
    HeaderBytes(pduRef, 12, 4) + ParamBytes(Params(GR_BSEND_ACK, 0x01, seqNo, 0x00, 0x00, 0)) + [0x0A, 0x00, 0x00, 0x00]
  }

  /** Length framing; the total is sixteen bits. */
  function Iso(payload: seq<u8>): seq<u8> {
    [0x03, 0x00] + Be16(Low16(7 + |payload|)) + [0x02, 0xF0, 0x80] + payload
  }

  /** A frame taken from the bytes that have arrived, if it is complete. A length below 7 fails at the header. */
  datatype Incoming = Incomplete | Malformed(rest: seq<u8>) | Frame(payload: seq<u8>, rest: seq<u8>)

  function Recv(inbox: seq<u8>): Incoming {
    if |inbox| < 4 then Incomplete
    else
      var total := U16(inbox[2], inbox[3]);
      if total < 7 then Malformed(inbox[4..])
      else if |inbox| < total then Incomplete
      else Frame(inbox[7..total], inbox[total..])
  }

  datatype Piece = Piece(id: u32, slice: seq<u8>, eos: u8)

  /** What a receiver takes from a frame. */
  function TakePiece(f: seq<u8>, first: bool): Option<Piece> {
    if |f| < 34 || f[15] != GR_BSEND then None
    else
      var start := 34 + Extra(first);
      var len := U16(f[24], f[25]) as int;
      var n := if len >= 8 + Extra(first) then len - 8 - Extra(first) else 0;
      if |f| < start + n then None else Some(Piece(U32(f[30], f[31], f[32], f[33]), f[start..start + n], f[19]))
  }

  /** What a sender takes from a frame it believes to be an acknowledgement: only the error and the sequence number. */
  function TakeAck(f: seq<u8>): Option<u8> {
    if |f| < 22 || U16(f[20], f[21]) != 0 then None else Some(f[17])
  }

  // -- What goes in comes out -----------------------------------------------------------------

  /** A frame survives the framing exactly if its length fits sixteen bits. */
  lemma FrameArrives(payload: seq<u8>, rest: seq<u8>)
    ensures |payload| <= 65528 ==> Recv(Iso(payload) + rest) == Frame(payload, rest)
    ensures Recv(Iso(payload) + rest) == Frame(payload, rest) ==> |payload| <= 65528
  {
    var bytes := Iso(payload) + rest;
    var total := Low16(7 + |payload|);
    assert U16(bytes[2], bytes[3]) == total by { assert bytes[2..4] == Be16(total); }
    assert |bytes| == 7 + |payload| + |rest|;
    if |payload| <= 65528 {
      assert total == 7 + |payload|;
      assert bytes[7..total] == payload && bytes[total..] == rest;
    }
  }

  lemma FragmentSize(m: Message, offset: nat, end: nat, first: bool, seqNo: u8, idSeq: u8, pduRef: u16)
    requires offset < end <= |m.data|
    ensures |FragmentFrame(m, offset, end, first, seqNo, idSeq, pduRef)| == 34 + Extra(first) + (end - offset)
  {
    hide HeaderBytes, ParamBytes, DataHead, Low16;
  }

  /** A receiver that agrees on `first` takes the fragment's bytes, its message's id and its end mark. */
  lemma FragmentArrives(m: Message, offset: nat, end: nat, first: bool, seqNo: u8, idSeq: u8, pduRef: u16)
    requires offset < end <= |m.data| && end - offset <= 65525
    ensures TakePiece(FragmentFrame(m, offset, end, first, seqNo, idSeq, pduRef), first)
         == Some(Piece(m.id, m.data[offset..end], if end == |m.data| then 0x00 else 0x01))
  {
    hide HeaderBytes, ParamBytes, DataHead, Low16, U16, U32, Be16;
    var f := FragmentFrame(m, offset, end, first, seqNo, idSeq, pduRef);
    var n := end - offset;
    var p := Params(GR_BSEND, 0x01, seqNo, idSeq, if end == |m.data| then 0x00 else 0x01, 0);
    var head := DataHead(Low16(n + 8 + Extra(first)), m.id);
    Fits(n + 8 + Extra(first));
    assert f[15] == ParamBytes(p)[5] && f[19] == ParamBytes(p)[9];
    assert f[24] == head[2] && f[25] == head[3];
    assert f[30] == head[8] && f[31] == head[9] && f[32] == head[10] && f[33] == head[11];
    assert f[34 + Extra(first)..34 + Extra(first) + n] == m.data[offset..end];
  }

  lemma Fits(n: nat)
    requires n < 0x1_0000
    ensures Low16(n) == n
  {
  }

  lemma AckArrives(seqNo: u8, pduRef: u16)
    ensures TakeAck(AckFrame(seqNo, pduRef)) == Some(seqNo)
  {
    hide HeaderBytes, ParamBytes;
    var f := AckFrame(seqNo, pduRef);
    var p := ParamBytes(Params(GR_BSEND_ACK, 0x01, seqNo, 0x00, 0x00, 0));
    assert f[17] == p[7] && f[20] == p[10] && f[21] == p[11];
  }

  /** Nothing tells a fragment from an acknowledgement: a sender takes either. */
  lemma FragmentPassesForAck(m: Message, offset: nat, end: nat, first: bool, seqNo: u8, idSeq: u8, pduRef: u16)
    requires offset < end <= |m.data|
    ensures TakeAck(FragmentFrame(m, offset, end, first, seqNo, idSeq, pduRef)) == Some(seqNo)
  {
    hide HeaderBytes, ParamBytes, DataHead, Low16, U16, Be16;
    var f := FragmentFrame(m, offset, end, first, seqNo, idSeq, pduRef);
    var p := ParamBytes(Params(GR_BSEND, 0x01, seqNo, idSeq, if end == |m.data| then 0x00 else 0x01, 0));
    assert f[17] == p[7] && f[20] == p[10] && f[21] == p[11];
  }

  /** A receiver that takes a later fragment for a first one drops two bytes of it, or fails if it has only one. */
  lemma FragmentMisread(m: Message, offset: nat, end: nat, seqNo: u8, idSeq: u8, pduRef: u16)
    requires offset < end <= |m.data| && end - offset <= 65525
    ensures TakePiece(FragmentFrame(m, offset, end, false, seqNo, idSeq, pduRef), true)
         == if end - offset == 1 then None
            else Some(Piece(m.id, m.data[offset + 2..end], if end == |m.data| then 0x00 else 0x01))
  {
    hide HeaderBytes, ParamBytes, DataHead, Low16, U16, U32, Be16;
    var f := FragmentFrame(m, offset, end, false, seqNo, idSeq, pduRef);
    var n := end - offset;
    var p := Params(GR_BSEND, 0x01, seqNo, idSeq, if end == |m.data| then 0x00 else 0x01, 0);
    var head := DataHead(Low16(n + 8), m.id);
    Fits(n + 8);
    assert |f| == 34 + n;
    assert f[15] == ParamBytes(p)[5] && f[19] == ParamBytes(p)[9];
    assert f[24] == head[2] && f[25] == head[3];
    assert f[30] == head[8] && f[31] == head[9] && f[32] == head[10] && f[33] == head[11];
    if n > 1 {
      assert f[36..34 + n] == m.data[offset + 2..end];
    }
  }

  /** No fragment exceeds a PDU of at least 37 bytes. */
  lemma FragmentFitsPdu(m: Message, offset: nat, pduSize: u16, seqNo: u8, idSeq: u8, pduRef: u16)
    requires offset < |m.data| && pduSize >= 37
    ensures |FragmentFrame(m, offset, End(m, offset, MaxSlice(pduSize)), offset == 0, seqNo, idSeq, pduRef)| <= pduSize
  {
    FragmentSize(m, offset, End(m, offset, MaxSlice(pduSize)), offset == 0, seqNo, idSeq, pduRef);
  }

  /** The slice is the largest that fits: a first fragment with one byte more exceeds a PDU of 37 bytes or more. */
  lemma SliceIsLargest(m: Message, pduSize: u16, seqNo: u8, idSeq: u8, pduRef: u16)
    ensures MaxSlice(pduSize) == if pduSize > 37 then pduSize - 36 else 1
    ensures 37 <= pduSize && MaxSlice(pduSize) < |m.data| ==>
              |FragmentFrame(m, 0, MaxSlice(pduSize) + 1, true, seqNo, idSeq, pduRef)| == pduSize + 1
  {
    if MaxSlice(pduSize) < |m.data| {
      FragmentSize(m, 0, MaxSlice(pduSize) + 1, true, seqNo, idSeq, pduRef);
    }
  }

  /** A message can be framed unless a PDU size above 65528 lets its first fragment outgrow sixteen bits. */
  predicate Deliverable(m: Message, pduSize: u16) { pduSize <= 65528 || |m.data| <= 65492 }

  /** The first fragment reaches a receiver exactly if the message is deliverable; otherwise receiving fails. */
  lemma FirstFragmentArrives(m: Message, pduSize: u16, seqNo: u8, idSeq: u8, pduRef: u16)
    requires 0 < |m.data| <= MAX_MESSAGE
    ensures var f := FragmentFrame(m, 0, End(m, 0, MaxSlice(pduSize)), true, seqNo, idSeq, pduRef);
            && (Deliverable(m, pduSize) <==> Recv(Iso(f)) == Frame(f, []))
            && (!Deliverable(m, pduSize) ==> Recv(Iso(f)).Malformed?)
  {
    hide FragmentFrame;
    var f := FragmentFrame(m, 0, End(m, 0, MaxSlice(pduSize)), true, seqNo, idSeq, pduRef);
    FragmentSize(m, 0, End(m, 0, MaxSlice(pduSize)), true, seqNo, idSeq, pduRef);
    FrameArrives(f, []);
    assert Iso(f) + [] == Iso(f);
    if !Deliverable(m, pduSize) {
      Overflows(f);
    }
  }

  lemma Overflows(f: seq<u8>)
    requires 65529 <= |f| <= 65535
    ensures Recv(Iso(f)).Malformed?
  {
    var total := Low16(7 + |f|);
    assert total < 7;
    assert Iso(f)[2..4] == Be16(total);
  }
}
