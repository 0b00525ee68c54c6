/** The client at the other end of the connection: handshake, multi-variable calls, clock. */
module Client {
  import opened Bytes
  import opened Framing
  import opened S7Header
  import opened VarCodec
  import opened Store
  import opened Plc
  import opened Batching
  import opened MultiVar
  import opened Clock
  import opened Calendar
  import opened Exactness
  import DispatchRuns
  import Szl

  /** `Panic` stands for a buffer read past its end or an impossible allocation, which aborts the call. */
  datatype Error =
    | Proto(proto: ProtoError) | Io | UnexpectedResponse | PlcError(code: nat) | NegotiationFailed | Panic

  datatype ConnectParams = ConnectParams(rack: u8, slot: u8, pduSize: u16)

  function NextRef(pduRef: u16): u16 { Low16(pduRef + 1) }

  // -- Receiving -----------------------------------------------------------------

  /** The frame at the front of what the PLC has sent. The client does not look at the version byte. */
  function ParseReply(s: seq<u8>): (r: Result<seq<u8>, Error>) {
    if |s| < TPKT_HEADER then Err(Io)
    else
      var total := U16(s[2], s[3]);
      if total < TPKT_HEADER then Err(UnexpectedResponse)
      else if |s| < total then Err(Io)
      else Ok(s[TPKT_HEADER..total])
  }

  lemma ReplyArrives(payload: seq<u8>)
    requires TPKT_HEADER + |payload| <= MAX_FRAME
    ensures ParseReply(TpktBytes(payload)) == Ok(payload)
    ensures |TpktBytes(payload)| == TPKT_HEADER + |payload|
  {
    TpktRoundTrip(payload, []);
    assert TpktBytes(payload) + [] == TpktBytes(payload);
  }

  method ReceiveFrame(from: Buffer) returns (r: Result<seq<u8>, Error>)
    modifies from
    ensures r == ParseReply(old(from.data))
    ensures r.Ok? ==> from.data == old(from.data)[TPKT_HEADER + |r.value|..]
  {
    if |from.data| < TPKT_HEADER {
      return Err(Io);
    }
    var total := U16(from.data[2], from.data[3]);
    if total < TPKT_HEADER {
      return Err(UnexpectedResponse);
    }
    if |from.data| < total {
      return Err(Io);
    }
    var frame := from.SplitTo(total);
    assert frame[TPKT_HEADER..] == old(from.data)[TPKT_HEADER..total];
    r := Ok(frame[TPKT_HEADER..]);
  }

  /** While connecting the client does not test for a length below four: the subtraction wraps and the call aborts. */
  function ParseConnectReply(s: seq<u8>): (r: Result<seq<u8>, Error>)
    ensures r == Err(Panic) <==> |s| >= TPKT_HEADER && U16(s[2], s[3]) < TPKT_HEADER
    ensures ParseReply(s).Ok? ==> r == ParseReply(s)
  {
    if |s| >= TPKT_HEADER && U16(s[2], s[3]) < TPKT_HEADER then Err(Panic) else ParseReply(s)
  }

  method ReceiveConnectFrame(from: Buffer) returns (r: Result<seq<u8>, Error>)
    modifies from
    ensures r == ParseConnectReply(old(from.data))
    ensures r.Ok? ==> from.data == old(from.data)[TPKT_HEADER + |r.value|..]
  {
    if |from.data| >= TPKT_HEADER && U16(from.data[2], from.data[3]) < TPKT_HEADER {
      return Err(Panic);
    }
    r := ReceiveFrame(from);
  }

  /** The S7 message in a COTP data PDU. */
  function ParseMessage(cotp: seq<u8>): (r: Result<(Header, seq<u8>), Error>) {
    if |cotp| < 3 || cotp[1] != CODE_DT then Err(UnexpectedResponse)
    else
      match ParseHeader(cotp[3..])
      case Ok(message) => Ok(message)
      case Err(e) => Err(Proto(e))
  }

  lemma MessageArrives(pdu: seq<u8>)
    ensures ParseMessage(CotpBytes(DataPdu(pdu)))
         == match ParseHeader(pdu) case Ok(message) => Ok(message) case Err(e) => Err(Proto(e))
  {
    hide ParseHeader;
    assert CotpBytes(DataPdu(pdu))[3..] == pdu;
  }

  function CheckError(h: Header): (r: Option<Error>) {
    if h.errorClass.Some? && h.errorCode.Some? && (h.errorClass.value != 0 || h.errorCode.value != 0)
    then Some(PlcError(h.errorClass.value as int * 0x100 + h.errorCode.value))
    else None
  }

  // -- The handshake -----------------------------------------------------------------

  /** The negotiation request of a client that wishes for `pduSize`. */
  function NegotiateRequest(pduSize: u16): (s: seq<u8>)
    ensures Sendable(s)
  {
    HeaderBytes(Header(Job, 0, 1, 8, 0, None, None)) + NegotiateBytes(Negotiate(1, 1, pduSize))
  }

  /** Whether an answer confirms the connection, or why not. */
  function Confirmed(cc: Result<seq<u8>, Error>): Result<(), Error> {
    var frame :- cc;
    match ParseCotp(frame)
    case Err(e) => Err(Proto(e))
    case Ok(pdu) => if pdu.ConnectConfirm? then Ok(()) else Err(NegotiationFailed)
  }

  method CheckConfirm(cc: Result<seq<u8>, Error>) returns (r: Result<(), Error>)
    ensures r == Confirmed(cc)
  {
    if cc.Err? {
      return Err(cc.error);
    }
    var buf := new Buffer(cc.value);
    var pdu := DecodeCotp(buf);
    if pdu.Err? {
      return Err(Proto(pdu.error));
    }
    r := if pdu.value.ConnectConfirm? then Ok(()) else Err(NegotiationFailed);
  }

  /** The PDU size in a negotiation answer. */
  function Negotiated(answer: Result<seq<u8>, Error>): Result<u16, Error> {
    var frame :- answer;
    match ParseCotp(frame)
    case Err(e) => Err(Proto(e))
    case Ok(Data(_, _, payload)) =>
      (match ParseHeader(payload)
       case Err(e) => Err(Proto(e))
       case Ok((h, body)) =>
         if h.pduType != AckData then Err(NegotiationFailed)
         else if CheckError(h).Some? then Err(CheckError(h).value)
         else match ParseNegotiate(body) case Ok(n) => Ok(n.pduLength) case Err(e) => Err(Proto(e)))
    case Ok(_) => Err(UnexpectedResponse)
  }

  method CheckNegotiated(answer: Result<seq<u8>, Error>) returns (r: Result<u16, Error>)
    ensures r == Negotiated(answer)
  {
    if answer.Err? {
      return Err(answer.error);
    }
    var cotp := new Buffer(answer.value);
    var pdu := DecodeCotp(cotp);
    if pdu.Err? {
      return Err(Proto(pdu.error));
    }
    if !pdu.value.Data? {
      return Err(UnexpectedResponse);
    }
    var buf := new Buffer(pdu.value.payload);
    var h := DecodeHeader(buf);
    if h.Err? {
      return Err(Proto(h.error));
    }
    if h.value.pduType != AckData {
      return Err(NegotiationFailed);
    }
    var error := CheckError(h.value);
    if error.Some? {
      return Err(error.value);
    }
    var n := ParseNegotiate(buf.data);
    r := if n.Ok? then Ok(n.value.pduLength) else Err(Proto(n.error));
  }

  // -- Connecting to any peer ----------------------------------------------------

  /** Waits for the confirmation. */
  method AwaitConfirm(from: Buffer) returns (r: Result<(), Error>)
    modifies from
    ensures r == Confirmed(ParseConnectReply(old(from.data))) && (r.Ok? ==> from.data == AfterFrame(old(from.data)))
  {
    var cc := ReceiveConnectFrame(from);
    r := CheckConfirm(cc);
  }

  /** Waits for the negotiation answer. */
  method AwaitNegotiated(from: Buffer) returns (r: Result<u16, Error>)
    modifies from
    ensures r == Negotiated(ParseConnectReply(old(from.data))) && (r.Ok? ==> from.data == AfterFrame(old(from.data)))
  {
    var answer := ReceiveConnectFrame(from);
    r := CheckNegotiated(answer);
  }

  /** What follows the first frame. */
  function AfterFrame(s: seq<u8>): seq<u8> {
    match ParseConnectReply(s)
    case Ok(payload) => if TPKT_HEADER + |payload| <= |s| then s[TPKT_HEADER + |payload|..] else []
    case Err(_) => []
  }

  /** How a connect ends with a peer that sends the given bytes and no more. */
  function ConnectOutcome(s: seq<u8>): Result<u16, Error> {
    var _ :- Confirmed(ParseConnectReply(s));
    Negotiated(ParseConnectReply(AfterFrame(s)))
  }

  /** A connect to a peer that may send anything. */
  method ConnectTo(params: ConnectParams, from: Buffer, to: Buffer) returns (r: Result<u16, Error>)
    requires from != to
    modifies from, to
    ensures r == ConnectOutcome(old(from.data))
    ensures var wish := FrameBytes(NegotiateRequest(params.pduSize));
            to.data == old(to.data)
                       + TpktBytes(CotpBytes(ConnectRequest(0x0000, 0x0001, params.rack, params.slot)))
                       + (if Confirmed(ParseConnectReply(old(from.data))).Ok? then wish else [])
  {
    hide CotpBytes, ParseCotp, TpktBytes, ParseReply, ParseConnectReply, FrameBytes, Negotiated, NegotiateRequest,
         Confirmed, AfterFrame;
    var cr := new Buffer([]);
    EncodeCotp(ConnectRequest(0x0000, 0x0001, params.rack, params.slot), cr);
    assert cr.data == CotpBytes(ConnectRequest(0x0000, 0x0001, params.rack, params.slot));
    ConnectSizes(params);
    var _ := EncodeTpkt(cr.data, to);
    var confirmed := AwaitConfirm(from);
    match confirmed {
      case Err(e) => return Err(e);
      case Ok(_) =>
    }
    var _ := SendData(NegotiateRequest(params.pduSize), to);
    r := AwaitNegotiated(from);
  }

  predicate ShortFrame(s: seq<u8>) { |s| >= TPKT_HEADER && U16(s[2], s[3]) < TPKT_HEADER }

  /** A connect aborts exactly if the first frame of the peer has a length below 4, or the first confirms the connection
      and the second has one. */
  lemma ConnectPanics(s: seq<u8>)
    ensures ConnectOutcome(s) == Err(Panic)
       <==> ShortFrame(s) || (Confirmed(ParseConnectReply(s)).Ok? && ShortFrame(AfterFrame(s)))
  {
    hide ParseCotp, ParseReply, AfterFrame, ParseHeader, ParseNegotiate;
    ReplyIsPlain(s);
    ReplyIsPlain(AfterFrame(s));
  }

  lemma ReplyIsPlain(s: seq<u8>)
    ensures ParseConnectReply(s) == Err(Panic) <==> ShortFrame(s)
    ensures Confirmed(ParseConnectReply(s)) == Err(Panic) <==> ShortFrame(s)
    ensures Negotiated(ParseConnectReply(s)) == Err(Panic) <==> ShortFrame(s)
  {
    hide ParseCotp, ParseReply, ParseHeader, ParseNegotiate, ParseConnectReply;
  }

  lemma ConfirmArrives(plant: Plant, params: ConnectParams)
    ensures var cr := CotpBytes(ConnectRequest(0x0000, 0x0001, params.rack, params.slot));
            var cc := CotpBytes(ConnectConfirm(0x0001, 0x0001));
            && |cr| == 18 && |cc| == 7
            && Run(AwaitConnect, plant, TpktBytes(cr)) == Progress(AwaitNegotiate, plant, TpktBytes(cc), [])
            && ParseReply(TpktBytes(cc)) == Ok(cc) && |TpktBytes(cc)| == 11
            && ParseCotp(cc).Ok? && ParseCotp(cc).value.ConnectConfirm?
  {
    hide CotpBytes, ParseCotp, TpktBytes, ParseReply, NextFrame;
    var request := ConnectRequest(0x0000, 0x0001, params.rack, params.slot);
    ConnectSizes(params);
    var cr, cc := CotpBytes(request), CotpBytes(ConnectConfirm(0x0001, 0x0001));
    CotpRoundTrip(request);
    CotpRoundTrip(ConnectConfirm(0x0001, 0x0001));
    SingleFrame(cr);
    ReplyArrives(cc);
    var o := OnFrame(AwaitConnect, plant, cr);
    assert o == Outcome(AwaitNegotiate, plant, TpktBytes(cc));
    RunNothing(o.phase, o.plant);
    assert o.output + [] == o.output;
  }

  lemma ConnectSizes(params: ConnectParams)
    ensures |CotpBytes(ConnectRequest(0x0000, 0x0001, params.rack, params.slot))| == 18
    ensures |CotpBytes(ConnectConfirm(0x0001, 0x0001))| == 7
  {
  }

  lemma RunNothing(phase: Phase, plant: Plant)
    ensures Run(phase, plant, []) == Progress(phase, plant, [], [])
  {
  }

  lemma SingleFrame(cotp: seq<u8>)
    requires TPKT_HEADER + |cotp| <= MAX_FRAME
    ensures NextFrame(TpktBytes(cotp)) == Frame(cotp, [])
  {
    TpktRoundTrip(cotp, []);
    assert TpktBytes(cotp) + [] == TpktBytes(cotp);
  }

  lemma NegotiationArrives(plant: Plant, wish: u16)
    ensures var size := Accepted(Negotiate(1, 1, wish));
            var answer := NegotiatePdu(1, Negotiate(1, 1, wish));
            && Run(AwaitNegotiate, plant, FrameBytes(NegotiateRequest(wish)))
               == Progress(Serving(size), plant, FrameBytes(answer), [])
            && ParseReply(FrameBytes(answer)) == Ok(CotpBytes(DataPdu(answer)))
            && |FrameBytes(answer)| == TPKT_HEADER + |CotpBytes(DataPdu(answer))|
            && Negotiated(Ok(CotpBytes(DataPdu(answer)))) == Ok(size)
  {
    hide ParseHeader, HeaderBytes, TpktBytes, ParseTpkt, ParseCotp;
    var n := Negotiate(1, 1, wish);
    var size, answer, request := Accepted(n), NegotiatePdu(1, n), NegotiateRequest(wish);
    HeaderRoundTrip(Header(Job, 0, 1, 8, 0, None, None), NegotiateBytes(n));
    HeaderRoundTrip(AckHeader(1, 8, 0, 0, 0), NegotiateBytes(n.(pduLength := size)));
    CotpRoundTrip(DataPdu(request));
    CotpRoundTrip(DataPdu(answer));
    SingleFrame(CotpBytes(DataPdu(request)));
    ReplyArrives(CotpBytes(DataPdu(answer)));
    var o := OnFrame(AwaitNegotiate, plant, CotpBytes(DataPdu(request)));
    assert o == Outcome(Serving(size), plant, FrameBytes(answer));
    RunNothing(o.phase, o.plant);
    assert o.output + [] == o.output;
  }

  // -- What a call sends -----------------------------------------------------------

  /** The PDUs of a read from item `i` on, one per greedy batch, numbered on from `pduRef`. */
  function ReadPdus(pduRef: u16, items: seq<MultiReadItem>, pduSize: u16, i: nat): seq<seq<u8>>
    requires i <= |items|
    decreases |items| - i
  {
    if i == |items| then []
    else
      var e := GreedyEnd(ReadRule(items, pduSize), i);
      [ReadPdu(NextRef(pduRef), items[i..e])] + ReadPdus(NextRef(pduRef), items, pduSize, e)
  }

  function WritePdus(pduRef: u16, items: seq<MultiWriteItem>, pduSize: u16, i: nat): seq<seq<u8>>
    requires i <= |items|
    decreases |items| - i
  {
    if i == |items| then []
    else
      var e := GreedyEnd(WriteRule(items, pduSize), i);
      [WritePdu(NextRef(pduRef), items[i..e])] + WritePdus(NextRef(pduRef), items, pduSize, e)
  }

  lemma {:induction false} ReadPdusAreBatches(pduRef: u16, items: seq<MultiReadItem>, pduSize: u16, i: nat)
    requires i <= |items|
    ensures |ReadPdus(pduRef, items, pduSize, i)| == |GreedyEnds(ReadRule(items, pduSize), i)|
    ensures forall ends :: IsCut(ReadRule(items, pduSize), i, ends) ==>
              |ReadPdus(pduRef, items, pduSize, i)| <= |ends|
    decreases |items| - i
  {
    hide ReadPdu, GreedyEnd, IsCut;
    if i < |items| {
      ReadPdusAreBatches(NextRef(pduRef), items, pduSize, GreedyEnd(ReadRule(items, pduSize), i));
    }
    var rule := ReadRule(items, pduSize);
    forall ends | IsCut(rule, i, ends) ensures |GreedyEnds(rule, i)| <= |ends| {
      StaysAhead(rule, i, i, ends);
    }
  }

  lemma {:induction false} WritePdusAreBatches(pduRef: u16, items: seq<MultiWriteItem>, pduSize: u16, i: nat)
    requires i <= |items|
    ensures |WritePdus(pduRef, items, pduSize, i)| == |GreedyEnds(WriteRule(items, pduSize), i)|
    ensures forall ends :: IsCut(WriteRule(items, pduSize), i, ends) ==>
              |WritePdus(pduRef, items, pduSize, i)| <= |ends|
    decreases |items| - i
  {
    hide WritePdu, GreedyEnd, IsCut;
    if i < |items| {
      WritePdusAreBatches(NextRef(pduRef), items, pduSize, GreedyEnd(WriteRule(items, pduSize), i));
    }
    var rule := WriteRule(items, pduSize);
    forall ends | IsCut(rule, i, ends) ensures |GreedyEnds(rule, i)| <= |ends| {
      StaysAhead(rule, i, i, ends);
    }
  }

  // -- The batching loops ------------------------------------------------------------

  method NextReadBatch(items: seq<MultiReadItem>, pduSize: u16, batchStart: nat) returns (batchEnd: nat)
    requires batchStart < |items|
    ensures batchEnd == GreedyEnd(ReadRule(items, pduSize), batchStart)
  {
    ghost var rule := ReadRule(items, pduSize);
    var maxReq := Budget(pduSize);
    var maxResp := Budget(pduSize);
    batchEnd := batchStart;
    var reqUsed, respUsed := 0, 0;
    while batchEnd < |items| && batchEnd - batchStart < MAX_ITEMS_PER_PDU
      invariant batchStart <= batchEnd <= |items| && Fits(rule, batchStart, batchEnd)
      invariant reqUsed == 12 * (batchEnd - batchStart) && respUsed == Sum(rule.weights, batchStart, batchEnd)
      invariant Extend(rule, batchStart, batchEnd) == GreedyEnd(rule, batchStart)
    {
      var size := 4 + items[batchEnd].length + items[batchEnd].length % 2;
      assert Sum(rule.weights, batchStart, batchEnd + 1) == respUsed + size;
      if batchEnd > batchStart && (reqUsed + 12 > maxReq || respUsed + size > maxResp) {
        break;
      }
      reqUsed := reqUsed + 12;
      respUsed := respUsed + size;
      batchEnd := batchEnd + 1;
    }
  }

  method NextWriteBatch(items: seq<MultiWriteItem>, pduSize: u16, batchStart: nat) returns (batchEnd: nat)
    requires batchStart < |items|
    ensures batchEnd == GreedyEnd(WriteRule(items, pduSize), batchStart)
  {
    ghost var rule := WriteRule(items, pduSize);
    var maxPayload := Budget(pduSize);
    batchEnd := batchStart;
    var used := 0;
    while batchEnd < |items| && batchEnd - batchStart < MAX_ITEMS_PER_PDU
      invariant batchStart <= batchEnd <= |items| && Fits(rule, batchStart, batchEnd)
      invariant used == Sum(rule.weights, batchStart, batchEnd)
      invariant Extend(rule, batchStart, batchEnd) == GreedyEnd(rule, batchStart)
    {
      var size := 12 + 4 + |items[batchEnd].data| + |items[batchEnd].data| % 2;
      assert Sum(rule.weights, batchStart, batchEnd + 1) == used + size;
      if batchEnd > batchStart && used + size > maxPayload {
        break;
      }
      used := used + size;
      batchEnd := batchEnd + 1;
    }
  }

  // -- Handling any reply ----------------------------------------------------------

  /** The reply to a read of `count` items: error checks, the echoed function and count skipped, items decoded. */
  function ReadOutcome(message: Result<(Header, seq<u8>), Error>, count: nat): Result<seq<DataItem>, Error> {
    var (h, body) :- message;
    match CheckError(h)
    case Some(e) => Err(e)
    case None =>
      match ParseReadResponse(if |body| >= 2 then body[2..] else body, count)
      case Ok(items) => Ok(items)
      case Err(e) => Err(Proto(e))
  }

  method ReadReply(message: Result<(Header, seq<u8>), Error>, count: nat) returns (r: Result<seq<DataItem>, Error>)
    ensures r == ReadOutcome(message, count)
  {
    hide ParseReadResponse;
    if message.Err? {
      return Err(message.error);
    }
    var (h, body) := message.value;
    var error := CheckError(h);
    if error.Some? {
      return Err(error.value);
    }
    var buf := new Buffer(body);
    if |buf.data| >= 2 {
      var _ := buf.SplitTo(2);
    }
    var resp := DecodeReadResponse(buf, count);
    r := if resp.Ok? then Ok(resp.value) else Err(Proto(resp.error));
  }

  /** Puts the items of one batch into the result list; the first bad return code ends the call. */
  method Collect(results: seq<seq<u8>>, batchStart: nat, items: seq<DataItem>) returns (r: Result<seq<seq<u8>>, Error>)
    requires batchStart + |items| <= |results|
    ensures r.Ok? <==> forall i :: 0 <= i < |items| ==> items[i].returnCode == 0xFF
    ensures r.Ok? ==> |r.value| == |results|
    ensures r.Ok? ==> forall j :: 0 <= j < |results| ==>
              r.value[j] == if batchStart <= j < batchStart + |items| then items[j - batchStart].data else results[j]
    ensures r.Err? ==> exists i :: 0 <= i < |items| && items[i].returnCode != 0xFF
                                && (forall j :: 0 <= j < i ==> items[j].returnCode == 0xFF)
                                && r.error == PlcError(items[i].returnCode)
  {
    var out := results;
    for i := 0 to |items|
      invariant |out| == |results|
      invariant forall j :: 0 <= j < i ==> items[j].returnCode == 0xFF
      invariant forall j :: 0 <= j < |results| ==>
                  out[j] == if batchStart <= j < batchStart + i then items[j - batchStart].data else results[j]
    {
      if items[i].returnCode != 0xFF {
        return Err(PlcError(items[i].returnCode));
      }
      out := out[batchStart + i := items[i].data];
    }
    r := Ok(out);
  }

  /** The reply to a write of `count` items. */
  function WriteOutcome(message: Result<(Header, seq<u8>), Error>, count: nat): Result<seq<u8>, Error> {
    var (h, body) :- message;
    match CheckError(h)
    case Some(e) => Err(e)
    case None =>
      match ParseWriteResponse(if |body| >= 2 then body[2..] else body, count)
      case Ok(codes) => Ok(codes)
      case Err(e) => Err(Proto(e))
  }

  method WriteReply(message: Result<(Header, seq<u8>), Error>, count: nat) returns (r: Result<seq<u8>, Error>)
    ensures r == WriteOutcome(message, count)
  {
    if message.Err? {
      return Err(message.error);
    }
    var (h, body) := message.value;
    var error := CheckError(h);
    if error.Some? {
      return Err(error.value);
    }
    var buf := new Buffer(body);
    if |buf.data| >= 2 {
      var _ := buf.SplitTo(2);
    }
    var resp := DecodeWriteResponse(buf, count);
    r := if resp.Ok? then Ok(resp.value) else Err(Proto(resp.error));
  }

  /** The first return code other than 0xFF fails the call. */
  method CheckCodes(codes: seq<u8>) returns (r: Result<(), Error>)
    ensures r.Ok? <==> forall i :: 0 <= i < |codes| ==> codes[i] == 0xFF
    ensures r.Err? ==> exists i :: 0 <= i < |codes| && codes[i] != 0xFF && r.error == PlcError(codes[i])
                                && forall j :: 0 <= j < i ==> codes[j] == 0xFF
  {
    for i := 0 to |codes|
      invariant forall j :: 0 <= j < i ==> codes[j] == 0xFF
    {
      if codes[i] != 0xFF {
        return Err(PlcError(codes[i]));
      }
    }
    r := Ok(());
  }

  /** How many items a write gets through: all of them, or those before the first with more than 65500 bytes. */
  function Sendables(items: seq<MultiWriteItem>): (n: nat)
    ensures n <= |items|
    ensures forall i :: 0 <= i < n ==> |items[i].data| <= 65500
    ensures n < |items| ==> |items[n].data| > 65500
  {
    if items == [] || |items[0].data| > 65500 then 0 else 1 + Sendables(items[1..])
  }

  lemma SendablesAt(items: seq<MultiWriteItem>, n: nat)
    requires n <= |items|
    requires forall i :: 0 <= i < n ==> |items[i].data| <= 65500
    requires n < |items| ==> |items[n].data| > 65500
    ensures Sendables(items) == n
  {
  }

  // -- The clock -----------------------------------------------------------------------

  const READ_CLOCK: seq<u8> := [0x00, 0x01, 0x12, 0x04, 0x11, 0x47, 0x01, 0x00]
  const SET_CLOCK: seq<u8> := [0x00, 0x01, 0x12, 0x04, 0x11, 0x47, 0x02, 0x00]
  const CLOCK_ENVELOPE: seq<u8> := [0xFF, 0x09, 0x00, 0x08]

  /** The date is the last eight bytes of the parameter and data sections together. */
  function ClockOutcome(message: Result<(Header, seq<u8>), Error>): Result<PlcDateTime, Error> {
    var (h, body) :- message;
    var total := h.paramLen as int + h.dataLen;
    if |body| < total || total < 8 then Err(UnexpectedResponse)
    else match ParseDate(body[total - 8..]) case Ok(dt) => Ok(dt) case Err(e) => Err(Proto(e))
  }

  method ClockReply(message: Result<(Header, seq<u8>), Error>) returns (r: Result<PlcDateTime, Error>)
    ensures r == ClockOutcome(message)
  {
    hide ParseDate;
    if message.Err? {
      return Err(message.error);
    }
    var (h, body) := message.value;
    var total := h.paramLen as int + h.dataLen;
    if |body| < total || total < 8 {
      return Err(UnexpectedResponse);
    }
    var buf := new Buffer(body);
    var _ := buf.SplitTo(total - 8);
    var dt := DecodeDate(buf);
    r := if dt.Ok? then Ok(dt.value) else Err(Proto(dt.error));
  }

  lemma SetClockAnswer(pduRef: u16, date: ClockBytes, plant: Plant)
    ensures var pdu := RequestPdu(UserData, pduRef, SET_CLOCK, CLOCK_ENVELOPE + date);
            && Sendable(pdu) && Respond(pdu, plant) == Reply(SimpleAck(pduRef), plant.(clock := date))
            && Sendable(SimpleAck(pduRef)) && ParseHeader(SimpleAck(pduRef)) == Ok((AckHeader(pduRef, 0, 0, 0, 0), []))
  {
    hide RequestPdu, ParseHeader, HeaderBytes, RespondJob, SzlPdu, ClockPdu, ErrorPdu;
    var body := SET_CLOCK + (CLOCK_ENVELOPE + date);
    RequestArrives(UserData, pduRef, SET_CLOCK, CLOCK_ENVELOPE + date);
    assert body[4] == 0x11 && body[5] == 0x47 && body[6] == 0x02;
    assert body[12..20] == date;
    DispatchRuns.AckSize(pduRef, 0, 0, 0, 0);
    HeaderRoundTrip(AckHeader(pduRef, 0, 0, 0, 0), []);
    assert HeaderBytes(AckHeader(pduRef, 0, 0, 0, 0)) + [] == HeaderBytes(AckHeader(pduRef, 0, 0, 0, 0));
  }

  lemma ReadClockAnswer(pduRef: u16, plant: Plant)
    ensures var pdu := RequestPdu(UserData, pduRef, READ_CLOCK, []);
            Sendable(pdu) && Respond(pdu, plant) == Reply(ClockPdu(pduRef, plant.clock), plant)
  {
    hide RequestPdu, ParseHeader, ClockPdu, Low16, SzlPdu;
    RequestArrives(UserData, pduRef, READ_CLOCK, []);
    assert READ_CLOCK + [] == READ_CLOCK;
    assert READ_CLOCK[4] == 0x11 && READ_CLOCK[5] == 0x47 && READ_CLOCK[6] == 0x01;
  }

  lemma ClockArrives(pduRef: u16, clock: ClockBytes)
    ensures var reply := ClockPdu(pduRef, clock);
            && Sendable(reply) && ParseHeader(reply).Ok? && ClockOutcome(Ok(ParseHeader(reply).value)).Ok?
            && Ok(ClockOutcome(Ok(ParseHeader(reply).value)).value) == ParseDate(clock)
  {
    hide ParseHeader, HeaderBytes, ParseDate;
    var h := Header(UserData, 0, pduRef, 12, 4, None, None);
    var body := [0x00, 0x01, 0x12, 0x08, 0x12, 0x87, 0x01, 0x00] + clock;
    PlainHeaderSize(h);
    HeaderRoundTrip(h, body);
    assert body[8..] == clock;
    EightBytesAreADate(clock);
  }

  lemma EightBytesAreADate(clock: ClockBytes)
    ensures ParseDate(clock).Ok?
  {
  }

  /** What set-clock-to-now sends at Unix second `secs`. */
  function Now(secs: nat): PlcDateTime {
    var t := LoopDateTime(secs);
    LoopDateIsValid(secs / 86400);
    PlcDateTime(t.date.year, t.date.month, t.date.day, t.hour, t.minute, t.second, 0, 0)
  }

  /** A PLC clock that shows a calendar time to the second. */
  predicate Shows(dt: PlcDateTime, t: DateTime) {
    && dt.year == t.date.year && dt.month == t.date.month && dt.day == t.date.day
    && dt.hour == t.hour && dt.minute == t.minute && dt.second == t.second
  }

  /** A reply with an error pair that is not zero fails a read, a write and a clock call alike, with both bytes. */
  lemma ErrorRepliesFail(h: Header, body: seq<u8>, count: nat, ec: u8, code: u8)
    requires h.errorClass == Some(ec) && h.errorCode == Some(code)
    ensures CheckError(h) == if ec == 0 && code == 0 then None else Some(PlcError(ec as int * 256 + code))
    ensures ec != 0 || code != 0 ==>
              && ReadOutcome(Ok((h, body)), count) == Err(PlcError(ec as int * 256 + code))
              && WriteOutcome(Ok((h, body)), count) == Err(PlcError(ec as int * 256 + code))
  {
  }

  /** A clock set to now shows the time of the independent closed form exactly in the years 1990 to 2089. */
  lemma ClockShowsNow(secs: nat)
    ensures ParseDate(DateBytes(Now(secs))).Ok?
    ensures Shows(ParseDate(DateBytes(Now(secs))).value, CivilDateTime(secs))
       <==> 1990 <= CivilDateTime(secs).date.year <= 2089
    ensures Now(secs).millisecond == 0 && Now(secs).weekday == 0
  {
    hide ParseDate, DateBytes, CivilDate, LoopDate, DaysBeforeYear;
    var t := CivilDateTime(secs);
    var dt := Now(secs);
    LoopDateIsValid(secs / 86400);
    EightBytesAreADate(DateBytes(dt));
    DecodedYear(DateBytes(dt), dt);
    if 1990 <= t.date.year <= 2089 {
      assert secs / 60 / 60 / 24 == secs / 86400;
      ClosedFormInvertsDayNumber(secs / 86400);
      WithinYear(t.date);
      YearsGrow(t.date.year + 1, 0x1_0000);
      SameTime(secs);
      assert DateBytes(dt) + [] == DateBytes(dt);
      DateRoundTrip(dt, []);
    }
  }

  lemma DecodedYear(bytes: ClockBytes, dt: PlcDateTime)
    requires bytes == DateBytes(dt)
    ensures 1990 <= ParseDate(bytes).value.year <= 2089
  {
    hide ToBcd, FromBcd, MillisHigh, LastByte;
    BcdRoundTrip(dt.year % 100);
    assert bytes[0] == ToBcd(dt.year % 100);
  }

  // -- The client ------------------------------------------------------------------

  class S7Client {
    var pduSize: u16
    var pduRef: u16
    var connected: bool
    const plc: Connection
    const toPlc: Buffer
    const fromPlc: Buffer
    /** The S7 PDUs sent so far. */
    ghost var sent: seq<seq<u8>>

    /** Connected, with nothing in flight, and agreed on the PDU size. */
    ghost predicate Ready()
      reads this, plc, toPlc, fromPlc
    {
      && toPlc != fromPlc && toPlc.data == [] && fromPlc.data == []
      && plc.phase == Serving(pduSize) && pduSize <= MAX_PDU_SIZE
    }

    constructor (plc: Connection, toPlc: Buffer, fromPlc: Buffer, pduSize: u16)
      ensures this.plc == plc && this.toPlc == toPlc && this.fromPlc == fromPlc
      ensures this.pduSize == pduSize && pduRef == 1 && connected && sent == []
    {
      this.plc, this.toPlc, this.fromPlc := plc, toPlc, fromPlc;
      this.pduSize, pduRef, connected, sent := pduSize, 1, true, [];
    }

    /** One request and its answer, all the way through framing, dispatch and back. */
    method Exchange(t: PduType, param: seq<u8>, data: seq<u8>) returns (r: Result<(Header, seq<u8>), Error>)
      requires Ready()
      modifies this, plc, plc.store, toPlc, fromPlc
      ensures pduSize == old(pduSize) && pduRef == NextRef(old(pduRef))
      ensures var pdu := RequestPdu(t, pduRef, param, data);
              var reply := Respond(pdu, old(plc.store.State()));
              if !Sendable(pdu) then
                && r == Err(Proto(EncodingFailed)) && Ready()
                && plc.store.State() == old(plc.store.State()) && sent == old(sent)
              else
                && plc.store.State() == reply.plant && sent == old(sent) + [pdu]
                && if Sendable(reply.pdu) then
                     && Ready()
                     && r == match ParseHeader(reply.pdu) case Ok(message) => Ok(message) case Err(e) => Err(Proto(e))
                   else r == Err(Io) && !connected
    {
      hide Respond, ParseHeader, HeaderBytes, Low16, Run;
      pduRef := NextRef(pduRef);
      var s7 := new Buffer([]);
      EncodeHeader(Header(t, 0, pduRef, Low16(|param|), Low16(|data|), None, None), s7);
      s7.PutSlice(param);
      s7.PutSlice(data);
      var pdu := s7.data;
      assert pdu == RequestPdu(t, pduRef, param, data);
      var ok := SendData(pdu, toPlc);
      if !ok {
        return Err(Proto(EncodingFailed));
      }
      sent := sent + [pdu];
      assert toPlc.data == FrameBytes(pdu);
      OneFrame(pduSize, plc.store.State(), pdu);
      ghost var reply := Respond(pdu, plc.store.State());
      plc.Serve(toPlc, fromPlc);
      if Sendable(reply.pdu) {
        ReplyArrives(CotpBytes(DataPdu(reply.pdu)));
        MessageArrives(reply.pdu);
        assert fromPlc.data == FrameBytes(reply.pdu);
      } else {
        assert fromPlc.data == [];
      }
      var frame := ReceiveFrame(fromPlc);
      if frame.Err? {
        if frame.error == Io {
          connected := false;
        }
        return Err(frame.error);
      }
      r := ParseMessage(frame.value);
    }

    /** Connects to a PLC that waits for a connection: both ends settle on the smaller of the wish and 480. */
    static method Connect(plc: Connection, params: ConnectParams) returns (r: Result<S7Client, Error>)
      requires plc.phase == AwaitConnect
      modifies plc, plc.store
      ensures plc.store.State() == old(plc.store.State())
      ensures r.Ok? && fresh(r.value) && fresh(r.value.toPlc) && fresh(r.value.fromPlc)
      ensures r.value.plc == plc && r.value.Ready() && r.value.sent == []
      ensures r.value.pduSize == if params.pduSize < 480 then params.pduSize else 480
    {
      hide Run, CotpBytes, ParseCotp, TpktBytes, ParseReply, FrameBytes, Negotiated, NegotiatePdu, NegotiateRequest,
           Tsap;
      var toPlc := new Buffer([]);
      var fromPlc := new Buffer([]);
      ghost var plant := plc.store.State();
      var cr := new Buffer([]);
      EncodeCotp(ConnectRequest(0x0000, 0x0001, params.rack, params.slot), cr);
      assert cr.data == CotpBytes(ConnectRequest(0x0000, 0x0001, params.rack, params.slot));
      var _ := EncodeTpkt(cr.data, toPlc);
      ConfirmArrives(plant, params);
      assert toPlc.data == TpktBytes(cr.data);
      plc.Serve(toPlc, fromPlc);
      assert fromPlc.data == TpktBytes(CotpBytes(ConnectConfirm(0x0001, 0x0001)));
      var confirmed := AwaitConfirm(fromPlc);
      match confirmed {
        case Err(e) => return Err(e);
        case Ok(_) =>
      }
      var wish := NegotiateRequest(params.pduSize);
      var _ := SendData(wish, toPlc);
      NegotiationArrives(plant, params.pduSize);
      assert toPlc.data == FrameBytes(wish);
      plc.Serve(toPlc, fromPlc);
      assert fromPlc.data == FrameBytes(NegotiatePdu(1, Negotiate(1, 1, params.pduSize)));
      var size := AwaitNegotiated(fromPlc);
      match size {
        case Err(e) => return Err(e);
        case Ok(pduSize) =>
          var client := new S7Client(plc, toPlc, fromPlc, pduSize);
          r := Ok(client);
      }
    }

    /** Writes one batch. */
    method WriteBatch(batch: seq<MultiWriteItem>) returns (r: Result<seq<u8>, Error>)
      requires Ready() && 1 <= |batch| <= MAX_ITEMS_PER_PDU && Writable(batch)
      modifies this, plc, plc.store, toPlc, fromPlc
      ensures pduSize == old(pduSize) && pduRef == NextRef(old(pduRef)) && Ready()
      ensures if 19 + RequestSize(batch) <= MAX_FRAME then
                && r == Ok(Szl.Filled(|batch|, 0xFF)) && sent == old(sent) + [WritePdu(pduRef, batch)]
                && plc.store.State() == WriteAll(old(plc.store.State()), Map(WireWriteOf, batch))
              else
                && r == Err(Proto(EncodingFailed)) && sent == old(sent)
                && plc.store.State() == old(plc.store.State())
    {
      hide Respond, ParseHeader, AckDataPdu, RequestSize, RequestPdu, WriteRequestBytes, WireWriteOf, WriteAll;
      ghost var plant := plc.store.State();
      var param := new Buffer([]);
      EncodeWriteRequest(Map(WriteItemOf, batch), param);
      assert param.data == WriteRequestBytes(Map(WriteItemOf, batch));
      var message := Exchange(Job, param.data, []);
      r := WriteReply(message, |batch|);
      WritePduSize(pduRef, batch);
      WriteAnswer(pduRef, batch, plant);
      var codes := Szl.Filled(|batch|, 0xFF);
      AckArrives(pduRef, FUNC_WRITE_VAR, |batch|, codes);
      assert ([FUNC_WRITE_VAR, |batch|] + codes)[2..] == codes == codes[..|batch|];
    }

    /** Writes any list of items in as few exchanges as the rule allows. The plant ends up as if the items had been
        written one by one, up to the first with more than 65500 bytes, which is also the only way to fail. */
    method WriteMultiVars(items: seq<MultiWriteItem>) returns (r: Result<(), Error>)
      requires Ready()
      modifies this, plc, plc.store, toPlc, fromPlc
      ensures Ready() && pduSize == old(pduSize)
      ensures plc.store.State() == WriteAll(old(plc.store.State()), Map(WireWriteOf, items[..Sendables(items)]))
      ensures r == if Sendables(items) == |items| then Ok(()) else Err(Proto(EncodingFailed))
      ensures r.Ok? ==> sent == old(sent) + WritePdus(old(pduRef), items, pduSize, 0)
      ensures AllWriteExactly(items) ==>
                r.Ok? && plc.store.State() == WriteAll(old(plc.store.State()), Map(DirectWrite, items))
    {
      hide WireWriteOf, WritePdu, RequestSize, GreedyEnd, WritePdus, WriteAll, DirectWrite, AllWriteExactly;
      ghost var plant := plc.store.State();
      WriteNothing(plant);
      WritesAreDirect(plant, items);
      var batchStart := 0;
      while batchStart < |items|
        invariant 0 <= batchStart <= |items| && Ready() && pduSize == old(pduSize)
        invariant forall i :: 0 <= i < batchStart ==> |items[i].data| <= 65500
        invariant plc.store.State() == WriteAll(plant, Map(WireWriteOf, items[..batchStart]))
        invariant sent + WritePdus(pduRef, items, pduSize, batchStart)
               == old(sent) + WritePdus(old(pduRef), items, pduSize, 0)
      {
        var batchEnd := NextWriteBatch(items, pduSize, batchStart);
        var batch := items[batchStart..batchEnd];
        WriteBatchShape(items, pduSize, batchStart);
        WritePdusStep(sent, pduRef, items, pduSize, batchStart);
        var codes := WriteBatch(batch);
        if codes.Err? {
          SendablesAt(items, batchStart);
          return Err(codes.error);
        }
        var checked := CheckCodes(codes.value);
        if checked.Err? {
          return checked;
        }
        WireWritesGrow(items, batchStart, batchEnd);
        WriteAllAppend(plant, Map(WireWriteOf, items[..batchStart]), Map(WireWriteOf, batch));
        batchStart := batchEnd;
      }
      SendablesAt(items, |items|);
      WritePdusEnd(pduRef, items, pduSize);
      assert sent + [] == sent;
      r := Ok(());
    }

    method SetClock(dt: PlcDateTime) returns (r: Result<(), Error>)
      requires Ready()
      modifies this, plc, plc.store, toPlc, fromPlc
      ensures Ready() && r == Ok(()) && plc.store.State() == old(plc.store.State()).(clock := DateBytes(dt))
    {
      hide Respond, ParseHeader, RequestPdu, SimpleAck, DateBytes;
      ghost var plant := plc.store.State();
      var data := new Buffer(CLOCK_ENVELOPE);
      EncodeDate(dt, data);
      var message := Exchange(UserData, SET_CLOCK, data.data);
      r := match message
           case Err(e) => Err(e)
           case Ok((h, _)) => match CheckError(h) case Some(e) => Err(e) case None => Ok(());
      SetClockAnswer(pduRef, DateBytes(dt), plant);
    }

    method ReadClock() returns (r: Result<PlcDateTime, Error>)
      requires Ready()
      modifies this, plc, plc.store, toPlc, fromPlc
      ensures Ready() && plc.store.State() == old(plc.store.State())
      ensures r.Ok? && ParseDate(plc.store.clock) == Ok(r.value)
    {
      hide Respond, ParseHeader, RequestPdu, ClockPdu, ParseDate, ClockOutcome;
      ghost var plant := plc.store.State();
      var message := Exchange(UserData, READ_CLOCK, []);
      r := ClockReply(message);
      ReadClockAnswer(pduRef, plant);
      ClockArrives(pduRef, plant.clock);
    }

    /** The clock call with the host's time passed in. */
    method SetClockToNow(secs: nat) returns (r: Result<(), Error>)
      requires Ready()
      modifies this, plc, plc.store, toPlc, fromPlc
      ensures Ready() && r == Ok(()) && plc.store.State() == old(plc.store.State()).(clock := DateBytes(Now(secs)))
    {
      var date := DateByLoops(secs / 86400);
      LoopDateIsValid(secs / 86400);
      r := SetClock(PlcDateTime(date.year, date.month, date.day, secs / 3600 % 24, secs / 60 % 60, secs % 60, 0, 0));
    }

    /** Setting the clock and reading it back returns what was set exactly if eight BCD bytes can hold it. */
    method SetThenReadClock(dt: PlcDateTime) returns (r: Result<PlcDateTime, Error>)
      requires Ready()
      modifies this, plc, plc.store, toPlc, fromPlc
      ensures Ready() && r.Ok? && (r.value == dt <==> Representable(dt))
    {
      hide ParseDate, DateBytes;
      var _ := SetClock(dt);
      r := ReadClock();
      assert DateBytes(dt) + [] == DateBytes(dt);
      DateRoundTrip(dt, []);
    }

    /** Reads one batch. */
    method ReadBatch(batch: seq<MultiReadItem>) returns (r: Result<seq<DataItem>, Error>)
      requires Ready() && 1 <= |batch| <= MAX_ITEMS_PER_PDU && Decodable(batch)
      modifies this, plc, plc.store, toPlc, fromPlc
      ensures pduSize == old(pduSize) && pduRef == NextRef(old(pduRef)) && sent == old(sent) + [ReadPdu(pduRef, batch)]
      ensures plc.store.State() == old(plc.store.State())
      ensures if 21 + ReplySize(batch) <= MAX_FRAME then Ready() && r == Ok(Replies(plc.store.memory, batch))
              else r == Err(Io) && !connected
    {
      hide Respond, ParseHeader, AckDataPdu, ReplyData, ReplySize, ParseReadResponse, RequestPdu, ReadRequestBytes,
           WireRead;
      ghost var plant := plc.store.State();
      var param := new Buffer([]);
      EncodeReadRequest(Map(ReadAddress, batch), param);
      assert param.data == ReadRequestBytes(Map(ReadAddress, batch));
      var message := Exchange(Job, param.data, []);
      r := ReadReply(message, |batch|);
      ReadAnswer(pduRef, batch, plant);
      ReplyDataSize(plant.memory, batch);
      AckArrives(pduRef, FUNC_READ_VAR, |batch|, ReplyData(plant.memory, batch));
      ReplyDecodes(plant.memory, batch);
      assert ([FUNC_READ_VAR, |batch|] + ReplyData(plant.memory, batch))[2..] == ReplyData(plant.memory, batch);
    }

    /** Reads any list of items in as few exchanges as the rule allows. Every item comes back as the PLC would read it
        alone, in input order; the call fails exactly when some item asks for more than 65510 bytes. */
    method ReadMultiVars(items: seq<MultiReadItem>) returns (r: Result<seq<seq<u8>>, Error>)
      requires Ready()
      modifies this, plc, plc.store, toPlc, fromPlc
      ensures plc.store.State() == old(plc.store.State()) && pduSize == old(pduSize)
      ensures r.Ok? <==> forall i :: 0 <= i < |items| ==> items[i].length <= 65510
      ensures r.Ok? ==> Ready() && sent == old(sent) + ReadPdus(old(pduRef), items, pduSize, 0)
      ensures r.Ok? ==> |r.value| == |items|
      ensures r.Ok? ==> forall i :: 0 <= i < |items| ==> r.value[i] == WireRead(plc.store.memory, items[i])
      ensures r.Err? ==> r.error == Io && !connected
      ensures AllReadExactly(items) ==>
                r.Ok? && forall i :: 0 <= i < |items| ==> r.value[i] == DirectRead(plc.store.memory, items[i])
    {
      hide WireRead, ReadPdu, ReplySize, GreedyEnd, ReadPdus, AllReadExactly, DirectRead;
      ExactReads(plc.store.memory, items);
      if items == [] {
        ReadPdusEnd(pduRef, items, pduSize);
        assert sent + [] == sent;
        return Ok([]);
      }
      var results := seq<seq<u8>>(|items|, _ => []);
      var batchStart := 0;
      while batchStart < |items|
        invariant 0 <= batchStart <= |items| && |results| == |items| && Ready()
        invariant plc.store.State() == old(plc.store.State()) && pduSize == old(pduSize)
        invariant forall i :: 0 <= i < batchStart ==> items[i].length <= 65510
        invariant forall i :: 0 <= i < batchStart ==> results[i] == WireRead(plc.store.memory, items[i])
        invariant sent + ReadPdus(pduRef, items, pduSize, batchStart)
               == old(sent) + ReadPdus(old(pduRef), items, pduSize, 0)
      {
        var batchEnd := NextReadBatch(items, pduSize, batchStart);
        var batch := items[batchStart..batchEnd];
        ReadBatchShape(items, pduSize, batchStart);
        ReadPdusStep(sent, pduRef, items, pduSize, batchStart);
        var resp := ReadBatch(batch);
        if resp.Err? {
          assert items[batchStart].length > 65510;
          return Err(resp.error);
        }
        var collected := Collect(results, batchStart, resp.value);
        if collected.Err? {
          return collected;
        }
        results := collected.value;
        assert forall i :: batchStart <= i < batchEnd ==> results[i] == resp.value[i - batchStart].data;
        batchStart := batchEnd;
      }
      ReadPdusEnd(pduRef, items, pduSize);
      assert sent + [] == sent;
      r := Ok(results);
    }
  }

  /** Exact items can all be sent, and have the effect of direct writes. */
  lemma WritesAreDirect(plant: Plant, items: seq<MultiWriteItem>)
    ensures AllWriteExactly(items) ==>
              && Sendables(items) == |items|
              && WriteAll(plant, Map(WireWriteOf, items[..|items|])) == WriteAll(plant, Map(DirectWrite, items))
  {
    hide WireWriteOf, DirectWrite, WriteAll;
    if AllWriteExactly(items) {
      ExactWrites(plant, items);
      assert items[..|items|] == items;
      SendablesAt(items, |items|);
    }
  }

  lemma WriteNothing(plant: Plant)
    ensures WriteAll(plant, Map(WireWriteOf, [])) == plant
  {
  }

  lemma WritePdusEnd(pduRef: u16, items: seq<MultiWriteItem>, pduSize: u16)
    ensures WritePdus(pduRef, items, pduSize, |items|) == []
  {
  }

  lemma WritePdusStep(sent: seq<seq<u8>>, pduRef: u16, items: seq<MultiWriteItem>, pduSize: u16, i: nat)
    requires i < |items|
    ensures var e := GreedyEnd(WriteRule(items, pduSize), i);
            sent + WritePdus(pduRef, items, pduSize, i)
            == (sent + [WritePdu(NextRef(pduRef), items[i..e])]) + WritePdus(NextRef(pduRef), items, pduSize, e)
  {
    hide GreedyEnd, WritePdu;
  }

  lemma WriteBatchShape(items: seq<MultiWriteItem>, pduSize: u16, i: nat)
    requires i < |items| && pduSize <= MAX_PDU_SIZE
    ensures var e := GreedyEnd(WriteRule(items, pduSize), i);
            var batch := items[i..e];
            && i < e <= |items| && |batch| <= MAX_ITEMS_PER_PDU && Writable(batch)
            && (19 + RequestSize(batch) <= MAX_FRAME ==> forall k :: i <= k < e ==> |items[k].data| <= 65500)
            && (19 + RequestSize(batch) > MAX_FRAME ==> |items[i].data| > 65500)
  {
    var e := GreedyEnd(WriteRule(items, pduSize), i);
    var batch := items[i..e];
    if |batch| == 1 {
      assert batch[1..] == [];
      assert RequestSize(batch) == 16 + PaddedSize(|batch[0].data|);
    } else {
      WriteSum(items, i, e);
      forall k | i <= k < e ensures |items[k].data| <= 452 {
        RequestParts(batch, k - i);
      }
    }
  }

  lemma WireWritesGrow(items: seq<MultiWriteItem>, i: nat, e: nat)
    requires i <= e <= |items|
    ensures Map(WireWriteOf, items[..e]) == Map(WireWriteOf, items[..i]) + Map(WireWriteOf, items[i..e])
  {
    hide WireWriteOf;
  }

  lemma ReadPdusEnd(pduRef: u16, items: seq<MultiReadItem>, pduSize: u16)
    ensures ReadPdus(pduRef, items, pduSize, |items|) == []
  {
  }

  lemma ReadPdusStep(sent: seq<seq<u8>>, pduRef: u16, items: seq<MultiReadItem>, pduSize: u16, i: nat)
    requires i < |items|
    ensures var e := GreedyEnd(ReadRule(items, pduSize), i);
            sent + ReadPdus(pduRef, items, pduSize, i)
            == (sent + [ReadPdu(NextRef(pduRef), items[i..e])]) + ReadPdus(NextRef(pduRef), items, pduSize, e)
  {
    hide GreedyEnd, ReadPdu;
  }

  /** With the server's PDU size, a batch is one item of any size or several small ones. */
  lemma ReadBatchShape(items: seq<MultiReadItem>, pduSize: u16, i: nat)
    requires i < |items| && pduSize <= MAX_PDU_SIZE
    ensures var e := GreedyEnd(ReadRule(items, pduSize), i);
            var batch := items[i..e];
            && i < e <= |items| && |batch| <= MAX_ITEMS_PER_PDU && Decodable(batch)
            && (21 + ReplySize(batch) <= MAX_FRAME <==> forall k :: i <= k < e ==> items[k].length <= 65510)
            && (21 + ReplySize(batch) > MAX_FRAME ==> items[i].length > 65510)
  {
    var e := GreedyEnd(ReadRule(items, pduSize), i);
    var batch := items[i..e];
    if |batch| == 1 {
      assert batch[1..] == [];
      assert ReplySize(batch) == 4 + PaddedSize(batch[0].length);
    } else {
      ReadSum(items, i, e);
      forall k | i <= k < e ensures items[k].length <= 464 {
        ReplyParts(batch, k - i);
      }
    }
  }
}
