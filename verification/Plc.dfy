/** The simulated PLC's side of one connection: the handshake, then the dispatch loop. */
module Plc {
  import opened Bytes
  import opened Framing
  import opened S7Header
  import opened VarCodec
  import opened Store
  import Szl

  const MAX_PDU_SIZE: u16 := 480

  // -- Responses -------------------------------------------------------------

  /** The header of every acknowledgement. */
  function AckHeader(pduRef: u16, paramLen: u16, dataLen: u16, errorClass: u8, errorCode: u8): Header {
    Header(AckData, 0, pduRef, paramLen, dataLen, Some(errorClass), Some(errorCode))
  }

  function ErrorPdu(pduRef: u16): seq<u8> { HeaderBytes(AckHeader(pduRef, 0, 0, 0x81, 0x04)) }

  function SimpleAck(pduRef: u16): seq<u8> { HeaderBytes(AckHeader(pduRef, 0, 0, 0, 0)) }

  function AckDataPdu(pduRef: u16, func: u8, count: u8, data: seq<u8>): seq<u8> {
    HeaderBytes(AckHeader(pduRef, 2, Low16(|data|), 0, 0)) + ([func, count] + data)
  }

  /** The answer to a request and the plant it leaves behind. */
  datatype Reply = Reply(pdu: seq<u8>, plant: Plant)

  function ReadItem(m: Memory, a: AddressItem): DataItem {
    DataItem(0xFF, ReadBytes(m, AreaCode(a.area), a.dbNumber, a.start, a.length))
  }

  function ReadItems(m: Memory, items: seq<AddressItem>): (r: seq<DataItem>)
    ensures |r| == |items|
    ensures forall i :: 0 <= i < |items| ==> r[i] == ReadItem(m, items[i])
  {
    Map(a => ReadItem(m, a), items)
  }

  function ItemWrite(item: WriteItem): AreaWrite {
    AreaWrite(AreaCode(item.address.area), item.address.dbNumber, item.address.start, item.data)
  }

  function ItemWrites(items: seq<WriteItem>): seq<AreaWrite> { Map(ItemWrite, items) }

  function RespondRead(pduRef: u16, body: seq<u8>, plant: Plant): Reply {
    match ParseReadRequest(body)
    case Err(_) => Reply(ErrorPdu(pduRef), plant)
    case Ok(items) =>
      Reply(AckDataPdu(pduRef, FUNC_READ_VAR, Low8(|items|), ReadResponseBytes(ReadItems(plant.memory, items))), plant)
  }

  /** Nothing is written unless the whole request decodes. */
  function RespondWrite(pduRef: u16, body: seq<u8>, plant: Plant): Reply {
    match ParseWriteRequest(body)
    case Err(_) => Reply(ErrorPdu(pduRef), plant)
    case Ok(items) =>
      Reply(AckDataPdu(pduRef, FUNC_WRITE_VAR, Low8(|items|), Szl.Filled(Low8(|items|), 0xFF)),
            WriteAll(plant, ItemWrites(items)))
  }

  predicate IsControl(func: u8) { func == 0x28 || func == 0x29 || func == 0x2A || func == 0x31 }

  /** Start, stop and status commands; only the status request carries a data byte. */
  function ControlPdu(pduRef: u16, func: u8): seq<u8> {
    if func == 0x31 then HeaderBytes(AckHeader(pduRef, 2, 1, 0, 0)) + [func, 0x00, 0x08]
    else HeaderBytes(AckHeader(pduRef, 2, 0, 0, 0)) + [func, 0x00]
  }

  function RespondJob(pduRef: u16, body: seq<u8>, plant: Plant): Reply
    requires body != []
  {
    var func := body[0];
    if func == FUNC_READ_VAR then RespondRead(pduRef, body, plant)
    else if func == FUNC_WRITE_VAR then RespondWrite(pduRef, body, plant)
    else if IsControl(func) then Reply(ControlPdu(pduRef, func), plant)
    else if func == 0x11 || func == 0x12 then Reply(SimpleAck(pduRef), plant)
    else Reply(ErrorPdu(pduRef), plant)
  }

  /** A clock reply spreads the eight clock bytes over its parameter and data sections. */
  function ClockPdu(pduRef: u16, clock: ClockBytes): seq<u8> {
    HeaderBytes(Header(UserData, 0, pduRef, 12, 4, None, None))
    + ([0x00, 0x01, 0x12, 0x08, 0x12, 0x87, 0x01, 0x00] + clock)
  }

  function RespondClock(pduRef: u16, body: seq<u8>, plant: Plant): Reply {
    if |body| >= 7 && body[6] == 0x02 then
      Reply(SimpleAck(pduRef), if |body| >= 20 then plant.(clock := body[12..20]) else plant)
    else Reply(ClockPdu(pduRef, plant.clock), plant)
  }

  function SzlPdu(pduRef: u16, body: seq<u8>): seq<u8> {
    var table := Szl.Table(if |body| >= 14 then U16(body[12], body[13]) else 0);
    HeaderBytes(AckHeader(pduRef, 12, Low16(|table|), 0, 0))
    + (if |body| >= 12 then body[..12] else Szl.Filled(12, 0))
    + [0xFF, 0x04] + Be16(Low16(|table|)) + table
  }

  function RespondUserData(pduRef: u16, body: seq<u8>, plant: Plant): Reply {
    if |body| >= 5 && body[4] == 0x11 then
      if (if |body| >= 6 then body[5] else 0) % 0x10 == 0x07 then RespondClock(pduRef, body, plant)
      else Reply(SzlPdu(pduRef, body), plant)
    else Reply(SimpleAck(pduRef), plant)
  }

  /** The answer to any payload at all. */
  function Respond(payload: seq<u8>, plant: Plant): Reply {
    match ParseHeader(payload)
    case Err(_) => Reply(ErrorPdu(0), plant)
    case Ok((h, body)) =>
      if body == [] then Reply(ErrorPdu(h.pduRef), plant)
      else
        match h.pduType
        case Job => RespondJob(h.pduRef, body, plant)
        case UserData => RespondUserData(h.pduRef, body, plant)
        case _ => Reply(ErrorPdu(h.pduRef), plant)
  }

  // -- The connection --------------------------------------------------------

  datatype Phase = AwaitConnect | AwaitNegotiate | Serving(pduSize: u16) | Closed

  /** What a receiver finds at the front of its input. */
  datatype Arrival = Blocked | Broken | Frame(cotp: seq<u8>, rest: seq<u8>)

  function NextFrame(input: seq<u8>): (a: Arrival)
    ensures a.Frame? ==> |a.rest| < |input|
  {
    if |input| < TPKT_HEADER then Blocked
    else if input[0] != TPKT_VERSION then Broken
    else
      var total := U16(input[2], input[3]);
      if total < TPKT_HEADER then Broken
      else if |input| < total then Blocked
      else Frame(input[TPKT_HEADER..total], input[total..])
  }

  function DataPdu(payload: seq<u8>): Cotp { Data(0, true, payload) }

  /** Whether a payload fits into one TPKT frame. */
  predicate Sendable(payload: seq<u8>) { |payload| + 7 <= MAX_FRAME }

  function FrameBytes(payload: seq<u8>): seq<u8>
    requires Sendable(payload)
  {
    TpktBytes(CotpBytes(DataPdu(payload)))
  }

  datatype Outcome = Outcome(phase: Phase, plant: Plant, output: seq<u8>)

  function Accepted(n: Negotiate): u16 { if n.pduLength < MAX_PDU_SIZE then n.pduLength else MAX_PDU_SIZE }

  function NegotiatePdu(pduRef: u16, n: Negotiate): (s: seq<u8>)
    ensures Sendable(s)
  {
    HeaderBytes(AckHeader(pduRef, 8, 0, 0, 0)) + NegotiateBytes(n.(pduLength := Accepted(n)))
  }

  /** One received frame, in any phase. Everything unexpected closes the connection. */
  function OnFrame(phase: Phase, plant: Plant, cotp: seq<u8>): Outcome {
    match (phase, ParseCotp(cotp))
    case (AwaitConnect, Ok(ConnectRequest(_, src, _, _))) =>
      Outcome(AwaitNegotiate, plant, TpktBytes(CotpBytes(ConnectConfirm(src, 0x0001))))
    case (AwaitNegotiate, Ok(Data(_, _, payload))) => OnNegotiate(plant, payload)
    case (Serving(_), Ok(Data(_, _, payload))) =>
      var r := Respond(payload, plant);
      if Sendable(r.pdu) then Outcome(phase, r.plant, FrameBytes(r.pdu)) else Outcome(Closed, r.plant, [])
    case _ => Outcome(Closed, plant, [])
  }

  function OnNegotiate(plant: Plant, payload: seq<u8>): Outcome {
    match ParseHeader(payload)
    case Ok((h, body)) =>
      if h.pduType != Job then Outcome(Closed, plant, [])
      else
        (match ParseNegotiate(body)
         case Ok(n) => Outcome(Serving(Accepted(n)), plant, FrameBytes(NegotiatePdu(h.pduRef, n)))
         case Err(_) => Outcome(Closed, plant, []))
    case Err(_) => Outcome(Closed, plant, [])
  }

  /** What a connection makes of the input that has arrived so far; unread input waits for the rest of its frame. */
  datatype Progress = Progress(phase: Phase, plant: Plant, output: seq<u8>, unread: seq<u8>)

  function Run(phase: Phase, plant: Plant, input: seq<u8>): Progress
    decreases |input|
  {
    if phase.Closed? then Progress(phase, plant, [], input)
    else
      match NextFrame(input)
      case Blocked => Progress(phase, plant, [], input)
      case Broken => Progress(Closed, plant, [], input)
      case Frame(cotp, rest) =>
        var o := OnFrame(phase, plant, cotp);
        var p := Run(o.phase, o.plant, rest);
        p.(output := o.output + p.output)
  }

  /** The same, with `sent` already on its way. */
  function RunAfter(sent: seq<u8>, phase: Phase, plant: Plant, input: seq<u8>): Progress {
    var p := Run(phase, plant, input);
    p.(output := sent + p.output)
  }

  lemma RunUnfold(sent: seq<u8>, phase: Phase, plant: Plant, input: seq<u8>)
    ensures RunAfter(sent, phase, plant, input)
         == if phase.Closed? then Progress(phase, plant, sent, input)
            else match NextFrame(input)
                 case Blocked => Progress(phase, plant, sent, input)
                 case Broken => RunAfter(sent, Closed, plant, input)
                 case Frame(cotp, rest) =>
                   var o := OnFrame(phase, plant, cotp);
                   RunAfter(sent + o.output, o.phase, o.plant, rest)
  {
    hide OnFrame;
    if !phase.Closed? && NextFrame(input).Frame? {
      var o := OnFrame(phase, plant, NextFrame(input).cotp);
      var p := Run(o.phase, o.plant, NextFrame(input).rest);
      assert sent + (o.output + p.output) == (sent + o.output) + p.output;
    }
  }

  // -- The imperative side -----------------------------------------------------

  /** Appends `payload` as one frame if it fits. */
  method SendData(payload: seq<u8>, out: Buffer) returns (ok: bool)
    modifies out
    ensures ok == Sendable(payload)
    ensures out.data == if ok then old(out.data) + FrameBytes(payload) else old(out.data)
  {
    var cotp := new Buffer([]);
    EncodeCotp(DataPdu(payload), cotp);
    assert cotp.data == CotpBytes(DataPdu(payload));
    var r := EncodeTpkt(cotp.data, out);
    ok := r.Ok?;
  }

  /** Takes one frame off the input; an incomplete or broken one stays where it is. */
  method TakeFrame(incoming: Buffer) returns (a: Arrival)
    modifies incoming
    ensures a == NextFrame(old(incoming.data))
    ensures incoming.data == if a.Frame? then a.rest else old(incoming.data)
  {
    if |incoming.data| < TPKT_HEADER {
      return Blocked;
    }
    if incoming.data[0] != TPKT_VERSION {
      return Broken;
    }
    var total := U16(incoming.data[2], incoming.data[3]);
    if total < TPKT_HEADER {
      return Broken;
    }
    if |incoming.data| < total {
      return Blocked;
    }
    var frame := incoming.SplitTo(total);
    assert frame[TPKT_HEADER..] == old(incoming.data)[TPKT_HEADER..total];
    a := Frame(frame[TPKT_HEADER..], incoming.data);
  }

  class Connection {
    var phase: Phase
    const store: DataStore

    constructor (store: DataStore)
      ensures phase == AwaitConnect && this.store == store
    {
      phase := AwaitConnect;
      this.store := store;
    }

    method HandleRead(pduRef: u16, body: seq<u8>) returns (pdu: seq<u8>)
      ensures Reply(pdu, store.State()) == RespondRead(pduRef, body, store.State())
    {
      var buf := new Buffer(body);
      var req := DecodeReadRequest(buf);
      if req.Err? {
        return ErrorPdu(pduRef);
      }
      var items := [];
      for i := 0 to |req.value|
        invariant |items| == i
        invariant forall j :: 0 <= j < i ==> items[j] == ReadItem(store.memory, req.value[j])
      {
        var a := req.value[i];
        var bytes := store.Read(AreaCode(a.area), a.dbNumber, a.start, a.length);
        items := items + [DataItem(0xFF, bytes)];
      }
      assert items == ReadItems(store.memory, req.value);
      var data := new Buffer([]);
      EncodeReadResponse(items, data);
      assert data.data == ReadResponseBytes(items);
      pdu := AckDataPdu(pduRef, FUNC_READ_VAR, Low8(|items|), data.data);
    }

    method HandleWrite(pduRef: u16, body: seq<u8>) returns (pdu: seq<u8>)
      modifies store
      ensures Reply(pdu, store.State()) == RespondWrite(pduRef, body, old(store.State()))
    {
      var buf := new Buffer(body);
      var req := DecodeWriteRequest(buf);
      if req.Err? {
        return ErrorPdu(pduRef);
      }
      var items := req.value;
      for i := 0 to |items|
        invariant store.State() == WriteAll(old(store.State()), ItemWrites(items[..i]))
      {
        var a := items[i].address;
        store.Write(AreaCode(a.area), a.dbNumber, a.start, items[i].data);
        assert ItemWrites(items[..i + 1]) == ItemWrites(items[..i]) + [ItemWrite(items[i])];
      }
      assert items[..|items|] == items;
      var codes := [];
      var count := Low8(|items|);
      for i := 0 to count
        invariant codes == Szl.Filled(i, 0xFF)
      {
        codes := codes + [0xFF];
      }
      pdu := AckDataPdu(pduRef, FUNC_WRITE_VAR, count, codes);
    }

    method HandleClock(pduRef: u16, body: seq<u8>) returns (pdu: seq<u8>)
      modifies store
      ensures Reply(pdu, store.State()) == RespondClock(pduRef, body, old(store.State()))
    {
      var subfn := if |body| >= 7 then body[6] else 0;
      if subfn == 0x02 {
        if |body| >= 20 {
          store.SetClock(body[12..20]);
        }
        pdu := SimpleAck(pduRef);
      } else {
        pdu := ClockPdu(pduRef, store.clock);
      }
    }

    method Answer(payload: seq<u8>) returns (pdu: seq<u8>)
      modifies store
      ensures Reply(pdu, store.State()) == Respond(payload, old(store.State()))
    {
      var buf := new Buffer(payload);
      var header := DecodeHeader(buf);
      if header.Err? {
        return ErrorPdu(0);
      }
      var h, body := header.value, buf.data;
      if body == [] {
        return ErrorPdu(h.pduRef);
      }
      match h.pduType
      case Job =>
        var func := body[0];
        if func == FUNC_READ_VAR {
          pdu := HandleRead(h.pduRef, body);
        } else if func == FUNC_WRITE_VAR {
          pdu := HandleWrite(h.pduRef, body);
        } else if IsControl(func) {
          pdu := ControlPdu(h.pduRef, func);
        } else if func == 0x11 || func == 0x12 {
          pdu := SimpleAck(h.pduRef);
        } else {
          pdu := ErrorPdu(h.pduRef);
        }
      case UserData =>
        if |body| >= 5 && body[4] == 0x11 {
          var tg := if |body| >= 6 then body[5] else 0;
          if tg % 0x10 == 0x07 {
            pdu := HandleClock(h.pduRef, body);
          } else {
            pdu := SzlPdu(h.pduRef, body);
          }
        } else {
          pdu := SimpleAck(h.pduRef);
        }
      case _ =>
        pdu := ErrorPdu(h.pduRef);
    }

    method Receive(cotp: seq<u8>, out: Buffer)
      modifies this, store, out
      ensures var o := OnFrame(old(phase), old(store.State()), cotp);
              phase == o.phase && store.State() == o.plant && out.data == old(out.data) + o.output
    {
      var buf := new Buffer(cotp);
      var pdu := DecodeCotp(buf);
      match (phase, pdu)
      case (AwaitConnect, Ok(ConnectRequest(_, src, _, _))) =>
        var cc := new Buffer([]);
        EncodeCotp(ConnectConfirm(src, 0x0001), cc);
        assert cc.data == CotpBytes(ConnectConfirm(src, 0x0001));
        var _ := EncodeTpkt(cc.data, out);
        phase := AwaitNegotiate;
      case (AwaitNegotiate, Ok(Data(_, _, payload))) =>
        ReceiveNegotiate(payload, out);
      case (Serving(_), Ok(Data(_, _, payload))) =>
        var answer := Answer(payload);
        var ok := SendData(answer, out);
        if !ok {
          phase := Closed;
        }
      case _ =>
        phase := Closed;
    }

    method ReceiveNegotiate(payload: seq<u8>, out: Buffer)
      modifies this, out
      ensures var o := OnNegotiate(store.State(), payload);
              phase == o.phase && store.State() == o.plant && out.data == old(out.data) + o.output
    {
      var buf := new Buffer(payload);
      var h := DecodeHeader(buf);
      if h.Err? || h.value.pduType != Job {
        phase := Closed;
        return;
      }
      var n := ParseNegotiate(buf.data);
      if n.Err? {
        phase := Closed;
        return;
      }
      var _ := SendData(NegotiatePdu(h.value.pduRef, n.value), out);
      phase := Serving(Accepted(n.value));
    }

    /** The server loop: handles every complete frame that has arrived. */
    method Serve(incoming: Buffer, outgoing: Buffer)
      requires incoming != outgoing
      modifies this, store, incoming, outgoing
      ensures var p := Run(old(phase), old(store.State()), old(incoming.data));
              && phase == p.phase && store.State() == p.plant
              && outgoing.data == old(outgoing.data) + p.output && incoming.data == p.unread
    {
      hide OnFrame, NextFrame, Run;
      ghost var sent := [];
      while phase != Closed
        invariant outgoing.data == old(outgoing.data) + sent
        invariant RunAfter(sent, phase, store.State(), incoming.data)
               == Run(old(phase), old(store.State()), old(incoming.data))
        decreases |incoming.data|, phase != Closed
      {
        RunUnfold(sent, phase, store.State(), incoming.data);
        var arrival := TakeFrame(incoming);
        match arrival
        case Blocked =>
          return;
        case Broken =>
          phase := Closed;
        case Frame(cotp, _) =>
          sent := sent + OnFrame(phase, store.State(), cotp).output;
          Receive(cotp, outgoing);
      }
      RunUnfold(sent, phase, store.State(), incoming.data);
    }
  }
}
