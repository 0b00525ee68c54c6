/** The bytes on the wire, spelled out: what each message looks like, and exactly which bytes are taken for one. */
module Formats {
  import opened Bytes
  import opened Framing
  import opened S7Header
  import opened VarCodec
  import opened Store
  import opened Plc
  import opened MultiVar
  import opened Client
  import opened Vlq
  import opened Integrity
  import opened Clock
  import PartnerWire
  import Szl

  // -- Numbers ----------------------------------------------------------------------------------

  // Numbers go out with their high byte first.

  lemma Word(v: u16)
    ensures Be16(v) == [v / 0x100, v % 0x100]
  {
  }

  lemma LongWord(w: u32)
    ensures Be32(w) == Be16(w / 0x1_0000) + Be16(w % 0x1_0000)
  {
    hide Be16;
    SameWords();
    assert Words(w / 0x1_0000, w % 0x1_0000) == w;
  }

  lemma ThreeBytes(n: nat)
    ensures var low := n % 0x100_0000; Be24(n) == [low / 0x1_0000] + Be16(low % 0x1_0000)
  {
    hide Be16;
    var low := n % 0x100_0000;
    SameWords();
    assert Words(low / 0x1_0000, low % 0x1_0000) == low;
  }

  /** Bitwise or, bit by bit. */
  lemma OrIsBitwise(a: nat, b: nat)
    ensures (Or(a, b) % 2 == 1 <==> a % 2 == 1 || b % 2 == 1) && Or(a, b) / 2 == Or(a / 2, b / 2)
  {
    hide Or;
    OrUnfolds(a, b);
  }

  lemma OrUnfolds(a: nat, b: nat)
    ensures Or(a, b) == 2 * Or(a / 2, b / 2) + (if a % 2 == 1 || b % 2 == 1 then 1 else 0)
  {
    assert Or(0, b / 2) == b / 2 && Or(a / 2, 0) == a / 2;
  }

  lemma CodeTables()
    ensures [PduCode(Job), PduCode(Ack), PduCode(AckData), PduCode(UserData)] == [0x01, 0x02, 0x03, 0x07]
    ensures [AreaCode(PeripheralInput), AreaCode(ProcessInput), AreaCode(ProcessOutput), AreaCode(Marker),
             AreaCode(DataBlock), AreaCode(InstanceDB), AreaCode(LocalData), AreaCode(CounterArea), AreaCode(TimerArea)]
         == [0x80, 0x81, 0x82, 0x83, 0x84, 0x85, 0x86, 0x1C, 0x1D]
    ensures [TransportCode(Bit), TransportCode(Byte), TransportCode(Char), TransportCode(TransportSize.Word),
             TransportCode(Int), TransportCode(DWord), TransportCode(DInt), TransportCode(Real), TransportCode(Date),
             TransportCode(Tod), TransportCode(Time), TransportCode(S5Time), TransportCode(DtL), TransportCode(Counter),
             TransportCode(Timer)]
         == [0x01, 0x02, 0x03, 0x04, 0x05, 0x06, 0x07, 0x08, 0x09, 0x0A, 0x0B, 0x0C, 0x0F, 0x1C, 0x1D]
  {
  }

  // -- Frames -----------------------------------------------------------------------------------

  lemma DataFrame(payload: seq<u8>)
    ensures Sendable(payload) <==> |payload| <= 65528
    ensures Sendable(payload) ==>
              FrameBytes(payload) == [0x03, 0x00] + Be16(7 + |payload|) + [0x02, 0xF0, 0x80] + payload
  {
    hide Be16;
  }

  /** The frames of the handshake: request, confirmation, rejection. */
  lemma ConnectFrames(dst: u16, src: u16, rack: u8, slot: u8, cause: u8)
    ensures CotpBytes(ConnectRequest(dst, src, rack, slot))
         == [0x11, 0xE0] + Be16(dst) + Be16(src)
            + [0x00, 0xC1, 0x02, 0x01, 0x00, 0xC2, 0x02, 0x01, rack % 8 * 32 + slot % 32, 0xC0, 0x01, 0x0A]
    ensures CotpBytes(ConnectConfirm(dst, src)) == [0x06, 0xD0] + Be16(dst) + Be16(src) + [0x00]
    ensures CotpBytes(Reject(dst, src, cause)) == [0x06, 0x70] + Be16(dst) + Be16(src) + [cause]
  {
    hide Be16;
  }

  lemma NegotiateFrames(pduRef: u16, n: Negotiate, wish: u16)
    ensures NegotiateRequest(wish)
         == [0x32, 0x01, 0x00, 0x00] + Be16(1) + Be16(8) + Be16(0) + [0xF0, 0x00] + Be16(1) + Be16(1) + Be16(wish)
    ensures NegotiatePdu(pduRef, n)
         == [0x32, 0x03, 0x00, 0x00] + Be16(pduRef) + Be16(8) + Be16(0) + [0x00, 0x00, 0xF0, 0x00]
            + Be16(n.maxAmqCalling) + Be16(n.maxAmqCalled) + Be16(if n.pduLength < 480 then n.pduLength else 480)
  {
    hide Be16;
    Zero();
  }

  lemma Zero()
    ensures Be16(0) == [0x00, 0x00]
  {
  }

  // -- Requests ---------------------------------------------------------------------------------

  /** Twelve bytes per address; timers and counters go by element, everything else by bit. */
  lemma AddressFormat(a: AddressItem)
    ensures AddressBytes(a)
         == [0x12, 0x0A, 0x10, TransportCode(a.transport)] + Be16(a.length) + Be16(a.dbNumber) + [AreaCode(a.area)]
            + Be24(if a.transport == Timer || a.transport == Counter then a.start
                   else Or(a.start * 8 % 0x1_0000_0000, a.bitOffset))
  {
    hide Be16, Be24, Or;
  }

  /** A data item: two lead bytes, its length in bits, its bytes, and a zero after an odd number of them. */
  lemma ChunkFormat(c: Chunk)
    ensures ChunkBytes(c)
         == [c.lead, c.transport] + Be16(|c.data| * 8 % 0x1_0000) + c.data + (if |c.data| % 2 == 1 then [0x00] else [])
  {
    hide Be16, Low16;
    Low16IsRemainder(|c.data| * 8);
  }

  /** The request for one item, for every data block, start and length. */
  lemma ReadFormat(pduRef: u16, item: MultiReadItem)
    ensures ReadPdu(pduRef, [item])
         == [0x32, 0x01] + Be16(0) + Be16(pduRef) + Be16(14) + Be16(0)
            + ([0x04, 0x01] + ([0x12, 0x0A, 0x10, 0x02] + Be16(item.length) + Be16(item.dbNumber)
                               + [AreaCode(item.area)] + Be24(item.start * 8 % 0x1_0000_0000)))
  {
    hide Be16, Be24, Or, AddressBytes, Low16, RequestPdu;
    var a := ReadAddress(item);
    AddressFormat(a);
    NothingToOr(item.start * 8 % 0x1_0000_0000);
    assert Map(ReadAddress, [item]) == [a];
    OnePart(AddressBytes, a);
    RequestFormat(Job, pduRef, ReadRequestBytes([a]));
  }

  lemma SmallWord(n: nat)
    requires n < 0x1_0000
    ensures Low16(n) == n
  {
  }

  lemma RequestFormat(t: PduType, pduRef: u16, param: seq<u8>)
    ensures RequestPdu(t, pduRef, param, [])
         == [0x32, PduCode(t)] + Be16(0) + Be16(pduRef) + Be16(|param| % 0x1_0000) + Be16(0) + param
  {
    hide Be16, Low16;
    Low16IsRemainder(|param|);
    SmallWord(0);
    assert param + [] == param;
  }

  /** The request that writes one item: the address carries the length of the data in bytes. */
  lemma WriteFormat(pduRef: u16, item: MultiWriteItem)
    ensures var n := |item.data|;
            WritePdu(pduRef, [item])
            == [0x32, 0x01] + Be16(0) + Be16(pduRef) + Be16((18 + n + n % 2) % 0x1_0000) + Be16(0)
               + ([0x05, 0x01]
                  + ([0x12, 0x0A, 0x10, 0x02] + Be16(n % 0x1_0000) + Be16(item.dbNumber)
                     + [AreaCode(item.area)] + Be24(item.start * 8 % 0x1_0000_0000))
                  + ([0x00, 0x02] + Be16(n * 8 % 0x1_0000) + item.data + (if n % 2 == 1 then [0x00] else [])))
  {
    hide Be16, Be24, Or, AddressBytes, ChunkBytes, Low16, WriteRequestBytes, RequestPdu;
    var w, c := WriteItemOf(item), Chunk(0x00, 0x02, item.data);
    OneWriteParts(w);
    Low16IsRemainder(|item.data|);
    AddressFormat(w.address);
    NothingToOr(item.start * 8 % 0x1_0000_0000);
    ChunkFormat(c);
    ChunkLength(c);
    RequestFormat(Job, pduRef, WriteRequestBytes([w]));
    assert Map(WriteItemOf, [item]) == [w];
  }

  lemma OneWriteParts(w: WriteItem)
    requires w.address.transport == Byte
    ensures WriteRequestBytes([w]) == [0x05, 0x01] + AddressBytes(w.address) + ChunkBytes(Chunk(0x00, 0x02, w.data))
  {
    hide AddressBytes, ChunkBytes;
    assert Addresses([w]) == [w.address] && WriteChunks([w]) == [Chunk(0x00, 0x02, w.data)];
    OnePart(AddressBytes, w.address);
    OnePart(ChunkBytes, Chunk(0x00, 0x02, w.data));
  }

  lemma ChunkLength(c: Chunk)
    ensures |ChunkBytes(c)| == 4 + |c.data| + |c.data| % 2
  {
    hide ChunkHead;
  }

  lemma OnePart<T>(f: T -> seq<u8>, x: T)
    ensures ConcatMap(f, [x]) == f(x)
  {
    assert [x][1..] == [];
    assert ConcatMap(f, [x]) == f(x) + ConcatMap(f, []) == f(x) + [] == f(x);
  }

  /** In a request of any size the addresses come first, one after another, behind the function and the count. */
  lemma AddressesComeFirst(items: seq<WriteItem>, addresses: seq<AddressItem>, k: nat)
    ensures k < |addresses| ==>
              var s := ReadRequestBytes(addresses);
              |s| == 2 + 12 * |addresses| && s[..2] == [0x04, |addresses| % 0x100]
              && s[2 + 12 * k..14 + 12 * k] == AddressBytes(addresses[k])
    ensures k < |items| ==>
              var s := WriteRequestBytes(items);
              |s| >= 2 + 12 * |items| && s[..2] == [0x05, |items| % 0x100]
              && s[2 + 12 * k..14 + 12 * k] == AddressBytes(items[k].address)
  {
    hide AddressBytes, ChunkBytes;
    if k < |addresses| {
      AddressAt(addresses, k);
    }
    if k < |items| {
      AddressAt(Addresses(items), k);
    }
  }

  lemma {:induction false} AddressAt(items: seq<AddressItem>, k: nat)
    requires k < |items|
    ensures var s := ConcatMap(AddressBytes, items);
            |s| == 12 * |items| && s[12 * k..12 * k + 12] == AddressBytes(items[k])
  {
    hide AddressBytes;
    AddressesSize(items);
    AddressesSize(items[1..]);
    if k > 0 {
      AddressAt(items[1..], k - 1);
    }
  }

  // -- Answers ----------------------------------------------------------------------------------

  /** The answers of the simulator other than those to reads of system status lists. */
  lemma AnswerFormats(pduRef: u16, func: u8, count: u8, data: seq<u8>, clock: ClockBytes)
    ensures ErrorPdu(pduRef) == [0x32, 0x03] + Be16(0) + Be16(pduRef) + Be16(0) + Be16(0) + [0x81, 0x04]
    ensures SimpleAck(pduRef) == [0x32, 0x03] + Be16(0) + Be16(pduRef) + Be16(0) + Be16(0) + [0x00, 0x00]
    ensures ControlPdu(pduRef, func)
         == if func == 0x31
            then [0x32, 0x03] + Be16(0) + Be16(pduRef) + Be16(2) + Be16(1) + [0x00, 0x00, 0x31, 0x00, 0x08]
            else [0x32, 0x03] + Be16(0) + Be16(pduRef) + Be16(2) + Be16(0) + [0x00, 0x00, func, 0x00]
    ensures AckDataPdu(pduRef, func, count, data)
         == [0x32, 0x03] + Be16(0) + Be16(pduRef) + Be16(2) + Be16(|data| % 0x1_0000) + [0x00, 0x00, func, count] + data
    ensures ClockPdu(pduRef, clock)
         == [0x32, 0x07] + Be16(0) + Be16(pduRef) + Be16(12) + Be16(4)
            + [0x00, 0x01, 0x12, 0x08, 0x12, 0x87, 0x01, 0x00] + clock
  {
    hide Be16, Low16;
    Low16IsRemainder(|data|);
  }

  /** An item of a read answer carries 0xFF, the byte transport code, and what the store holds. */
  lemma ReadItemFormat(m: Memory, a: AddressItem)
    ensures var bytes := ReadBytes(m, AreaCode(a.area), a.dbNumber, a.start, a.length);
            ReadResponseBytes([ReadItem(m, a)])
            == [0xFF, 0x04] + Be16(|bytes| * 8 % 0x1_0000) + bytes + (if |bytes| % 2 == 1 then [0x00] else [])
  {
    hide Be16, ReadBytes, ChunkBytes;
    var item := ReadItem(m, a);
    assert ItemChunks([item]) == [ItemChunk(item)];
    OnePart(ChunkBytes, ItemChunk(item));
    ChunkFormat(ItemChunk(item));
  }

  /** A payload without a readable header is answered under reference 0. */
  lemma UnreadableIsRefused(payload: seq<u8>, plant: Plant)
    requires ParseHeader(payload).Err?
    ensures Respond(payload, plant) == Reply([0x32, 0x03, 0, 0, 0, 0, 0, 0, 0, 0, 0x81, 0x04], plant)
  {
    hide Be16, ParseHeader;
    Zero();
  }

  /** How user data is answered: only method 0x11 is served, group 7 is the clock, sub-function 2 sets it. */
  lemma UserDataAnswers(payload: seq<u8>, plant: Plant)
    requires ParseHeader(payload).Ok?
    requires ParseHeader(payload).value.0.pduType == UserData && ParseHeader(payload).value.1 != []
    ensures var (h, body) := ParseHeader(payload).value;
            Respond(payload, plant)
            == if |body| < 5 || body[4] != 0x11 then Reply(SimpleAck(h.pduRef), plant)
               else if |body| >= 6 && body[5] % 16 == 7 then
                 if |body| >= 7 && body[6] == 2 then
                   Reply(SimpleAck(h.pduRef), if |body| >= 20 then plant.(clock := body[12..20]) else plant)
                 else Reply(ClockPdu(h.pduRef, plant.clock), plant)
               else Reply(SzlPdu(h.pduRef, body), plant)
  {
    hide ParseHeader, SimpleAck, ClockPdu, SzlPdu;
  }

  /** The answer to a request for a status list repeats the first twelve bytes and then holds the list. */
  lemma SzlFormat(pduRef: u16, body: seq<u8>)
    ensures var table := Szl.Table(if |body| >= 14 then Number(body[12], body[13]) else 0);
            SzlPdu(pduRef, body)
            == [0x32, 0x03] + Be16(0) + Be16(pduRef) + Be16(12) + Be16(|table|) + [0x00, 0x00]
               + (if |body| >= 12 then body[..12] else [0, 0, 0, 0, 0, 0, 0, 0, 0, 0, 0, 0])
               + [0xFF, 0x04] + Be16(|table|) + table
  {
    hide Be16, Low16, Szl.Table;
    SmallWord(|Szl.Table(if |body| >= 14 then Number(body[12], body[13]) else 0)|);
    assert Szl.Filled(12, 0) == [0, 0, 0, 0, 0, 0, 0, 0, 0, 0, 0, 0];
  }

  // -- What is taken for a message ----------------------------------------------------------------

  function Number(hi: u8, lo: u8): nat { hi as int * 256 + lo }

  /** A frame needs four bytes, version 3, and a length of at least four. */
  lemma FramesTaken(s: seq<u8>)
    ensures NextFrame(s).Broken? <==> |s| >= 4 && (s[0] != 3 || Number(s[2], s[3]) < 4)
    ensures NextFrame(s).Frame? <==> |s| >= 4 && s[0] == 3 && 4 <= Number(s[2], s[3]) <= |s|
    ensures NextFrame(s).Frame? ==>
              NextFrame(s).cotp == s[4..Number(s[2], s[3])] && NextFrame(s).rest == s[Number(s[2], s[3])..]
    ensures ParseTpkt(s) == if |s| < 4 then Err(BufferTooShort(4, |s|))
                            else if s[0] != 3 then Err(InvalidMagic(3, s[0]))
                            else if Number(s[2], s[3]) < 4 then Err(BufferTooShort(4, Number(s[2], s[3])))
                            else if |s| < Number(s[2], s[3]) then Err(BufferTooShort(Number(s[2], s[3]), |s|))
                            else Ok((s[4..Number(s[2], s[3])], s[Number(s[2], s[3])..]))
  {
  }

  /** A transport PDU is known by its second byte, and has a least length. */
  lemma CotpTaken(s: seq<u8>)
    ensures ParseCotp(s).Ok? <==>
              && |s| >= 2
              && (|| ((s[1] == 0xE0 || s[1] == 0xD0) && |s| >= 7) || (s[1] == 0xF0 && |s| >= 3)
                  || (s[1] == 0x70 && |s| >= 6))
    ensures |s| >= 3 && s[1] == 0xF0 ==> ParseCotp(s) == Ok(Data(s[2] % 0x80, s[2] >= 0x80, s[3..]))
    ensures |s| >= 7 && s[1] == 0xD0 ==> ParseCotp(s) == Ok(ConnectConfirm(Number(s[2], s[3]), Number(s[4], s[5])))
    ensures |s| >= 6 && s[1] == 0x70 ==>
              ParseCotp(s) == Ok(Reject(Number(s[2], s[3]), Number(s[4], s[5]), if |s| > 6 then s[6] else 0))
    ensures |s| >= 7 && s[1] == 0xE0 ==>
              && ParseCotp(s).value.ConnectRequest?
              && ParseCotp(s).value.dstRef == Number(s[2], s[3]) && ParseCotp(s).value.srcRef == Number(s[4], s[5])
    ensures |s| >= 2 && s[1] !in {0xE0, 0xD0, 0xF0, 0x70} ==> ParseCotp(s) == Err(UnsupportedPduType(s[1]))
  {
    hide ScanParams;
  }

  /** A header needs ten bytes, 0x32 and a known type; an acknowledgement takes two error bytes if they are there. */
  lemma HeadersTaken(s: seq<u8>)
    ensures ParseHeader(s).Ok? <==> |s| >= 10 && s[0] == 0x32 && s[1] in {0x01, 0x02, 0x03, 0x07}
    ensures ParseHeader(s).Ok? ==>
              var (h, rest) := ParseHeader(s).value;
              && PduCode(h.pduType) == s[1] && h.reserved == Number(s[2], s[3]) && h.pduRef == Number(s[4], s[5])
              && h.paramLen == Number(s[6], s[7]) && h.dataLen == Number(s[8], s[9])
              && (if (s[1] == 0x02 || s[1] == 0x03) && |s| >= 12
                  then h.errorClass == Some(s[10]) && h.errorCode == Some(s[11]) && rest == s[12..]
                  else h.errorClass == None && h.errorCode == None && rest == s[10..])
  {
  }

  /** An address needs twelve bytes, two marks and two known codes; its low three bits are a bit offset. */
  lemma AddressesTaken(s: seq<u8>)
    ensures ParseAddress(s).Ok? <==>
              |s| >= 12 && s[0] == 0x12 && s[2] == 0x10 && TransportOf(s[3]).Ok? && AreaOf(s[8]).Ok?
    ensures ParseAddress(s).Ok? ==>
              var a, bits := ParseAddress(s).value, (s[9] as int * 256 + s[10]) * 256 + s[11];
              && TransportCode(a.transport) == s[3] && AreaCode(a.area) == s[8]
              && a.length == Number(s[4], s[5]) && a.dbNumber == Number(s[6], s[7])
              && a.start == bits / 8 && a.bitOffset == bits % 8
  {
    hide AreaOf, TransportOf;
  }

  /** The function byte and the count come first. */
  lemma RequestsTaken(s: seq<u8>)
    ensures |s| < 2 ==> ParseReadRequest(s) == Err(BufferTooShort(2, |s|))
    ensures |s| < 2 ==> ParseWriteRequest(s) == Err(BufferTooShort(2, |s|))
    ensures |s| >= 2 && s[0] != 0x04 ==> ParseReadRequest(s) == Err(UnsupportedFunction(s[0]))
    ensures |s| >= 2 && s[0] != 0x05 ==> ParseWriteRequest(s) == Err(UnsupportedFunction(s[0]))
    ensures ParseReadRequest(s).Ok? ==> |ParseReadRequest(s).value| == s[1]
    ensures ParseNegotiate(s).Ok? <==> |s| >= 8 && s[0] == 0xF0
    ensures ParseNegotiate(s).Ok? ==>
              ParseNegotiate(s).value == Negotiate(Number(s[2], s[3]), Number(s[4], s[5]), Number(s[6], s[7]))
  {
    if |s| >= 2 {
      AddressCount(s[2..], s[1], []);
    }
  }

  lemma {:induction false} AddressCount(s: seq<u8>, n: nat, acc: seq<AddressItem>)
    ensures ParseAddresses(s, n, acc).Ok? ==> |ParseAddresses(s, n, acc).value.0| == |acc| + n
    decreases n
  {
    hide ParseAddress;
    if n > 0 && ParseAddress(s).Ok? {
      AddressCount(s[12..], n - 1, acc + [ParseAddress(s).value]);
    }
  }

  /** A data item needs its four head bytes and as many bytes as its bits fill. */
  lemma ChunksTaken(s: seq<u8>, n: nat)
    requires |s| >= 4 ==> n == (Number(s[2], s[3]) + 7) / 8
    ensures ParseChunk(s).Ok? <==> |s| >= 4 && |s| >= 4 + n
    ensures ParseChunk(s).Ok? ==>
              ParseChunk(s).value.0 == Chunk(s[0], s[1], s[4..4 + n])
              && ParseChunk(s).value.1 == (if n % 2 == 1 && |s| > 4 + n then s[5 + n..] else s[4 + n..])
  {
    hide U16;
    if |s| >= 4 {
      HeadNumber(s[2], s[3]);
    }
  }

  lemma HeadNumber(hi: u8, lo: u8)
    ensures U16(hi, lo) == Number(hi, lo)
  {
  }

  /** The handshake goes on only with a connect request, and then with a job that negotiates; all else closes it. */
  lemma HandshakeSteps(plant: Plant, cotp: seq<u8>)
    ensures var o := OnFrame(AwaitConnect, plant, cotp);
            && o.plant == plant
            && (if |cotp| >= 7 && cotp[1] == 0xE0 then
                  && o.phase == AwaitNegotiate
                  && o.output == TpktBytes([0x06, 0xD0] + Be16(Number(cotp[4], cotp[5])) + Be16(1) + [0x00])
                else o.phase == Closed && o.output == [])
    ensures var o := OnFrame(AwaitNegotiate, plant, cotp);
            && o.plant == plant
            && (o.phase.Serving? <==>
                  && |cotp| >= 13 && cotp[1] == 0xF0 && cotp[3] == 0x32 && cotp[4] == 0x01
                  && |cotp| >= 21 && cotp[13] == 0xF0)
            && (!o.phase.Serving? ==> o.phase == Closed && o.output == [])
  {
    hide Be16, ParseHeader, ParseNegotiate, ScanParams, NegotiatePdu, FrameBytes;
    CotpTaken(cotp);
    if |cotp| >= 3 {
      HeadersTaken(cotp[3..]);
      if |cotp| >= 13 {
        RequestsTaken(cotp[13..]);
        assert cotp[3..][10..] == cotp[13..];
      }
    }
  }

  // -- Dates, quantities, tails ---------------------------------------------------------------------

  /** Each byte of a date shows two decimal digits of its field; the last one shows a digit and the weekday. */
  lemma DateDigits(dt: PlcDateTime)
    requires dt.month < 100 && dt.day < 100 && dt.hour < 100 && dt.minute < 100 && dt.second < 100
    requires dt.millisecond < 1000 && dt.weekday < 16
    ensures var s := DateBytes(dt);
            && Shown(s[0], dt.year % 100) && Shown(s[1], dt.month) && Shown(s[2], dt.day) && Shown(s[3], dt.hour)
            && Shown(s[4], dt.minute) && Shown(s[5], dt.second) && Shown(s[6], dt.millisecond / 10)
            && s[7] / 16 == dt.millisecond % 10 && s[7] % 16 == dt.weekday
  {
    hide ToBcd;
    BcdDigits(dt.year % 100);
    BcdDigits(dt.month);
    BcdDigits(dt.day);
    BcdDigits(dt.hour);
    BcdDigits(dt.minute);
    BcdDigits(dt.second);
    BcdDigits(dt.millisecond / 10);
  }

  predicate Shown(b: u8, v: nat) { b / 16 == v / 10 && b % 16 == v % 10 }

  lemma BcdDigits(v: u8)
    requires v < 100
    ensures Shown(ToBcd(v), v)
  {
  }

  /** Seven bits to a byte, high bits first, the top bit set on all bytes but the last. */
  lemma VlqFormat(v: nat)
    ensures v < 0x80 ==> VlqBytes(v) == [v]
    ensures 0x80 <= v < 0x4000 ==> VlqBytes(v) == [0x80 + v / 0x80, v % 0x80]
    ensures 0x4000 <= v < 0x20_0000 ==> VlqBytes(v) == [0x80 + v / 0x80 / 0x80, 0x80 + v / 0x80 % 0x80, v % 0x80]
  {
    if 0x80 <= v < 0x20_0000 {
      var q := v / 0x80;
      assert Flagged(q) == Flagged(q / 0x80) + [q % 0x80 + 0x80];
      if v >= 0x4000 {
        assert Flagged(q / 0x80) == Flagged(q / 0x80 / 0x80) + [q / 0x80 % 0x80 + 0x80] == [q / 0x80 + 0x80];
      }
    }
  }

  lemma TailFormat(mac: Mac, data: seq<u8>, id: u32)
    ensures Protected(mac, data, id) == data + VlqBytes(id) + [0x20] + mac(data) && |mac(data)| == 32
  {
  }

  // -- Partners -------------------------------------------------------------------------------------

  /** A fragment, an acknowledgement and the framing around both. */
  lemma PartnerFormats(m: PartnerWire.Message, offset: nat, end: nat, first: bool, seqNo: u8, idSeq: u8, pduRef: u16)
    requires offset < end <= |m.data|
    ensures var n := end - offset + (if first then 2 else 0);
            PartnerWire.FragmentFrame(m, offset, end, first, seqNo, idSeq, pduRef)
            == [0x32, 0x07, 0x00, 0x00] + Be16(pduRef) + Be16(12) + Be16((12 + n) % 0x1_0000)
               + [0x00, 0x01, 0x12, 0x08, 0x12, 0x46, 0x01, seqNo, idSeq, if end == |m.data| then 0x00 else 0x01]
               + Be16(0)
               + [0xFF, 0x09] + Be16((8 + n) % 0x1_0000) + [0x12, 0x06, 0x13, 0x00] + Be32(m.id)
               + (if first then Be16(|m.data| % 0x1_0000) else []) + m.data[offset..end]
    ensures PartnerWire.AckFrame(seqNo, pduRef)
         == [0x32, 0x07, 0x00, 0x00] + Be16(pduRef) + Be16(12) + Be16(4)
            + [0x00, 0x01, 0x12, 0x08, 0x12, 0x86, 0x01, seqNo, 0x00, 0x00] + Be16(0) + [0x0A, 0x00, 0x00, 0x00]
  {
    hide Be16, Be32, Low16;
    var n := end - offset + (if first then 2 else 0);
    Low16IsRemainder(12 + n);
    Low16IsRemainder(8 + n);
    Low16IsRemainder(|m.data|);
  }

  lemma PartnerFraming(payload: seq<u8>)
    ensures PartnerWire.Iso(payload) == [0x03, 0x00] + Be16((7 + |payload|) % 0x1_0000) + [0x02, 0xF0, 0x80] + payload
  {
    hide Be16, Low16;
    Low16IsRemainder(7 + |payload|);
  }
}
