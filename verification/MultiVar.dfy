/** What one batch of a multi-variable call does on the wire and at the PLC. */
module MultiVar {
  import opened Bytes
  import opened Framing
  import opened S7Header
  import opened VarCodec
  import opened Store
  import opened Plc
  import opened Batching
  import DispatchRuns
  import Szl

  datatype MultiReadItem = MultiReadItem(area: Area, dbNumber: u16, start: u32, length: u16, transport: TransportSize)

  datatype MultiWriteItem = MultiWriteItem(area: Area, dbNumber: u16, start: u32, data: seq<u8>)

  /** The request a client sends: header, parameters, data. */
  function RequestPdu(t: PduType, pduRef: u16, param: seq<u8>, data: seq<u8>): seq<u8> {
    HeaderBytes(Header(t, 0, pduRef, Low16(|param|), Low16(|data|), None, None)) + (param + data)
  }

  lemma RequestArrives(t: PduType, pduRef: u16, param: seq<u8>, data: seq<u8>)
    requires !Acknowledges(t)
    ensures ParseHeader(RequestPdu(t, pduRef, param, data))
         == Ok((Header(t, 0, pduRef, Low16(|param|), Low16(|data|), None, None), param + data))
    ensures |RequestPdu(t, pduRef, param, data)| == 10 + |param| + |data|
  {
    hide Low16, ParseHeader, HeaderBytes;
    PlainHeaderSize(Header(t, 0, pduRef, Low16(|param|), Low16(|data|), None, None));
    HeaderRoundTrip(Header(t, 0, pduRef, Low16(|param|), Low16(|data|), None, None), param + data);
  }

  lemma PlainHeaderSize(h: Header)
    requires h.errorClass.None?
    ensures |HeaderBytes(h)| == 10
  {
  }

  /** A framed payload is the only frame in its stream, and the PLC answers it at once. */
  lemma OneFrame(size: u16, plant: Plant, pdu: seq<u8>)
    requires Sendable(pdu)
    ensures var r := Respond(pdu, plant);
            Run(Serving(size), plant, FrameBytes(pdu))
            == if Sendable(r.pdu) then Progress(Serving(size), r.plant, FrameBytes(r.pdu), [])
               else Progress(Closed, r.plant, [], [])
  {
    hide Respond;
    var cotp := CotpBytes(DataPdu(pdu));
    var s := FrameBytes(pdu);
    CotpRoundTrip(DataPdu(pdu));
    TpktRoundTrip(cotp, []);
    assert s + [] == s;
    assert NextFrame(s) == Frame(cotp, []);
    assert ParseCotp(cotp) == Ok(DataPdu(pdu));
    var o := OnFrame(Serving(size), plant, cotp);
    assert Run(o.phase, o.plant, []) == Progress(o.phase, o.plant, [], []);
    assert o.output + [] == o.output;
  }

  // -- Reading -----------------------------------------------------------------

  function ReadAddress(item: MultiReadItem): AddressItem {
    AddressItem(item.area, item.dbNumber, item.start, 0, item.length, Byte)
  }

  function ReadPdu(pduRef: u16, batch: seq<MultiReadItem>): seq<u8> {
    RequestPdu(Job, pduRef, ReadRequestBytes(Map(ReadAddress, batch)), [])
  }

  /** What an item reads: 21 bits of its start and 13 bits of its length reach the wire. */
  function WireRead(m: Memory, item: MultiReadItem): seq<u8> {
    ReadBytes(m, AreaCode(item.area), item.dbNumber, item.start % 0x20_0000, WireLen(item.length))
  }

  function Replies(m: Memory, batch: seq<MultiReadItem>): seq<DataItem> {
    Map(item => DataItem(0xFF, WireRead(m, item)), batch)
  }

  function ReplyItemSize(item: MultiReadItem): nat { 4 + PaddedSize(item.length) }

  function ReplySize(batch: seq<MultiReadItem>): nat {
    if batch == [] then 0 else ReplyItemSize(batch[0]) + ReplySize(batch[1..])
  }

  /** The data section of the PLC's answer. */
  function ReplyData(m: Memory, batch: seq<MultiReadItem>): seq<u8> {
    ReadResponseBytes(ReadItems(m, WireAddresses(Map(ReadAddress, batch))))
  }

  /** A batch whose answer survives: no oversized item, or one alone. */
  predicate Decodable(batch: seq<MultiReadItem>) {
    |batch| == 1 || forall i :: 0 <= i < |batch| ==> batch[i].length < 0x2000
  }

  lemma ReadAnswer(pduRef: u16, batch: seq<MultiReadItem>, plant: Plant)
    requires 1 <= |batch| <= MAX_ITEMS_PER_PDU
    ensures Sendable(ReadPdu(pduRef, batch)) && |ReadPdu(pduRef, batch)| == 12 + 12 * |batch|
    ensures Respond(ReadPdu(pduRef, batch), plant)
         == Reply(AckDataPdu(pduRef, FUNC_READ_VAR, |batch|, ReplyData(plant.memory, batch)), plant)
  {
    hide ReadResponseBytes, ReadItems, ParseReadRequest, WireAddresses, RequestPdu, AckDataPdu, ParseHeader, ConcatMap,
         AddressBytes, ParseWriteRequest, WriteAll;
    var addresses := Map(ReadAddress, batch);
    var param := ReadRequestBytes(addresses);
    AddressesSize(addresses);
    RequestArrives(Job, pduRef, param, []);
    assert param + [] == param;
    ReadRequestRoundTrip(addresses);
    assert addresses[..|addresses| % 0x100] == addresses;
  }

  lemma WireReadAddress(item: MultiReadItem)
    ensures WireAddress(ReadAddress(item)) == ReadAddress(item).(start := item.start % 0x20_0000)
  {
    PlainStart(ReadAddress(item));
  }

  lemma {:induction false} ReplyDataSize(m: Memory, batch: seq<MultiReadItem>)
    ensures |ReplyData(m, batch)| == ReplySize(batch)
  {
    hide WireAddress, PaddedSize;
    var addresses := WireAddresses(Map(ReadAddress, batch));
    DispatchRuns.ReadResponseSize(m, addresses);
    AddressesReplySize(batch);
  }

  lemma {:induction false} AddressesReplySize(batch: seq<MultiReadItem>)
    ensures DispatchRuns.ResponseSize(WireAddresses(Map(ReadAddress, batch))) == ReplySize(batch)
  {
    hide WireAddress, PaddedSize;
    if batch != [] {
      var addresses := WireAddresses(Map(ReadAddress, batch));
      WireReadAddress(batch[0]);
      AddressesReplySize(batch[1..]);
      assert addresses[1..] == WireAddresses(Map(ReadAddress, batch[1..]));
    }
  }

  /** Cutting a read short is the same as asking for less. */
  lemma ReadPrefix(m: Memory, area: u8, db: u16, start: u32, count: nat, n: nat)
    requires n <= count && start + count <= LAST_OFFSET
    ensures ReadBytes(m, area, db, start, count)[..n] == ReadBytes(m, area, db, start, n)
  {
  }

  lemma ReplyDecodes(m: Memory, batch: seq<MultiReadItem>)
    requires Decodable(batch)
    ensures ParseReadResponse(ReplyData(m, batch), |batch|) == Ok(Replies(m, batch))
  {
    hide ReadResponseBytes, ParseReadResponse, WireAddress, ReadBytes;
    var items := ReadItems(m, WireAddresses(Map(ReadAddress, batch)));
    forall i | 0 <= i < |batch|
      ensures |items[i].data| == batch[i].length && WireItems(items)[i] == Replies(m, batch)[i]
    {
      ReplyItem(m, batch[i]);
      assert items[i] == ReadItem(m, WireAddress(ReadAddress(batch[i])));
    }
    ReadResponseRoundTrip(items);
    assert WireItems(items) == Replies(m, batch);
  }

  lemma ReplyItem(m: Memory, item: MultiReadItem)
    ensures var data := ReadItem(m, WireAddress(ReadAddress(item))).data;
            |data| == item.length && data[..WireLen(item.length)] == WireRead(m, item)
  {
    hide WireAddress;
    WireReadAddress(item);
    ReadPrefix(m, AreaCode(item.area), item.dbNumber, item.start % 0x20_0000, item.length, WireLen(item.length));
  }

  // -- Writing -----------------------------------------------------------------

  function WriteItemOf(item: MultiWriteItem): WriteItem {
    WriteItem(AddressItem(item.area, item.dbNumber, item.start, 0, Low16(|item.data|), Byte), item.data)
  }

  function WritePdu(pduRef: u16, batch: seq<MultiWriteItem>): seq<u8> {
    RequestPdu(Job, pduRef, WriteRequestBytes(Map(WriteItemOf, batch)), [])
  }

  /** What an item writes: again 21 bits of the start, and the data length modulo 8192. */
  function WireWriteOf(item: MultiWriteItem): AreaWrite {
    AreaWrite(AreaCode(item.area), item.dbNumber, item.start % 0x20_0000, item.data[..WireLen(|item.data|)])
  }

  function RequestItemSize(item: MultiWriteItem): nat { 16 + PaddedSize(|item.data|) }

  function RequestSize(batch: seq<MultiWriteItem>): nat {
    if batch == [] then 0 else RequestItemSize(batch[0]) + RequestSize(batch[1..])
  }

  predicate Writable(batch: seq<MultiWriteItem>) {
    |batch| == 1 || forall i :: 0 <= i < |batch| ==> |batch[i].data| < 0x2000
  }

  lemma {:induction false} WriteChunksSize(batch: seq<MultiWriteItem>)
    ensures ChunksSize(WriteChunks(Map(WriteItemOf, batch))) + 12 * |batch| == RequestSize(batch)
  {
    hide PaddedSize;
    if batch != [] {
      WriteChunksSize(batch[1..]);
      assert WriteChunks(Map(WriteItemOf, batch))[1..] == WriteChunks(Map(WriteItemOf, batch[1..]));
    }
  }

  lemma WritePduSize(pduRef: u16, batch: seq<MultiWriteItem>)
    ensures |WritePdu(pduRef, batch)| == 12 + RequestSize(batch)
  {
    hide RequestPdu, Low8, ChunkBytes, AddressBytes, ChunksSize, RequestSize;
    var items := Map(WriteItemOf, batch);
    AddressesSize(Addresses(items));
    ChunksBytesSize(WriteChunks(items));
    WriteChunksSize(batch);
    RequestArrives(Job, pduRef, WriteRequestBytes(items), []);
  }

  lemma WriteArrives(item: MultiWriteItem)
    ensures ItemWrite(WireWrite(WriteItemOf(item))) == WireWriteOf(item)
  {
    PlainStart(WriteItemOf(item).address);
  }

  lemma WriteAnswer(pduRef: u16, batch: seq<MultiWriteItem>, plant: Plant)
    requires 1 <= |batch| <= MAX_ITEMS_PER_PDU && Writable(batch)
    ensures Respond(WritePdu(pduRef, batch), plant)
         == Reply(AckDataPdu(pduRef, FUNC_WRITE_VAR, |batch|, Szl.Filled(|batch|, 0xFF)),
                  WriteAll(plant, Map(WireWriteOf, batch)))
  {
    hide ParseWriteRequest, RequestPdu, AckDataPdu, ParseHeader, WriteAll, WireWrite, ItemWrite, WireWriteOf, ConcatMap,
         AddressBytes, ChunkBytes, ParseReadRequest, ReadItems, ReadResponseBytes;
    var items := Map(WriteItemOf, batch);
    var param := WriteRequestBytes(items);
    RequestArrives(Job, pduRef, param, []);
    assert param + [] == param;
    WriteRequestRoundTrip(items);
    forall i | 0 <= i < |batch| ensures ItemWrite(WireWrites(items)[i]) == WireWriteOf(batch[i]) {
      WriteArrives(batch[i]);
    }
    assert ItemWrites(WireWrites(items)) == Map(WireWriteOf, batch);
  }

  // -- Acknowledgements ----------------------------------------------------------

  lemma AckArrives(pduRef: u16, func: u8, count: u8, data: seq<u8>)
    ensures ParseHeader(AckDataPdu(pduRef, func, count, data))
         == Ok((AckHeader(pduRef, 2, Low16(|data|), 0, 0), [func, count] + data))
    ensures |AckDataPdu(pduRef, func, count, data)| == 14 + |data|
  {
    hide Low16, ParseHeader, HeaderBytes;
    DispatchRuns.AckSize(pduRef, 2, Low16(|data|), 0, 0);
    HeaderRoundTrip(AckHeader(pduRef, 2, Low16(|data|), 0, 0), [func, count] + data);
  }

  // -- The two batching rules ------------------------------------------------------

  /** What the ten header bytes and the two bytes of function and count leave of a PDU. */
  function Budget(pduSize: u16): nat { if pduSize > 12 then pduSize - 12 else 0 }

  function ReadRule(items: seq<MultiReadItem>, pduSize: u16): Rule {
    Rule(12, Budget(pduSize), Map(ReplyItemSize, items), Budget(pduSize))
  }

  function WriteRule(items: seq<MultiWriteItem>, pduSize: u16): Rule {
    Rule(0, 0, Map(RequestItemSize, items), Budget(pduSize))
  }

  lemma {:induction false} ReadSum(items: seq<MultiReadItem>, i: nat, j: nat)
    requires i <= j <= |items|
    ensures Sum(Map(ReplyItemSize, items), i, j) == ReplySize(items[i..j])
    decreases j - i
  {
    hide ReplyItemSize;
    if i < j {
      SumSplit(Map(ReplyItemSize, items), i, i + 1, j);
      ReadSum(items, i + 1, j);
      assert items[i..j][1..] == items[i + 1..j];
    }
  }

  lemma {:induction false} WriteSum(items: seq<MultiWriteItem>, i: nat, j: nat)
    requires i <= j <= |items|
    ensures Sum(Map(RequestItemSize, items), i, j) == RequestSize(items[i..j])
    decreases j - i
  {
    hide RequestItemSize;
    if i < j {
      SumSplit(Map(RequestItemSize, items), i, i + 1, j);
      WriteSum(items, i + 1, j);
      assert items[i..j][1..] == items[i + 1..j];
    }
  }

  lemma {:induction false} ReplyParts(batch: seq<MultiReadItem>, k: nat)
    requires k < |batch|
    ensures 4 + batch[k].length <= ReplyItemSize(batch[k]) <= ReplySize(batch)
  {
    if k > 0 {
      ReplyParts(batch[1..], k - 1);
    }
  }

  lemma {:induction false} RequestParts(batch: seq<MultiWriteItem>, k: nat)
    requires k < |batch|
    ensures 16 + |batch[k].data| <= RequestItemSize(batch[k]) <= RequestSize(batch)
  {
    if k > 0 {
      RequestParts(batch[1..], k - 1);
    }
  }

  /** The answer to a greedy read batch has fourteen bytes besides its items. With two or more items the request is
      within the PDU size and the answer within the PDU size plus two: the budget counts ten bytes for a header that has
      twelve in an acknowledgement. */
  lemma ReadBatchSize(items: seq<MultiReadItem>, pduSize: u16, i: nat, pduRef: u16, plant: Plant)
    requires i < |items|
    ensures var e := GreedyEnd(ReadRule(items, pduSize), i);
            var batch := items[i..e];
            && 1 <= |batch| <= MAX_ITEMS_PER_PDU
            && |ReadPdu(pduRef, batch)| == 12 + 12 * |batch|
            && |Respond(ReadPdu(pduRef, batch), plant).pdu| == 14 + ReplySize(batch)
            && (|batch| > 1 ==>
                  && |ReadPdu(pduRef, batch)| <= pduSize
                  && ReplySize(batch) <= pduSize - 12
                  && |Respond(ReadPdu(pduRef, batch), plant).pdu| <= pduSize + 2)
  {
    hide ReadPdu, ReplySize, Respond, AckDataPdu, ReplyData;
    var e := GreedyEnd(ReadRule(items, pduSize), i);
    var batch := items[i..e];
    ReadSum(items, i, e);
    ReadAnswer(pduRef, batch, plant);
    ReplyDataSize(plant.memory, batch);
    AckArrives(pduRef, FUNC_READ_VAR, |batch|, ReplyData(plant.memory, batch));
  }

  lemma WriteBatchSize(items: seq<MultiWriteItem>, pduSize: u16, i: nat, pduRef: u16)
    requires i < |items|
    ensures var e := GreedyEnd(WriteRule(items, pduSize), i);
            var batch := items[i..e];
            && 1 <= |batch| <= MAX_ITEMS_PER_PDU
            && |WritePdu(pduRef, batch)| == 12 + RequestSize(batch)
            && (|batch| > 1 ==> |WritePdu(pduRef, batch)| <= pduSize)
  {
    hide WritePdu, RequestSize;
    var e := GreedyEnd(WriteRule(items, pduSize), i);
    WriteSum(items, i, e);
    WritePduSize(pduRef, items[i..e]);
  }

  /** The two bytes are not theory: two reads of 230 bytes share a PDU of 480, and their answer has 482. */
  lemma ReadAnswerExceedsPdu(pduRef: u16, plant: Plant)
    ensures var item := MultiReadItem(DataBlock, 1, 0, 230, Byte);
            && GreedyEnd(ReadRule([item, item], 480), 0) == 2
            && |Respond(ReadPdu(pduRef, [item, item]), plant).pdu| == 482
  {
    hide ReadPdu, Respond, AckDataPdu, ReplyData;
    var item := MultiReadItem(DataBlock, 1, 0, 230, Byte);
    var batch := [item, item];
    assert ReplySize(batch) == 468 by {
      assert batch[1..] == [item] && [item][1..] == [];
      assert ReplySize([item]) == 234 + ReplySize([]);
    }
    ReadAnswer(pduRef, batch, plant);
    ReplyDataSize(plant.memory, batch);
    AckArrives(pduRef, FUNC_READ_VAR, 2, ReplyData(plant.memory, batch));
    var rule := ReadRule(batch, 480);
    assert Sum(rule.weights, 0, 1) == Sum(rule.weights, 0, 0) + 234;
    assert Sum(rule.weights, 0, 2) == 468;
    assert Fits(rule, 0, 1) && Fits(rule, 0, 2);
    assert Extend(rule, 0, 1) == Extend(rule, 0, 2) == 2;
  }
}
