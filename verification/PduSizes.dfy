/** Exactly when the requests and the answers of a batched call fit the PDU. */
module PduSizes {
  import opened Bytes
  import opened S7Header
  import opened VarCodec
  import opened Store
  import opened Plc
  import opened Batching
  import opened MultiVar
  import opened Client

  /** Every one of some PDUs is within a size. */
  predicate AllWithin(pdus: seq<seq<u8>>, size: nat) { forall k :: 0 <= k < |pdus| ==> |pdus[k]| <= size }

  lemma WithinCons(pdu: seq<u8>, rest: seq<seq<u8>>, size: nat)
    ensures AllWithin([pdu] + rest, size) <==> |pdu| <= size && AllWithin(rest, size)
  {
    var all := [pdu] + rest;
    assert all[0] == pdu;
    assert forall k :: 0 <= k < |rest| ==> rest[k] == all[k + 1];
  }

  // -- Answers to reads -----------------------------------------------------------------------

  /** What the simulator answers to some requests, none of which changes it. */
  function Answers(pdus: seq<seq<u8>>, plant: Plant): seq<seq<u8>> { Map(pdu => Respond(pdu, plant).pdu, pdus) }

  /** An item's answer fits a PDU of its own. */
  predicate HasRoom(item: MultiReadItem, pduSize: u16) { 18 + PaddedSize(item.length) <= pduSize }

  /** The greedy batch from item `i` on has several items, and its answer comes within two bytes of the budget. */
  predicate FillsBudget(items: seq<MultiReadItem>, pduSize: u16, i: nat)
    requires i < |items|
  {
    var e := GreedyEnd(ReadRule(items, pduSize), i);
    e - i > 1 && ReplySize(items[i..e]) + 2 > Budget(pduSize)
  }

  predicate NoneFills(items: seq<MultiReadItem>, pduSize: u16, i: nat)
    requires i <= |items|
    decreases |items| - i
  {
    || i == |items|
    || (!FillsBudget(items, pduSize, i) && NoneFills(items, pduSize, GreedyEnd(ReadRule(items, pduSize), i)))
  }

  /** One batch: its answer fits exactly if every item has room and the batch does not fill its budget. */
  lemma AnswerWithinPdu(items: seq<MultiReadItem>, pduSize: u16, i: nat, pduRef: u16, plant: Plant)
    requires i < |items|
    ensures var e := GreedyEnd(ReadRule(items, pduSize), i);
            |Respond(ReadPdu(pduRef, items[i..e]), plant).pdu| <= pduSize
            <==> (forall k :: i <= k < e ==> HasRoom(items[k], pduSize)) && !FillsBudget(items, pduSize, i)
  {
    hide ReadPdu, Respond, GreedyEnd, PaddedSize;
    var e := GreedyEnd(ReadRule(items, pduSize), i);
    var batch := items[i..e];
    ReadBatchSize(items, pduSize, i, pduRef, plant);
    forall k | i <= k < e ensures 4 + PaddedSize(items[k].length) <= ReplySize(batch) {
      ReplyParts(batch, k - i);
      assert batch[k - i] == items[k];
    }
    if e == i + 1 {
      OneItem(items[i]);
      assert batch == [items[i]];
    }
  }

  lemma OneItem(item: MultiReadItem)
    ensures ReplySize([item]) == 4 + PaddedSize(item.length)
  {
    hide PaddedSize;
    assert [item][1..] == [] && ReplySize([]) == 0;
  }

  /** The whole call: every answer fits the PDU if and only if every item has room and no batch fills its budget. */
  lemma {:induction false} ReadAnswersFit(pduRef: u16, items: seq<MultiReadItem>, pduSize: u16, i: nat, plant: Plant)
    requires i <= |items|
    ensures AllWithin(Answers(ReadPdus(pduRef, items, pduSize, i), plant), pduSize)
       <==> (forall k :: i <= k < |items| ==> HasRoom(items[k], pduSize)) && NoneFills(items, pduSize, i)
    decreases |items| - i
  {
    hide ReadPdu, Respond, GreedyEnd, FillsBudget, AllWithin, HasRoom;
    if i == |items| {
      NoAnswers(plant, pduSize);
    } else {
      var e := GreedyEnd(ReadRule(items, pduSize), i);
      var first, rest := ReadPdu(NextRef(pduRef), items[i..e]), ReadPdus(NextRef(pduRef), items, pduSize, e);
      AnswerWithinPdu(items, pduSize, i, NextRef(pduRef), plant);
      ReadAnswersFit(NextRef(pduRef), items, pduSize, e, plant);
      assert Answers([first] + rest, plant) == [Respond(first, plant).pdu] + Answers(rest, plant);
      WithinCons(Respond(first, plant).pdu, Answers(rest, plant), pduSize);
    }
  }

  lemma NoAnswers(plant: Plant, size: nat)
    ensures AllWithin(Answers([], plant), size)
  {
  }

  // -- Requests -------------------------------------------------------------------------------

  /** Every read request fits the PDU if and only if there is nothing to read or the PDU has room for one address. */
  lemma {:induction false} ReadRequestsFit(pduRef: u16, items: seq<MultiReadItem>, pduSize: u16, i: nat)
    requires i <= |items|
    ensures AllWithin(ReadPdus(pduRef, items, pduSize, i), pduSize) <==> i == |items| || pduSize >= 24
    decreases |items| - i
  {
    hide ReadPdu, Respond, GreedyEnd, AllWithin;
    if i == |items| {
      NoPdus(pduSize);
    } else {
      var e := GreedyEnd(ReadRule(items, pduSize), i);
      ReadBatchSize(items, pduSize, i, NextRef(pduRef), Plant(map[], {}, [0, 0, 0, 0, 0, 0, 0, 0]));
      ReadRequestsFit(NextRef(pduRef), items, pduSize, e);
      WithinCons(ReadPdu(NextRef(pduRef), items[i..e]), ReadPdus(NextRef(pduRef), items, pduSize, e), pduSize);
    }
  }

  lemma NoPdus(size: nat)
    ensures AllWithin([], size)
  {
  }

  /** A written item fits a PDU of its own. */
  predicate CanSend(item: MultiWriteItem, pduSize: u16) { 28 + PaddedSize(|item.data|) <= pduSize }

  /** Every write request fits the PDU if and only if every item fits one alone. */
  lemma {:induction false} WriteRequestsFit(pduRef: u16, items: seq<MultiWriteItem>, pduSize: u16, i: nat)
    requires i <= |items|
    ensures AllWithin(WritePdus(pduRef, items, pduSize, i), pduSize)
       <==> forall k :: i <= k < |items| ==> CanSend(items[k], pduSize)
    decreases |items| - i
  {
    hide WritePdu, GreedyEnd, AllWithin, PaddedSize, RequestSize;
    if i == |items| {
      NoPdus(pduSize);
    } else {
      var e := GreedyEnd(WriteRule(items, pduSize), i);
      var batch := items[i..e];
      WriteBatchSize(items, pduSize, i, NextRef(pduRef));
      forall k | i <= k < e ensures 16 + PaddedSize(|items[k].data|) <= RequestSize(batch) {
        RequestParts(batch, k - i);
        assert batch[k - i] == items[k];
      }
      if e == i + 1 {
        OneWrite(items[i]);
        assert batch == [items[i]];
      }
      WriteRequestsFit(NextRef(pduRef), items, pduSize, e);
      WithinCons(WritePdu(NextRef(pduRef), items[i..e]), WritePdus(NextRef(pduRef), items, pduSize, e), pduSize);
    }
  }

  lemma OneWrite(item: MultiWriteItem)
    ensures RequestSize([item]) == 16 + PaddedSize(|item.data|)
  {
    hide PaddedSize;
    assert [item][1..] == [] && RequestSize([]) == 0;
  }

  // -- As few requests as possible ------------------------------------------------------------------

  /** Any way to cut the items from `i` on into runs of at most 20 items, each a single item or within the PDU as a
      request and within two bytes of it as an answer. */
  predicate ReadCut(items: seq<MultiReadItem>, pduSize: u16, plant: Plant, i: nat, ends: seq<nat>)
    requires i <= |items|
    decreases |ends|
  {
    if ends == [] then i == |items|
    else
      && i < ends[0] <= |items| && ends[0] - i <= 20
      && (ends[0] - i == 1
          || (var batch := items[i..ends[0]];
              |ReadPdu(0, batch)| <= pduSize && |Respond(ReadPdu(0, batch), plant).pdu| <= pduSize + 2))
      && ReadCut(items, pduSize, plant, ends[0], ends[1..])
  }

  lemma {:induction false} ReadCutObeys(items: seq<MultiReadItem>, pduSize: u16, plant: Plant, i: nat, ends: seq<nat>)
    requires i <= |items|
    ensures ReadCut(items, pduSize, plant, i, ends) <==> IsCut(ReadRule(items, pduSize), i, ends)
    decreases |ends|
  {
    hide ReadPdu, Respond, Sum, AckDataPdu, ReplyData, ReplySize;
    if ends != [] && i < ends[0] <= |items| {
      if ends[0] - i <= 20 {
        var batch := items[i..ends[0]];
        ReadSum(items, i, ends[0]);
        ReadAnswer(0, batch, plant);
        ReplyDataSize(plant.memory, batch);
        AckArrives(0, FUNC_READ_VAR, |batch|, ReplyData(plant.memory, batch));
      }
      ReadCutObeys(items, pduSize, plant, ends[0], ends[1..]);
    }
  }

  /** The requests of a batched read are such a cut, and no such cut has fewer parts. */
  lemma FewestReads(pduRef: u16, items: seq<MultiReadItem>, pduSize: u16, plant: Plant, ends: seq<nat>)
    requires ReadCut(items, pduSize, plant, 0, ends)
    ensures ReadCut(items, pduSize, plant, 0, GreedyEnds(ReadRule(items, pduSize), 0))
    ensures |ReadPdus(pduRef, items, pduSize, 0)| == |GreedyEnds(ReadRule(items, pduSize), 0)| <= |ends|
  {
    hide ReadCut, IsCut, ReadPdus, GreedyEnds;
    var rule := ReadRule(items, pduSize);
    ReadCutObeys(items, pduSize, plant, 0, ends);
    GreedyIsCut(rule, 0);
    ReadCutObeys(items, pduSize, plant, 0, GreedyEnds(rule, 0));
    ReadPdusAreBatches(pduRef, items, pduSize, 0);
  }

  predicate WriteCut(items: seq<MultiWriteItem>, pduSize: u16, i: nat, ends: seq<nat>)
    requires i <= |items|
    decreases |ends|
  {
    if ends == [] then i == |items|
    else
      && i < ends[0] <= |items| && ends[0] - i <= 20
      && (ends[0] - i == 1 || |WritePdu(0, items[i..ends[0]])| <= pduSize)
      && WriteCut(items, pduSize, ends[0], ends[1..])
  }

  lemma {:induction false} WriteCutObeys(items: seq<MultiWriteItem>, pduSize: u16, i: nat, ends: seq<nat>)
    requires i <= |items|
    ensures WriteCut(items, pduSize, i, ends) <==> IsCut(WriteRule(items, pduSize), i, ends)
    decreases |ends|
  {
    hide WritePdu, Sum, RequestSize, RequestItemSize;
    if ends != [] && i < ends[0] <= |items| {
      var batch := items[i..ends[0]];
      WriteSum(items, i, ends[0]);
      WritePduSize(0, batch);
      RequestParts(batch, 0);
      WriteCutObeys(items, pduSize, ends[0], ends[1..]);
    }
  }

  /** The same for a batched write. */
  lemma FewestWrites(pduRef: u16, items: seq<MultiWriteItem>, pduSize: u16, ends: seq<nat>)
    requires WriteCut(items, pduSize, 0, ends)
    ensures WriteCut(items, pduSize, 0, GreedyEnds(WriteRule(items, pduSize), 0))
    ensures |WritePdus(pduRef, items, pduSize, 0)| == |GreedyEnds(WriteRule(items, pduSize), 0)| <= |ends|
  {
    hide WriteCut, IsCut, WritePdus, GreedyEnds;
    var rule := WriteRule(items, pduSize);
    WriteCutObeys(items, pduSize, 0, ends);
    GreedyIsCut(rule, 0);
    WriteCutObeys(items, pduSize, 0, GreedyEnds(rule, 0));
    WritePdusAreBatches(pduRef, items, pduSize, 0);
  }

  // -- Numbering ------------------------------------------------------------------------------------

  /** The requests of a call carry consecutive references, from the one after the last used. */
  lemma {:induction false} ReadsAreNumbered(pduRef: u16, items: seq<MultiReadItem>, pduSize: u16, i: nat, k: nat)
    requires i <= |items| && k < |ReadPdus(pduRef, items, pduSize, i)|
    ensures var pdu := ReadPdus(pduRef, items, pduSize, i)[k];
            |pdu| >= 10 && pdu[4] as int * 256 + pdu[5] == (pduRef + 1 + k) % 0x1_0000
    decreases k
  {
    hide GreedyEnd, ReadPdu;
    var e := GreedyEnd(ReadRule(items, pduSize), i);
    Low16IsRemainder(pduRef + 1);
    if k == 0 {
      ReferenceAt(Job, NextRef(pduRef), ReadRequestBytes(Map(ReadAddress, items[i..e])), []);
      ReadPduIs(NextRef(pduRef), items[i..e]);
    } else {
      ReadsAreNumbered(NextRef(pduRef), items, pduSize, e, k - 1);
      OneOn(pduRef, k);
    }
  }

  lemma ReadPduIs(pduRef: u16, batch: seq<MultiReadItem>)
    ensures ReadPdu(pduRef, batch) == RequestPdu(Job, pduRef, ReadRequestBytes(Map(ReadAddress, batch)), [])
  {
  }

  lemma OneOn(pduRef: u16, k: nat)
    ensures ((pduRef + 1) % 0x1_0000 + k) % 0x1_0000 == (pduRef + 1 + k) % 0x1_0000
  {
  }

  lemma ReferenceAt(t: PduType, pduRef: u16, param: seq<u8>, data: seq<u8>)
    ensures var pdu := RequestPdu(t, pduRef, param, data);
            |pdu| >= 10 && pdu[4] as int * 256 + pdu[5] == pduRef
  {
    hide Low16;
    var h := Header(t, 0, pduRef, Low16(|param|), Low16(|data|), None, None);
    assert RequestPdu(t, pduRef, param, data)[4] == FixedBytes(h)[4];
    assert RequestPdu(t, pduRef, param, data)[5] == FixedBytes(h)[5];
  }
}
