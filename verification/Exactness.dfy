/** Exactly when a batched call does what the same call on the store itself would do. */
module Exactness {
  import opened Bytes
  import opened S7Header
  import opened VarCodec
  import opened Store
  import opened MultiVar

  /** The item read directly from the store. */
  function DirectRead(m: Memory, item: MultiReadItem): seq<u8> {
    ReadBytes(m, AreaCode(item.area), item.dbNumber, item.start, item.length)
  }

  /** A start below 2 MiB and a length below 8 KiB; or nothing to read on either side. */
  predicate ReadsExactly(item: MultiReadItem) {
    || (item.start < 0x20_0000 && item.length < 0x2000)
    || (WireLen(item.length) == 0 && (item.length == 0 || item.start == LAST_OFFSET))
  }

  /** Over every memory, a batched read returns the direct read for these items and for no others. */
  lemma ReadIsExact(item: MultiReadItem)
    ensures (forall m: Memory :: WireRead(m, item) == DirectRead(m, item)) <==> ReadsExactly(item)
  {
    if ReadsExactly(item) {
      forall m: Memory ensures WireRead(m, item) == DirectRead(m, item) {
        ExactRead(m, item);
      }
    } else {
      var m: Memory := map[(AreaCode(item.area), item.dbNumber, item.start) := 1];
      InexactRead(m, item);
      assert WireRead(m, item) != DirectRead(m, item);
    }
  }

  lemma ExactRead(m: Memory, item: MultiReadItem)
    requires ReadsExactly(item)
    ensures WireRead(m, item) == DirectRead(m, item)
  {
  }

  predicate AllReadExactly(items: seq<MultiReadItem>) { forall i :: 0 <= i < |items| ==> ReadsExactly(items[i]) }

  /** A whole list of exact items is read as direct reads would read it, and none of them is too long. */
  lemma ExactReads(m: Memory, items: seq<MultiReadItem>)
    ensures AllReadExactly(items) ==>
              && (forall i :: 0 <= i < |items| ==> WireRead(m, items[i]) == DirectRead(m, items[i]))
              && (forall i :: 0 <= i < |items| ==> items[i].length <= 65510)
  {
    hide WireRead, DirectRead;
    if AllReadExactly(items) {
      forall i | 0 <= i < |items| ensures WireRead(m, items[i]) == DirectRead(m, items[i]) && items[i].length <= 65510 {
        ExactRead(m, items[i]);
        ExactLength(items[i]);
      }
    }
  }

  lemma ExactLength(item: MultiReadItem)
    requires ReadsExactly(item)
    ensures item.length <= 65510
  {
  }

  lemma InexactRead(m: Memory, item: MultiReadItem)
    requires !ReadsExactly(item) && m == map[(AreaCode(item.area), item.dbNumber, item.start) := 1]
    ensures WireRead(m, item) != DirectRead(m, item)
  {
    var w, d := WireRead(m, item), DirectRead(m, item);
    if |w| == |d| && |d| > 0 {
      assert item.start >= 0x20_0000;
      assert d[0] == 1 && w[0] == 0;
    }
  }

  /** The item written directly to the store. */
  function DirectWrite(item: MultiWriteItem): AreaWrite {
    AreaWrite(AreaCode(item.area), item.dbNumber, item.start, item.data)
  }

  predicate WritesExactly(item: MultiWriteItem) {
    item.data == [] || (item.start < 0x20_0000 && |item.data| < 0x2000)
  }

  predicate AllWriteExactly(items: seq<MultiWriteItem>) { forall i :: 0 <= i < |items| ==> WritesExactly(items[i]) }

  /** Over every plant, a batched write has the effect of the direct write for these items and for no others. */
  lemma WriteIsExact(item: MultiWriteItem)
    ensures (forall p: Plant :: WriteArea(p, WireWriteOf(item)) == WriteArea(p, DirectWrite(item)))
       <==> WritesExactly(item)
  {
    if WritesExactly(item) {
      forall p: Plant ensures WriteArea(p, WireWriteOf(item)) == WriteArea(p, DirectWrite(item)) {
        ExactWrite(p, item);
      }
    } else {
      var p := Plant(map[], {}, [0, 0, 0, 0, 0, 0, 0, 0]);
      InexactWrite(p, item);
    }
  }

  lemma ExactWrite(p: Plant, item: MultiWriteItem)
    requires WritesExactly(item)
    ensures WriteArea(p, WireWriteOf(item)) == WriteArea(p, DirectWrite(item))
  {
    hide AreaCode;
    if item.data != [] {
      assert item.start % 0x20_0000 == item.start && WireLen(|item.data|) == |item.data|;
      assert item.data[..|item.data|] == item.data;
    }
  }

  /** The first byte, or else byte 8191, arrives only by the direct route. */
  lemma InexactWrite(p: Plant, item: MultiWriteItem)
    requires !WritesExactly(item) && p.memory == map[] && p.locked == {}
    ensures WriteArea(p, WireWriteOf(item)) != WriteArea(p, DirectWrite(item))
  {
    hide AreaCode;
    var at: u32 := if item.start < 0x20_0000 then item.start + 0x1FFF else item.start;
    var k := (AreaCode(item.area), item.dbNumber, at);
    var w, d := WireWriteOf(item), DirectWrite(item);
    WriteIsPointwise(p.memory, w.area, w.db, w.start, w.bytes, k);
    WriteIsPointwise(p.memory, d.area, d.db, d.start, d.bytes, k);
    if item.start >= 0x20_0000 {
      FarFromWire(item.start);
    }
    assert !Covers(w.area, w.db, w.start, |w.bytes|, k) && Covers(d.area, d.db, d.start, |d.bytes|, k);
  }

  lemma FarFromWire(start: u32)
    requires start >= 0x20_0000
    ensures start >= start % 0x20_0000 + 0x2000
  {
  }

  /** A whole list of exact items leaves the plant that direct writes in order would leave. */
  lemma {:induction false} ExactWrites(p: Plant, items: seq<MultiWriteItem>)
    requires AllWriteExactly(items)
    ensures WriteAll(p, Map(WireWriteOf, items)) == WriteAll(p, Map(DirectWrite, items))
  {
    hide WireWriteOf, DirectWrite, WriteArea;
    if items != [] {
      var n := |items| - 1;
      ExactWrites(p, items[..n]);
      assert Map(WireWriteOf, items)[..n] == Map(WireWriteOf, items[..n]);
      assert Map(DirectWrite, items)[..n] == Map(DirectWrite, items[..n]);
      ExactWrite(WriteAll(p, Map(WireWriteOf, items[..n])), items[n]);
    }
  }
}
