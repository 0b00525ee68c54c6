/** Read-variable and write-variable requests and responses. */
module VarCodec {
  import opened Bytes
  import opened S7Header

  const FUNC_READ_VAR: u8 := 0x04
  const FUNC_WRITE_VAR: u8 := 0x05
  const ITEM_SPEC: u8 := 0x12
  const ITEM_LEN: u8 := 0x0A
  const ADDR_ANY: u8 := 0x10

  // -- Addresses -----------------------------------------------------------

  datatype AddressItem = AddressItem(
    area: Area,
    dbNumber: u16,
    start: u32,
    bitOffset: u8,
    length: u16,
    transport: TransportSize)

  /** Timers and counters are addressed by element, everything else by bit. */
  predicate ByElement(t: TransportSize) { t == Timer || t == Counter }

  function AddrBits(a: AddressItem): nat {
    if ByElement(a.transport) then a.start else Or(Low32(a.start * 8), a.bitOffset)
  }

  function AddressBytes(a: AddressItem): (s: seq<u8>)
    ensures |s| == 12
  {
    [ITEM_SPEC, ITEM_LEN, ADDR_ANY, TransportCode(a.transport)] + Be16(a.length) + Be16(a.dbNumber)
    + [AreaCode(a.area)] + Be24(AddrBits(a))
  }

  /** The three bytes of the low 24 bits. */
  function Be24(n: nat): (s: seq<u8>)
    ensures |s| == 3 && U24(s[0], s[1], s[2]) == n % 0x100_0000
  {
    var low := n % 0x100_0000;
    HasThreeBytes(low);
    SameWords();
    var hi: u8, lo: u16 :| Words(hi, lo) == low;
    [hi] + Be16(lo)
  }

  lemma HasThreeBytes(n: nat)
    requires n < 0x100_0000
    ensures exists hi: u8, lo: u16 :: Words(hi, lo) == n
  {
    var hi: u8, lo: u16 := n / 0x1_0000, n % 0x1_0000;
    assert Words(hi, lo) == n;
  }

  method EncodeAddress(a: AddressItem, buf: Buffer)
    modifies buf
    ensures buf.data == old(buf.data) + AddressBytes(a)
  {
    buf.PutSlice([ITEM_SPEC, ITEM_LEN, ADDR_ANY, TransportCode(a.transport)]);
    buf.PutU16(a.length);
    buf.PutU16(a.dbNumber);
    buf.PutU8(AreaCode(a.area));
    buf.PutSlice(Be24(AddrBits(a)));
  }

  /** The address at the front of `s`. The wire address is always read as a bit address. */
  function ParseAddress(s: seq<u8>): (r: Result<AddressItem, ProtoError>)
    ensures r.Ok? ==> |s| >= 12
  {
    if |s| < 12 then Err(BufferTooShort(12, |s|))
    else if s[0] != ITEM_SPEC then Err(InvalidMagic(ITEM_SPEC, s[0]))
    else if s[2] != ADDR_ANY then Err(InvalidMagic(ADDR_ANY, s[2]))
    else
      var t :- TransportOf(s[3]);
      var area :- AreaOf(s[8]);
      var bits := U24(s[9], s[10], s[11]);
      Ok(AddressItem(area, U16(s[6], s[7]), bits / 8, bits % 8, U16(s[4], s[5]), t))
  }

  method DecodeAddress(buf: Buffer) returns (r: Result<AddressItem, ProtoError>)
    modifies buf
    ensures r == ParseAddress(old(buf.data))
    ensures r.Ok? ==> buf.data == old(buf.data)[12..]
  {
    if |buf.data| < 12 {
      return Err(BufferTooShort(12, |buf.data|));
    }
    var spec := buf.GetU8();
    if spec != ITEM_SPEC {
      return Err(InvalidMagic(ITEM_SPEC, spec));
    }
    var _ := buf.GetU8();
    var addrType := buf.GetU8();
    if addrType != ADDR_ANY {
      return Err(InvalidMagic(ADDR_ANY, addrType));
    }
    var code := buf.GetU8();
    var t := TransportOf(code);
    if t.Err? {
      return Err(t.error);
    }
    var length := buf.GetU16();
    var dbNumber := buf.GetU16();
    var areaCode := buf.GetU8();
    var area := AreaOf(areaCode);
    if area.Err? {
      return Err(area.error);
    }
    var b0 := buf.GetU8();
    var b1 := buf.GetU8();
    var b2 := buf.GetU8();
    var bits := U24(b0, b1, b2);
    r := Ok(AddressItem(area.value, dbNumber, bits / 8, bits % 8, length, t.value));
  }

  /** `n` addresses in a row, appended to `acc`, and what follows them. */
  function ParseAddresses(s: seq<u8>, n: nat, acc: seq<AddressItem>)
    : (r: Result<(seq<AddressItem>, seq<u8>), ProtoError>)
    ensures r.Ok? ==> |r.value.0| == |acc| + n
  {
    if n == 0 then Ok((acc, s))
    else
      var a :- ParseAddress(s);
      ParseAddresses(s[12..], n - 1, acc + [a])
  }

  method DecodeAddresses(buf: Buffer, count: nat) returns (r: Result<seq<AddressItem>, ProtoError>)
    modifies buf
    ensures match ParseAddresses(old(buf.data), count, [])
            case Ok((items, rest)) => r == Ok(items) && buf.data == rest
            case Err(e) => r == Err(e)
  {
    var items := [];
    for i := 0 to count
      invariant ParseAddresses(buf.data, count - i, items) == ParseAddresses(old(buf.data), count, [])
    {
      var a := DecodeAddress(buf);
      if a.Err? {
        return Err(a.error);
      }
      items := items + [a.value];
    }
    r := Ok(items);
  }

  /** What a receiver makes of an encoded address: the low 24 address bits, read as a bit address. */
  function WireAddress(a: AddressItem): AddressItem {
    a.(start := AddrBits(a) % 0x100_0000 / 8, bitOffset := AddrBits(a) % 8)
  }

  lemma AddressRoundTrip(a: AddressItem, rest: seq<u8>)
    ensures ParseAddress(AddressBytes(a) + rest) == Ok(WireAddress(a))
  {
    hide U24, Be16, U16, AddrBits, Be24;
    var s := AddressBytes(a) + rest;
    var low := Be24(AddrBits(a));
    assert s[3] == TransportCode(a.transport) && s[8] == AreaCode(a.area);
    assert s[4..6] == Be16(a.length) && s[6..8] == Be16(a.dbNumber);
    assert s[9] == low[0] && s[10] == low[1] && s[11] == low[2];
    Low24(AddrBits(a));
  }

  lemma Low24(n: nat)
    ensures n % 0x100_0000 % 8 == n % 8
  {
    var high, low := n / 0x100_0000, n % 0x100_0000;
    Split8(n, high * 0x20_0000 + low / 8, low % 8);
  }

  lemma Split8(n: nat, q: nat, r: nat)
    requires n == q * 8 + r && r < 8
    ensures n / 8 == q && n % 8 == r
  {
  }

  /** The addresses a receiver reads back unchanged, and no others. */
  predicate Addressable(a: AddressItem) {
    if ByElement(a.transport) then a.start == 0 && a.bitOffset == 0
    else a.start < 0x20_0000 && a.bitOffset < 8
  }

  lemma WireAddressIsExact(a: AddressItem)
    ensures WireAddress(a) == a <==> Addressable(a)
  {
    hide Or, WireAddress;
    WireStart(a);
    if ByElement(a.transport) {
      ElementStart(a.start);
    } else if a.bitOffset < 8 {
      PlainStart(a);
    }
  }

  lemma ElementStart(n: nat)
    ensures n % 0x100_0000 / 8 == n <==> n == 0
  {
  }

  /** Where every address arrives: starts wrap at 2 MiB, bit offsets from 8 on spill into the start, and timers and
      counters are taken for bit addresses. */
  lemma WireStart(a: AddressItem)
    ensures WireAddress(a)
         == if ByElement(a.transport) then a.(start := a.start % 0x100_0000 / 8, bitOffset := a.start % 8)
            else a.(start := Or(a.start % 0x2000_0000, a.bitOffset / 8) % 0x20_0000, bitOffset := a.bitOffset % 8)
  {
    hide Or;
    if !ByElement(a.transport) {
      var low := a.start % 0x2000_0000;
      TimesEight(a.start);
      OrLowBits(low, a.bitOffset);
      ShiftDown(Or(low, a.bitOffset / 8), a.bitOffset % 8);
    }
  }

  /** An address without a spilling bit offset. */
  lemma PlainStart(a: AddressItem)
    requires !ByElement(a.transport) && a.bitOffset < 8
    ensures WireAddress(a) == a.(start := a.start % 0x20_0000)
  {
    hide Or;
    WireStart(a);
    NothingToOr(a.start % 0x2000_0000);
    LowStart(a.start);
  }

  lemma NothingToOr(n: nat)
    ensures Or(n, 0) == n
  {
  }

  lemma LowStart(start: u32)
    ensures start % 0x2000_0000 % 0x20_0000 == start % 0x20_0000
  {
    var q, r := start / 0x2000_0000, start % 0x2000_0000;
    assert start == (q * 0x100 + r / 0x20_0000) * 0x20_0000 + r % 0x20_0000;
  }

  lemma TimesEight(start: u32)
    ensures Low32(start * 8) == 8 * (start % 0x2000_0000)
  {
    var q, r := start / 0x2000_0000, start % 0x2000_0000;
    assert start * 8 == q * 0x1_0000_0000 + 8 * r;
  }

  lemma ShiftDown(x: nat, bit: nat)
    requires bit < 8
    ensures (8 * x + bit) % 0x100_0000 / 8 == x % 0x20_0000 && (8 * x + bit) % 8 == bit
  {
    var q, r := x / 0x20_0000, x % 0x20_0000;
    Split24(8 * x + bit, q, 8 * r + bit);
    Split8(8 * r + bit, r, bit);
    Split8(8 * x + bit, x, bit);
  }

  lemma Split24(n: nat, q: nat, r: nat)
    requires n == q * 0x100_0000 + r && r < 0x100_0000
    ensures n / 0x100_0000 == q && n % 0x100_0000 == r
  {
  }

  function WireAddresses(items: seq<AddressItem>): (r: seq<AddressItem>)
    ensures |r| == |items|
  {
    Map(WireAddress, items)
  }

  lemma {:induction false} AddressesRoundTrip(items: seq<AddressItem>, rest: seq<u8>, acc: seq<AddressItem>)
    ensures ParseAddresses(ConcatMap(AddressBytes, items) + rest, |items|, acc)
         == Ok((acc + WireAddresses(items), rest))
  {
    hide AddressBytes, ParseAddress, WireAddress;
    if items == [] {
      assert acc + WireAddresses(items) == acc;
      assert ConcatMap(AddressBytes, items) + rest == rest;
    } else {
      var tail := ConcatMap(AddressBytes, items[1..]) + rest;
      var s := ConcatMap(AddressBytes, items) + rest;
      assert s == AddressBytes(items[0]) + tail;
      AddressRoundTrip(items[0], tail);
      assert s[12..] == tail;
      AddressesRoundTrip(items[1..], rest, acc + [WireAddress(items[0])]);
      assert WireAddresses(items) == [WireAddress(items[0])] + WireAddresses(items[1..]);
      assert acc + [WireAddress(items[0])] + WireAddresses(items[1..]) == acc + WireAddresses(items);
    }
  }

  // -- Data chunks: two lead bytes, a bit length, the bytes, padding to even length -------

  datatype Chunk = Chunk(lead: u8, transport: u8, data: seq<u8>)

  function ByteLen(bits: nat): nat { (bits + 7) / 8 }

  function PaddedSize(n: nat): nat { n + n % 2 }

  function Pad(n: nat): (s: seq<u8>)
    ensures |s| == n % 2
  {
    if n % 2 == 1 then [0x00] else []
  }

  function ChunkHead(c: Chunk): (s: seq<u8>)
    ensures |s| == 4 && s[0] == c.lead && s[1] == c.transport && U16(s[2], s[3]) == Low16(|c.data| * 8)
  {
    [c.lead, c.transport] + Be16(Low16(|c.data| * 8))
  }

  function ChunkBytes(c: Chunk): (s: seq<u8>)
    ensures |s| == 4 + PaddedSize(|c.data|)
  {
    ChunkHead(c) + c.data + Pad(|c.data|)
  }

  method EncodeChunk(c: Chunk, buf: Buffer)
    modifies buf
    ensures buf.data == old(buf.data) + ChunkBytes(c)
  {
    hide Low16;
    buf.PutU8(c.lead);
    buf.PutU8(c.transport);
    buf.PutU16(Low16(|c.data| * 8));
    assert buf.data == old(buf.data) + ChunkHead(c);
    buf.PutSlice(c.data);
    if |c.data| % 2 == 1 {
      buf.PutU8(0x00);
    }
  }

  method EncodeChunks(cs: seq<Chunk>, buf: Buffer)
    modifies buf
    ensures buf.data == old(buf.data) + ConcatMap(ChunkBytes, cs)
  {
    hide ChunkBytes;
    for i := 0 to |cs|
      invariant buf.data == old(buf.data) + ConcatMap(ChunkBytes, cs[..i])
    {
      EncodeChunk(cs[i], buf);
      ConcatMapSnoc(ChunkBytes, cs, i);
    }
    assert cs[..|cs|] == cs;
  }

  /** The chunk at the front of `s` and what follows it; a missing pad byte at the very end is forgiven. */
  function ParseChunk(s: seq<u8>): (r: Result<(Chunk, seq<u8>), ProtoError>) {
    if |s| < 4 then Err(BufferTooShort(4, |s|))
    else
      var n: nat := ByteLen(U16(s[2], s[3]));
      if |s| - 4 < n then Err(BufferTooShort(n, |s| - 4))
      else
        var rest := s[4 + n..];
        Ok((Chunk(s[0], s[1], s[4..4 + n]), if n % 2 == 1 && rest != [] then rest[1..] else rest))
  }

  method DecodeChunk(buf: Buffer) returns (r: Result<Chunk, ProtoError>)
    modifies buf
    ensures match ParseChunk(old(buf.data))
            case Ok((c, rest)) => r == Ok(c) && buf.data == rest
            case Err(e) => r == Err(e)
  {
    if |buf.data| < 4 {
      return Err(BufferTooShort(4, |buf.data|));
    }
    var lead := buf.GetU8();
    var transport := buf.GetU8();
    var bitLen := buf.GetU16();
    var n: nat := ByteLen(bitLen);
    if |buf.data| < n {
      return Err(BufferTooShort(n, |buf.data|));
    }
    var data := buf.SplitTo(n);
    assert data == old(buf.data)[4..4 + n];
    if n % 2 == 1 && buf.data != [] {
      var _ := buf.GetU8();
    }
    r := Ok(Chunk(lead, transport, data));
  }

  function ParseChunks(s: seq<u8>, n: nat, acc: seq<Chunk>): (r: Result<seq<Chunk>, ProtoError>)
    ensures r.Ok? ==> |r.value| == |acc| + n
  {
    if n == 0 then Ok(acc)
    else
      var (c, rest) :- ParseChunk(s);
      ParseChunks(rest, n - 1, acc + [c])
  }

  /** Data longer than 8191 bytes overflows the 16-bit bit length: only the length modulo 8192 arrives. */
  function WireLen(n: nat): (k: nat)
    ensures k <= n
  {
    n % 0x2000
  }

  lemma BitLength(n: nat)
    ensures ByteLen(Low16(n * 8)) == WireLen(n)
  {
    assert n * 8 == n / 0x2000 * 0x1_0000 + n % 0x2000 * 8;
    assert Low16(n * 8) == n % 0x2000 * 8;
  }

  lemma ShortLength(n: nat)
    requires n < 0x2000
    ensures ByteLen(Low16(n * 8)) == n
  {
    BitLength(n);
  }

  lemma ChunkRoundTrip(c: Chunk, rest: seq<u8>)
    requires |c.data| < 0x2000
    ensures ParseChunk(ChunkBytes(c) + rest) == Ok((c, rest))
  {
    hide Low16, ByteLen, ChunkHead, PaddedSize;
    var s := ChunkBytes(c) + rest;
    var n := |c.data|;
    ShortLength(n);
    assert s[..4] == ChunkHead(c);
    assert s[4..4 + n] == c.data;
    assert s[4 + n..] == Pad(n) + rest;
  }

  /** An oversized chunk is cut, and not an error. */
  lemma ChunkCut(c: Chunk)
    ensures ParseChunk(ChunkBytes(c)).Ok? && ParseChunk(ChunkBytes(c)).value.0 == WireChunk(c)
  {
    hide Low16, ByteLen, ChunkHead;
    var s := ChunkBytes(c);
    BitLength(|c.data|);
    assert s[..4] == ChunkHead(c);
    assert s[4..4 + |c.data|] == c.data;
  }

  function WireChunk(c: Chunk): Chunk { c.(data := c.data[..WireLen(|c.data|)]) }

  function WireChunks(cs: seq<Chunk>): seq<Chunk> {
    Map(WireChunk, cs)
  }

  /** Chunks arrive in order as long as only the last one is cut: after a cut chunk the reader has lost its place. */
  lemma {:induction false} ChunksArrive(cs: seq<Chunk>, acc: seq<Chunk>)
    requires forall i :: 0 <= i < |cs| - 1 ==> |cs[i].data| < 0x2000
    ensures ParseChunks(ConcatMap(ChunkBytes, cs), |cs|, acc) == Ok(acc + WireChunks(cs))
  {
    hide ChunkBytes, ParseChunk, WireChunk;
    if cs == [] {
      assert acc + WireChunks(cs) == acc;
    } else {
      var tail := ConcatMap(ChunkBytes, cs[1..]);
      var s := ChunkBytes(cs[0]) + tail;
      ChunkCut(cs[0]);
      if |cs| == 1 {
        assert s == ChunkBytes(cs[0]);
        assert acc + [WireChunk(cs[0])] == acc + WireChunks(cs);
      } else {
        ShortChunk(cs[0]);
        ChunkRoundTrip(cs[0], tail);
        ChunksArrive(cs[1..], acc + [cs[0]]);
        assert acc + [WireChunk(cs[0])] + WireChunks(cs[1..]) == acc + WireChunks(cs);
      }
    }
  }

  lemma ShortChunk(c: Chunk)
    requires |c.data| < 0x2000
    ensures WireChunk(c) == c
  {
    assert c.data[..|c.data|] == c.data;
  }

  // -- Read-variable ---------------------------------------------------------

  function ReadRequestBytes(items: seq<AddressItem>): seq<u8> {
    [FUNC_READ_VAR, Low8(|items|)] + ConcatMap(AddressBytes, items)
  }

  method EncodeReadRequest(items: seq<AddressItem>, buf: Buffer)
    modifies buf
    ensures buf.data == old(buf.data) + ReadRequestBytes(items)
  {
    hide Low8, AddressBytes, ConcatMap;
    buf.PutU8(FUNC_READ_VAR);
    buf.PutU8(Low8(|items|));
    EncodeAddresses(items, buf);
  }

  method EncodeAddresses(items: seq<AddressItem>, buf: Buffer)
    modifies buf
    ensures buf.data == old(buf.data) + ConcatMap(AddressBytes, items)
  {
    for i := 0 to |items|
      invariant buf.data == old(buf.data) + ConcatMap(AddressBytes, items[..i])
    {
      EncodeAddress(items[i], buf);
      ConcatMapSnoc(AddressBytes, items, i);
    }
    assert items[..|items|] == items;
  }

  function ParseReadRequest(s: seq<u8>): (r: Result<seq<AddressItem>, ProtoError>) {
    if |s| < 2 then Err(BufferTooShort(2, |s|))
    else if s[0] != FUNC_READ_VAR then Err(UnsupportedFunction(s[0]))
    else
      var (items, _) :- ParseAddresses(s[2..], s[1], []);
      Ok(items)
  }

  method DecodeReadRequest(buf: Buffer) returns (r: Result<seq<AddressItem>, ProtoError>)
    modifies buf
    ensures r == ParseReadRequest(old(buf.data))
  {
    if |buf.data| < 2 {
      return Err(BufferTooShort(2, |buf.data|));
    }
    var func := buf.GetU8();
    if func != FUNC_READ_VAR {
      return Err(UnsupportedFunction(func));
    }
    var count := buf.GetU8();
    r := DecodeAddresses(buf, count);
  }

  /** A request arrives with the wire form of its items; from 256 items on, the count byte drops the surplus. */
  lemma ReadRequestRoundTrip(items: seq<AddressItem>)
    ensures ParseReadRequest(ReadRequestBytes(items)) == Ok(WireAddresses(items[..|items| % 0x100]))
  {
    var n := |items| % 0x100;
    var s := ReadRequestBytes(items);
    assert items == items[..n] + items[n..];
    ConcatMapAppend(AddressBytes, items[..n], items[n..]);
    AddressesRoundTrip(items[..n], ConcatMap(AddressBytes, items[n..]), []);
    assert s[2..] == ConcatMap(AddressBytes, items[..n]) + ConcatMap(AddressBytes, items[n..]);
    assert [] + WireAddresses(items[..n]) == WireAddresses(items[..n]);
  }

  /** A response item: return code, transport "byte", data. */
  datatype DataItem = DataItem(returnCode: u8, data: seq<u8>)

  function ItemChunk(item: DataItem): Chunk { Chunk(item.returnCode, 0x04, item.data) }

  function ItemChunks(items: seq<DataItem>): seq<Chunk> {
    Map(ItemChunk, items)
  }

  function ReadResponseBytes(items: seq<DataItem>): seq<u8> { ConcatMap(ChunkBytes, ItemChunks(items)) }

  method EncodeReadResponse(items: seq<DataItem>, buf: Buffer)
    modifies buf
    ensures buf.data == old(buf.data) + ReadResponseBytes(items)
  {
    EncodeChunks(ItemChunks(items), buf);
  }

  function ChunkItems(cs: seq<Chunk>): seq<DataItem> {
    Map((c: Chunk) => DataItem(c.lead, c.data), cs)
  }

  function ParseReadResponse(s: seq<u8>, count: nat): (r: Result<seq<DataItem>, ProtoError>) {
    var cs :- ParseChunks(s, count, []);
    Ok(ChunkItems(cs))
  }

  method DecodeReadResponse(buf: Buffer, count: nat) returns (r: Result<seq<DataItem>, ProtoError>)
    modifies buf
    ensures r == ParseReadResponse(old(buf.data), count)
  {
    hide ParseChunk;
    ghost var cs: seq<Chunk> := [];
    var items := [];
    for i := 0 to count
      invariant ParseChunks(buf.data, count - i, cs) == ParseChunks(old(buf.data), count, [])
      invariant items == ChunkItems(cs)
    {
      var c := DecodeChunk(buf);
      if c.Err? {
        return Err(c.error);
      }
      cs := cs + [c.value];
      items := items + [DataItem(c.value.lead, c.value.data)];
    }
    r := Ok(items);
  }

  function WireItems(items: seq<DataItem>): seq<DataItem> {
    Map((item: DataItem) => item.(data := item.data[..WireLen(|item.data|)]), items)
  }

  /** A response arrives with the wire form of its items if none but the last is oversized. */
  lemma ReadResponseRoundTrip(items: seq<DataItem>)
    requires forall i :: 0 <= i < |items| - 1 ==> |items[i].data| < 0x2000
    ensures ParseReadResponse(ReadResponseBytes(items), |items|) == Ok(WireItems(items))
  {
    ChunksArrive(ItemChunks(items), []);
    assert [] + WireChunks(ItemChunks(items)) == WireChunks(ItemChunks(items));
    assert ChunkItems(WireChunks(ItemChunks(items))) == WireItems(items);
  }

  /** Before the last place it does not: past an item of 8 KiB the reader takes that item's data for the next header. */
  lemma OversizedLosesPlace(a: DataItem, b: DataItem)
    requires |a.data| == 0x2000 && ParseReadResponse(ReadResponseBytes([a, b]), 2).Ok?
    ensures var r := ParseReadResponse(ReadResponseBytes([a, b]), 2).value;
            |r| == 2 && r[0] == DataItem(a.returnCode, []) && r[1].returnCode == a.data[0]
  {
    hide ChunkBytes, ParseChunk;
    var ca, cb := ItemChunk(a), ItemChunk(b);
    assert ItemChunks([a, b]) == [ca, cb] && [ca, cb][1..] == [cb];
    var tail := ConcatMap(ChunkBytes, [cb]);
    var s := ChunkBytes(ca) + tail;
    OversizedHead(ca, tail);
    ChunkLead(s[4..]);
    var first := Chunk(ca.lead, ca.transport, []);
    assert ReadResponseBytes([a, b]) == s && [] + [first] == [first];
    assert ParseChunks(s, 2, []) == ParseChunks(s[4..], 1, [first]);
    if ParseChunk(s[4..]).Ok? {
      var (c, rest) := ParseChunk(s[4..]).value;
      assert [first] + [c] == [first, c] && ParseChunks(rest, 0, [first, c]) == Ok([first, c]);
    }
  }

  /** The length of 8 KiB wraps to nothing. */
  lemma OversizedHead(c: Chunk, rest: seq<u8>)
    requires |c.data| == 0x2000
    ensures var s := ChunkBytes(c) + rest;
            |s| > 4 && s[4..][0] == c.data[0] && ParseChunk(s) == Ok((c.(data := []), s[4..]))
  {
    hide Low16, ByteLen, ChunkHead, PaddedSize;
    var s := ChunkBytes(c) + rest;
    BitLength(|c.data|);
    assert s[..4] == ChunkHead(c) && s[2] == s[..4][2] && s[3] == s[..4][3];
    assert WireLen(0x2000) == 0 && s[4..4] == [];
  }

  lemma ChunkLead(s: seq<u8>)
    ensures ParseChunk(s).Ok? ==> s != [] && ParseChunk(s).value.0.lead == s[0]
  {
  }

  // -- Write-variable --------------------------------------------------------

  datatype WriteItem = WriteItem(address: AddressItem, data: seq<u8>)

  function Addresses(items: seq<WriteItem>): seq<AddressItem> {
    Map((item: WriteItem) => item.address, items)
  }

  function WriteChunks(items: seq<WriteItem>): seq<Chunk> {
    Map((item: WriteItem) => Chunk(0x00, TransportCode(item.address.transport), item.data), items)
  }

  /** All addresses come first, then all data. */
  function WriteRequestBytes(items: seq<WriteItem>): seq<u8> {
    [FUNC_WRITE_VAR, Low8(|items|)]
    + ConcatMap(AddressBytes, Addresses(items)) + ConcatMap(ChunkBytes, WriteChunks(items))
  }

  method EncodeWriteRequest(items: seq<WriteItem>, buf: Buffer)
    modifies buf
    ensures buf.data == old(buf.data) + WriteRequestBytes(items)
  {
    hide Low8, Addresses, WriteChunks, ChunkBytes, AddressBytes, ConcatMap;
    buf.PutU8(FUNC_WRITE_VAR);
    buf.PutU8(Low8(|items|));
    EncodeAddresses(Addresses(items), buf);
    EncodeChunks(WriteChunks(items), buf);
  }

  function Zip(addresses: seq<AddressItem>, cs: seq<Chunk>): seq<WriteItem>
    requires |addresses| == |cs|
  {
    seq(|cs|, i requires 0 <= i < |cs| => WriteItem(addresses[i], cs[i].data))
  }

  function ParseWriteRequest(s: seq<u8>): (r: Result<seq<WriteItem>, ProtoError>) {
    if |s| < 2 then Err(BufferTooShort(2, |s|))
    else if s[0] != FUNC_WRITE_VAR then Err(UnsupportedFunction(s[0]))
    else
      var (addresses, rest) :- ParseAddresses(s[2..], s[1], []);
      var cs :- ParseChunks(rest, |addresses|, []);
      Ok(Zip(addresses, cs))
  }

  method DecodeWriteRequest(buf: Buffer) returns (r: Result<seq<WriteItem>, ProtoError>)
    modifies buf
    ensures r == ParseWriteRequest(old(buf.data))
  {
    if |buf.data| < 2 {
      return Err(BufferTooShort(2, |buf.data|));
    }
    var func := buf.GetU8();
    if func != FUNC_WRITE_VAR {
      return Err(UnsupportedFunction(func));
    }
    var count := buf.GetU8();
    var addresses := DecodeAddresses(buf, count);
    if addresses.Err? {
      return Err(addresses.error);
    }
    r := DecodeWriteData(addresses.value, buf);
  }

  /** The second pass: one chunk of data for each address. */
  method DecodeWriteData(addresses: seq<AddressItem>, buf: Buffer) returns (r: Result<seq<WriteItem>, ProtoError>)
    modifies buf
    ensures match ParseChunks(old(buf.data), |addresses|, [])
            case Ok(cs) => r == Ok(Zip(addresses, cs))
            case Err(e) => r == Err(e)
  {
    hide ParseChunk;
    ghost var cs: seq<Chunk> := [];
    var items := [];
    for i := 0 to |addresses|
      invariant ParseChunks(buf.data, |addresses| - i, cs) == ParseChunks(old(buf.data), |addresses|, [])
      invariant |cs| == i && items == Zip(addresses[..i], cs)
    {
      var c := DecodeChunk(buf);
      if c.Err? {
        return Err(c.error);
      }
      cs := cs + [c.value];
      items := items + [WriteItem(addresses[i], c.value.data)];
    }
    assert addresses[..|addresses|] == addresses;
    r := Ok(items);
  }

  function WireWrite(item: WriteItem): WriteItem {
    WriteItem(WireAddress(item.address), item.data[..WireLen(|item.data|)])
  }

  function WireWrites(items: seq<WriteItem>): seq<WriteItem> {
    Map(WireWrite, items)
  }

  /** The count is one byte: a request of 256 items says it has none, and is taken for an empty one. */
  lemma CountWraps(items: seq<WriteItem>)
    requires |items| % 0x100 == 0
    ensures ParseWriteRequest(WriteRequestBytes(items)) == Ok([])
  {
    hide ChunkBytes, AddressBytes, ConcatMap;
    var s := WriteRequestBytes(items);
    assert s[0] == FUNC_WRITE_VAR && s[1] == 0;
    assert ParseAddresses(s[2..], 0, []) == Ok(([], s[2..])) && ParseChunks(s[2..], 0, []) == Ok([]);
    assert Zip([], []) == [];
  }

  lemma WriteRequestRoundTrip(items: seq<WriteItem>)
    requires |items| < 0x100
    requires forall i :: 0 <= i < |items| - 1 ==> |items[i].data| < 0x2000
    ensures ParseWriteRequest(WriteRequestBytes(items)) == Ok(WireWrites(items))
  {
    hide ChunkBytes, AddressBytes, ConcatMap, ParseAddresses, ParseChunks, WireAddress, WireLen;
    var s := WriteRequestBytes(items);
    var tail := ConcatMap(ChunkBytes, WriteChunks(items));
    AddressesRoundTrip(Addresses(items), tail, []);
    assert s[2..] == ConcatMap(AddressBytes, Addresses(items)) + tail;
    ChunksArrive(WriteChunks(items), []);
    assert [] + WireChunks(WriteChunks(items)) == WireChunks(WriteChunks(items));
    assert [] + WireAddresses(Addresses(items)) == WireAddresses(Addresses(items));
    assert Zip(WireAddresses(Addresses(items)), WireChunks(WriteChunks(items))) == WireWrites(items);
  }

  /** One return code per item. */
  function ParseWriteResponse(s: seq<u8>, count: nat): (r: Result<seq<u8>, ProtoError>) {
    if |s| < count then Err(BufferTooShort(1, 0)) else Ok(s[..count])
  }

  method DecodeWriteResponse(buf: Buffer, count: nat) returns (r: Result<seq<u8>, ProtoError>)
    modifies buf
    ensures r == ParseWriteResponse(old(buf.data), count)
  {
    var codes := [];
    for i := 0 to count
      invariant i <= |old(buf.data)| && codes == old(buf.data)[..i] && buf.data == old(buf.data)[i..]
    {
      if |buf.data| == 0 {
        return Err(BufferTooShort(1, 0));
      }
      var code := buf.GetU8();
      codes := codes + [code];
    }
    r := Ok(codes);
  }

  // -- Sizes -----------------------------------------------------------------

  lemma {:induction false} AddressesSize(items: seq<AddressItem>)
    ensures |ConcatMap(AddressBytes, items)| == 12 * |items|
  {
    if items != [] {
      AddressesSize(items[1..]);
    }
  }

  function ChunksSize(cs: seq<Chunk>): nat {
    if cs == [] then 0 else 4 + PaddedSize(|cs[0].data|) + ChunksSize(cs[1..])
  }

  lemma {:induction false} ChunksBytesSize(cs: seq<Chunk>)
    ensures |ConcatMap(ChunkBytes, cs)| == ChunksSize(cs)
  {
    if cs != [] {
      ChunksBytesSize(cs[1..]);
    }
  }
}
