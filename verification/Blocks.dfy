/** Program blocks in their upload format, and the comparison of local blocks with those on the PLC. */
module Blocks {
  import opened Bytes
  import opened Crc

  datatype BlockData = BlockData(
    blockType: u16,
    blockNumber: u16,
    format: u16,
    totalLength: u32,
    flags: u16,
    crc1: u16,
    crc2: u16,
    payload: seq<u8>)

  const HEADER_LEN := 20

  function FromBytes(d: seq<u8>): (r: Option<BlockData>)
    ensures r.Some? <==> |d| >= HEADER_LEN
  {
    if |d| < HEADER_LEN then None
    else
      Some(BlockData(U16(d[0], d[1]), U16(d[2], d[3]), U16(d[4], d[5]), U32(d[6], d[7], d[8], d[9]),
                     U16(d[10], d[11]), U16(d[12], d[13]), U16(d[14], d[15]), d[20..]))
  }

  function HeaderOf(b: BlockData): (s: seq<u8>)
    ensures |s| == 16
  {
    Be16(b.blockType) + Be16(b.blockNumber) + Be16(b.format) + Be32(b.totalLength)
    + Be16(b.flags) + Be16(b.crc1) + Be16(b.crc2)
  }

  /** Four reserved bytes go out as zeros whatever came in. */
  function ToBytes(b: BlockData): seq<u8> { HeaderOf(b) + [0, 0, 0, 0] + b.payload }

  method Serialize(b: BlockData) returns (bytes: seq<u8>)
    ensures bytes == ToBytes(b)
  {
    hide Be16, Be32;
    var buf := new Buffer([]);
    buf.PutU16(b.blockType);
    buf.PutU16(b.blockNumber);
    buf.PutU16(b.format);
    buf.PutU32(b.totalLength);
    buf.PutU16(b.flags);
    buf.PutU16(b.crc1);
    buf.PutU16(b.crc2);
    assert buf.data == HeaderOf(b);
    buf.PutSlice([0, 0, 0, 0]);
    buf.PutSlice(b.payload);
    bytes := buf.data;
  }

  lemma Be16Inverts(hi: u8, lo: u8)
    ensures Be16(U16(hi, lo)) == [hi, lo]
  {
  }

  lemma Be32Inverts(a: u8, b: u8, c: u8, d: u8)
    ensures Be32(U32(a, b, c, d)) == [a, b, c, d]
  {
    hide Be16, U16, Words;
    SameWords();
    Be16Inverts(a, b);
    Be16Inverts(c, d);
  }

  /** A block as it is compared: its reserved bytes cleared. */
  function Normalised(d: seq<u8>): seq<u8>
    requires |d| >= HEADER_LEN
  {
    d[..16] + [0, 0, 0, 0] + d[20..]
  }

  /** Parsing and writing out again changes the reserved bytes and nothing else. */
  lemma ParseThenWrite(d: seq<u8>)
    requires |d| >= HEADER_LEN
    ensures ToBytes(FromBytes(d).value) == Normalised(d)
  {
    hide Be16, Be32, U16, U32;
    Be16Inverts(d[0], d[1]);
    Be16Inverts(d[2], d[3]);
    Be16Inverts(d[4], d[5]);
    Be32Inverts(d[6], d[7], d[8], d[9]);
    Be16Inverts(d[10], d[11]);
    Be16Inverts(d[12], d[13]);
    Be16Inverts(d[14], d[15]);
    assert HeaderOf(FromBytes(d).value) == d[..16];
  }

  lemma WriteThenParse(b: BlockData)
    ensures FromBytes(ToBytes(b)) == Some(b)
  {
    hide Be16, Be32, U16, U32;
    var s := ToBytes(b);
    assert s[0..2] == Be16(b.blockType) && s[2..4] == Be16(b.blockNumber) && s[4..6] == Be16(b.format);
    assert s[6..10] == Be32(b.totalLength);
    assert s[10..12] == Be16(b.flags) && s[12..14] == Be16(b.crc1) && s[14..16] == Be16(b.crc2);
    assert s[20..] == b.payload;
  }

  // -- Comparing ---------------------------------------------------------------------------

  datatype CmpResult = Match | Mismatch(localCrc: Word, plcCrc: Word) | OnlyLocal | OnlyPlc

  function BlockCrc(d: seq<u8>): Word
    requires |d| >= HEADER_LEN
  {
    Crc32(Normalised(d))
  }

  /** The word 0, which stands in for the checksum of an upload too short to parse. */
  function NoCrc(): Word { Padded([]) }

  /** The verdict on one local block, given what an upload of it brought; unparsable local blocks are skipped. */
  function Verdict(local: seq<u8>, uploaded: Option<seq<u8>>): Option<CmpResult> {
    if |local| < HEADER_LEN then None
    else
      match uploaded
      case None => Some(OnlyLocal)
      case Some(plc) =>
        var plcCrc := if |plc| >= HEADER_LEN then BlockCrc(plc) else NoCrc();
        Some(if BlockCrc(local) == plcCrc then Match else Mismatch(BlockCrc(local), plcCrc))
  }

  method ChecksumOf(d: seq<u8>) returns (r: Option<Word>)
    ensures r == if |d| >= HEADER_LEN then Some(BlockCrc(d)) else None
  {
    hide Crc32, Normalised, ToBytes, FromBytes;
    var block := FromBytes(d);
    if block.None? {
      return None;
    }
    var bytes := Serialize(block.value);
    ParseThenWrite(d);
    var crc := ComputeCrc32(bytes);
    r := Some(crc);
  }

  datatype LocalBlock = LocalBlock(kind: u8, number: u16, bytes: seq<u8>)

  datatype Entry = Entry(kind: u8, number: u16, result: CmpResult)

  /** What the upload for the local block at a position brings; the same block may upload differently later. */
  type Upload = (nat, u8, u16) -> Option<seq<u8>>

  function EntryOf(i: nat, b: LocalBlock, upload: Upload): seq<Entry> {
    match Verdict(b.bytes, upload(i, b.kind, b.number))
    case None => []
    case Some(result) => [Entry(b.kind, b.number, result)]
  }

  /** The verdicts on the local blocks, in their order. */
  function Entries(local: seq<LocalBlock>, upload: Upload): seq<Entry> {
    if local == [] then []
    else Entries(local[..|local| - 1], upload) + EntryOf(|local| - 1, local[|local| - 1], upload)
  }

  method CompareLocal(local: seq<LocalBlock>, upload: Upload) returns (out: seq<Entry>)
    ensures out == Entries(local, upload)
  {
    hide BlockCrc, NoCrc;
    out := [];
    for i := 0 to |local|
      invariant out == Entries(local[..i], upload)
    {
      assert local[..i + 1][..i] == local[..i];
      var b := local[i];
      var localCrc := ChecksumOf(b.bytes);
      if localCrc.None? {
        continue;
      }
      match upload(i, b.kind, b.number) {
        case None =>
          out := out + [Entry(b.kind, b.number, OnlyLocal)];
        case Some(plc) =>
          var checksum := ChecksumOf(plc);
          var plcCrc := if checksum.Some? then checksum.value else NoCrc();
          var result := if localCrc.value == plcCrc then Match else Mismatch(localCrc.value, plcCrc);
          out := out + [Entry(b.kind, b.number, result)];
      }
    }
    assert local[..|local|] == local;
  }

  /** The kinds searched for blocks that exist on the PLC only. */
  const KINDS: seq<u8> := [0x38, 0x41, 0x43, 0x45]

  type Listing = u8 -> Option<seq<u16>>

  /** The blocks that parsed; an unparsable local block counts as absent. */
  function Known(local: seq<LocalBlock>): set<(u8, u16)> {
    set b | b in local && |b.bytes| >= HEADER_LEN :: (b.kind, b.number)
  }

  function Unknown(kind: u8, numbers: seq<u16>, known: set<(u8, u16)>): seq<Entry> {
    if numbers == [] then []
    else
      var n := |numbers| - 1;
      var last := if (kind, numbers[n]) in known then [] else [Entry(kind, numbers[n], OnlyPlc)];
      Unknown(kind, numbers[..n], known) + last
  }

  /** The PLC-only entries of some kinds, unless a listing fails. */
  function AllUnknown(kinds: seq<u8>, listing: Listing, known: set<(u8, u16)>): Option<seq<Entry>> {
    if kinds == [] then Some([])
    else
      var n := |kinds| - 1;
      match (AllUnknown(kinds[..n], listing, known), listing(kinds[n]))
      case (Some(before), Some(numbers)) => Some(before + Unknown(kinds[n], numbers, known))
      case _ => None
  }

  function Comparison(local: seq<LocalBlock>, upload: Upload, plcOnly: bool, listing: Listing): Option<seq<Entry>> {
    if !plcOnly then Some(Entries(local, upload))
    else
      match AllUnknown(KINDS, listing, Known(local))
      case Some(more) => Some(Entries(local, upload) + more)
      case None => None
  }

  method CompareBlocks(local: seq<LocalBlock>, upload: Upload, plcOnly: bool, listing: Listing)
    returns (r: Option<seq<Entry>>)
    ensures r == Comparison(local, upload, plcOnly, listing)
  {
    hide Entries, Unknown;
    var known := Known(local);
    var out := CompareLocal(local, upload);
    if !plcOnly {
      return Some(out);
    }
    ghost var more := [];
    for i := 0 to |KINDS|
      invariant AllUnknown(KINDS[..i], listing, known) == Some(more)
      invariant out == Entries(local, upload) + more
    {
      assert KINDS[..i + 1][..i] == KINDS[..i];
      match listing(KINDS[i]) {
        case None =>
          OneListingFails(KINDS, i, listing, known);
          return None;
        case Some(numbers) =>
          var found := FindUnknown(KINDS[i], numbers, known);
          out := out + found;
          more := more + found;
      }
    }
    assert KINDS[..|KINDS|] == KINDS;
    r := Some(out);
  }

  method FindUnknown(kind: u8, numbers: seq<u16>, known: set<(u8, u16)>) returns (out: seq<Entry>)
    ensures out == Unknown(kind, numbers, known)
  {
    out := [];
    for i := 0 to |numbers|
      invariant out == Unknown(kind, numbers[..i], known)
    {
      assert numbers[..i + 1][..i] == numbers[..i];
      if (kind, numbers[i]) !in known {
        out := out + [Entry(kind, numbers[i], OnlyPlc)];
      }
    }
    assert numbers[..|numbers|] == numbers;
  }

  lemma {:induction false} OneListingFails(kinds: seq<u8>, i: nat, listing: Listing, known: set<(u8, u16)>)
    requires i < |kinds| && listing(kinds[i]).None?
    ensures AllUnknown(kinds, listing, known).None?
  {
    var n := |kinds| - 1;
    if i < n {
      OneListingFails(kinds[..n], i, listing, known);
    }
  }

  // -- What the report says -------------------------------------------------------------------

  lemma {:induction false} EntriesAreLocal(local: seq<LocalBlock>, upload: Upload)
    ensures forall e :: e in Entries(local, upload) ==> e.result != OnlyPlc
  {
    hide BlockCrc, NoCrc;
    if local != [] {
      EntriesAreLocal(local[..|local| - 1], upload);
    }
  }

  lemma {:induction false} UnknownAre(kind: u8, numbers: seq<u16>, known: set<(u8, u16)>, e: Entry)
    ensures e in Unknown(kind, numbers, known)
       <==> e == Entry(kind, e.number, OnlyPlc) && e.number in numbers && (kind, e.number) !in known
  {
    if numbers != [] {
      var n := |numbers| - 1;
      UnknownAre(kind, numbers[..n], known, e);
      assert e.number in numbers <==> e.number in numbers[..n] || e.number == numbers[n];
    }
  }

  lemma {:induction false} AllUnknownAre(kinds: seq<u8>, listing: Listing, known: set<(u8, u16)>, e: Entry)
    requires AllUnknown(kinds, listing, known).Some?
    ensures e in AllUnknown(kinds, listing, known).value
       <==> && e.kind in kinds && listing(e.kind).Some? && e.number in listing(e.kind).value
            && e.result == OnlyPlc && (e.kind, e.number) !in known
  {
    hide Unknown;
    if kinds != [] {
      var n := |kinds| - 1;
      AllUnknownAre(kinds[..n], listing, known, e);
      UnknownAre(kinds[n], listing(kinds[n]).value, known, e);
      assert e.kind in kinds <==> e.kind in kinds[..n] || e.kind == kinds[n];
    }
  }

  /** A block is reported as being on the PLC only exactly if that report is asked for, the block is of one of the four
      kinds and listed, and no local block of that kind and number has 20 bytes or more. */
  lemma ReportsPlcOnly(local: seq<LocalBlock>, upload: Upload, plcOnly: bool, listing: Listing, kind: u8, number: u16)
    requires Comparison(local, upload, plcOnly, listing).Some?
    ensures Entry(kind, number, OnlyPlc) in Comparison(local, upload, plcOnly, listing).value
       <==> && plcOnly && kind in {0x38, 0x41, 0x43, 0x45}
            && listing(kind).Some? && number in listing(kind).value
            && !exists b :: b in local && b.kind == kind && b.number == number && |b.bytes| >= 20
  {
    hide Entries, AllUnknown;
    EntriesAreLocal(local, upload);
    var e := Entry(kind, number, OnlyPlc);
    if plcOnly {
      AllUnknownAre(KINDS, listing, Known(local), e);
      assert kind in KINDS <==> kind in {0x38, 0x41, 0x43, 0x45};
      assert (kind, number) in Known(local)
        <==> exists b :: b in local && b.kind == kind && b.number == number && |b.bytes| >= 20;
    }
  }

  /** The verdict on a local block of 20 bytes or more. */
  predicate Judged(e: Entry, b: LocalBlock, uploaded: Option<seq<u8>>) {
    && e.kind == b.kind && e.number == b.number && |b.bytes| >= 20
    && match uploaded
       case None => e.result == OnlyLocal
       case Some(plc) =>
         var mine := Crc32(b.bytes[..16] + [0, 0, 0, 0] + b.bytes[20..]);
         var theirs := if |plc| >= 20 then Crc32(plc[..16] + [0, 0, 0, 0] + plc[20..]) else seq<bool>(32, _ => false);
         e.result == if mine == theirs then Match else Mismatch(mine, theirs)
  }

  predicate JudgedAt(e: Entry, local: seq<LocalBlock>, i: nat, upload: Upload)
    requires i < |local|
  {
    Judged(e, local[i], upload(i, local[i].kind, local[i].number))
  }

  /** The report begins with one verdict for each local block of 20 bytes or more, in order. */
  lemma ReportsLocal(local: seq<LocalBlock>, upload: Upload, plcOnly: bool, listing: Listing) returns (at: seq<nat>)
    requires Comparison(local, upload, plcOnly, listing).Some?
    ensures forall j, k :: 0 <= j < k < |at| ==> at[j] < at[k]
    ensures forall i :: i in at <==> 0 <= i < |local| && |local[i].bytes| >= 20
    ensures var out := Comparison(local, upload, plcOnly, listing).value;
            && |at| <= |out| && (!plcOnly ==> |at| == |out|)
            && forall j :: 0 <= j < |at| ==> at[j] < |local| && JudgedAt(out[j], local, at[j], upload)
  {
    hide Judged, Entries, AllUnknown;
    at := EntriesAt(local, upload);
  }

  lemma {:induction false} EntriesAt(local: seq<LocalBlock>, upload: Upload) returns (at: seq<nat>)
    ensures forall j, k :: 0 <= j < k < |at| ==> at[j] < at[k]
    ensures forall i :: i in at <==> 0 <= i < |local| && |local[i].bytes| >= 20
    ensures |at| == |Entries(local, upload)|
    ensures forall j :: 0 <= j < |at| ==>
              at[j] < |local| && JudgedAt(Entries(local, upload)[j], local, at[j], upload)
  {
    hide Judged;
    at := [];
    if local != [] {
      var n := |local| - 1;
      at := EntriesAt(local[..n], upload);
      var b := local[n];
      LastEntry(n, b, upload);
      if |b.bytes| >= 20 {
        at := at + [n];
      }
    }
  }

  lemma LastEntry(i: nat, b: LocalBlock, upload: Upload)
    ensures var es := EntryOf(i, b, upload);
            if |b.bytes| >= 20 then |es| == 1 && Judged(es[0], b, upload(i, b.kind, b.number)) else es == []
  {
    hide Crc32;
    assert NoCrc() == seq<bool>(32, _ => false);
  }

  /** Where the fields of a block are. */
  lemma BlockLayout(d: seq<u8>)
    requires |d| >= 20
    ensures var b := FromBytes(d).value;
            && b.blockType == d[0] as int * 256 + d[1] && b.blockNumber == d[2] as int * 256 + d[3]
            && b.format == d[4] as int * 256 + d[5]
            && b.totalLength == ((d[6] as int * 256 + d[7]) * 256 + d[8]) * 256 + d[9]
            && b.flags == d[10] as int * 256 + d[11] && b.crc1 == d[12] as int * 256 + d[13]
            && b.crc2 == d[14] as int * 256 + d[15] && b.payload == d[20..]
  {
  }

  // -- What the comparison is worth -----------------------------------------------------------

  /** If two blocks of the same length differ, once normalised, within 32 consecutive bits at most, they match exactly
      if they do not differ at all. */
  lemma BurstVerdict(local: seq<u8>, plc: seq<u8>, lo: nat, hi: nat)
    requires |local| == |plc| >= HEADER_LEN && hi <= lo + 32
    requires SameOutside(AllBits(Normalised(local)), AllBits(Normalised(plc)), lo, hi)
    ensures Verdict(local, Some(plc)) == Some(Match) <==> Normalised(local) == Normalised(plc)
  {
    hide Crc32, AllBits, SameOutside, Normalised;
    NormalisedLength(local);
    NormalisedLength(plc);
    BurstsAreNoticed(Normalised(local), Normalised(plc), lo, hi);
  }

  lemma NormalisedLength(d: seq<u8>)
    requires |d| >= HEADER_LEN
    ensures |Normalised(d)| == |d|
  {
  }

  lemma {:induction false} AllBitsAppend(a: seq<u8>, b: seq<u8>)
    ensures AllBits(a + b) == AllBits(a) + AllBits(b)
  {
    hide Bits;
    if a == [] {
      assert a + b == b;
    } else {
      assert (a + b)[1..] == a[1..] + b;
      AllBitsAppend(a[1..], b);
    }
  }

  /** The same for a difference within four consecutive bytes. */
  lemma FourByteVerdict(local: seq<u8>, plc: seq<u8>, k: nat)
    requires |local| == |plc| >= HEADER_LEN && k + 4 <= |local|
    requires Normalised(local)[..k] == Normalised(plc)[..k] && Normalised(local)[k + 4..] == Normalised(plc)[k + 4..]
    ensures Verdict(local, Some(plc)) == Some(Match) <==> Normalised(local) == Normalised(plc)
  {
    hide AllBits, Verdict, Normalised;
    NormalisedLength(local);
    NormalisedLength(plc);
    var a, b := Normalised(local), Normalised(plc);
    FourByteWindow(a, b, k);
    BurstVerdict(local, plc, 8 * k, 8 * k + 32);
  }

  lemma FourByteWindow(a: seq<u8>, b: seq<u8>, k: nat)
    requires |a| == |b| && k + 4 <= |a| && a[..k] == b[..k] && a[k + 4..] == b[k + 4..]
    ensures SameOutside(AllBits(a), AllBits(b), 8 * k, 8 * k + 32)
  {
    BytesBefore(a, k);
    BytesBefore(b, k);
    BytesBefore(a, k + 4);
    BytesBefore(b, k + 4);
    AllBitsLength(a);
    AllBitsLength(b);
  }

  lemma BytesBefore(a: seq<u8>, k: nat)
    requires k <= |a|
    ensures |AllBits(a)| >= 8 * k && AllBits(a)[..8 * k] == AllBits(a[..k]) && AllBits(a)[8 * k..] == AllBits(a[k..])
  {
    hide AllBits;
    assert a == a[..k] + a[k..];
    AllBitsAppend(a[..k], a[k..]);
    AllBitsLength(a[..k]);
  }
}
