/** The simulator's memory: one byte per (area, data block, offset), area write locks, and the clock. */
module Store {
  import opened Bytes

  type Key = (u8, u16, u32)
  type Memory = map<Key, u8>

  const LAST_OFFSET: u32 := 0xFFFF_FFFF

  /** A byte that was never written reads as zero. */
  function Peek(m: Memory, k: Key): u8 { if k in m then m[k] else 0 }

  /** The number of bytes a read of `count` bytes delivers: the end offset saturates. */
  function Available(start: u32, count: nat): nat {
    if start + count > LAST_OFFSET then LAST_OFFSET - start else count
  }

  function ReadBytes(m: Memory, area: u8, db: u16, start: u32, count: nat): (s: seq<u8>)
    ensures |s| == Available(start, count)
    ensures forall i :: 0 <= i < |s| ==> s[i] == Peek(m, (area, db, start + i))
  {
    seq<u8>(Available(start, count), i requires 0 <= i < Available(start, count) => Peek(m, (area, db, start + i)))
  }

  /** The write loop: offsets past the last one are skipped. */
  function WriteBytes(m: Memory, area: u8, db: u16, start: u32, bytes: seq<u8>): Memory {
    if bytes == [] then m
    else
      var n := |bytes| - 1;
      var before := WriteBytes(m, area, db, start, bytes[..n]);
      if start + n <= LAST_OFFSET then before[(area, db, start + n) := bytes[n]] else before
  }

  predicate Covers(area: u8, db: u16, start: u32, len: nat, k: Key) {
    k.0 == area && k.1 == db && start <= k.2 < start + len
  }

  /** A write puts each byte at its own offset and leaves every other byte alone. */
  lemma {:induction false} WriteIsPointwise(m: Memory, area: u8, db: u16, start: u32, bytes: seq<u8>, k: Key)
    ensures var after := WriteBytes(m, area, db, start, bytes);
            if Covers(area, db, start, |bytes|, k) then k in after && after[k] == bytes[k.2 - start]
            else (k in after <==> k in m) && (k in m ==> after[k] == m[k])
  {
    if bytes != [] {
      WriteIsPointwise(m, area, db, start, bytes[..|bytes| - 1], k);
    }
  }

  /** Reading back what was written returns it, up to the last offset. */
  lemma WriteThenRead(m: Memory, area: u8, db: u16, start: u32, bytes: seq<u8>)
    ensures ReadBytes(WriteBytes(m, area, db, start, bytes), area, db, start, |bytes|)
         == bytes[..Available(start, |bytes|)]
  {
    forall i | 0 <= i < Available(start, |bytes|)
      ensures Peek(WriteBytes(m, area, db, start, bytes), (area, db, start + i)) == bytes[i]
    {
      WriteIsPointwise(m, area, db, start, bytes, (area, db, start + i));
    }
  }

  /** The real-time clock: eight BCD bytes. */
  type ClockBytes = s: seq<u8> | |s| == 8 witness [0, 0, 0, 0, 0, 0, 0, 0]

  /** The whole state of a store. */
  datatype Plant = Plant(memory: Memory, locked: set<u8>, clock: ClockBytes)

  datatype AreaWrite = AreaWrite(area: u8, db: u16, start: u32, bytes: seq<u8>)

  /** A write to a locked area is dropped without an error. */
  function WriteArea(p: Plant, w: AreaWrite): Plant {
    if w.area in p.locked then p else p.(memory := WriteBytes(p.memory, w.area, w.db, w.start, w.bytes))
  }

  /** The writes one after another, first to last. */
  function WriteAll(p: Plant, ws: seq<AreaWrite>): (q: Plant)
    ensures q.locked == p.locked && q.clock == p.clock
  {
    if ws == [] then p else WriteArea(WriteAll(p, ws[..|ws| - 1]), ws[|ws| - 1])
  }

  lemma {:induction false} WriteAllAppend(p: Plant, ws: seq<AreaWrite>, vs: seq<AreaWrite>)
    ensures WriteAll(p, ws + vs) == WriteAll(WriteAll(p, ws), vs)
  {
    if vs == [] {
      assert ws + vs == ws;
    } else {
      var n := |vs| - 1;
      WriteAllAppend(p, ws, vs[..n]);
      assert (ws + vs)[..|ws + vs| - 1] == ws + vs[..n];
    }
  }

  predicate Touches(p: Plant, w: AreaWrite, k: Key) {
    w.area !in p.locked && Covers(w.area, w.db, w.start, |w.bytes|, k)
  }

  /** The index of the last write that reaches `k`, if any does. */
  function LastTouch(p: Plant, ws: seq<AreaWrite>, k: Key): (r: Option<nat>)
    ensures r.Some? ==> r.value < |ws| && Touches(p, ws[r.value], k)
    ensures r.Some? ==> forall j :: r.value < j < |ws| ==> !Touches(p, ws[j], k)
    ensures r.None? ==> forall j :: 0 <= j < |ws| ==> !Touches(p, ws[j], k)
  {
    if ws == [] then None
    else
      var n := |ws| - 1;
      if Touches(p, ws[n], k) then Some(n) else LastTouch(p, ws[..n], k)
  }

  /** The last write wins; a byte no unlocked write reaches keeps its old value. */
  lemma {:induction false} LastWriteWins(p: Plant, ws: seq<AreaWrite>, k: Key)
    ensures Peek(WriteAll(p, ws).memory, k)
         == match LastTouch(p, ws, k)
            case Some(i) => ws[i].bytes[k.2 - ws[i].start]
            case None => Peek(p.memory, k)
  {
    if ws != [] {
      var n := |ws| - 1;
      LastWriteWins(p, ws[..n], k);
      WriteIsPointwise(WriteAll(p, ws[..n]).memory, ws[n].area, ws[n].db, ws[n].start, ws[n].bytes, k);
    }
  }

  /** A locked area keeps its bytes; an unlocked one takes every byte up to the last offset. Nothing else changes. */
  lemma WriteRespectsLocks(p: Plant, w: AreaWrite, k: Key)
    ensures w.area in p.locked ==> WriteArea(p, w) == p
    ensures w.area !in p.locked ==>
              Peek(WriteArea(p, w).memory, k)
              == if k.0 == w.area && k.1 == w.db && w.start <= k.2 && k.2 - w.start < |w.bytes|
                 then w.bytes[k.2 - w.start] else Peek(p.memory, k)
    ensures WriteArea(p, w).locked == p.locked && WriteArea(p, w).clock == p.clock
  {
    hide WriteBytes;
    WriteIsPointwise(p.memory, w.area, w.db, w.start, w.bytes, k);
  }

  /** A read stops before the last offset; a byte never written is zero. */
  lemma ReadSaturates(m: Memory, area: u8, db: u16, start: u32, count: nat, i: nat)
    ensures |ReadBytes(m, area, db, start, count)|
         == if start + count <= 0xFFFF_FFFF then count else 0xFFFF_FFFF - start
    ensures i < |ReadBytes(m, area, db, start, count)| ==>
              ReadBytes(m, area, db, start, count)[i]
              == if (area, db, start + i) in m then m[(area, db, start + i)] else 0
  {
  }

  class DataStore {
    var memory: Memory
    var locked: set<u8>
    var clock: ClockBytes

    function State(): Plant
      reads this
    {
      Plant(memory, locked, clock)
    }

    constructor ()
      ensures State() == Plant(map[], {}, [0, 0, 0, 0, 0, 0, 0, 0])
    {
      memory, locked, clock := map[], {}, [0, 0, 0, 0, 0, 0, 0, 0];
    }

    method LockArea(area: u8)
      modifies this
      ensures State() == old(State()).(locked := old(locked) + {area})
    {
      locked := locked + {area};
    }

    method UnlockArea(area: u8)
      modifies this
      ensures State() == old(State()).(locked := old(locked) - {area})
    {
      locked := locked - {area};
    }

    method SetClock(bytes: ClockBytes)
      modifies this
      ensures State() == old(State()).(clock := bytes)
    {
      clock := bytes;
    }

    method Read(area: u8, db: u16, start: u32, count: nat) returns (bytes: seq<u8>)
      ensures bytes == ReadBytes(memory, area, db, start, count)
    {
      bytes := [];
      var end: int := if start + count > LAST_OFFSET then LAST_OFFSET else start + count;
      for offset: int := start to end
        invariant |bytes| == offset - start
        invariant forall i :: 0 <= i < |bytes| ==> bytes[i] == Peek(memory, (area, db, start + i))
      {
        bytes := bytes + [Peek(memory, (area, db, offset))];
      }
    }

    method Write(area: u8, db: u16, start: u32, bytes: seq<u8>)
      modifies this
      ensures State() == WriteArea(old(State()), AreaWrite(area, db, start, bytes))
    {
      if area in locked {
        return;
      }
      for i := 0 to |bytes|
        invariant memory == WriteBytes(old(memory), area, db, start, bytes[..i])
        invariant locked == old(locked) && clock == old(clock)
      {
        assert bytes[..i + 1][..i] == bytes[..i];
        if start + i <= LAST_OFFSET {
          memory := memory[(area, db, start + i) := bytes[i]];
        }
      }
      assert bytes[..|bytes|] == bytes;
    }
  }
}
