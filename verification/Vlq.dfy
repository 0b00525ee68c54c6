/** Variable-length quantities: seven bits to a byte, most significant group first, continuation in the top bit. */
module Vlq {
  import opened Bytes

  /** The payload of one byte. */
  type u7 = x: int | 0 <= x < 0x80

  const U32_MAX := 0xFFFF_FFFF

  /** The groups of `v`, all flagged as continued; none for zero. */
  function Flagged(v: nat): seq<u8> {
    if v == 0 then [] else Flagged(v / 0x80) + [v % 0x80 + 0x80]
  }

  /** The shortest encoding: flagged groups, then the low group unflagged. */
  function VlqBytes(v: nat): (s: seq<u8>)
    ensures s != []
  {
    if v < 0x80 then [v] else Flagged(v / 0x80) + [v % 0x80]
  }

  /** Groups collected low to high, emitted high to low. */
  function Emitted(groups: seq<u7>): seq<u8> {
    if groups == [] then [] else Emitted(groups[1..]) + [groups[0] as int + 0x80]
  }

  lemma {:induction false} EmittedSnoc(groups: seq<u7>, g: u7)
    ensures Emitted(groups + [g]) == [g as int + 0x80] + Emitted(groups)
  {
    if groups == [] {
      assert groups + [g] == [g] && [g][1..] == [];
    } else {
      assert (groups + [g])[1..] == groups[1..] + [g];
      EmittedSnoc(groups[1..], g);
    }
  }

  /** What is left of a u32 after `n` groups are taken off. */
  function LeftAfter(n: nat): nat
    requires n <= 5
  {
    [0x1_0000_0000, 0x200_0000, 0x4_0000, 0x800, 0x10, 0x1][n]
  }

  method EncodeVlq(value: u32, buf: Buffer)
    modifies buf
    ensures buf.data == old(buf.data) + VlqBytes(value)
  {
    if value < 0x80 {
      buf.PutU8(value);
      return;
    }
    var groups := CollectGroups(value);
    EmitGroups(groups, buf);
    assert Emitted(groups) == Emitted(groups[1..]) + [groups[0] as int + 0x80];
    assert Flagged(value) == Flagged(value / 0x80) + [value % 0x80 + 0x80];
    assert Emitted(groups)[..|Emitted(groups)| - 1] == Emitted(groups[1..]);
    assert Flagged(value)[..|Flagged(value)| - 1] == Flagged(value / 0x80);
  }

  /** The first loop, filling a five-byte array from the low end. */
  method CollectGroups(value: u32) returns (s: seq<u7>)
    requires value > 0
    ensures s != [] && s[0] == value % 0x80 && Emitted(s) == Flagged(value)
  {
    var groups := new u7[5](_ => 0);
    var n := 0;
    var v: nat := value;
    while v > 0
      invariant 0 <= n <= 5 && v < LeftAfter(n) && (n == 0 ==> v == value)
      invariant n > 0 ==> groups[0] == value % 0x80
      invariant Flagged(v) + Emitted(groups[..n]) == Flagged(value)
      decreases v
    {
      ghost var before := groups[..n];
      groups[n] := v % 0x80;
      assert groups[..n + 1] == before + [v % 0x80];
      EmittedSnoc(before, v % 0x80);
      assert Flagged(v / 0x80) + ([v % 0x80 + 0x80] + Emitted(before)) == Flagged(v) + Emitted(before);
      n := n + 1;
      v := v / 0x80;
    }
    s := groups[..n];
  }

  /** The second loop, from the high end; every group but the last is flagged. */
  method EmitGroups(groups: seq<u7>, buf: Buffer)
    requires groups != []
    modifies buf
    ensures buf.data == old(buf.data) + (Emitted(groups[1..]) + [groups[0]])
  {
    var i := |groups|;
    while i > 0
      invariant 0 <= i <= |groups|
      invariant i > 0 ==> buf.data == old(buf.data) + Emitted(groups[i..])
      invariant i == 0 ==> buf.data == old(buf.data) + (Emitted(groups[1..]) + [groups[0]])
    {
      i := i - 1;
      assert groups[i..][1..] == groups[i + 1..];
      buf.PutU8(if i > 0 then groups[i] as int + 0x80 else groups[i]);
    }
  }

  /** Decodes on from `result`, with `count` bytes read before. */
  function ParseFrom(s: seq<u8>, result: nat, count: nat): (r: Result<(u32, seq<u8>), ProtoError>)
    decreases |s|
  {
    if s == [] then Err(BufferTooShort(1, 0))
    else
      var v := result * 0x80 + s[0] % 0x80;
      if v > U32_MAX then Err(EncodingFailed)
      else if s[0] < 0x80 then Ok((v, s[1..]))
      else if count + 1 >= 5 then Err(EncodingFailed)
      else ParseFrom(s[1..], v, count + 1)
  }

  function ParseVlq(s: seq<u8>): (r: Result<(u32, seq<u8>), ProtoError>) { ParseFrom(s, 0, 0) }

  method DecodeVlq(buf: Buffer) returns (r: Result<u32, ProtoError>)
    modifies buf
    ensures match ParseVlq(old(buf.data))
            case Ok((v, rest)) => r == Ok(v) && buf.data == rest
            case Err(e) => r == Err(e)
  {
    var result: nat := 0;
    var count := 0;
    while true
      invariant 0 <= count < 5 && result <= U32_MAX
      invariant ParseFrom(buf.data, result, count) == ParseVlq(old(buf.data))
      decreases |buf.data|
    {
      if buf.data == [] {
        return Err(BufferTooShort(1, 0));
      }
      var byte := buf.GetU8();
      result := result * 0x80 + byte % 0x80;
      if result > U32_MAX {
        return Err(EncodingFailed);
      }
      if byte < 0x80 {
        return Ok(result);
      }
      count := count + 1;
      if count >= 5 {
        return Err(EncodingFailed);
      }
    }
  }

  // -- Encoding, then decoding -----------------------------------------------------------

  lemma FlaggedLength(v: nat)
    requires v < 0x1000_0000
    ensures |Flagged(v)| <= 4
  {
    var a := v / 0x80;
    var b := a / 0x80;
    var c := b / 0x80;
    assert c / 0x80 == 0;
    assert |Flagged(c)| <= 1;
    assert |Flagged(b)| <= 2;
    assert |Flagged(a)| <= 3;
  }

  lemma VlqLength(v: u32)
    ensures |VlqBytes(v)| <= 5
  {
    FlaggedLength(v / 0x80);
  }

  lemma {:induction false} FlaggedParses(v: nat, rest: seq<u8>)
    requires v <= U32_MAX && |Flagged(v)| <= 4
    ensures ParseFrom(Flagged(v) + rest, 0, 0) == ParseFrom(rest, v, |Flagged(v)|)
  {
    if v == 0 {
      assert Flagged(v) + rest == rest;
    } else {
      var b := v % 0x80 + 0x80;
      FlaggedParses(v / 0x80, [b] + rest);
      assert Flagged(v) + rest == Flagged(v / 0x80) + ([b] + rest);
      assert ([b] + rest)[1..] == rest;
      assert v / 0x80 * 0x80 + b % 0x80 == v;
    }
  }

  /** Every u32 decodes to itself and leaves exactly what came after it. */
  lemma VlqRoundTrip(v: u32, rest: seq<u8>)
    ensures ParseVlq(VlqBytes(v) + rest) == Ok((v, rest))
  {
    if v < 0x80 {
      assert (VlqBytes(v) + rest)[1..] == rest;
    } else {
      FlaggedLength(v / 0x80);
      FlaggedParses(v / 0x80, [v % 0x80] + rest);
      assert VlqBytes(v) + rest == Flagged(v / 0x80) + ([v % 0x80] + rest);
      assert ([v % 0x80] + rest)[1..] == rest;
    }
  }

  // -- Decoding, then encoding -----------------------------------------------------------

  /** The bytes a successful decode has used. */
  function Used(s: seq<u8>, rest: seq<u8>): seq<u8>
    requires |rest| <= |s|
  {
    s[..|s| - |rest|]
  }

  lemma {:induction false} ParseTakesPrefix(s: seq<u8>, result: nat, count: nat)
    requires ParseFrom(s, result, count).Ok?
    ensures var (v, rest) := ParseFrom(s, result, count).value;
            |rest| < |s| && s == Used(s, rest) + rest
            && (result > 0 ==> Flagged(result) + Used(s, rest) == VlqBytes(v))
    decreases |s|
  {
    hide Flagged, VlqBytes;
    var (v, rest) := ParseFrom(s, result, count).value;
    var next := result * 0x80 + s[0] % 0x80;
    NextGroup(result, s[0] % 0x80);
    if s[0] < 0x80 {
      assert Used(s, rest) == [s[0]];
    } else {
      ParseTakesPrefix(s[1..], next, count + 1);
      assert Used(s, rest) == [s[0]] + Used(s[1..], rest);
      if result > 0 {
        assert Flagged(result) + Used(s, rest) == (Flagged(result) + [s[0]]) + Used(s[1..], rest);
      }
    }
  }

  lemma NextGroup(result: nat, b: u7)
    ensures var next := result * 0x80 + b;
            && (next > 0 ==> Flagged(next) == Flagged(result) + [b as int + 0x80])
            && (result > 0 ==> VlqBytes(next) == Flagged(result) + [b])
  {
    var next := result * 0x80 + b;
    assert next / 0x80 == result && next % 0x80 == b;
  }

  lemma {:induction false} FlaggedHead(v: nat)
    requires v > 0
    ensures Flagged(v) != [] && Flagged(v)[0] > 0x80
  {
    if v >= 0x80 {
      FlaggedHead(v / 0x80);
    } else {
      assert Flagged(v) == Flagged(0) + [v + 0x80];
    }
  }

  lemma VlqHead(v: nat)
    ensures VlqBytes(v)[0] != 0x80
  {
    if v >= 0x80 {
      FlaggedHead(v / 0x80);
    }
  }

  lemma {:induction false} ParseIsNoShorter(s: seq<u8>, count: nat)
    requires ParseFrom(s, 0, count).Ok?
    ensures var (v, rest) := ParseFrom(s, 0, count).value;
            |rest| < |s| && |VlqBytes(v)| <= |s| - |rest| && (s[0] != 0x80 ==> Used(s, rest) == VlqBytes(v))
    decreases |s|
  {
    var (v, rest) := ParseFrom(s, 0, count).value;
    ParseTakesPrefix(s, 0, count);
    if s[0] < 0x80 {
      assert Used(s, rest) == [s[0]] == VlqBytes(v);
    } else if s[0] == 0x80 {
      ParseIsNoShorter(s[1..], count + 1);
    } else {
      var next := s[0] % 0x80;
      ParseTakesPrefix(s[1..], next, count + 1);
      assert Flagged(next) == Flagged(0) + [s[0]] == [s[0]];
      assert Used(s, rest) == [s[0]] + Used(s[1..], rest);
    }
  }

  /** No byte string decodes to `v` that is shorter than its encoding, and one is the encoding exactly if it does not
      begin with an empty flagged group. */
  lemma Canonical(s: seq<u8>)
    requires ParseVlq(s).Ok?
    ensures var (v, rest) := ParseVlq(s).value;
            && |rest| < |s| && s == Used(s, rest) + rest
            && |VlqBytes(v)| <= |Used(s, rest)|
            && (Used(s, rest) == VlqBytes(v) <==> s[0] != 0x80)
  {
    ParseTakesPrefix(s, 0, 0);
    ParseIsNoShorter(s, 0);
    VlqHead(ParseVlq(s).value.0);
  }
}
