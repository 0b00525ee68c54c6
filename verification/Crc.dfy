/** The bitwise CRC-32 (IEEE 802.3) and the differences it is certain to notice. */
module Crc {
  import opened Bytes

  /** A 32-bit word as its bits, lowest first. */
  type Word = s: seq<bool> | |s| == 32 witness seq<bool>(32, _ => false)

  function Xor(x: Word, y: Word): (z: Word)
    ensures forall i :: 0 <= i < 32 ==> z[i] == (x[i] != y[i])
  {
    seq<bool>(32, i requires 0 <= i < 32 => x[i] != y[i])
  }

  function Not(x: Word): (z: Word)
    ensures forall i :: 0 <= i < 32 ==> z[i] == !x[i]
  {
    seq<bool>(32, i requires 0 <= i < 32 => !x[i])
  }

  function HalfWord(x: Word): Word { x[1..] + [false] }

  /** The low `n` bits of a number, lowest first. */
  function LowBits(n: nat, v: nat): (s: seq<bool>)
    ensures |s| == n
  {
    if n == 0 then [] else [v % 2 == 1] + LowBits(n - 1, v / 2)
  }

  function Bits(b: u8): (s: seq<bool>)
    ensures |s| == 8
  {
    LowBits(8, b)
  }

  /** 0xEDB88320, byte by byte from the low end. */
  function Polynomial(): Word { FourOctets(Bits(0x20), Bits(0x83), Bits(0xB8), Bits(0xED)) }

  function FourOctets(a: seq<bool>, b: seq<bool>, c: seq<bool>, d: seq<bool>): Word
    requires |a| == |b| == |c| == |d| == 8
  {
    a + b + c + d
  }

  /** Up to 32 bits as a word. */
  function Padded(bits: seq<bool>): (w: Word)
    requires |bits| <= 32
    ensures forall i :: 0 <= i < 32 ==> w[i] == (i < |bits| && bits[i])
  {
    bits + seq<bool>(32 - |bits|, _ => false)
  }

  /** One step of the shift register. */
  function Shift(x: Word): Word { if x[0] then Xor(HalfWord(x), Polynomial()) else HalfWord(x) }

  function Shifts(n: nat, x: Word): Word { if n == 0 then x else Shifts(n - 1, Shift(x)) }

  function FeedByte(crc: Word, b: u8): Word { Shifts(8, Xor(crc, Padded(Bits(b)))) }

  /** The register after feeding bytes. */
  function Feed(crc: Word, data: seq<u8>): Word
    decreases |data|
  {
    if data == [] then crc else Feed(FeedByte(crc, data[0]), data[1..])
  }

  function Ones(): (w: Word)
    ensures forall i :: 0 <= i < 32 ==> w[i]
  {
    seq<bool>(32, _ => true)
  }

  function Crc32(data: seq<u8>): Word { Not(Feed(Ones(), data)) }

  method ComputeCrc32(data: seq<u8>) returns (r: Word)
    ensures r == Crc32(data)
  {
    hide FeedByte, Ones;
    var crc := Ones();
    for i := 0 to |data|
      invariant Feed(crc, data[i..]) == Feed(Ones(), data)
    {
      assert data[i..][1..] == data[i + 1..];
      crc := ComputeByte(crc, data[i]);
    }
    r := Not(crc);
  }

  method ComputeByte(start: Word, b: u8) returns (crc: Word)
    ensures crc == FeedByte(start, b)
  {
    hide Bits, Padded, Polynomial, Xor, HalfWord;
    crc := Xor(start, Padded(Bits(b)));
    ghost var mixed := crc;
    for j := 0 to 8
      invariant Shifts(8 - j, crc) == Shifts(8, mixed)
    {
      if crc[0] {
        crc := Xor(HalfWord(crc), Polynomial());
      } else {
        crc := HalfWord(crc);
      }
    }
  }

  // -- The same, bit by bit ---------------------------------------------------------------

  function Step(crc: Word, bit: bool): Word { Shift(Xor(crc, Padded([bit]))) }

  function FeedBits(crc: Word, bits: seq<bool>): Word
    decreases |bits|
  {
    if bits == [] then crc else FeedBits(Step(crc, bits[0]), bits[1..])
  }

  lemma TopOfHalf(n: nat, v: nat)
    requires n > 1
    ensures LowBits(n, v)[n - 1] == LowBits(n - 1, v / 2)[n - 2]
  {
  }

  lemma PolynomialTop()
    ensures Polynomial()[31]
  {
    hide LowBits;
    TopOfHalf(8, 0xED);
    TopOfHalf(7, 118);
    TopOfHalf(6, 59);
    TopOfHalf(5, 29);
    TopOfHalf(4, 14);
    TopOfHalf(3, 7);
    TopOfHalf(2, 3);
    LastBit(1);
    assert Polynomial()[24..] == Bits(0xED);
  }

  lemma LastBit(v: nat)
    ensures LowBits(1, v)[0] == (v % 2 == 1)
  {
  }

  /** The top bit of the next word tells the bottom bit of the last. */
  lemma ShiftBits(x: Word)
    ensures forall i :: 0 <= i < 31 ==> Shift(x)[i] == (x[i + 1] != (x[0] && Polynomial()[i]))
    ensures Shift(x)[31] == x[0]
  {
    hide Polynomial;
    PolynomialTop();
  }

  lemma ShiftInjective(x: Word, y: Word)
    requires Shift(x) == Shift(y)
    ensures x == y
  {
    hide Shift, Polynomial;
    ShiftBits(x);
    ShiftBits(y);
    assert x[0] == y[0];
    forall i | 1 <= i < 32 ensures x[i] == y[i] {
      assert Shift(x)[i - 1] == Shift(y)[i - 1];
    }
  }

  lemma {:induction false} ShiftsInjective(n: nat, x: Word, y: Word)
    requires Shifts(n, x) == Shifts(n, y)
    ensures x == y
  {
    hide Shift;
    if n > 0 {
      ShiftsInjective(n - 1, Shift(x), Shift(y));
      ShiftInjective(x, y);
    }
  }

  lemma XorCancels(c: Word, x: Word, y: Word)
    requires Xor(c, x) == Xor(c, y)
    ensures x == y
  {
    forall i | 0 <= i < 32 ensures x[i] == y[i] {
      assert Xor(c, x)[i] == Xor(c, y)[i];
    }
  }

  /** Bits above the lowest move down one place and wait. */
  lemma WaitingBits(x: Word, bits: seq<bool>)
    requires 1 <= |bits| <= 32
    ensures Shift(Xor(x, Padded(bits))) == Xor(Step(x, bits[0]), Padded(bits[1..]))
  {
    hide Shift, Polynomial, Xor, Padded;
    var a, b := Xor(x, Padded(bits)), Xor(x, Padded([bits[0]]));
    ShiftBits(a);
    ShiftBits(b);
    assert a[0] == b[0];
    forall i | 0 <= i < 31 ensures Shift(a)[i] == (Shift(b)[i] != Padded(bits[1..])[i]) {
      assert a[i + 1] == (x[i + 1] != Padded(bits)[i + 1]) && b[i + 1] == x[i + 1];
      assert Padded(bits)[i + 1] == Padded(bits[1..])[i];
    }
    assert Shift(a) == Xor(Shift(b), Padded(bits[1..]));
  }

  lemma XorNothing(x: Word)
    ensures Xor(x, Padded([])) == x
  {
  }

  /** Up to 32 bits may be put into the register at once. */
  lemma {:induction false} FeedWord(crc: Word, bits: seq<bool>)
    requires |bits| <= 32
    ensures FeedBits(crc, bits) == Shifts(|bits|, Xor(crc, Padded(bits)))
    decreases |bits|
  {
    hide Shift, Step, Xor, Padded;
    if bits == [] {
      XorNothing(crc);
    } else {
      WaitingBits(crc, bits);
      FeedWord(Step(crc, bits[0]), bits[1..]);
    }
  }

  lemma {:induction false} FeedAppend(crc: Word, a: seq<bool>, b: seq<bool>)
    ensures FeedBits(crc, a + b) == FeedBits(FeedBits(crc, a), b)
    decreases |a|
  {
    hide Step;
    if a == [] {
      assert a + b == b;
    } else {
      assert (a + b)[1..] == a[1..] + b;
      FeedAppend(Step(crc, a[0]), a[1..], b);
    }
  }

  lemma {:induction false} FeedInjective(x: Word, y: Word, bits: seq<bool>)
    requires FeedBits(x, bits) == FeedBits(y, bits)
    ensures x == y
    decreases |bits|
  {
    hide Shift, Xor, Padded;
    if bits != [] {
      var b := Padded([bits[0]]);
      FeedInjective(Step(x, bits[0]), Step(y, bits[0]), bits[1..]);
      ShiftInjective(Xor(x, b), Xor(y, b));
      XorCommutes(x, b);
      XorCommutes(y, b);
      XorCancels(b, x, y);
    }
  }

  lemma XorCommutes(x: Word, y: Word)
    ensures Xor(x, y) == Xor(y, x)
  {
  }

  // -- Bytes as bits ------------------------------------------------------------------------

  function AllBits(data: seq<u8>): seq<bool> { if data == [] then [] else Bits(data[0]) + AllBits(data[1..]) }

  lemma {:induction false} AllBitsLength(data: seq<u8>)
    ensures |AllBits(data)| == 8 * |data|
  {
    hide Bits;
    if data != [] {
      AllBitsLength(data[1..]);
    }
  }

  lemma {:induction false} FeedIsBitwise(crc: Word, data: seq<u8>)
    ensures Feed(crc, data) == FeedBits(crc, AllBits(data))
    decreases |data|
  {
    hide Bits, Xor, Padded, Shifts, Step;
    if data != [] {
      FeedWord(crc, Bits(data[0]));
      FeedAppend(crc, Bits(data[0]), AllBits(data[1..]));
      FeedIsBitwise(FeedByte(crc, data[0]), data[1..]);
    }
  }

  function Power(n: nat): nat { if n == 0 then 1 else 2 * Power(n - 1) }

  lemma {:induction false} LowBitsInjective(n: nat, a: nat, b: nat)
    requires a < Power(n) && b < Power(n) && LowBits(n, a) == LowBits(n, b)
    ensures a == b
  {
    if n > 0 {
      assert LowBits(n, a)[0] == (a % 2 == 1) && LowBits(n, b)[0] == (b % 2 == 1);
      assert LowBits(n, a)[1..] == LowBits(n - 1, a / 2) && LowBits(n, b)[1..] == LowBits(n - 1, b / 2);
      LowBitsInjective(n - 1, a / 2, b / 2);
    }
  }

  lemma BitsInjective(a: u8, b: u8)
    requires Bits(a) == Bits(b)
    ensures a == b
  {
    assert Power(4) == 16 && Power(8) == 256;
    LowBitsInjective(8, a, b);
  }

  lemma {:induction false} AllBitsInjective(a: seq<u8>, b: seq<u8>)
    requires |a| == |b| && AllBits(a) == AllBits(b)
    ensures a == b
  {
    hide Bits;
    if a != [] {
      assert AllBits(a)[..8] == Bits(a[0]) && AllBits(b)[..8] == Bits(b[0]);
      assert AllBits(a)[8..] == AllBits(a[1..]) && AllBits(b)[8..] == AllBits(b[1..]);
      BitsInjective(a[0], b[0]);
      AllBitsInjective(a[1..], b[1..]);
      assert a == [a[0]] + a[1..] && b == [b[0]] + b[1..];
    }
  }

  // -- What the checksum notices --------------------------------------------------------------

  /** Two messages that agree before bit `lo` and from bit `hi` on. */
  predicate SameOutside(a: seq<bool>, b: seq<bool>, lo: nat, hi: nat) {
    |a| == |b| && lo <= hi <= |a| && a[..lo] == b[..lo] && a[hi..] == b[hi..]
  }

  /** Only the window matters. */
  lemma Windows(a: seq<bool>, b: seq<bool>, lo: nat, hi: nat, crc: Word)
    requires SameOutside(a, b, lo, hi)
    ensures FeedBits(crc, a) == FeedBits(crc, b)
       <==> FeedBits(FeedBits(crc, a[..lo]), a[lo..hi]) == FeedBits(FeedBits(crc, a[..lo]), b[lo..hi])
  {
    hide FeedBits;
    var mid := FeedBits(crc, a[..lo]);
    assert a == a[..lo] + (a[lo..hi] + a[hi..]) && b == a[..lo] + (b[lo..hi] + a[hi..]);
    FeedAppend(crc, a[..lo], a[lo..hi] + a[hi..]);
    FeedAppend(crc, a[..lo], b[lo..hi] + a[hi..]);
    FeedAppend(mid, a[lo..hi], a[hi..]);
    FeedAppend(mid, b[lo..hi], a[hi..]);
    if FeedBits(crc, a) == FeedBits(crc, b) {
      FeedInjective(FeedBits(mid, a[lo..hi]), FeedBits(mid, b[lo..hi]), a[hi..]);
    }
  }

  lemma SameWindow(crc: Word, a: seq<bool>, b: seq<bool>)
    requires |a| == |b| <= 32 && FeedBits(crc, a) == FeedBits(crc, b)
    ensures a == b
  {
    hide FeedBits, Shifts, Xor;
    FeedWord(crc, a);
    FeedWord(crc, b);
    ShiftsInjective(|a|, Xor(crc, Padded(a)), Xor(crc, Padded(b)));
    XorCancels(crc, Padded(a), Padded(b));
    assert Padded(a)[..|a|] == a && Padded(b)[..|b|] == b;
  }

  /** Messages of the same length whose differences lie within 32 consecutive bits have the same checksum only if they
      are the same. */
  lemma BurstsAreNoticed(a: seq<u8>, b: seq<u8>, lo: nat, hi: nat)
    requires |a| == |b| && hi <= lo + 32
    requires SameOutside(AllBits(a), AllBits(b), lo, hi)
    ensures Crc32(a) == Crc32(b) <==> a == b
  {
    hide FeedBits, Feed, AllBits, Not, Ones;
    if Crc32(a) == Crc32(b) {
      var s, t := AllBits(a), AllBits(b);
      NotInjective(Feed(Ones(), a), Feed(Ones(), b));
      FeedIsBitwise(Ones(), a);
      FeedIsBitwise(Ones(), b);
      Windows(s, t, lo, hi, Ones());
      SameWindow(FeedBits(Ones(), s[..lo]), s[lo..hi], t[lo..hi]);
      assert s == s[..lo] + s[lo..hi] + s[hi..] && t == t[..lo] + t[lo..hi] + t[hi..];
      AllBitsInjective(a, b);
    }
  }

  lemma NotInjective(x: Word, y: Word)
    requires Not(x) == Not(y)
    ensures x == y
  {
    forall i | 0 <= i < 32 ensures x[i] == y[i] {
      assert Not(x)[i] == Not(y)[i];
    }
  }

  /** One bit more is too much: 33 bits hide a difference exactly if it is the generator polynomial. */
  lemma ThirtyThreeBits(crc: Word, p: bool, a: Word, q: bool, b: Word)
    ensures FeedBits(crc, [p] + a) == FeedBits(crc, [q] + b)
       <==> (p == q && a == b) || (p != q && Xor(a, b) == Polynomial())
  {
    hide Shifts, Step, Xor, Padded, Polynomial;
    var x, y := Step(crc, p), Step(crc, q);
    assert ([p] + a)[1..] == a && ([q] + b)[1..] == b;
    FeedWord(x, a);
    FeedWord(y, b);
    assert Padded(a) == a && Padded(b) == b;
    if Shifts(32, Xor(x, a)) == Shifts(32, Xor(y, b)) {
      ShiftsInjective(32, Xor(x, a), Xor(y, b));
    }
    FirstBit(crc, p, a, q, b);
  }

  lemma FirstBit(crc: Word, p: bool, a: Word, q: bool, b: Word)
    ensures Xor(Step(crc, p), a) == Xor(Step(crc, q), b)
       <==> (p == q && a == b) || (p != q && Xor(a, b) == Polynomial())
  {
    hide Step, Xor, Polynomial;
    if p == q {
      if Xor(Step(crc, p), a) == Xor(Step(crc, q), b) {
        XorCancels(Step(crc, p), a, b);
      }
    } else {
      FlipFirst(crc);
      var x, y, poly := Step(crc, p), Step(crc, q), Polynomial();
      assert forall i :: 0 <= i < 32 ==> (x[i] != y[i]) == poly[i];
      if Xor(x, a) == Xor(y, b) {
        forall i | 0 <= i < 32 ensures Xor(a, b)[i] == poly[i] {
          assert Xor(x, a)[i] == Xor(y, b)[i];
        }
      }
      if Xor(a, b) == poly {
        forall i | 0 <= i < 32 ensures Xor(x, a)[i] == Xor(y, b)[i] {
          assert Xor(a, b)[i] == poly[i];
        }
        assert Xor(x, a) == Xor(y, b);
      }
    }
  }

  lemma FlipFirst(crc: Word)
    ensures Xor(Step(crc, true), Step(crc, false)) == Polynomial()
  {
    hide Shift, Xor, Polynomial, Padded;
    var a, b := Xor(crc, Padded([true])), Xor(crc, Padded([false]));
    ShiftBits(a);
    ShiftBits(b);
    PolynomialTop();
    forall i | 0 <= i < 32 ensures Xor(Shift(a), Shift(b))[i] == Polynomial()[i] {
      assert i < 31 ==> a[i + 1] == b[i + 1];
    }
  }

  // -- Division of polynomials ------------------------------------------------------------------

  /** The generator of IEEE 802.3, its highest power first, without the power 32. */
  function Generator(): Word {
    seq<bool>(32, i requires 0 <= i < 32 => 31 - i in {26, 23, 22, 16, 12, 11, 10, 8, 7, 5, 4, 2, 1, 0})
  }

  /** The bits of a byte, lowest first. */
  lemma BitOrder(b: u8)
    ensures Bits(b) == [b % 2 == 1, b / 2 % 2 == 1, b / 4 % 2 == 1, b / 8 % 2 == 1,
                        b / 16 % 2 == 1, b / 32 % 2 == 1, b / 64 % 2 == 1, b / 128 % 2 == 1]
  {
    FourBits(4, b);
    FourBits(0, b / 16);
    assert LowBits(0, b / 256) == [];
    Sixteenths(b);
  }

  lemma Sixteenths(b: u8)
    ensures b / 16 / 2 == b / 32 && b / 16 / 4 == b / 64 && b / 16 / 8 == b / 128
  {
  }

  lemma FourBits(n: nat, v: nat)
    ensures LowBits(n + 4, v) == [v % 2 == 1, v / 2 % 2 == 1, v / 4 % 2 == 1, v / 8 % 2 == 1] + LowBits(n, v / 16)
  {
    Halves(v);
    assert LowBits(n + 4, v) == [v % 2 == 1] + LowBits(n + 3, v / 2);
    assert LowBits(n + 3, v / 2) == [v / 2 % 2 == 1] + LowBits(n + 2, v / 2 / 2);
    assert LowBits(n + 2, v / 4) == [v / 4 % 2 == 1] + LowBits(n + 1, v / 4 / 2);
    assert LowBits(n + 1, v / 8) == [v / 8 % 2 == 1] + LowBits(n, v / 8 / 2);
  }

  lemma Halves(v: nat)
    ensures v / 2 / 2 == v / 4 && v / 4 / 2 == v / 8 && v / 8 / 2 == v / 16
  {
  }

  lemma PolynomialIsGenerator()
    ensures Polynomial() == Generator()
  {
    hide Bits;
    BitOrder(0x20);
    BitOrder(0x83);
    BitOrder(0xB8);
    BitOrder(0xED);
  }

  /** The remainder of long division by the generator, highest power first. */
  function Remainder(s: seq<bool>): Word
    requires |s| >= 32
    decreases |s|
  {
    if |s| == 32 then s
    else
      var next: Word := s[1..33];
      Remainder((if s[0] then Xor(next, Generator()) else next) + s[33..])
  }

  function Zeros(): Word { Padded([]) }

  /** A message with a register mixed into its first 32 bits. */
  function Mixed(crc: Word, s: seq<bool>): seq<bool>
    requires |s| >= 32
  {
    Xor(crc, s[..32]) + s[32..]
  }

  /** Feeding bits to the register is long division of the bits, followed by 32 zeros. */
  lemma {:induction false} FeedDivides(crc: Word, bits: seq<bool>)
    ensures FeedBits(crc, bits) == Remainder(Mixed(crc, bits + Zeros()))
    decreases |bits|
  {
    hide Step, Generator;
    if bits == [] {
      assert [] + Zeros() == Zeros() && Zeros()[..32] == Zeros();
      XorNothing(crc);
      assert Mixed(crc, [] + Zeros()) == crc;
    } else {
      FeedDivides(Step(crc, bits[0]), bits[1..]);
      DivisionStep(crc, bits + Zeros());
      assert (bits + Zeros())[1..] == bits[1..] + Zeros();
    }
  }

  lemma DivisionStep(crc: Word, s: seq<bool>)
    requires |s| >= 33
    ensures Remainder(Mixed(crc, s)) == Remainder(Mixed(Step(crc, s[0]), s[1..]))
  {
    hide Polynomial, Generator, Xor, Padded, Shift;
    PolynomialIsGenerator();
    var t := Mixed(crc, s);
    var x := Xor(crc, Padded([s[0]]));
    ShiftBits(x);
    PolynomialTop();
    var next: Word := t[1..33];
    var left := if t[0] then Xor(next, Generator()) else next;
    var right := Xor(Step(crc, s[0]), s[1..][..32]);
    forall i | 0 <= i < 32 ensures left[i] == right[i] {
      if i < 31 {
        assert next[i] == t[i + 1] == (crc[i + 1] != s[i + 1]) && x[i + 1] == crc[i + 1];
      } else {
        assert next[31] == t[32] == s[32];
      }
    }
    assert left == right;
    assert t[33..] == s[1..][32..];
  }

  /** The checksum is the complement of the remainder of the message, its bits in the order they are sent, with its
      first 32 bits complemented and 32 zeros behind it. */
  lemma CrcIsRemainder(data: seq<u8>)
    ensures Crc32(data) == Not(Remainder(Mixed(seq<bool>(32, _ => true), AllBits(data) + seq<bool>(32, _ => false))))
  {
    hide Remainder, Mixed, AllBits, Feed, FeedBits;
    FeedIsBitwise(Ones(), data);
    FeedDivides(Ones(), AllBits(data));
    assert Zeros() == seq<bool>(32, _ => false) && Ones() == seq<bool>(32, _ => true);
  }
}
