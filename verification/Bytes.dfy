/** Machine words, big-endian words, and the growable byte buffer that every codec reads and writes. */
module Bytes {

  type u8 = x: int | 0 <= x < 0x100
  type u16 = x: int | 0 <= x < 0x1_0000
  type u32 = x: int | 0 <= x < 0x1_0000_0000

  datatype Option<+T> = None | Some(value: T)

  datatype Result<+T, +E> = Ok(value: T) | Err(error: E) {
    predicate IsFailure() { Err? }

    function PropagateFailure<U>(): Result<U, E>
      requires Err?
    {
      Err(error)
    }

    function Extract(): T
      requires Ok?
    {
      value
    }
  }

  /** The errors of the wire codecs. */
  datatype ProtoError =
    | BufferTooShort(need: nat, have: nat)
    | InvalidMagic(expected: u8, got: u8)
    | UnsupportedPduType(code: u8)
    | UnsupportedFunction(code: u8)
    | UnsupportedArea(code: u8)
    | UnsupportedTransportSize(code: u8)
    | EncodingFailed
    | IntegrityFailure

  // A narrowing cast keeps the low bits.

  function Low8(n: nat): u8 { n % 0x100 }

  function Wide(high: nat, low: u16): nat { high * 0x1_0000 + low }

  /** The low sixteen bits. */
  function Low16(n: nat): u16 {
    HasLow(n);
    SameLow();
    var high: nat, low: u16 :| Wide(high, low) == n;
    low
  }

  lemma HasLow(n: nat)
    ensures exists high: nat, low: u16 :: Wide(high, low) == n
  {
    assert Wide(n / 0x1_0000, n % 0x1_0000) == n;
  }

  lemma SameLow()
    ensures forall a: nat, b: u16, c: nat, d: u16 :: Wide(a, b) == Wide(c, d) ==> a == c && b == d
  {
  }

  lemma Low16IsRemainder(n: nat)
    ensures Low16(n) == n % 0x1_0000
  {
    HasLow(n);
    SameLow();
    assert Wide(n / 0x1_0000, n % 0x1_0000) == n;
  }

  function Low32(n: nat): u32 { n % 0x1_0000_0000 }

  function U16(hi: u8, lo: u8): u16 { hi * 0x100 + lo }

  function U24(b0: u8, b1: u8, b2: u8): nat { (b0 as int * 0x100 + b1) * 0x100 + b2 }

  /** The two bytes of a value, high byte first. */
  function Be16(v: u16): (s: seq<u8>)
    ensures |s| == 2 && U16(s[0], s[1]) == v
  {
    HasBytes16(v);
    var hi: u8, lo: u8 :| U16(hi, lo) == v;
    [hi, lo]
  }

  lemma HasBytes16(v: u16)
    ensures exists hi: u8, lo: u8 :: U16(hi, lo) == v
  {
    var hi: u8, lo: u8 := v / 0x100, v % 0x100;
    assert U16(hi, lo) == v;
  }

  function Words(hi: u16, lo: u16): u32 { hi as int * 0x1_0000 + lo }

  function U32(b0: u8, b1: u8, b2: u8, b3: u8): u32 { Words(U16(b0, b1), U16(b2, b3)) }

  /** The four bytes of a value. */
  function Be32(v: u32): (s: seq<u8>)
    ensures |s| == 4 && U32(s[0], s[1], s[2], s[3]) == v
  {
    HasWords(v);
    SameWords();
    var hi: u16, lo: u16 :| Words(hi, lo) == v;
    FourBytes(hi, lo)
  }

  /** Two words as four bytes. */
  function FourBytes(hi: u16, lo: u16): (s: seq<u8>)
    ensures |s| == 4 && U32(s[0], s[1], s[2], s[3]) == Words(hi, lo)
  {
    Be16(hi) + Be16(lo)
  }

  lemma HasWords(v: u32)
    ensures exists hi: u16, lo: u16 :: Words(hi, lo) == v
  {
    var hi: u16, lo: u16 := v / 0x1_0000, v % 0x1_0000;
    assert Words(hi, lo) == v;
  }

  /** A value has only one high and one low word. */
  lemma SameWords()
    ensures forall a: u16, b: u16, c: u16, d: u16 :: Words(a, b) == Words(c, d) ==> a == c && b == d
  {
  }

  /** Bitwise or. */
  function Or(a: nat, b: nat): nat
    decreases a + b
  {
    if a == 0 then b
    else if b == 0 then a
    else 2 * Or(a / 2, b / 2) + (if a % 2 == 1 || b % 2 == 1 then 1 else 0)
  }

  lemma OrDoubled(a: nat, b: nat, c: nat)
    requires c < 2
    ensures Or(2 * a, 2 * b + c) == 2 * Or(a, b) + c
  {
    assert (2 * a) / 2 == a && (2 * b + c) / 2 == b && (2 * b + c) % 2 == c;
  }

  /** Bits below the third are kept apart. */
  lemma OrLowBits(a: nat, b: nat)
    ensures Or(8 * a, b) == 8 * Or(a, b / 8) + b % 8
  {
    hide Or;
    assert b / 2 / 2 / 2 == b / 8 && b == 8 * (b / 8) + 4 * (b / 4 % 2) + 2 * (b / 2 % 2) + b % 2;
    OrDoubled(4 * a, b / 2, b % 2);
    OrDoubled(2 * a, b / 2 / 2, b / 2 % 2);
    OrDoubled(a, b / 2 / 2 / 2, b / 2 / 2 % 2);
  }

  function Map<T, U>(f: T -> U, xs: seq<T>): (ys: seq<U>)
    ensures |ys| == |xs|
    ensures forall i {:trigger ys[i]} :: 0 <= i < |xs| ==> ys[i] == f(xs[i])
  {
    seq(|xs|, i requires 0 <= i < |xs| => f(xs[i]))
  }

  /** The encodings of the elements, one after another. */
  function ConcatMap<T>(f: T -> seq<u8>, xs: seq<T>): seq<u8> {
    if xs == [] then [] else f(xs[0]) + ConcatMap(f, xs[1..])
  }

  lemma {:induction false} ConcatMapAppend<T>(f: T -> seq<u8>, xs: seq<T>, ys: seq<T>)
    ensures ConcatMap(f, xs + ys) == ConcatMap(f, xs) + ConcatMap(f, ys)
  {
    if xs == [] {
      assert xs + ys == ys;
    } else {
      assert (xs + ys)[1..] == xs[1..] + ys;
      ConcatMapAppend(f, xs[1..], ys);
    }
  }

  lemma ConcatMapSnoc<T>(f: T -> seq<u8>, xs: seq<T>, i: nat)
    requires i < |xs|
    ensures ConcatMap(f, xs[..i + 1]) == ConcatMap(f, xs[..i]) + f(xs[i])
  {
    assert xs[..i + 1] == xs[..i] + [xs[i]];
    ConcatMapAppend(f, xs[..i], [xs[i]]);
    assert ConcatMap(f, [xs[i]]) == f(xs[i]) + ConcatMap(f, []);
  }

  /** A byte buffer: bytes are appended at the back and consumed at the front. */
  class Buffer {
    var data: seq<u8>

    constructor (initial: seq<u8>)
      ensures data == initial
    {
      data := initial;
    }

    method PutU8(v: u8)
      modifies this
      ensures data == old(data) + [v]
    {
      data := data + [v];
    }

    method PutU16(v: u16)
      modifies this
      ensures data == old(data) + Be16(v)
    {
      data := data + Be16(v);
    }

    method PutU32(v: u32)
      modifies this
      ensures data == old(data) + Be32(v)
    {
      data := data + Be32(v);
    }

    method PutSlice(s: seq<u8>)
      modifies this
      ensures data == old(data) + s
    {
      data := data + s;
    }

    method GetU8() returns (v: u8)
      requires |data| >= 1
      modifies this
      ensures v == old(data)[0] && data == old(data)[1..]
    {
      v := data[0];
      data := data[1..];
    }

    method GetU16() returns (v: u16)
      requires |data| >= 2
      modifies this
      ensures v == U16(old(data)[0], old(data)[1]) && data == old(data)[2..]
    {
      v := U16(data[0], data[1]);
      data := data[2..];
    }

    method SplitTo(n: nat) returns (s: seq<u8>)
      requires n <= |data|
      modifies this
      ensures s == old(data)[..n] && data == old(data)[n..]
    {
      s := data[..n];
      data := data[n..];
    }
  }
}
