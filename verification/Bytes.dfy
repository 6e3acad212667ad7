/** Bytes, blocks and the fixed-width integers of the on-disk structures.
    The image is little-endian, as on the machines the program is built for. */
module Bytes {

  type byte = bv8
  type u16 = x: int | 0 <= x < 0x1_0000
  type u32 = x: int | 0 <= x < 0x1_0000_0000
  type i32 = x: int | -0x8000_0000 <= x < 0x8000_0000

  const BLOCK_SIZE: nat := 1024

  type Block = b: seq<byte> | |b| == BLOCK_SIZE witness seq(BLOCK_SIZE, _ => 0)

  function ZeroBlock(): Block { seq(BLOCK_SIZE, _ => 0) }

  /** How many buckets of size m hold n items. */
  function DivRoundUp(n: nat, m: nat): nat
    requires m > 0
  {
    (n + m - 1) / m
  }

  // ---- one byte ------------------------------------------------------------

  predicate Odd(x: int) { x % 2 == 1 }
  function Half(x: int): int { x / 2 }
  function Digit(bit: bool): int { if bit then 1 else 0 }

  /** The number with the given binary digits. */
  function FromBits(b0: bool, b1: bool, b2: bool, b3: bool, b4: bool, b5: bool, b6: bool, b7: bool): int {
    Digit(b0) + 2 * Digit(b1) + 4 * Digit(b2) + 8 * Digit(b3) + 16 * Digit(b4) + 32 * Digit(b5) + 64 * Digit(b6)
      + 128 * Digit(b7)
  }

  /** The number that a byte stands for, and the byte that stands for a number. */
  function FromByte(b: byte): (x: int)
    ensures 0 <= x < 256
  {
    FromBits(b & 1 != 0, b & 2 != 0, b & 4 != 0, b & 8 != 0, b & 16 != 0, b & 32 != 0, b & 64 != 0, b & 128 != 0)
  }

  /** The byte with the given binary digits. */
  function OfBits(b0: bool, b1: bool, b2: bool, b3: bool, b4: bool, b5: bool, b6: bool, b7: bool): byte {
    (if b0 then 1 else 0) | (if b1 then 2 else 0) | (if b2 then 4 else 0) | (if b3 then 8 else 0)
    | (if b4 then 16 else 0) | (if b5 then 32 else 0) | (if b6 then 64 else 0) | (if b7 then 128 else 0)
  }

  function ToByte(x: int): byte
    requires 0 <= x < 256
  {
    var q1 := Half(x); var q2 := Half(q1); var q3 := Half(q2); var q4 := Half(q3);
    var q5 := Half(q4); var q6 := Half(q5); var q7 := Half(q6);
    OfBits(Odd(x), Odd(q1), Odd(q2), Odd(q3), Odd(q4), Odd(q5), Odd(q6), Odd(q7))
  }

  lemma Halve(x: int)
    ensures x == 2 * Half(x) + Digit(Odd(x))
  {
  }

  lemma Eighth(x: int, n: nat)
    requires 0 <= x < 8 * n
    ensures 0 <= Half(Half(Half(x))) < n
  {
  }

  /** The eighth binary digit of a number below 256 is the last. */
  lemma LastDigit(x: int)
    requires 0 <= x < 256
    ensures var q7 := Half(Half(Half(Half(Half(Half(Half(x))))))); q7 == Digit(Odd(q7))
  {
    Eighth(x, 32);
    Eighth(Half(Half(Half(x))), 4);
  }

  lemma BinaryDigits(x: int, q1: int, q2: int, q3: int, q4: int, q5: int, q6: int, q7: int)
    requires 0 <= x < 256 && q1 == Half(x) && q2 == Half(q1) && q3 == Half(q2) && q4 == Half(q3) && q5 == Half(q4)
    requires q6 == Half(q5) && q7 == Half(q6)
    ensures FromBits(Odd(x), Odd(q1), Odd(q2), Odd(q3), Odd(q4), Odd(q5), Odd(q6), Odd(q7)) == x
  {
    hide Odd, Half, Digit;
    LastDigit(x);
    assert x == 2 * q1 + Digit(Odd(x)) && q1 == 2 * q2 + Digit(Odd(q1)) && q2 == 2 * q3 + Digit(Odd(q2)) by {
      Halve(x);
      Halve(q1);
      Halve(q2);
    }
    assert q3 == 2 * q4 + Digit(Odd(q3)) && q4 == 2 * q5 + Digit(Odd(q4)) by { Halve(q3); Halve(q4); }
    assert q5 == 2 * q6 + Digit(Odd(q5)) && q6 == 2 * q7 + Digit(Odd(q6)) by { Halve(q5); Halve(q6); }
  }

  lemma ByteRoundTrip(x: int)
    requires 0 <= x < 256
    ensures FromByte(ToByte(x)) == x
  {
    hide Odd, Half;
    var q1 := Half(x);
    var q2 := Half(q1);
    var q3 := Half(q2);
    var q4 := Half(q3);
    var q5 := Half(q4);
    var q6 := Half(q5);
    var q7 := Half(q6);
    BinaryDigits(x, q1, q2, q3, q4, q5, q6, q7);
  }

  /** A byte stands for its place in the order of bytes. */
  lemma FromByteCounts(b: byte)
    ensures FromByte(0) == 0
    ensures b != 255 ==> FromByte(b + 1) == FromByte(b) + 1
  {
  }

  lemma {:induction false} FromByteOrder(a: byte, b: byte)
    requires a < b
    ensures FromByte(a) < FromByte(b)
    decreases b
  {
    hide FromByte;
    FromByteCounts(b - 1);
    if a != b - 1 { FromByteOrder(a, b - 1); }
  }

  /** Bytes that stand for one number are the same. */
  lemma FromByteUnique(a: byte, b: byte)
    requires FromByte(a) == FromByte(b)
    ensures a == b
  {
    hide FromByte;
    if a < b { FromByteOrder(a, b); }
    if b < a { FromByteOrder(b, a); }
  }

  lemma ToByteIs(b: byte)
    ensures ToByte(FromByte(b)) == b
  {
    hide FromByte, ToByte;
    ByteRoundTrip(FromByte(b));
    FromByteUnique(ToByte(FromByte(b)), b);
  }

  // ---- binary digits of numbers ------------------------------------------------

  function Pow2(k: nat): (p: nat)
    ensures p > 0
  {
    if k == 0 then 1 else 2 * Pow2(k - 1)
  }

  /** Is binary digit k of x set? */
  predicate Bin(x: nat, k: nat) {
    x / Pow2(k) % 2 == 1
  }

  lemma DivIs(m: nat, q: nat, r: nat)
    requires r < m
    ensures (m * q + r) / m == q
  {
    var d := (m * q + r) / m;
    assert m * q + r == m * d + (m * q + r) % m;
    assert d < q ==> m * (d + 1) <= m * q;
    assert d > q ==> m * (q + 1) <= m * d;
  }

  lemma DivTwice(x: nat, m: nat)
    requires m > 0
    ensures x / (2 * m) == x / 2 / m
  {
    var q, r := x / 2 / m, x / 2 % m;
    var mq := m * q;
    assert x / 2 == mq + r && x == 2 * mq + 2 * r + x % 2;
    assert 2 * m * q == 2 * mq;
    DivIs(2 * m, q, 2 * r + x % 2);
  }

  lemma BinHalf(x: nat, k: nat)
    requires k > 0
    ensures Bin(x, k) <==> Bin(x / 2, k - 1)
  {
    DivTwice(x, Pow2(k - 1));
  }

  lemma BinZero(x: nat)
    ensures Bin(x, 0) <==> x % 2 == 1
  {
  }

  /** Adding the power of a digit that is not set sets this digit and changes no other. */
  lemma {:induction false} BinAdd(x: nat, b: nat, k: nat)
    requires !Bin(x, b)
    ensures Bin(x + Pow2(b), k) <==> k == b || Bin(x, k)
    decreases b
  {
    hide Bin;
    BinZero(x);
    BinZero(x + Pow2(b));
    if k > 0 {
      BinHalf(x, k);
      BinHalf(x + Pow2(b), k);
    }
    if b > 0 {
      BinHalf(x, b);
      if k > 0 { BinAdd(x / 2, b - 1, k - 1); }
    }
  }

  lemma HalfOfBits(b0: bool, b1: bool, b2: bool, b3: bool, b4: bool, b5: bool, b6: bool, b7: bool)
    ensures var x := FromBits(b0, b1, b2, b3, b4, b5, b6, b7);
      (x % 2 == 1 <==> b0) && x / 2 == FromBits(b1, b2, b3, b4, b5, b6, b7, false)
  {
  }

  lemma {:induction false} BinOfBits(b0: bool, b1: bool, b2: bool, b3: bool, b4: bool, b5: bool, b6: bool, b7: bool,
                                     k: nat)
    requires k < 8
    ensures FromBits(b0, b1, b2, b3, b4, b5, b6, b7) >= 0
    ensures Bin(FromBits(b0, b1, b2, b3, b4, b5, b6, b7), k) <==> [b0, b1, b2, b3, b4, b5, b6, b7][k]
    decreases k
  {
    hide Bin;
    var x := FromBits(b0, b1, b2, b3, b4, b5, b6, b7);
    HalfOfBits(b0, b1, b2, b3, b4, b5, b6, b7);
    BinZero(x);
    if k > 0 {
      BinHalf(x, k);
      BinOfBits(b1, b2, b3, b4, b5, b6, b7, false, k - 1);
      assert [b0, b1, b2, b3, b4, b5, b6, b7][k] == [b1, b2, b3, b4, b5, b6, b7, false][k - 1];
    }
  }

  /** The digits of a byte that are set. */
  function ByteFlags(b: byte): seq<bool> {
    [b & 1 != 0, b & 2 != 0, b & 4 != 0, b & 8 != 0, b & 16 != 0, b & 32 != 0, b & 64 != 0, b & 128 != 0]
  }

  lemma FlagIs(b: byte, k: nat)
    requires k < 8
    ensures ByteFlags(b)[k] <==> b & [1, 2, 4, 8, 16, 32, 64, 128][k] != 0
  {
    if k == 0 {} else if k == 1 {} else if k == 2 {} else if k == 3 {}
    else if k == 4 {} else if k == 5 {} else if k == 6 {} else {}
  }

  /** The binary digits of a byte. */
  lemma BinOfByte(b: byte, k: nat)
    requires k < 8
    ensures Bin(FromByte(b), k) <==> b & [1, 2, 4, 8, 16, 32, 64, 128][k] != 0
  {
    hide Bin, FromBits;
    var f := ByteFlags(b);
    FlagIs(b, k);
    BinOfBits(f[0], f[1], f[2], f[3], f[4], f[5], f[6], f[7], k);
    assert f == [f[0], f[1], f[2], f[3], f[4], f[5], f[6], f[7]];
  }

  // ---- little-endian words -------------------------------------------------

  function WordBytes(x: u32): (b: seq<byte>)
    ensures |b| == 4
  {
    [ToByte(x % 256), ToByte(x / 256 % 256), ToByte(x / 0x1_0000 % 256), ToByte(x / 0x100_0000)]
  }

  function Word(b: seq<byte>, at: nat): u32
    requires at + 4 <= |b|
  {
    FromByte(b[at]) + 256 * FromByte(b[at + 1]) + 0x1_0000 * FromByte(b[at + 2]) + 0x100_0000 * FromByte(b[at + 3])
  }

  lemma WordRoundTrip(x: u32, b: seq<byte>, at: nat)
    requires at + 4 <= |b| && b[at..at + 4] == WordBytes(x)
    ensures Word(b, at) == x
  {
    hide ToByte, FromByte;
    var d0, d1, d2, d3 := x % 256, x / 256 % 256, x / 0x1_0000 % 256, x / 0x100_0000;
    assert FromByte(b[at]) == d0 && FromByte(b[at + 1]) == d1 && FromByte(b[at + 2]) == d2
      && FromByte(b[at + 3]) == d3 by {
      var s := b[at..at + 4];
      assert s[0] == b[at] && s[1] == b[at + 1] && s[2] == b[at + 2] && s[3] == b[at + 3];
      ByteRoundTrip(d0);
      ByteRoundTrip(d1);
      ByteRoundTrip(d2);
      ByteRoundTrip(d3);
    }
    Digits(x);
  }

  /** The base-256 digits of x add up to x. */
  lemma Digits(x: u32)
    ensures x == x % 256 + 256 * (x / 256 % 256) + 0x1_0000 * (x / 0x1_0000 % 256) + 0x100_0000 * (x / 0x100_0000)
  {
    assert x / 0x1_0000 == x / 256 / 256;
    assert x / 0x100_0000 == x / 0x1_0000 / 256;
  }

  // ---- where the digits of a number lie ----------------------------------------------

  function Pow256(k: nat): (p: nat)
    ensures p > 0
  {
    if k == 0 then 1 else 256 * Pow256(k - 1)
  }

  /** The n bytes of b from place `at` on are the base-256 digits of x, the least significant first. */
  ghost predicate Little(b: seq<byte>, at: nat, n: nat, x: nat) {
    at + n <= |b| && forall k: nat :: k < n ==> FromByte(b[at + k]) == x / Pow256(k) % 256
  }

  lemma DigitsOf(d0: nat, d1: nat, d2: nat, d3: nat)
    requires d0 < 256 && d1 < 256 && d2 < 256 && d3 < 256
    ensures var x := d0 + 256 * d1 + 0x1_0000 * d2 + 0x100_0000 * d3;
      x % 256 == d0 && x / 256 % 256 == d1 && x / 0x1_0000 % 256 == d2 && x / 0x100_0000 == d3
        && x % 0x1_0000 == d0 + 256 * d1 && x / 0x1_0000 == d2 + 256 * d3
  {
    var x := d0 + 256 * d1 + 0x1_0000 * d2 + 0x100_0000 * d3;
    assert x / 256 == d1 + 256 * d2 + 0x1_0000 * d3;
    assert x / 0x1_0000 == d2 + 256 * d3;
  }

  lemma Powers256()
    ensures Pow256(0) == 1 && Pow256(1) == 256 && Pow256(2) == 0x1_0000 && Pow256(3) == 0x100_0000
  {
    assert Pow256(2) == 256 * Pow256(1);
    assert Pow256(3) == 256 * Pow256(2);
  }

  lemma FourDigits(b: seq<byte>, at: nat, x: nat)
    requires at + 4 <= |b| && FromByte(b[at]) == x % 256 && FromByte(b[at + 1]) == x / 256 % 256
    requires FromByte(b[at + 2]) == x / 0x1_0000 % 256 && FromByte(b[at + 3]) == x / 0x100_0000 % 256
    ensures Little(b, at, 4, x)
  {
    hide FromByte, Pow256;
    Powers256();
    assert Pow256(0) == 1 && x / 1 == x;
    forall k: nat | k < 4 ensures FromByte(b[at + k]) == x / Pow256(k) % 256 {
      if k == 0 {} else if k == 1 {} else if k == 2 {} else {}
    }
  }

  lemma TwoDigits(b: seq<byte>, at: nat, x: nat)
    requires at + 2 <= |b| && FromByte(b[at]) == x % 256 && FromByte(b[at + 1]) == x / 256 % 256
    ensures Little(b, at, 2, x)
  {
    hide FromByte, Pow256;
    Powers256();
    assert Pow256(0) == 1 && x / 1 == x;
    forall k: nat | k < 2 ensures FromByte(b[at + k]) == x / Pow256(k) % 256 {
      if k == 0 {} else {}
    }
  }

  lemma PairOf(b: seq<byte>, at: nat, d: nat, e: nat)
    requires at + 2 <= |b| && d == FromByte(b[at]) && e == FromByte(b[at + 1])
    ensures Little(b, at, 2, d + 256 * e)
  {
    hide FromByte, Little;
    DigitsOf(d, e, 0, 0);
    TwoDigits(b, at, d + 256 * e);
  }

  /** A word is stored least significant byte first. */
  lemma WordIsLittle(b: seq<byte>, at: nat)
    requires at + 4 <= |b|
    ensures Little(b, at, 4, Word(b, at)) && Little(b, at, 2, Word(b, at) % 0x1_0000)
    ensures Little(b, at + 2, 2, Word(b, at) / 0x1_0000)
  {
    hide FromByte, Little;
    var d0, d1, d2, d3 := FromByte(b[at]), FromByte(b[at + 1]), FromByte(b[at + 2]), FromByte(b[at + 3]);
    DigitsOf(d0, d1, d2, d3);
    FourDigits(b, at, Word(b, at));
    PairOf(b, at, d0, d1);
    PairOf(b, at + 2, d2, d3);
  }

  /** The bytes of a word. */
  lemma WordBytesAre(x: u32)
    ensures Little(WordBytes(x), 0, 4, x)
  {
    hide FromByte, ToByte, Little;
    var b := WordBytes(x);
    assert b[0..4] == b;
    WordRoundTrip(x, b, 0);
    WordIsLittle(b, 0);
  }
}
