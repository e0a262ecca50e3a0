/**
 * The integer readings of a 32-bit word that Emulator/src/cpu.rs takes with
 * `as i32` and `as u32`, and the truncating division `i32::wrapping_div` /
 * `i32::wrapping_rem` performs on them.
 *
 * A word is read as eight hexadecimal digits, each digit bit by bit, and a
 * number is written back digit by digit; both directions are proved to be
 * inverse on `0 .. 2^32`. The signed reading subtracts 2^32 from values with
 * bit 31 set, and `FromSigned` wraps any integer modulo 2^32.
 */
module Word {
  const Modulus: int := 0x1_0000_0000
  const MinSigned: int := -0x8000_0000
  const MaxSigned: int := 0x7FFF_FFFF

  // ---------------------------------------------------------------------
  // Digits
  // ---------------------------------------------------------------------

  /** The value of the low four bits of `y`, read bit by bit. */
  function Digit(y: bv32): (d: int)
    ensures 0 <= d < 0x10
  {
    (if y & 1 != 0 then 1 else 0) + (if y & 2 != 0 then 2 else 0)
    + (if y & 4 != 0 then 4 else 0) + (if y & 8 != 0 then 8 else 0)
  }

  /** The word holding the hexadecimal digit `t` in its low four bits. */
  function Nibble(t: int): (y: bv32)
    requires 0 <= t < 0x10
    ensures y & 0xF == y && Digit(y) == t
  {
    if t == 0 then 0x0 else if t == 1 then 0x1 else if t == 2 then 0x2 else if t == 3 then 0x3
    else if t == 4 then 0x4 else if t == 5 then 0x5 else if t == 6 then 0x6 else if t == 7 then 0x7
    else if t == 8 then 0x8 else if t == 9 then 0x9 else if t == 10 then 0xA else if t == 11 then 0xB
    else if t == 12 then 0xC else if t == 13 then 0xD else if t == 14 then 0xE else 0xF
  }

  /** The word with hexadecimal digits `a` (lowest) to `h`. */
  function Assemble(a: bv32, b: bv32, c: bv32, d: bv32, e: bv32, f: bv32, g: bv32, h: bv32): bv32 {
    a | (b << 4) | (c << 8) | (d << 12) | (e << 16) | (f << 20) | (g << 24) | (h << 28)
  }

  /** The number with hexadecimal digits `d0` (lowest) to `d7`. */
  function Horner(d0: int, d1: int, d2: int, d3: int, d4: int, d5: int, d6: int, d7: int): int {
    d0 + 0x10 * (d1 + 0x10 * (d2 + 0x10 * (d3 + 0x10 * (d4 + 0x10 * (d5 + 0x10 * (d6 + 0x10 * d7))))))
  }

  // ---------------------------------------------------------------------
  // The unsigned reading, `as u32`
  // ---------------------------------------------------------------------

  /** The unsigned value of a word. */
  function Unsigned(x: bv32): (u: int)
    ensures 0 <= u < Modulus
  {
    Horner(Digit(x), Digit(x >> 4), Digit(x >> 8), Digit(x >> 12), Digit(x >> 16), Digit(x >> 20),
      Digit(x >> 24), Digit(x >> 28))
  }

  /** The word whose unsigned value is `n`. */
  function FromUnsigned(n: int): bv32
    requires 0 <= n < Modulus
  {
    var q1 := n / 0x10; var q2 := q1 / 0x10; var q3 := q2 / 0x10; var q4 := q3 / 0x10;
    var q5 := q4 / 0x10; var q6 := q5 / 0x10; var q7 := q6 / 0x10;
    Assemble(Nibble(n % 0x10), Nibble(q1 % 0x10), Nibble(q2 % 0x10), Nibble(q3 % 0x10),
      Nibble(q4 % 0x10), Nibble(q5 % 0x10), Nibble(q6 % 0x10), Nibble(q7 % 0x10))
  }

  lemma NibbleOfDigit(y: bv32)
    ensures Nibble(Digit(y)) == y & 0xF
  { }

  lemma DigitOfLowBits(y: bv32)
    ensures Digit(y) == Digit(y & 0xF)
  { }

  lemma NibblesOfAssemble(a: bv32, b: bv32, c: bv32, d: bv32, e: bv32, f: bv32, g: bv32, h: bv32)
    requires a & 0xF == a && b & 0xF == b && c & 0xF == c && d & 0xF == d
    requires e & 0xF == e && f & 0xF == f && g & 0xF == g && h & 0xF == h
    ensures var x := Assemble(a, b, c, d, e, f, g, h);
      x & 0xF == a && (x >> 4) & 0xF == b && (x >> 8) & 0xF == c && (x >> 12) & 0xF == d
      && (x >> 16) & 0xF == e && (x >> 20) & 0xF == f && (x >> 24) & 0xF == g && (x >> 28) & 0xF == h
  { }

  lemma AssembleNibbles(x: bv32)
    ensures Assemble(x & 0xF, (x >> 4) & 0xF, (x >> 8) & 0xF, (x >> 12) & 0xF, (x >> 16) & 0xF,
      (x >> 20) & 0xF, (x >> 24) & 0xF, (x >> 28) & 0xF) == x
  { }

  /** One step of reading a number: its lowest digit and the rest. */
  lemma Peel(d: int, rest: int)
    requires 0 <= d < 0x10
    ensures (d + 0x10 * rest) % 0x10 == d && (d + 0x10 * rest) / 0x10 == rest
  { }

  lemma Split(n: int)
    ensures n == n % 0x10 + 0x10 * (n / 0x10)
  { }

  lemma Shrink(n: int, bound: int)
    requires 0 <= n < 0x10 * bound
    ensures 0 <= n / 0x10 < bound
  { }

  /** A number below 2^32 is the number of its eight digits. */
  lemma HornerOfDigits(n: int)
    requires 0 <= n < Modulus
    ensures var q1 := n / 0x10; var q2 := q1 / 0x10; var q3 := q2 / 0x10; var q4 := q3 / 0x10;
      var q5 := q4 / 0x10; var q6 := q5 / 0x10; var q7 := q6 / 0x10;
      Horner(n % 0x10, q1 % 0x10, q2 % 0x10, q3 % 0x10, q4 % 0x10, q5 % 0x10, q6 % 0x10, q7 % 0x10) == n
  {
    var q1 := n / 0x10; var q2 := q1 / 0x10; var q3 := q2 / 0x10; var q4 := q3 / 0x10;
    var q5 := q4 / 0x10; var q6 := q5 / 0x10; var q7 := q6 / 0x10;
    Split(n); Split(q1); Split(q2); Split(q3); Split(q4); Split(q5); Split(q6);
    Shrink(n, 0x1000_0000); Shrink(q1, 0x100_0000); Shrink(q2, 0x10_0000); Shrink(q3, 0x1_0000);
    Shrink(q4, 0x1000); Shrink(q5, 0x100); Shrink(q6, 0x10);
    assert q7 % 0x10 == q7;
  }

  /** The digits of the number of eight digits are those digits. */
  lemma DigitsOfHorner(d0: int, d1: int, d2: int, d3: int, d4: int, d5: int, d6: int, d7: int)
    requires 0 <= d0 < 0x10 && 0 <= d1 < 0x10 && 0 <= d2 < 0x10 && 0 <= d3 < 0x10
    requires 0 <= d4 < 0x10 && 0 <= d5 < 0x10 && 0 <= d6 < 0x10 && 0 <= d7 < 0x10
    ensures var n := Horner(d0, d1, d2, d3, d4, d5, d6, d7);
      var q1 := n / 0x10; var q2 := q1 / 0x10; var q3 := q2 / 0x10; var q4 := q3 / 0x10;
      var q5 := q4 / 0x10; var q6 := q5 / 0x10; var q7 := q6 / 0x10;
      0 <= n < Modulus && n % 0x10 == d0 && q1 % 0x10 == d1 && q2 % 0x10 == d2 && q3 % 0x10 == d3
      && q4 % 0x10 == d4 && q5 % 0x10 == d5 && q6 % 0x10 == d6 && q7 % 0x10 == d7
  {
    var r6 := d6 + 0x10 * d7;
    var r5 := d5 + 0x10 * r6;
    var r4 := d4 + 0x10 * r5;
    var r3 := d3 + 0x10 * r4;
    var r2 := d2 + 0x10 * r3;
    var r1 := d1 + 0x10 * r2;
    var n := d0 + 0x10 * r1;
    Peel(d0, r1); assert n / 0x10 == r1;
    Peel(d1, r2); assert r1 / 0x10 == r2;
    Peel(d2, r3); assert r2 / 0x10 == r3;
    Peel(d3, r4); assert r3 / 0x10 == r4;
    Peel(d4, r5); assert r4 / 0x10 == r5;
    Peel(d5, r6); assert r5 / 0x10 == r6;
    Peel(d6, d7); assert r6 / 0x10 == d7;
    Peel(d7, 0);
  }

  lemma UnsignedOfNibbles(x: bv32, t0: int, t1: int, t2: int, t3: int, t4: int, t5: int, t6: int, t7: int)
    requires 0 <= t0 < 0x10 && 0 <= t1 < 0x10 && 0 <= t2 < 0x10 && 0 <= t3 < 0x10
    requires 0 <= t4 < 0x10 && 0 <= t5 < 0x10 && 0 <= t6 < 0x10 && 0 <= t7 < 0x10
    requires x & 0xF == Nibble(t0) && (x >> 4) & 0xF == Nibble(t1) && (x >> 8) & 0xF == Nibble(t2)
      && (x >> 12) & 0xF == Nibble(t3)
    requires (x >> 16) & 0xF == Nibble(t4) && (x >> 20) & 0xF == Nibble(t5)
      && (x >> 24) & 0xF == Nibble(t6) && (x >> 28) & 0xF == Nibble(t7)
    ensures Unsigned(x) == Horner(t0, t1, t2, t3, t4, t5, t6, t7)
  {
    DigitOfLowBits(x); DigitOfLowBits(x >> 4); DigitOfLowBits(x >> 8); DigitOfLowBits(x >> 12);
    DigitOfLowBits(x >> 16); DigitOfLowBits(x >> 20); DigitOfLowBits(x >> 24); DigitOfLowBits(x >> 28);
  }

  lemma UnsignedOfAssembled(t0: int, t1: int, t2: int, t3: int, t4: int, t5: int, t6: int, t7: int)
    requires 0 <= t0 < 0x10 && 0 <= t1 < 0x10 && 0 <= t2 < 0x10 && 0 <= t3 < 0x10
    requires 0 <= t4 < 0x10 && 0 <= t5 < 0x10 && 0 <= t6 < 0x10 && 0 <= t7 < 0x10
    ensures Unsigned(Assemble(Nibble(t0), Nibble(t1), Nibble(t2), Nibble(t3), Nibble(t4), Nibble(t5),
      Nibble(t6), Nibble(t7))) == Horner(t0, t1, t2, t3, t4, t5, t6, t7)
  {
    var x := Assemble(Nibble(t0), Nibble(t1), Nibble(t2), Nibble(t3), Nibble(t4), Nibble(t5),
      Nibble(t6), Nibble(t7));
    NibblesOfAssemble(Nibble(t0), Nibble(t1), Nibble(t2), Nibble(t3), Nibble(t4), Nibble(t5),
      Nibble(t6), Nibble(t7));
    UnsignedOfNibbles(x, t0, t1, t2, t3, t4, t5, t6, t7);
  }

  /** Writing a number below 2^32 as a word and reading it back gives the number. */
  lemma UnsignedOfFromUnsigned(n: int)
    requires 0 <= n < Modulus
    ensures Unsigned(FromUnsigned(n)) == n
  {
    var q1 := n / 0x10; var q2 := q1 / 0x10; var q3 := q2 / 0x10; var q4 := q3 / 0x10;
    var q5 := q4 / 0x10; var q6 := q5 / 0x10; var q7 := q6 / 0x10;
    UnsignedOfAssembled(n % 0x10, q1 % 0x10, q2 % 0x10, q3 % 0x10, q4 % 0x10, q5 % 0x10, q6 % 0x10,
      q7 % 0x10);
    HornerOfDigits(n);
  }

  /** Reading a word and writing the value back gives the word. */
  lemma FromUnsignedOfUnsigned(x: bv32)
    ensures FromUnsigned(Unsigned(x)) == x
  {
    DigitsOfHorner(Digit(x), Digit(x >> 4), Digit(x >> 8), Digit(x >> 12), Digit(x >> 16),
      Digit(x >> 20), Digit(x >> 24), Digit(x >> 28));
    NibbleOfDigit(x); NibbleOfDigit(x >> 4); NibbleOfDigit(x >> 8); NibbleOfDigit(x >> 12);
    NibbleOfDigit(x >> 16); NibbleOfDigit(x >> 20); NibbleOfDigit(x >> 24); NibbleOfDigit(x >> 28);
    AssembleNibbles(x);
  }

  // ---------------------------------------------------------------------
  // The signed reading, `as i32`, and the wrapping `as u32`
  // ---------------------------------------------------------------------

  /** The two's-complement value of a word. */
  function Signed(x: bv32): (i: int)
    ensures MinSigned <= i <= MaxSigned
  {
    var u := Unsigned(x);
    if u <= MaxSigned then u else u - Modulus
  }

  /** The word holding `i` modulo 2^32. */
  function FromSigned(i: int): bv32 {
    FromUnsigned(i % Modulus)
  }

  /** Every `i32` value survives the trip through a word. */
  lemma SignedOfFromSigned(i: int)
    requires MinSigned <= i <= MaxSigned
    ensures Signed(FromSigned(i)) == i
  {
    var u := if i < 0 then i + Modulus else i;
    assert i % Modulus == u;
    UnsignedOfFromUnsigned(u);
  }

  lemma Wrap(u: int)
    requires 0 <= u < Modulus
    ensures (if u <= MaxSigned then u else u - Modulus) % Modulus == u
  { }

  /** Every word survives the trip through its signed value. */
  lemma FromSignedOfSigned(x: bv32)
    ensures FromSigned(Signed(x)) == x
  {
    var u := Unsigned(x);
    Wrap(u);
    assert Signed(x) % Modulus == u;
    FromUnsignedOfUnsigned(x);
  }

  lemma SignBitOfTopDigit(x: bv32)
    ensures (x >> 31 == 1) == (Digit(x >> 28) >= 8)
  { }

  lemma HornerAtLeastHalf(d0: int, d1: int, d2: int, d3: int, d4: int, d5: int, d6: int, d7: int)
    requires 0 <= d0 < 0x10 && 0 <= d1 < 0x10 && 0 <= d2 < 0x10 && 0 <= d3 < 0x10
    requires 0 <= d4 < 0x10 && 0 <= d5 < 0x10 && 0 <= d6 < 0x10 && 0 <= d7 < 0x10
    ensures (Horner(d0, d1, d2, d3, d4, d5, d6, d7) > MaxSigned) == (d7 >= 8)
  { }

  /** The signed value is negative exactly when bit 31 is set. */
  lemma SignedNegative(x: bv32)
    ensures (Signed(x) < 0) == (x >> 31 == 1)
  {
    SignBitOfTopDigit(x);
    HornerAtLeastHalf(Digit(x), Digit(x >> 4), Digit(x >> 8), Digit(x >> 12), Digit(x >> 16),
      Digit(x >> 20), Digit(x >> 24), Digit(x >> 28));
  }

  /** Only the zero word has the value 0. */
  lemma SignedZero(x: bv32)
    ensures (Signed(x) == 0) == (x == 0)
  {
    FromSignedOfSigned(x);
    assert FromSigned(0) == 0;
  }

  /** `i32::MIN` and -1 as words. */
  lemma SignedExtremes()
    ensures Signed(0x8000_0000) == MinSigned && Signed(0xFFFF_FFFF) == -1
    ensures FromSigned(MinSigned) == 0x8000_0000 && FromSigned(-1) == 0xFFFF_FFFF
  {
    assert Unsigned(0x8000_0000) == Horner(0, 0, 0, 0, 0, 0, 0, 8);
    assert Unsigned(0xFFFF_FFFF) == Horner(15, 15, 15, 15, 15, 15, 15, 15);
    FromSignedOfSigned(0x8000_0000);
    FromSignedOfSigned(0xFFFF_FFFF);
  }

  // ---------------------------------------------------------------------
  // Truncating division
  // ---------------------------------------------------------------------

  function Abs(i: int): (a: nat)
    ensures a == i || a == -i
  {
    if i < 0 then -i else i
  }

  /** Integer division rounding toward zero, Rust's `/` on `i32` without the overflow. */
  function TruncDiv(a: int, b: int): int
    requires b != 0
  {
    if (a < 0) == (b < 0) then Abs(a) / Abs(b) else -(Abs(a) / Abs(b))
  }

  /** The remainder that goes with `TruncDiv`, Rust's `%` on `i32`. */
  function TruncRem(a: int, b: int): int
    requires b != 0
  {
    a - b * TruncDiv(a, b)
  }

  lemma MulAtLeast(q: nat, n: nat)
    requires n >= 1
    ensures q <= n * q
  {
    assert n * q == q + (n - 1) * q;
  }

  lemma EuclidAbs(m: nat, n: nat)
    requires n != 0
    ensures m == n * (m / n) + m % n && 0 <= m % n < n && 0 <= m / n <= m
    ensures n >= 2 ==> 2 * (m / n) <= m
  {
    var q := m / n;
    assert m == n * q + m % n;
    MulAtLeast(q, n);
    if n >= 2 {
      MulAtLeast(q, n - 1);
      assert n * q == (n - 1) * q + q;
    }
  }

  /**
   * Truncating division: the dividend is quotient times divisor plus
   * remainder, the remainder is smaller than the divisor in magnitude and
   * is 0 or has the dividend's sign, and the quotient is no larger than the
   * dividend in magnitude (at most half of it when the divisor is not ±1).
   */
  lemma TruncDivision(a: int, b: int)
    requires b != 0
    ensures a == TruncDiv(a, b) * b + TruncRem(a, b)
    ensures Abs(TruncRem(a, b)) < Abs(b)
    ensures TruncRem(a, b) == 0 || (TruncRem(a, b) < 0) == (a < 0)
    ensures Abs(TruncDiv(a, b)) <= Abs(a)
    ensures Abs(b) >= 2 ==> 2 * Abs(TruncDiv(a, b)) <= Abs(a)
  {
    var m: int, n: int := Abs(a), Abs(b);
    EuclidAbs(m, n);
    var q, s := m / n, m % n;
    var t := TruncDiv(a, b);
    if (a < 0) == (b < 0) {
      assert t == q;
      assert b * t == (if b < 0 then -(n * q) else n * q);
    } else {
      assert t == -q;
      assert b * t == (if b < 0 then n * q else -(n * q));
    }
    assert TruncRem(a, b) == (if a < 0 then -s else s);
  }

  /** The quotient of two `i32` values is in range except for `i32::MIN / -1`. */
  lemma TruncDivRange(a: int, b: int)
    requires MinSigned <= a <= MaxSigned && MinSigned <= b <= MaxSigned && b != 0
    requires !(a == MinSigned && b == -1)
    ensures MinSigned <= TruncDiv(a, b) <= MaxSigned
  {
    TruncDivision(a, b);
  }

  /** The remainder of an integer by an `i32` divisor is always in range. */
  lemma TruncRemRange(a: int, b: int)
    requires MinSigned <= b <= MaxSigned && b != 0
    ensures MinSigned <= TruncRem(a, b) <= MaxSigned
  {
    TruncDivision(a, b);
  }
}
