/**
 * The bit-field helpers of Emulator/src/main.rs: the three arms of the
 * `shuffle_bits!` macro, the macro's recursive form over a list of fields,
 * and the arithmetic right shift `Ashr for u32`.
 *
 * Bit positions are `bv32` values, the same type as the word they index.
 */
module Bits {
  /** `2^width - 1`: the low `width` bits set. */
  function LowMask(width: bv32): bv32
    requires width < 32
  {
    (1 << width) - 1
  }

  /**
   * Range arm `[srcStart + width - 1 : srcStart] => [dstStart + width - 1 : dstStart]`.
   * The macro builds its mask as `!((!0) << width)`, so a width of 32 would
   * shift by 32, which Rust rejects: widths run from 1 to 31.
   */
  function FieldRange(x: bv32, srcStart: bv32, width: bv32, dstStart: bv32): bv32
    requires srcStart < 32 && 0 < width < 32 && dstStart < 32
  {
    var mask := !((!(0 as bv32)) << width);
    ((x >> srcStart) & mask) << dstStart
  }

  /** Single-bit arm `[src] => [dst]`. */
  function Bit(x: bv32, src: bv32, dst: bv32): (r: bv32)
    requires src < 32 && dst < 32
    ensures r == if (x >> src) & 1 == 1 then 1 << dst else 0
  {
    ((x >> src) & 1) << dst
  }

  /**
   * Sign arm `sign [src] => [dst]`: the bit is negated and incremented
   * (0 stays 0, 1 becomes all ones) and shifted up, so every bit from `dst`
   * to 31 copies bit `src` and the bits below `dst` are clear.
   */
  function SignFill(x: bv32, src: bv32, dst: bv32): (r: bv32)
    requires src < 32 && dst < 32
    ensures (x >> src) & 1 == 0 ==> r == 0
    ensures (x >> src) & 1 == 1 ==> r == !(0 as bv32) << dst
  {
    var bit := (x >> src) & 1;
    var sign := (!bit) + 1;
    sign << dst
  }

  /** With the bit set, the sign arm sets exactly the bits from `dst` up. */
  lemma SignFillSetsHighBits(x: bv32, src: bv32, dst: bv32)
    requires src < 32 && dst < 32 && (x >> src) & 1 == 1
    ensures SignFill(x, src, dst) == !LowMask(dst)
  {
    OnesShiftedIsNotLowMask(dst);
  }

  lemma OnesShiftedIsNotLowMask(dst: bv32)
    requires dst < 32
    ensures !(0 as bv32) << dst == !LowMask(dst)
  {
    if dst < 16 { if dst < 8 { } else { } } else { if dst < 24 { } else { } }
  }

  /** One field of a `shuffle_bits!` invocation. */
  datatype Field =
    | Range(srcStart: bv32, width: bv32, dstStart: bv32)
    | Single(src: bv32, dst: bv32)
    | Sign(src: bv32, dst: bv32)

  /** What the macro's `const_assert!`s and Rust's shift rules demand of a field. */
  predicate WellFormed(f: Field) {
    match f
    case Range(ss, w, ds) => ss < 32 && 0 < w < 32 && ds < 32
    case Single(s, d) => s < 32 && d < 32
    case Sign(s, d) => s < 32 && d < 32
  }

  predicate AllWellFormed(fs: seq<Field>) {
    forall i :: 0 <= i < |fs| ==> WellFormed(fs[i])
  }

  function Arm(x: bv32, f: Field): bv32
    requires WellFormed(f)
  {
    match f
    case Range(ss, w, ds) => FieldRange(x, ss, w, ds)
    case Single(s, d) => Bit(x, s, d)
    case Sign(s, d) => SignFill(x, s, d)
  }

  /**
   * The macro itself: the arm of field `i` OR-ed with the expansion of the
   * fields after it (the macro recurses on the tail of its field list).
   */
  function ShuffleFrom(x: bv32, fs: seq<Field>, i: nat): bv32
    requires i < |fs| && AllWellFormed(fs)
    decreases |fs| - i
  {
    if i == |fs| - 1 then Arm(x, fs[i]) else Arm(x, fs[i]) | ShuffleFrom(x, fs, i + 1)
  }

  /** `shuffle_bits!(x { fs })`. */
  function Shuffle(x: bv32, fs: seq<Field>): bv32
    requires |fs| > 0 && AllWellFormed(fs)
  {
    ShuffleFrom(x, fs, 0)
  }

  /** The expansion of a suffix of `a + b` that starts inside `a` splits at the seam. */
  lemma {:induction false} ShuffleFromAppend(x: bv32, a: seq<Field>, b: seq<Field>, i: nat)
    requires i < |a| && |b| > 0 && AllWellFormed(a) && AllWellFormed(b)
    ensures AllWellFormed(a + b)
    ensures ShuffleFrom(x, a + b, i) == ShuffleFrom(x, a, i) | Shuffle(x, b)
    decreases |a| - i
  {
    assert AllWellFormed(a + b) by {
      forall k | 0 <= k < |a + b| ensures WellFormed((a + b)[k]) {
        if k >= |a| { assert (a + b)[k] == b[k - |a|]; }
      }
    }
    assert (a + b)[i] == a[i];
    if i < |a| - 1 {
      ShuffleFromAppend(x, a, b, i + 1);
    } else {
      ShuffleFromSuffix(x, a, b, 0);
    }
  }

  /** The fields of `b` expand the same way when they follow `a`. */
  lemma {:induction false} ShuffleFromSuffix(x: bv32, a: seq<Field>, b: seq<Field>, j: nat)
    requires j < |b| && AllWellFormed(a + b) && AllWellFormed(b)
    ensures ShuffleFrom(x, a + b, |a| + j) == ShuffleFrom(x, b, j)
    decreases |b| - j
  {
    assert (a + b)[|a| + j] == b[j];
    if j < |b| - 1 {
      ShuffleFromSuffix(x, a, b, j + 1);
    }
  }

  /** A multi-field shuffle is the OR of the shuffles of any split of its field list. */
  lemma ShuffleAppend(x: bv32, a: seq<Field>, b: seq<Field>)
    requires |a| > 0 && |b| > 0 && AllWellFormed(a) && AllWellFormed(b)
    ensures AllWellFormed(a + b)
    ensures Shuffle(x, a + b) == Shuffle(x, a) | Shuffle(x, b)
  {
    ShuffleFromAppend(x, a, b, 0);
  }

  /**
   * `Ashr for u32`: `((x as i32) >> n) as u32`. Shifting a negative two's
   * complement value right fills with ones, which is `!((!x) >> n)`.
   * Rust rejects shift amounts of 32 and more.
   */
  function Ashr(x: bv32, n: bv32): bv32
    requires n < 32
  {
    if x >> 31 == 0 then x >> n else !((!x) >> n)
  }

  /** The arithmetic shift keeps the sign bit. */
  lemma AshrKeepsSign(x: bv32, n: bv32)
    requires n < 32
    ensures Ashr(x, n) >> 31 == x >> 31
  {
    if n < 16 { if n < 8 { } else { } } else { if n < 24 { } else { } }
  }

  /** On a value with bit 31 clear the arithmetic shift is the logical one. */
  lemma AshrNonNegative(x: bv32, n: bv32)
    requires n < 32 && x >> 31 == 0
    ensures Ashr(x, n) == x >> n
  {
  }
}
