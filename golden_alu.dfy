/**
 * The reference ALU of Simulation/src/tests/alu.rs: a flag record parsed from
 * the raw flag bus, its own condition table and one `golden_*` function per
 * ALU operation. The test bench compares the hardware ALU with these functions; here they
 * are proved to agree with the emulator's ALU rules in cpu_model.dfy, operation
 * by operation, so the emulator and the hardware reference share one flag
 * semantics.
 */
module GoldenAlu {
  import opened Bits
  import opened Registers
  import CpuModel
  import CpuProperties
  import Word

  /** `Flags` of the reference: four named booleans. */
  datatype GoldenFlags = GoldenFlags(carry: bool, zero: bool, sign: bool, overflow: bool)

  /** `Flags::parse`: carry, zero, sign and overflow from bits 0..3 of the raw bus value. */
  function Parse(raw: bv32): GoldenFlags {
    GoldenFlags(
      ((raw >> 0) & 1) > 0,
      ((raw >> 1) & 1) > 0,
      ((raw >> 2) & 1) > 0,
      ((raw >> 3) & 1) > 0)
  }

  /** The emulator's flag set as a reference record: one field per emulator flag. */
  function FlagsOf(f: Flags): GoldenFlags {
    GoldenFlags(Contains(f, CARRY), Contains(f, ZERO_FLAG), Contains(f, SIGN), Contains(f, OVERFLOW))
  }

  /**
   * The reference and the emulator place the four flags at the same bits:
   * parsing the emulator's flag byte off the bus gives its record.
   */
  lemma ParseMatchesEmulatorLayout(f: Flags)
    ensures Parse(f as bv32) == FlagsOf(f)
  {
  }

  /** Parsing loses nothing: two emulator flag sets with the same parse are equal. */
  lemma ParseInjective(f: Flags, g: Flags)
    requires Parse(f as bv32) == Parse(g as bv32)
    ensures f == g
  {
    ParseMatchesEmulatorLayout(f);
    ParseMatchesEmulatorLayout(g);
    FlagsFromBits(f);
    FlagsFromBits(g);
  }

  lemma FlagsFromBits(f: Flags)
    ensures f == (if Contains(f, CARRY) then 1 else 0) | (if Contains(f, ZERO_FLAG) then 2 else 0)
               | (if Contains(f, SIGN) then 4 else 0) | (if Contains(f, OVERFLOW) then 8 else 0)
  {
  }

  /**
   * `Display for Flags` of the reference: a four-byte buffer of `.` in which
   * each set flag writes its letter, overflow at 0 and carry at 3.
   */
  method GoldenDisplay(g: GoldenFlags) returns (s: string)
    ensures |s| == 4
    ensures s[0] == (if g.overflow then 'O' else '.')
    ensures s[1] == (if g.sign then 'S' else '.')
    ensures s[2] == (if g.zero then 'Z' else '.')
    ensures s[3] == (if g.carry then 'C' else '.')
  {
    var buffer := new char[4](_ => '.');
    if g.carry {
      buffer[3] := 'C';
    }
    if g.zero {
      buffer[2] := 'Z';
    }
    if g.sign {
      buffer[1] := 'S';
    }
    if g.overflow {
      buffer[0] := 'O';
    }
    s := buffer[..];
  }

  /** `Condition` of the reference, `repr(u8)` 0..7. */
  datatype GoldenCondition =
    | Equal | NotEqual | UnsignedLessThan | UnsignedGreaterOrEqual
    | SignedLessThan | SignedGreaterOrEqual | AlwaysTrue | NeverTrue

  const GOLDEN_CONDITIONS: seq<GoldenCondition> :=
    [Equal, NotEqual, UnsignedLessThan, UnsignedGreaterOrEqual, SignedLessThan, SignedGreaterOrEqual, AlwaysTrue, NeverTrue]

  /** `Flags::satisfy` of the reference. */
  predicate GoldenSatisfy(g: GoldenFlags, c: GoldenCondition) {
    match c
    case Equal => g.zero
    case NotEqual => !g.zero
    case UnsignedLessThan => !g.carry
    case UnsignedGreaterOrEqual => g.carry
    case SignedLessThan => g.sign != g.overflow
    case SignedGreaterOrEqual => g.sign == g.overflow
    case AlwaysTrue => true
    case NeverTrue => false
  }

  /** Code by code, the reference's condition table is the emulator's `satisfy`. */
  lemma SatisfyTablesMatch(f: Flags, code: nat)
    requires code < 8
    ensures GoldenSatisfy(FlagsOf(f), GOLDEN_CONDITIONS[code]) == Satisfy(f, CONDITIONS[code])
  {
  }

  // ---------------------------------------------------------------------
  // The reference operations
  // ---------------------------------------------------------------------

  /**
   * `u32::overflowing_add`: the wrapped sum and the carry out of bit 31. The
   * emulator calls the same library function, so the carry is the one
   * cpu_model.dfy defines for it.
   */
  function OverflowingAdd(a: bv32, b: bv32): (bv32, bool) {
    (a + b, CpuModel.AddCarries(a, b))
  }

  /** `carry_add` of the reference: two `overflowing_add`s, the carries OR-ed. */
  function GoldenCarryAdd(lhs: bv32, rhs: bv32, carry: bool): (bv32, bool) {
    var (r1, c1) := OverflowingAdd(lhs, rhs);
    var (r2, c2) := OverflowingAdd(r1, if carry then 1 else 0);
    (r2, c1 || c2)
  }

  /** `(x as i32) < 0`, the same expression as in the emulator. */
  predicate Negative(x: bv32) {
    CpuModel.IsNegative(x)
  }

  /** `(lhs_sign == rhs_sign) & (lhs_sign != sign)`. */
  predicate SignedOverflow(lhs: bv32, rhs: bv32, result: bv32) {
    Negative(lhs) == Negative(rhs) && Negative(lhs) != Negative(result)
  }

  /** The flags every additive reference sets: carry, the given zero, sign, and signed overflow. */
  function AddFlags(lhs: bv32, rhs: bv32, result: bv32, carry: bool, zero: bool): GoldenFlags {
    GoldenFlags(carry, zero, Negative(result), SignedOverflow(lhs, rhs, result))
  }

  function GoldenAdd(lhs: bv32, rhs: bv32): (bv32, GoldenFlags) {
    var (result, carry) := GoldenCarryAdd(lhs, rhs, false);
    (result, AddFlags(lhs, rhs, result, carry, result == 0))
  }

  /** `golden_sub`: the complement of rhs with carry-in; overflow reads the sign of the complement. */
  function GoldenSub(lhs: bv32, rhs: bv32): (bv32, GoldenFlags) {
    var (result, carry) := GoldenCarryAdd(lhs, !rhs, true);
    (result, AddFlags(lhs, !rhs, result, carry, result == 0))
  }

  /** `golden_addc`: carry-in from the old carry; zero only survives a zero result. */
  function GoldenAddC(lhs: bv32, rhs: bv32, flags: GoldenFlags): (bv32, GoldenFlags) {
    var (result, carry) := GoldenCarryAdd(lhs, rhs, flags.carry);
    (result, AddFlags(lhs, rhs, result, carry, result == 0 && flags.zero))
  }

  function GoldenSubC(lhs: bv32, rhs: bv32, flags: GoldenFlags): (bv32, GoldenFlags) {
    var (result, carry) := GoldenCarryAdd(lhs, !rhs, flags.carry);
    (result, AddFlags(lhs, !rhs, result, carry, result == 0 && flags.zero))
  }

  /** The logic, shift and `mul` references: only zero changes, to (result == 0). */
  function WithZero(flags: GoldenFlags, result: bv32): GoldenFlags {
    flags.(zero := result == 0)
  }

  function GoldenAnd(lhs: bv32, rhs: bv32, flags: GoldenFlags): (bv32, GoldenFlags) {
    (lhs & rhs, WithZero(flags, lhs & rhs))
  }

  function GoldenOr(lhs: bv32, rhs: bv32, flags: GoldenFlags): (bv32, GoldenFlags) {
    (lhs | rhs, WithZero(flags, lhs | rhs))
  }

  function GoldenXor(lhs: bv32, rhs: bv32, flags: GoldenFlags): (bv32, GoldenFlags) {
    (lhs ^ rhs, WithZero(flags, lhs ^ rhs))
  }

  /** `u32::wrapping_shl`: the count is taken modulo 32, its low five bits. */
  function WrappingShl(x: bv32, n: bv32): bv32 {
    x << (n & 0x1F)
  }

  /** `u32::wrapping_shr`. */
  function WrappingShr(x: bv32, n: bv32): bv32 {
    x >> (n & 0x1F)
  }

  function GoldenShl(lhs: bv32, rhs: bv32, flags: GoldenFlags): (bv32, GoldenFlags) {
    var result := WrappingShl(lhs, rhs);
    (result, WithZero(flags, result))
  }

  function GoldenLsr(lhs: bv32, rhs: bv32, flags: GoldenFlags): (bv32, GoldenFlags) {
    var result := WrappingShr(lhs, rhs);
    (result, WithZero(flags, result))
  }

  /** `(lhs as i32).wrapping_shr(rhs) as u32`. */
  function GoldenAsr(lhs: bv32, rhs: bv32, flags: GoldenFlags): (bv32, GoldenFlags) {
    var result := Ashr(lhs, rhs & 0x1F);
    (result, WithZero(flags, result))
  }

  function GoldenMul(lhs: bv32, rhs: bv32, flags: GoldenFlags): (bv32, GoldenFlags) {
    (lhs * rhs, WithZero(flags, lhs * rhs))
  }

  /** The high `mulh` references: zero &= (result == 0). */
  function AndZero(flags: GoldenFlags, result: bv32): GoldenFlags {
    flags.(zero := flags.zero && result == 0)
  }

  /** `(p >> 32) as u32` is `CpuModel.HighWord`; for the signed products Rust's arithmetic shift leaves the same low 32 bits. */
  function GoldenMulHuu(lhs: bv32, rhs: bv32, flags: GoldenFlags): (bv32, GoldenFlags) {
    var result := CpuModel.HighWord((lhs as bv64) * (rhs as bv64));
    (result, AndZero(flags, result))
  }

  /** Both operands sign-extended, `(x as i32) as i64`. */
  function GoldenMulHss(lhs: bv32, rhs: bv32, flags: GoldenFlags): (bv32, GoldenFlags) {
    var result := CpuModel.HighWord(CpuModel.SignExtend64(lhs) * CpuModel.SignExtend64(rhs));
    (result, AndZero(flags, result))
  }

  /** `lhs as i64` zero-extends the unsigned left operand; rhs is sign-extended. */
  function GoldenMulHus(lhs: bv32, rhs: bv32, flags: GoldenFlags): (bv32, GoldenFlags) {
    var result := CpuModel.HighWord((lhs as bv64) * CpuModel.SignExtend64(rhs));
    (result, AndZero(flags, result))
  }

  /** `golden_cond`: rhs when the condition holds, else lhs; flags unchanged. */
  function GoldenCond(lhs: bv32, rhs: bv32, flags: GoldenFlags, cond: GoldenCondition): (bv32, GoldenFlags) {
    (if GoldenSatisfy(flags, cond) then rhs else lhs, flags)
  }

  /**
   * `golden_divs`: `(lhs as i32).wrapping_div(rhs as i32) as u32`. Rust's
   * wrapping division is the quotient truncated toward zero, except that
   * `i32::MIN / -1` wraps to `i32::MIN`.
   */
  function GoldenDivs(lhs: bv32, rhs: bv32, flags: GoldenFlags): (bv32, GoldenFlags)
    requires rhs != 0
  {
    if lhs == 0x8000_0000 && rhs == 0xFFFF_FFFF then (0x8000_0000, flags)
    else
      Word.SignedZero(rhs);
      (Word.FromSigned(Word.TruncDiv(Word.Signed(lhs), Word.Signed(rhs))), flags)
  }

  /**
   * `golden_rems`: `(lhs as i32).wrapping_rem(rhs as i32) as u32`, the
   * remainder of the truncated quotient, and 0 for `i32::MIN % -1`.
   */
  function GoldenRems(lhs: bv32, rhs: bv32, flags: GoldenFlags): (bv32, GoldenFlags)
    requires rhs != 0
  {
    if lhs == 0x8000_0000 && rhs == 0xFFFF_FFFF then (0, flags)
    else
      Word.SignedZero(rhs);
      (Word.FromSigned(Word.TruncRem(Word.Signed(lhs), Word.Signed(rhs))), flags)
  }

  /** The reference operations, `repr(u8)` 0x00..0x18. */
  datatype GoldenOp =
    | Add | Sub | And | Or | Xor | Shl | Lsr | Asr | AddC | SubC
    | Mul | MulHuu | MulHss | MulHus | Divu | Divs | Remu | Rems | Cond

  predicate IsDivision(op: GoldenOp) {
    op == Divu || op == Divs || op == Remu || op == Rems
  }

  /**
   * The `golden_*` function of each operation. The division references call
   * Rust's `wrapping_div`/`wrapping_rem`, which panic on a zero divisor, and
   * are only given divisors of at least 1; they leave the flags alone.
   */
  function Golden(op: GoldenOp, lhs: bv32, rhs: bv32, flags: GoldenFlags, cond: GoldenCondition): (bv32, GoldenFlags)
    requires IsDivision(op) ==> rhs != 0
  {
    match op
    case Add => GoldenAdd(lhs, rhs)
    case Sub => GoldenSub(lhs, rhs)
    case And => GoldenAnd(lhs, rhs, flags)
    case Or => GoldenOr(lhs, rhs, flags)
    case Xor => GoldenXor(lhs, rhs, flags)
    case Shl => GoldenShl(lhs, rhs, flags)
    case Lsr => GoldenLsr(lhs, rhs, flags)
    case Asr => GoldenAsr(lhs, rhs, flags)
    case AddC => GoldenAddC(lhs, rhs, flags)
    case SubC => GoldenSubC(lhs, rhs, flags)
    case Mul => GoldenMul(lhs, rhs, flags)
    case MulHuu => GoldenMulHuu(lhs, rhs, flags)
    case MulHss => GoldenMulHss(lhs, rhs, flags)
    case MulHus => GoldenMulHus(lhs, rhs, flags)
    case Divu => (lhs / rhs, flags)
    case Divs => GoldenDivs(lhs, rhs, flags)
    case Remu => (lhs % rhs, flags)
    case Rems => GoldenRems(lhs, rhs, flags)
    case Cond => GoldenCond(lhs, rhs, flags, cond)
  }

  // ---------------------------------------------------------------------
  // The emulator's rule for each reference operation
  // ---------------------------------------------------------------------

  /**
   * The emulator's result and flags for the same operation: the ALU table of
   * alu_16/alui_32/alu_32 followed by ZERO := (result == 0), addc/subc of
   * aluc_32, the table of mul_32, and the selection of mov_32.
   */
  function Emulator(op: GoldenOp, lhs: bv32, rhs: bv32, f: Flags, code: nat): (bv32, Flags)
    requires code < 8
  {
    match op
    case Add => AluRow(0, lhs, rhs, f)
    case Sub => AluRow(1, lhs, rhs, f)
    case And => AluRow(2, lhs, rhs, f)
    case Or => AluRow(3, lhs, rhs, f)
    case Xor => AluRow(4, lhs, rhs, f)
    case Shl => AluRow(5, lhs, rhs, f)
    case Lsr => AluRow(6, lhs, rhs, f)
    case Asr => AluRow(7, lhs, rhs, f)
    case AddC => CpuModel.AddWithCarry(0, lhs, rhs, f)
    case SubC => CpuModel.AddWithCarry(1, lhs, rhs, f)
    case Mul => CpuModel.MulOp(0, lhs, rhs, f)
    case MulHuu => CpuModel.MulOp(1, lhs, rhs, f)
    case MulHss => CpuModel.MulOp(2, lhs, rhs, f)
    case MulHus => CpuModel.MulOp(3, lhs, rhs, f)
    case Divu => CpuModel.MulOp(4, lhs, rhs, f)
    case Divs => CpuModel.MulOp(5, lhs, rhs, f)
    case Remu => CpuModel.MulOp(6, lhs, rhs, f)
    case Rems => CpuModel.MulOp(7, lhs, rhs, f)
    case Cond => (if Satisfy(f, CONDITIONS[code]) then rhs else lhs, f)
  }

  function AluRow(op: bv32, lhs: bv32, rhs: bv32, f: Flags): (bv32, Flags)
    requires op < 8
  {
    var (result, g) := CpuModel.AluOp(op, lhs, rhs, f);
    (result, CpuModel.SetZero(g, result))
  }

  // ---------------------------------------------------------------------
  // Agreement
  // ---------------------------------------------------------------------

  /** The reference's carry chain is the emulator's `carry_add`. */
  lemma CarryAddAgrees(lhs: bv32, rhs: bv32, carry: bool)
    ensures GoldenCarryAdd(lhs, rhs, carry).0 == CpuModel.CarryAdd(lhs, rhs, carry).0
    ensures GoldenCarryAdd(lhs, rhs, carry).1 == CpuModel.CarryAdd(lhs, rhs, carry).1
  {
    OverflowingAddParts(lhs, rhs);
    OverflowingAddParts(lhs + rhs, if carry then 1 else 0);
  }

  lemma OverflowingAddParts(a: bv32, b: bv32)
    ensures OverflowingAdd(a, b).0 == a + b
    ensures OverflowingAdd(a, b).1 == CpuModel.AddCarries(a, b)
  {
  }

  /** The reference's carry chain depends on its carry-in only through its truth value. */
  lemma CarryInCongruent(lhs: bv32, rhs: bv32, a: bool, b: bool)
    requires a == b
    ensures GoldenCarryAdd(lhs, rhs, a).0 == GoldenCarryAdd(lhs, rhs, b).0
    ensures GoldenCarryAdd(lhs, rhs, a).1 == GoldenCarryAdd(lhs, rhs, b).1
  {
  }

  /** `execute_add` as a reference record: the reference's additive flag rule with ZERO carried through. */
  lemma ExecuteAddAgrees(f: Flags, lhs: bv32, rhs: bv32, cIn: bool)
    ensures CpuModel.ExecuteAdd(f, lhs, rhs, cIn).0 == GoldenCarryAdd(lhs, rhs, cIn).0
    ensures FlagsOf(CpuModel.ExecuteAdd(f, lhs, rhs, cIn).1)
         == AddFlags(lhs, rhs, GoldenCarryAdd(lhs, rhs, cIn).0, GoldenCarryAdd(lhs, rhs, cIn).1, FlagsOf(f).zero)
  {
    CarryAddAgrees(lhs, rhs, cIn);
    var e := CpuModel.ExecuteAdd(f, lhs, rhs, cIn);
    var c := GoldenCarryAdd(lhs, rhs, cIn);
    FlagsOfParts(e.1);
    FlagsOfParts(f);
    AddFlagsParts(lhs, rhs, c.0, c.1, FlagsOf(f).zero);
    assert A1: FlagsOf(e.1).carry == c.1;
    assert A2: FlagsOf(e.1).zero == FlagsOf(f).zero;
    assert A3: e.0 == c.0;
    assert A4: FlagsOf(e.1).sign == Negative(c.0);
    assert A5: FlagsOf(e.1).overflow == SignedOverflow(lhs, rhs, c.0);
    FlagsEqual(FlagsOf(e.1), AddFlags(lhs, rhs, c.0, c.1, FlagsOf(f).zero));
  }

  lemma FlagsOfParts(f: Flags)
    ensures FlagsOf(f).carry == Contains(f, CARRY) && FlagsOf(f).zero == Contains(f, ZERO_FLAG)
    ensures FlagsOf(f).sign == Contains(f, SIGN) && FlagsOf(f).overflow == Contains(f, OVERFLOW)
  {
  }

  lemma AddFlagsParts(lhs: bv32, rhs: bv32, result: bv32, carry: bool, zero: bool)
    ensures AddFlags(lhs, rhs, result, carry, zero).carry == carry
    ensures AddFlags(lhs, rhs, result, carry, zero).zero == zero
    ensures AddFlags(lhs, rhs, result, carry, zero).sign == Negative(result)
    ensures AddFlags(lhs, rhs, result, carry, zero).overflow == SignedOverflow(lhs, rhs, result)
  {
  }

  /** Two reference flag records with the same four fields are equal. */
  lemma FlagsEqual(g: GoldenFlags, h: GoldenFlags)
    requires g.carry == h.carry && g.zero == h.zero && g.sign == h.sign && g.overflow == h.overflow
    ensures g == h
  {
  }

  lemma SetZeroAgrees(f: Flags, result: bv32)
    ensures FlagsOf(CpuModel.SetZero(f, result)) == WithZero(FlagsOf(f), result)
  {
  }

  lemma ClearZeroAgrees(f: Flags, result: bv32)
    ensures FlagsOf(CpuModel.ClearZeroUnlessZero(f, result)) == AndZero(FlagsOf(f), result)
  {
  }

  /** add and sub: the emulator's row followed by ZERO := (result == 0) is the reference. */
  lemma AddAgrees(lhs: bv32, rhs: bv32, f: Flags)
    ensures AluRow(0, lhs, rhs, f).0 == GoldenAdd(lhs, rhs).0
    ensures FlagsOf(AluRow(0, lhs, rhs, f).1) == GoldenAdd(lhs, rhs).1
  {
    var e := CpuModel.ExecuteAdd(f, lhs, rhs, false);
    var c := GoldenCarryAdd(lhs, rhs, false);
    AluRowAdd(lhs, rhs, f);
    GoldenAddParts(lhs, rhs);
    ExecuteAddAgrees(f, lhs, rhs, false);
    SetZeroAgrees(e.1, e.0);
    WithZeroAddFlags(lhs, rhs, c.0, c.1, FlagsOf(f).zero, e.0);
  }

  lemma SubAgrees(lhs: bv32, rhs: bv32, f: Flags)
    ensures AluRow(1, lhs, rhs, f).0 == GoldenSub(lhs, rhs).0
    ensures FlagsOf(AluRow(1, lhs, rhs, f).1) == GoldenSub(lhs, rhs).1
  {
    var e := CpuModel.ExecuteAdd(f, lhs, !rhs, true);
    var c := GoldenCarryAdd(lhs, !rhs, true);
    AluRowSub(lhs, rhs, f);
    GoldenSubParts(lhs, rhs);
    ExecuteAddAgrees(f, lhs, !rhs, true);
    SetZeroAgrees(e.1, e.0);
    WithZeroAddFlags(lhs, !rhs, c.0, c.1, FlagsOf(f).zero, e.0);
  }

  /** Row 0 of the ALU table is `execute_add` without carry-in, then ZERO := (result == 0). */
  lemma AluRowAdd(lhs: bv32, rhs: bv32, f: Flags)
    ensures var e := CpuModel.ExecuteAdd(f, lhs, rhs, false);
      AluRow(0, lhs, rhs, f).0 == e.0 && AluRow(0, lhs, rhs, f).1 == CpuModel.SetZero(e.1, e.0)
  {
  }

  /** Row 1 is `execute_add` of the complement with carry-in, then ZERO := (result == 0). */
  lemma AluRowSub(lhs: bv32, rhs: bv32, f: Flags)
    ensures var e := CpuModel.ExecuteAdd(f, lhs, !rhs, true);
      AluRow(1, lhs, rhs, f).0 == e.0 && AluRow(1, lhs, rhs, f).1 == CpuModel.SetZero(e.1, e.0)
  {
  }

  lemma GoldenAddParts(lhs: bv32, rhs: bv32)
    ensures var c := GoldenCarryAdd(lhs, rhs, false);
      GoldenAdd(lhs, rhs).0 == c.0 && GoldenAdd(lhs, rhs).1 == AddFlags(lhs, rhs, c.0, c.1, c.0 == 0)
  {
  }

  lemma GoldenSubParts(lhs: bv32, rhs: bv32)
    ensures var c := GoldenCarryAdd(lhs, !rhs, true);
      GoldenSub(lhs, rhs).0 == c.0 && GoldenSub(lhs, rhs).1 == AddFlags(lhs, !rhs, c.0, c.1, c.0 == 0)
  {
  }

  lemma GoldenAddCParts(lhs: bv32, rhs: bv32, flags: GoldenFlags)
    ensures var c := GoldenCarryAdd(lhs, rhs, flags.carry);
      GoldenAddC(lhs, rhs, flags).0 == c.0 && GoldenAddC(lhs, rhs, flags).1 == AddFlags(lhs, rhs, c.0, c.1, c.0 == 0 && flags.zero)
  {
  }

  lemma GoldenSubCParts(lhs: bv32, rhs: bv32, flags: GoldenFlags)
    ensures var c := GoldenCarryAdd(lhs, !rhs, flags.carry);
      GoldenSubC(lhs, rhs, flags).0 == c.0 && GoldenSubC(lhs, rhs, flags).1 == AddFlags(lhs, !rhs, c.0, c.1, c.0 == 0 && flags.zero)
  {
  }

  lemma WithZeroAddFlags(lhs: bv32, rhs: bv32, result: bv32, carry: bool, zero: bool, x: bv32)
    ensures WithZero(AddFlags(lhs, rhs, result, carry, zero), x) == AddFlags(lhs, rhs, result, carry, x == 0)
  {
  }

  lemma AndZeroAddFlags(lhs: bv32, rhs: bv32, result: bv32, carry: bool, zero: bool, x: bv32)
    ensures AndZero(AddFlags(lhs, rhs, result, carry, zero), x) == AddFlags(lhs, rhs, result, carry, x == 0 && zero)
  {
  }

  /** `add_with_carry` for addc: `execute_add` with CARRY as carry-in, then ZERO cleared unless the result is 0. */
  lemma AddWithCarryAdd(lhs: bv32, rhs: bv32, f: Flags)
    ensures var e := CpuModel.ExecuteAdd(f, lhs, rhs, Contains(f, CARRY));
      CpuModel.AddWithCarry(0, lhs, rhs, f).0 == e.0
      && CpuModel.AddWithCarry(0, lhs, rhs, f).1 == CpuModel.ClearZeroUnlessZero(e.1, e.0)
  {
  }

  /** `add_with_carry` for subc: the same on the complement of rhs. */
  lemma AddWithCarrySub(lhs: bv32, rhs: bv32, f: Flags)
    ensures var e := CpuModel.ExecuteAdd(f, lhs, !rhs, Contains(f, CARRY));
      CpuModel.AddWithCarry(1, lhs, rhs, f).0 == e.0
      && CpuModel.AddWithCarry(1, lhs, rhs, f).1 == CpuModel.ClearZeroUnlessZero(e.1, e.0)
  {
  }

  /**
   * The carry-in family on any right operand: `execute_add` with CARRY as
   * carry-in followed by `clear_zero_unless_zero` is the reference's rule with
   * the old carry as carry-in and zero kept only on a zero result.
   */
  lemma CarryInFamilyAgrees(lhs: bv32, rhs: bv32, f: Flags)
    ensures var e := CpuModel.ExecuteAdd(f, lhs, rhs, Contains(f, CARRY));
      var c := GoldenCarryAdd(lhs, rhs, FlagsOf(f).carry);
      e.0 == c.0 && FlagsOf(CpuModel.ClearZeroUnlessZero(e.1, e.0)) == AddFlags(lhs, rhs, c.0, c.1, c.0 == 0 && FlagsOf(f).zero)
  {
    var e := CpuModel.ExecuteAdd(f, lhs, rhs, Contains(f, CARRY));
    var c := GoldenCarryAdd(lhs, rhs, FlagsOf(f).carry);
    FlagsOfParts(f);
    CarryInCongruent(lhs, rhs, FlagsOf(f).carry, Contains(f, CARRY));
    ExecuteAddAgrees(f, lhs, rhs, Contains(f, CARRY));
    ClearZeroAgrees(e.1, e.0);
    AndZeroAddFlags(lhs, rhs, c.0, c.1, FlagsOf(f).zero, e.0);
    assert e.0 == c.0;
    assert FlagsOf(e.1) == AddFlags(lhs, rhs, c.0, c.1, FlagsOf(f).zero);
  }

  /** addc and subc: carry-in from the stored CARRY, and ZERO can only be cleared. */
  lemma AddCAgrees(lhs: bv32, rhs: bv32, f: Flags)
    ensures CpuModel.AddWithCarry(0, lhs, rhs, f).0 == GoldenAddC(lhs, rhs, FlagsOf(f)).0
    ensures FlagsOf(CpuModel.AddWithCarry(0, lhs, rhs, f).1) == GoldenAddC(lhs, rhs, FlagsOf(f)).1
  {
    AddWithCarryAdd(lhs, rhs, f);
    GoldenAddCParts(lhs, rhs, FlagsOf(f));
    CarryInFamilyAgrees(lhs, rhs, f);
  }

  lemma SubCAgrees(lhs: bv32, rhs: bv32, f: Flags)
    ensures CpuModel.AddWithCarry(1, lhs, rhs, f).0 == GoldenSubC(lhs, rhs, FlagsOf(f)).0
    ensures FlagsOf(CpuModel.AddWithCarry(1, lhs, rhs, f).1) == GoldenSubC(lhs, rhs, FlagsOf(f)).1
  {
    AddWithCarrySub(lhs, rhs, f);
    GoldenSubCParts(lhs, rhs, FlagsOf(f));
    CarryInFamilyAgrees(lhs, !rhs, f);
  }

  /** The logic and shift rows: the same result, and only ZERO changes, to (result == 0). */
  lemma AndAgrees(lhs: bv32, rhs: bv32, f: Flags)
    ensures AluRow(2, lhs, rhs, f).0 == GoldenAnd(lhs, rhs, FlagsOf(f)).0
    ensures FlagsOf(AluRow(2, lhs, rhs, f).1) == GoldenAnd(lhs, rhs, FlagsOf(f)).1
  {
    SetZeroAgrees(f, lhs & rhs);
  }

  lemma OrAgrees(lhs: bv32, rhs: bv32, f: Flags)
    ensures AluRow(3, lhs, rhs, f).0 == GoldenOr(lhs, rhs, FlagsOf(f)).0
    ensures FlagsOf(AluRow(3, lhs, rhs, f).1) == GoldenOr(lhs, rhs, FlagsOf(f)).1
  {
    SetZeroAgrees(f, lhs | rhs);
  }

  lemma XorAgrees(lhs: bv32, rhs: bv32, f: Flags)
    ensures AluRow(4, lhs, rhs, f).0 == GoldenXor(lhs, rhs, FlagsOf(f)).0
    ensures FlagsOf(AluRow(4, lhs, rhs, f).1) == GoldenXor(lhs, rhs, FlagsOf(f)).1
  {
    SetZeroAgrees(f, lhs ^ rhs);
  }

  lemma ShlAgrees(lhs: bv32, rhs: bv32, f: Flags)
    ensures AluRow(5, lhs, rhs, f).0 == GoldenShl(lhs, rhs, FlagsOf(f)).0
    ensures FlagsOf(AluRow(5, lhs, rhs, f).1) == GoldenShl(lhs, rhs, FlagsOf(f)).1
  {
    SetZeroAgrees(f, CpuModel.Shl(lhs, rhs & 0x1F));
  }

  lemma LsrAgrees(lhs: bv32, rhs: bv32, f: Flags)
    ensures AluRow(6, lhs, rhs, f).0 == GoldenLsr(lhs, rhs, FlagsOf(f)).0
    ensures FlagsOf(AluRow(6, lhs, rhs, f).1) == GoldenLsr(lhs, rhs, FlagsOf(f)).1
  {
    SetZeroAgrees(f, CpuModel.Lsr(lhs, rhs & 0x1F));
  }

  lemma AsrAgrees(lhs: bv32, rhs: bv32, f: Flags)
    ensures AluRow(7, lhs, rhs, f).0 == GoldenAsr(lhs, rhs, FlagsOf(f)).0
    ensures FlagsOf(AluRow(7, lhs, rhs, f).1) == GoldenAsr(lhs, rhs, FlagsOf(f)).1
  {
    SetZeroAgrees(f, Ashr(lhs, rhs & 0x1F));
  }

  /** mul sets ZERO from its result; the high products can only clear it. */
  lemma MulAgrees(lhs: bv32, rhs: bv32, f: Flags)
    ensures CpuModel.MulOp(0, lhs, rhs, f).0 == GoldenMul(lhs, rhs, FlagsOf(f)).0
    ensures FlagsOf(CpuModel.MulOp(0, lhs, rhs, f).1) == GoldenMul(lhs, rhs, FlagsOf(f)).1
  {
    SetZeroAgrees(f, lhs * rhs);
  }

  lemma MulHuuAgrees(lhs: bv32, rhs: bv32, f: Flags)
    ensures CpuModel.MulOp(1, lhs, rhs, f).0 == GoldenMulHuu(lhs, rhs, FlagsOf(f)).0
    ensures FlagsOf(CpuModel.MulOp(1, lhs, rhs, f).1) == GoldenMulHuu(lhs, rhs, FlagsOf(f)).1
  {
    ClearZeroAgrees(f, CpuModel.MulOp(1, lhs, rhs, f).0);
  }

  lemma MulHssAgrees(lhs: bv32, rhs: bv32, f: Flags)
    ensures CpuModel.MulOp(2, lhs, rhs, f).0 == GoldenMulHss(lhs, rhs, FlagsOf(f)).0
    ensures FlagsOf(CpuModel.MulOp(2, lhs, rhs, f).1) == GoldenMulHss(lhs, rhs, FlagsOf(f)).1
  {
    ClearZeroAgrees(f, CpuModel.MulOp(2, lhs, rhs, f).0);
  }

  lemma MulHusAgrees(lhs: bv32, rhs: bv32, f: Flags)
    ensures CpuModel.MulOp(3, lhs, rhs, f).0 == GoldenMulHus(lhs, rhs, FlagsOf(f)).0
    ensures FlagsOf(CpuModel.MulOp(3, lhs, rhs, f).1) == GoldenMulHus(lhs, rhs, FlagsOf(f)).1
  {
    ClearZeroAgrees(f, CpuModel.MulOp(3, lhs, rhs, f).0);
  }

  /** The divisions by a nonzero divisor: the same quotient or remainder, and the flags untouched. */
  lemma DivuAgrees(lhs: bv32, rhs: bv32, f: Flags)
    requires rhs != 0
    ensures CpuModel.MulOp(4, lhs, rhs, f).0 == lhs / rhs && CpuModel.MulOp(4, lhs, rhs, f).1 == f
  {
  }

  /**
   * The emulator's signed quotient, reduced modulo 2^32, equals the reference's
   * reading of `wrapping_div` with its single overflowing case written out.
   */
  lemma DivsAgrees(lhs: bv32, rhs: bv32, f: Flags)
    requires rhs != 0
    ensures CpuModel.MulOp(5, lhs, rhs, f).0 == GoldenDivs(lhs, rhs, FlagsOf(f)).0 && CpuModel.MulOp(5, lhs, rhs, f).1 == f
  {
    if lhs == 0x8000_0000 && rhs == 0xFFFF_FFFF {
      CpuProperties.SignedDivisionOverflowWraps();
    }
  }

  lemma RemuAgrees(lhs: bv32, rhs: bv32, f: Flags)
    requires rhs != 0
    ensures CpuModel.MulOp(6, lhs, rhs, f).0 == lhs % rhs && CpuModel.MulOp(6, lhs, rhs, f).1 == f
  {
  }

  /** The emulator's signed remainder equals the reference's reading of `wrapping_rem`, 0 in the overflowing case. */
  lemma RemsAgrees(lhs: bv32, rhs: bv32, f: Flags)
    requires rhs != 0
    ensures CpuModel.MulOp(7, lhs, rhs, f).0 == GoldenRems(lhs, rhs, FlagsOf(f)).0 && CpuModel.MulOp(7, lhs, rhs, f).1 == f
  {
    if lhs == 0x8000_0000 && rhs == 0xFFFF_FFFF {
      CpuProperties.SignedDivisionOverflowWraps();
    }
  }

  /** The conditional move: the same choice between lhs and rhs under the same condition code, and the flags untouched. */
  lemma CondAgrees(lhs: bv32, rhs: bv32, f: Flags, code: nat)
    requires code < 8
    ensures Emulator(Cond, lhs, rhs, f, code).0 == Golden(Cond, lhs, rhs, FlagsOf(f), GOLDEN_CONDITIONS[code]).0
    ensures FlagsOf(Emulator(Cond, lhs, rhs, f, code).1) == Golden(Cond, lhs, rhs, FlagsOf(f), GOLDEN_CONDITIONS[code]).1
  {
    SatisfyTablesMatch(f, code);
  }

  /** Agreement on the additive operations. */
  lemma AddFamilyAgrees(op: GoldenOp, lhs: bv32, rhs: bv32, f: Flags, code: nat)
    requires code < 8 && (op == Add || op == Sub || op == AddC || op == SubC)
    ensures Emulator(op, lhs, rhs, f, code).0 == Golden(op, lhs, rhs, FlagsOf(f), GOLDEN_CONDITIONS[code]).0
    ensures FlagsOf(Emulator(op, lhs, rhs, f, code).1) == Golden(op, lhs, rhs, FlagsOf(f), GOLDEN_CONDITIONS[code]).1
  {
    if op == Add {
      AddAgrees(lhs, rhs, f);
    } else if op == Sub {
      SubAgrees(lhs, rhs, f);
    } else if op == AddC {
      AddCAgrees(lhs, rhs, f);
    } else {
      SubCAgrees(lhs, rhs, f);
    }
  }

  /** Agreement on the logic and shift operations. */
  lemma LogicAgrees(op: GoldenOp, lhs: bv32, rhs: bv32, f: Flags, code: nat)
    requires code < 8 && (op == And || op == Or || op == Xor || op == Shl || op == Lsr || op == Asr)
    ensures Emulator(op, lhs, rhs, f, code).0 == Golden(op, lhs, rhs, FlagsOf(f), GOLDEN_CONDITIONS[code]).0
    ensures FlagsOf(Emulator(op, lhs, rhs, f, code).1) == Golden(op, lhs, rhs, FlagsOf(f), GOLDEN_CONDITIONS[code]).1
  {
    if op == And {
      AndAgrees(lhs, rhs, f);
    } else if op == Or {
      OrAgrees(lhs, rhs, f);
    } else if op == Xor {
      XorAgrees(lhs, rhs, f);
    } else if op == Shl {
      ShlAgrees(lhs, rhs, f);
    } else if op == Lsr {
      LsrAgrees(lhs, rhs, f);
    } else {
      AsrAgrees(lhs, rhs, f);
    }
  }

  /** Agreement on the unsigned products. */
  lemma UnsignedProductAgrees(op: GoldenOp, lhs: bv32, rhs: bv32, f: Flags, code: nat)
    requires code < 8 && (op == Mul || op == MulHuu)
    ensures Emulator(op, lhs, rhs, f, code).0 == Golden(op, lhs, rhs, FlagsOf(f), GOLDEN_CONDITIONS[code]).0
    ensures FlagsOf(Emulator(op, lhs, rhs, f, code).1) == Golden(op, lhs, rhs, FlagsOf(f), GOLDEN_CONDITIONS[code]).1
  {
    if op == Mul {
      MulAgrees(lhs, rhs, f);
    } else {
      MulHuuAgrees(lhs, rhs, f);
    }
  }

  /** Agreement on the high products with a signed operand. */
  lemma SignedProductAgrees(op: GoldenOp, lhs: bv32, rhs: bv32, f: Flags, code: nat)
    requires code < 8 && (op == MulHss || op == MulHus)
    ensures Emulator(op, lhs, rhs, f, code).0 == Golden(op, lhs, rhs, FlagsOf(f), GOLDEN_CONDITIONS[code]).0
    ensures FlagsOf(Emulator(op, lhs, rhs, f, code).1) == Golden(op, lhs, rhs, FlagsOf(f), GOLDEN_CONDITIONS[code]).1
  {
    if op == MulHss {
      MulHssAgrees(lhs, rhs, f);
    } else {
      MulHusAgrees(lhs, rhs, f);
    }
  }

  /** Agreement on the divisions. */
  lemma QuotientAgrees(op: GoldenOp, lhs: bv32, rhs: bv32, f: Flags, code: nat)
    requires code < 8 && (op == Divu || op == Divs || op == Remu || op == Rems) && rhs != 0
    ensures Emulator(op, lhs, rhs, f, code).0 == Golden(op, lhs, rhs, FlagsOf(f), GOLDEN_CONDITIONS[code]).0
    ensures FlagsOf(Emulator(op, lhs, rhs, f, code).1) == Golden(op, lhs, rhs, FlagsOf(f), GOLDEN_CONDITIONS[code]).1
  {
    if op == Divu {
      DivuAgrees(lhs, rhs, f);
    } else if op == Divs {
      DivsAgrees(lhs, rhs, f);
    } else if op == Remu {
      RemuAgrees(lhs, rhs, f);
    } else {
      RemsAgrees(lhs, rhs, f);
    }
  }

  /** For every operation, flag set, condition and divisor the reference is used with, reference and emulator agree. */
  lemma GoldenAgrees(op: GoldenOp, lhs: bv32, rhs: bv32, f: Flags, code: nat)
    requires code < 8
    requires IsDivision(op) ==> rhs != 0
    ensures Emulator(op, lhs, rhs, f, code).0 == Golden(op, lhs, rhs, FlagsOf(f), GOLDEN_CONDITIONS[code]).0
    ensures FlagsOf(Emulator(op, lhs, rhs, f, code).1) == Golden(op, lhs, rhs, FlagsOf(f), GOLDEN_CONDITIONS[code]).1
  {
    if op == Add || op == Sub || op == AddC || op == SubC {
      AddFamilyAgrees(op, lhs, rhs, f, code);
    } else if op == And || op == Or || op == Xor || op == Shl || op == Lsr || op == Asr {
      LogicAgrees(op, lhs, rhs, f, code);
    } else if op == Mul || op == MulHuu {
      UnsignedProductAgrees(op, lhs, rhs, f, code);
    } else if op == MulHss || op == MulHus {
      SignedProductAgrees(op, lhs, rhs, f, code);
    } else if IsDivision(op) {
      QuotientAgrees(op, lhs, rhs, f, code);
    } else {
      CondAgrees(lhs, rhs, f, code);
    }
  }
}
