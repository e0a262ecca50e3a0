/**
 * Emulator/src/cpu/register.rs: register names, the register file, the flag
 * set and the two condition tables.
 */
module Registers {
  import opened Wrappers

  /** The 32 registers are numbered by their `repr(u8)` discriminant. */
  type Register = r: bv32 | r < 32

  const ZERO: Register := 0
  const RA: Register := 1
  const SP: Register := 2

  /** `Register::COUNT`. */
  const REGISTER_COUNT: nat := 32

  /**
   * `TryFrom<u32> for Register`: first `u8::try_from`, then the discriminant
   * lookup; both steps fail exactly when the value is not a register number.
   */
  function RegisterFromU32(value: bv32): (r: Option<Register>)
    ensures r.Some? <==> value < 32
    ensures r.Some? ==> r.value == value
  {
    if value <= 0xFF && value < 32 then Some(value) else None
  }

  /** `TryFrom<usize> for Register`. */
  function RegisterFromUsize(value: nat): (r: Option<Register>)
    ensures r.Some? <==> value < 32
    ensures r.Some? ==> r.value as nat == value
  {
    if value <= 0xFF && value < 32 then Some((value as bv8) as bv32) else None
  }

  /** `From<Register> for u32` is the discriminant. */
  function RegisterToU32(r: Register): bv32 {
    r
  }

  lemma RegisterRoundTrip(r: Register)
    ensures RegisterFromU32(RegisterToU32(r)) == Some(r)
  {
  }

  /** The 32 values a register file holds, indexed by register number. */
  type RegisterValues = s: seq<bv32> | |s| == 32 witness seq(32, _ => 0)

  /** `RegisterFile::get`. */
  function GetReg(regs: RegisterValues, r: Register): bv32 {
    regs[r]
  }

  /** `RegisterFile::set`: a write to `Zero` is discarded. */
  function SetReg(regs: RegisterValues, r: Register, value: bv32): RegisterValues {
    if r != ZERO then regs[r := value] else regs
  }

  /** After `set(r, v)` with `r != Zero`, `get(r)` is `v` and every other register is unchanged. */
  lemma GetAfterSet(regs: RegisterValues, r: Register, value: bv32, q: Register)
    ensures GetReg(SetReg(regs, r, value), q) == if q == r && r != ZERO then value else GetReg(regs, q)
  {
  }

  /** `set(Zero, v)` is a no-op, so a register file whose slot 0 is 0 keeps reading 0 there. */
  lemma SetKeepsZero(regs: RegisterValues, r: Register, value: bv32)
    requires GetReg(regs, ZERO) == 0
    ensures SetReg(regs, ZERO, value) == regs
    ensures GetReg(SetReg(regs, r, value), ZERO) == 0
  {
  }

  /** `RegisterFile([u32; 32])`, updated in place by `set`. */
  class RegisterFile {
    const slots: array<bv32>

    ghost predicate Valid() {
      slots.Length == 32
    }

    function Values(): RegisterValues
      reads slots
      requires Valid()
    {
      slots[..]
    }

    /** `RegisterFile::default()`: every register is 0. */
    constructor ()
      ensures Valid() && fresh(slots)
      ensures Values() == seq(32, _ => 0)
    {
      slots := new bv32[32](_ => 0);
    }

    function Get(r: Register): (v: bv32)
      reads slots
      requires Valid()
      ensures v == GetReg(Values(), r)
    {
      slots[r]
    }

    method Set(r: Register, value: bv32)
      requires Valid()
      modifies slots
      ensures Valid()
      ensures Values() == SetReg(old(Values()), r, value)
    {
      if r != ZERO {
        slots[r] := value;
      }
    }
  }

  /**
   * `Flags`, a `bitflags` set over `u8` (CARRY = 0x1, ZERO = 0x2, SIGN = 0x4,
   * OVERFLOW = 0x8). A set built through the bitflags API never holds other bits.
   */
  type Flags = f: bv8 | f & 0xF0 == 0

  const CARRY: Flags := 0x1
  const ZERO_FLAG: Flags := 0x2
  const SIGN: Flags := 0x4
  const OVERFLOW: Flags := 0x8

  const NO_FLAGS: Flags := 0

  predicate Contains(f: Flags, flag: Flags) {
    f & flag == flag
  }

  /** `Flags::set(flag, on)`: insert or remove one flag. */
  function SetFlag(f: Flags, flag: Flags, on: bool): (g: Flags)
    requires flag == CARRY || flag == ZERO_FLAG || flag == SIGN || flag == OVERFLOW
    ensures Contains(g, flag) == on
    ensures forall other: Flags :: other in {CARRY, ZERO_FLAG, SIGN, OVERFLOW} && other != flag ==>
      Contains(g, other) == Contains(f, other)
  {
    if on then f | flag else f & !(flag as bv8)
  }

  /** `Flags::from_bits_truncate`: only the four defined bits survive. */
  function FromBitsTruncate(bits: bv8): (f: Flags)
    ensures f == bits & 0x0F
  {
    bits & 0x0F
  }

  /** `Flags::bits`. */
  function FlagBits(f: Flags): bv8 {
    f
  }

  lemma FlagBitsRoundTrip(f: Flags)
    ensures FromBitsTruncate(FlagBits(f)) == f
  {
  }

  /**
   * `Display for Flags`: a four-byte buffer of `_` in which each set flag
   * writes its letter, OVERFLOW at 0, SIGN at 1, ZERO at 2 and CARRY at 3.
   */
  method Display(f: Flags) returns (s: string)
    ensures |s| == 4
    ensures s[0] == (if Contains(f, OVERFLOW) then 'O' else '_')
    ensures s[1] == (if Contains(f, SIGN) then 'S' else '_')
    ensures s[2] == (if Contains(f, ZERO_FLAG) then 'Z' else '_')
    ensures s[3] == (if Contains(f, CARRY) then 'C' else '_')
  {
    var buffer := new char[4](_ => '_');
    if Contains(f, CARRY) {
      buffer[3] := 'C';
    }
    if Contains(f, ZERO_FLAG) {
      buffer[2] := 'Z';
    }
    if Contains(f, SIGN) {
      buffer[1] := 'S';
    }
    if Contains(f, OVERFLOW) {
      buffer[0] := 'O';
    }
    s := buffer[..];
  }

  /** `Condition`, in discriminant order 0..7. */
  datatype Condition = Eq | Ne | Lt | Ge | Lts | Ges | Always | Never

  /** `BranchCondition`, in discriminant order 0..7; code 7 is `Link`. */
  datatype BranchCondition = BEq | BNe | BLt | BGe | BLts | BGes | BAlways | BLink

  const CONDITIONS: seq<Condition> := [Eq, Ne, Lt, Ge, Lts, Ges, Always, Never]
  const BRANCH_CONDITIONS: seq<BranchCondition> := [BEq, BNe, BLt, BGe, BLts, BGes, BAlways, BLink]

  /** `TryFrom<u32> for Condition`. */
  function ConditionFromU32(value: bv32): (c: Option<Condition>)
    ensures c.Some? <==> value < 8
  {
    if value < 8 then Some(CONDITIONS[value]) else None
  }

  /** `From<Condition> for u32`. */
  function ConditionToU32(c: Condition): (v: bv32)
    ensures v < 8 && CONDITIONS[v] == c
  {
    match c
    case Eq => 0
    case Ne => 1
    case Lt => 2
    case Ge => 3
    case Lts => 4
    case Ges => 5
    case Always => 6
    case Never => 7
  }

  /** `TryFrom<u32> for BranchCondition`. */
  function BranchConditionFromU32(value: bv32): (c: Option<BranchCondition>)
    ensures c.Some? <==> value < 8
  {
    if value < 8 then Some(BRANCH_CONDITIONS[value]) else None
  }

  /** `From<BranchCondition> for u32`. */
  function BranchConditionToU32(c: BranchCondition): (v: bv32)
    ensures v < 8 && BRANCH_CONDITIONS[v] == c
  {
    match c
    case BEq => 0
    case BNe => 1
    case BLt => 2
    case BGe => 3
    case BLts => 4
    case BGes => 5
    case BAlways => 6
    case BLink => 7
  }

  lemma ConditionRoundTrip(v: bv32)
    requires v < 8
    ensures ConditionToU32(ConditionFromU32(v).value) == v
    ensures BranchConditionToU32(BranchConditionFromU32(v).value) == v
  {
  }

  /** `Flags::satisfy`. */
  predicate Satisfy(f: Flags, c: Condition) {
    match c
    case Eq => Contains(f, ZERO_FLAG)
    case Ne => !Contains(f, ZERO_FLAG)
    case Lt => !Contains(f, CARRY)
    case Ge => Contains(f, CARRY)
    case Lts => Contains(f, SIGN) != Contains(f, OVERFLOW)
    case Ges => Contains(f, SIGN) == Contains(f, OVERFLOW)
    case Always => true
    case Never => false
  }

  /** `Flags::satisfy_branch`. */
  predicate SatisfyBranch(f: Flags, c: BranchCondition) {
    match c
    case BEq => Contains(f, ZERO_FLAG)
    case BNe => !Contains(f, ZERO_FLAG)
    case BLt => !Contains(f, CARRY)
    case BGe => Contains(f, CARRY)
    case BLts => Contains(f, SIGN) != Contains(f, OVERFLOW)
    case BGes => Contains(f, SIGN) == Contains(f, OVERFLOW)
    case BAlways => true
    case BLink => true
  }

  /** The two tables agree on codes 0..6; code 7 is never taken as a condition and always as a branch. */
  lemma SatisfyTablesAgree(f: Flags, code: bv32)
    requires code < 8
    ensures code < 7 ==> Satisfy(f, CONDITIONS[code]) == SatisfyBranch(f, BRANCH_CONDITIONS[code])
    ensures !Satisfy(f, CONDITIONS[7]) && SatisfyBranch(f, BRANCH_CONDITIONS[7])
  {
  }

  /** Codes 2k and 2k+1 are complementary conditions. */
  lemma SatisfyComplementary(f: Flags, code: bv32)
    requires code < 8
    ensures Satisfy(f, CONDITIONS[code]) != Satisfy(f, CONDITIONS[code ^ 1])
  {
  }
}
