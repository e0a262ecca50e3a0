/**
 * The instruction tests of Emulator/src/cpu/tests/instruction.rs. Each test
 * packs its operands into an instruction word with its own `shuffle_bits!`
 * encoder, steps a CPU whose registers and flags are arbitrary, and compares
 * the program counter, the register file and the flags with values it
 * computes itself; the additive forms compute theirs with `simulate_add`.
 *
 * Here the encoders are functions with round-trip lemmas against the
 * decoders of decode.dfy, the expected values are reference functions
 * (`SimulateAdd`, `ExpectedAlu`), and each test's expected state is a lemma
 * about the decode tree `Execute` run on the encoded word. The lemma
 * `FetchFromTestMemory` links `Step` on the tests' CPU and memory to that
 * decode tree. An `i32` operand range such as `-512..=511` becomes the
 * `u32` patterns it casts to (`Imm10`): the value is its own sign extension
 * from bit 9.
 */
module InstructionTests {
  import opened Wrappers
  import opened Bits
  import opened Registers
  import opened Interface
  import opened CpuDecode
  import opened CpuModel
  import opened TestDoubles
  import CpuProperties

  // ---------------------------------------------------------------------------
  // The tests' reference for the additive forms

  /**
   * `simulate_add`: the same two `overflowing_add`s as `carry_add`, with all
   * four flags computed from scratch (ZERO included).
   */
  function SimulateAdd(lhs: bv32, rhs: bv32, cIn: bool): (bv32, Flags) {
    var r1 := lhs + rhs;
    var c: bv32 := if cIn then 1 else 0;
    var r2 := r1 + c;
    (r2, FreshFlags(AddCarries(lhs, rhs) || AddCarries(r1, c), r2 == 0, IsNegative(r2),
                    IsNegative(lhs) == IsNegative(rhs) && IsNegative(lhs) != IsNegative(r2)))
  }

  /** `Flags::empty()` followed by `set` of CARRY, ZERO, SIGN and OVERFLOW, in that order. */
  function FreshFlags(carry: bool, zero: bool, sign: bool, overflow: bool): Flags {
    SetFlag(SetFlag(SetFlag(SetFlag(NO_FLAGS, CARRY, carry), ZERO_FLAG, zero), SIGN, sign), OVERFLOW, overflow)
  }

  /** Each flag of a fresh set is the value it was set to. */
  lemma FreshFlagsParts(carry: bool, zero: bool, sign: bool, overflow: bool)
    ensures Contains(FreshFlags(carry, zero, sign, overflow), CARRY) == carry
    ensures Contains(FreshFlags(carry, zero, sign, overflow), ZERO_FLAG) == zero
    ensures Contains(FreshFlags(carry, zero, sign, overflow), SIGN) == sign
    ensures Contains(FreshFlags(carry, zero, sign, overflow), OVERFLOW) == overflow
  {
  }

  /** Two flag sets holding the same four flags are equal: no other bit can be set. */
  lemma FlagsByMembers(f: Flags, g: Flags)
    requires Contains(f, CARRY) == Contains(g, CARRY) && Contains(f, ZERO_FLAG) == Contains(g, ZERO_FLAG)
    requires Contains(f, SIGN) == Contains(g, SIGN) && Contains(f, OVERFLOW) == Contains(g, OVERFLOW)
    ensures f == g
  {
  }

  /** The flags of `simulate_add`, the wrapped sum written out. */
  lemma SimulateAddFlags(lhs: bv32, rhs: bv32, cIn: bool)
    ensures SimulateAdd(lhs, rhs, cIn).0 == lhs + rhs + (if cIn then 1 else 0)
    ensures SimulateAdd(lhs, rhs, cIn).1
         == FreshFlags(AddCarries(lhs, rhs) || AddCarries(lhs + rhs, (if cIn then 1 else 0)), lhs + rhs + (if cIn then 1 else 0) == 0,
                       IsNegative(lhs + rhs + (if cIn then 1 else 0)),
                       IsNegative(lhs) == IsNegative(rhs) && IsNegative(lhs) != IsNegative(lhs + rhs + (if cIn then 1 else 0)))
  {
  }

  /** The two halves of `carry_add`, written out. */
  lemma CarryAddParts(lhs: bv32, rhs: bv32, cIn: bool)
    ensures CarryAdd(lhs, rhs, cIn).0 == lhs + rhs + (if cIn then 1 else 0)
    ensures CarryAdd(lhs, rhs, cIn).1 == (AddCarries(lhs, rhs) || AddCarries(lhs + rhs, (if cIn then 1 else 0)))
  {
  }

  /** A flag set is the fresh set of its own four flags. */
  lemma IsFreshFlags(g: Flags, carry: bool, zero: bool, sign: bool, overflow: bool)
    requires Contains(g, CARRY) == carry && Contains(g, ZERO_FLAG) == zero
    requires Contains(g, SIGN) == sign && Contains(g, OVERFLOW) == overflow
    ensures g == FreshFlags(carry, zero, sign, overflow)
  {
    FreshFlagsParts(carry, zero, sign, overflow);
    FlagsByMembers(g, FreshFlags(carry, zero, sign, overflow));
  }

  /**
   * `execute_add` followed by ZERO := (result == 0), from any flags, is
   * `simulate_add`: every flag the CPU keeps is overwritten.
   */
  lemma SimulateAddIsExecuteAdd(f: Flags, lhs: bv32, rhs: bv32, cIn: bool)
    ensures SimulateAdd(lhs, rhs, cIn).0 == ExecuteAdd(f, lhs, rhs, cIn).0
    ensures SimulateAdd(lhs, rhs, cIn).1 == SetZero(ExecuteAdd(f, lhs, rhs, cIn).1, ExecuteAdd(f, lhs, rhs, cIn).0)
  {
    var (r, g) := ExecuteAdd(f, lhs, rhs, cIn);
    SimulateAddFlags(lhs, rhs, cIn);
    CarryAddParts(lhs, rhs, cIn);
    IsFreshFlags(SetZero(g, r), CarryAdd(lhs, rhs, cIn).1, r == 0, IsNegative(r),
                 IsNegative(lhs) == IsNegative(rhs) && IsNegative(lhs) != IsNegative(r));
  }

  /**
   * What the ALU tests expect, row by row: `simulate_add` for add and sub
   * (sub adds the complement with a carry-in), otherwise the operation with
   * a shift count masked to 5 bits and only ZERO updated.
   */
  function ExpectedAlu(op: bv32, lhs: bv32, rhs: bv32, f: Flags): (bv32, Flags)
    requires op < 8
  {
    if op == 0 then SimulateAdd(lhs, rhs, false)
    else if op == 1 then SimulateAdd(lhs, !rhs, true)
    else
      var result :=
        if op == 2 then lhs & rhs
        else if op == 3 then lhs | rhs
        else if op == 4 then lhs ^ rhs
        else if op == 5 then lhs << (rhs & 0x1F)
        else if op == 6 then lhs >> (rhs & 0x1F)
        else Ashr(lhs, rhs & 0x1F);
      (result, SetFlag(f, ZERO_FLAG, result == 0))
  }

  /** The ALU table followed by the ZERO update is what the tests expect, for every row. */
  lemma AluMeetsExpectation(op: bv32, lhs: bv32, rhs: bv32, f: Flags)
    requires op < 8
    ensures AluOp(op, lhs, rhs, f).0 == ExpectedAlu(op, lhs, rhs, f).0
    ensures SetZero(AluOp(op, lhs, rhs, f).1, AluOp(op, lhs, rhs, f).0) == ExpectedAlu(op, lhs, rhs, f).1
  {
    if op == 0 {
      SimulateAddIsExecuteAdd(f, lhs, rhs, false);
    } else if op == 1 {
      SimulateAddIsExecuteAdd(f, lhs, !rhs, true);
    }
  }

  // ---------------------------------------------------------------------------
  // The 16-bit encoders of the tests and what the decoders read back

  /** An `i32` in `-512..=511` cast to `u32`: every bit from 9 up equals bit 9. */
  predicate Imm10(value: bv32) {
    value < 0x200 || value >= 0xFFFF_FE00
  }

  /** ldi_16 and addi_16: `[4:0] => [11:7], [8:6] => [6:4], [9] => [3], [5] => [2]`, rd at 15:12, bit 1 set for addi. */
  function LdiAddiWord(target: Register, value: bv32, addi: bool): bv32
    requires target < 16
  {
    (FieldRange(value, 0, 5, 7) | (FieldRange(value, 6, 3, 4) | (Bit(value, 9, 3) | Bit(value, 5, 2))))
    | (target << 12) | (if addi then 0x2 else 0x0)
  }

  /** The decoders read the register and the sign-extended immediate back, and bit 0 selects ldi/addi. */
  lemma LdiAddiWordDecodes(target: Register, value: bv32, addi: bool)
    requires target < 16 && Imm10(value)
    ensures LdiImm(LdiAddiWord(target, value, addi)) == value
    ensures RegHi16(LdiAddiWord(target, value, addi)) == target
    ensures LdiAddiWord(target, value, addi) & 0x1 == 0
    ensures (LdiAddiWord(target, value, addi) & 0x2 == 0) == !addi
    ensures LdiAddiWord(target, value, addi) < 0x1_0000
  {
    if value < 0x200 {
      assert LdiImm(LdiAddiWord(target, value, addi)) == value;
    } else {
      assert LdiImm(LdiAddiWord(target, value, addi)) == value;
    }
  }

  /** j_16 and jl_16: `[4:1] => [11:8], [5] => [7], [8:6] => [6:4], [9] => [3]`, rb at 15:12, bit 2 set for jl. */
  function Jump16Word(base: Register, offset: bv32, link: bool): bv32
    requires base < 16
  {
    (FieldRange(offset, 1, 4, 8) | (Bit(offset, 5, 7) | (FieldRange(offset, 6, 3, 4) | Bit(offset, 9, 3))))
    | (base << 12) | (if link then 0x5 else 0x1)
  }

  lemma Jump16WordDecodes(base: Register, offset: bv32, link: bool)
    requires base < 16 && Imm10(offset) && offset & 1 == 0
    ensures Jump16Imm(Jump16Word(base, offset, link)) == offset
    ensures RegHi16(Jump16Word(base, offset, link)) == base
    ensures Jump16Word(base, offset, link) & 0x3 == 0x1
    ensures (Jump16Word(base, offset, link) & 0x4 != 0) == link
    ensures Jump16Word(base, offset, link) < 0x1_0000
  {
  }

  /** br_16: `[5] => [15], [4:1] => [11:8], [8:6] => [6:4], [9] => [3]`, the condition at 14:12. */
  function Branch16Word(cond: BranchCondition, offset: bv32): bv32 {
    Branch16Bits(BranchConditionToU32(cond), offset)
  }

  /** `Branch16Word` for the condition's number `u32::from(condition)`. */
  function Branch16Bits(code: bv32, offset: bv32): bv32 {
    (Bit(offset, 5, 15) | (FieldRange(offset, 1, 4, 8) | (FieldRange(offset, 6, 3, 4) | Bit(offset, 9, 3))))
    | (code << 12) | 0x3
  }

  lemma Branch16WordDecodes(cond: BranchCondition, offset: bv32)
    requires Imm10(offset) && offset & 1 == 0
    ensures Branch16Imm(Branch16Word(cond, offset)) == offset
    ensures BranchConditionOf(Branch16Word(cond, offset)) == cond
    ensures Branch16Word(cond, offset) & 0x87 == 0x3
    ensures Branch16Word(cond, offset) < 0x1_0000
  {
    Branch16BitsDecode(BranchConditionToU32(cond), offset);
    BranchConditionRead(Branch16Word(cond, offset), cond);
  }

  lemma Branch16BitsDecode(code: bv32, offset: bv32)
    requires code < 8 && Imm10(offset) && offset & 1 == 0
    ensures Branch16Imm(Branch16Bits(code, offset)) == offset
    ensures FieldRange(Branch16Bits(code, offset), 12, 3, 0) == code
    ensures Branch16Bits(code, offset) & 0x87 == 0x3
    ensures Branch16Bits(code, offset) < 0x1_0000
  {
  }

  /** A word holding a condition's number at 14:12 decodes to that condition. */
  lemma BranchConditionRead(x: bv32, cond: BranchCondition)
    requires FieldRange(x, 12, 3, 0) == BranchConditionToU32(cond)
    ensures BranchConditionOf(x) == cond
  {
  }

  /** The register forms: the first register at 15:12, the second at 11:8 and the opcode byte below. */
  function RegisterWord16(hi: Register, lo: Register, opcode: bv32): bv32
    requires hi < 16 && lo < 16 && opcode < 0x100
  {
    (hi << 12) | (lo << 8) | opcode
  }

  lemma RegisterWord16Decodes(hi: Register, lo: Register, opcode: bv32)
    requires hi < 16 && lo < 16 && opcode < 0x100
    ensures RegHi16(RegisterWord16(hi, lo, opcode)) == hi
    ensures RegLo16(RegisterWord16(hi, lo, opcode)) == lo
    ensures RegisterWord16(hi, lo, opcode) & 0xFF == opcode
    ensures RegisterWord16(hi, lo, opcode) < 0x1_0000
  {
  }

  /** shli_16, lsri_16 and asri_16: the count at 11:7 and the shift at 6:5. */
  function ShiftImmWord16(lhs: Register, count: bv32, op: bv32): bv32
    requires lhs < 16 && count < 32 && 1 <= op < 4
  {
    (lhs << 12) | (count << 7) | (op << 5) | 0x17
  }

  lemma ShiftImmWord16Decodes(lhs: Register, count: bv32, op: bv32)
    requires lhs < 16 && count < 32 && 1 <= op < 4
    ensures RegHi16(ShiftImmWord16(lhs, count, op)) == lhs
    ensures ShiftImm16(ShiftImmWord16(lhs, count, op)) == count
    ensures ShiftImmWord16(lhs, count, op) & 0x1F == 0x17
    ensures (ShiftImmWord16(lhs, count, op) & 0x60) >> 5 == op
    ensures ShiftImmWord16(lhs, count, op) < 0x1_0000
  {
  }

  // ---------------------------------------------------------------------------
  // What each 16-bit test expects of the decode tree. `v` is the CPU after the
  // fetch, its PC already past the instruction ("PC + 2" in the tests).

  /** The CPU with its register file and flags replaced, everything else kept. */
  function WithBank(v: CpuView, regs: RegisterValues, flags: Flags): CpuView {
    v.(state := Bank(regs, flags))
  }

  /** ldi_16: the register takes the immediate and nothing else changes. */
  lemma Ldi16Test<M, D>(v: CpuView, target: Register, value: bv32, priv: PrivilegeLevel, fpu: FloatOps, mem: MemoryOps<M>, m: M, io: IoOps<D>, d: D)
    requires target < 16 && Imm10(value)
    ensures Execute(v, LdiAddiWord(target, value, false), priv, fpu, mem, m, io, d)
         == Outcome(WithBank(v, SetReg(v.state.regs, target, value), v.state.flags), m, d, DONE)
  {
    LdiAddiWordDecodes(target, value, false);
  }

  /** addi_16: the register and the flags are those of `simulate_add(rd, value, false)`. */
  lemma Addi16Test<M, D>(v: CpuView, target: Register, value: bv32, priv: PrivilegeLevel, fpu: FloatOps, mem: MemoryOps<M>, m: M, io: IoOps<D>, d: D)
    requires target < 16 && Imm10(value)
    ensures var (result, flags) := SimulateAdd(Reg(v, target), value, false);
      Execute(v, LdiAddiWord(target, value, true), priv, fpu, mem, m, io, d)
      == Outcome(WithBank(v, SetReg(v.state.regs, target, result), flags), m, d, DONE)
  {
    LdiAddiWordDecodes(target, value, true);
    SimulateAddIsExecuteAdd(v.state.flags, Reg(v, target), value, false);
  }

  /** j_16 and jl_16: the PC becomes `(rb + offset) & !1`; jl also links the PC after the fetch into Ra. */
  lemma Jump16Test<M, D>(v: CpuView, base: Register, offset: bv32, link: bool, priv: PrivilegeLevel, fpu: FloatOps, mem: MemoryOps<M>, m: M, io: IoOps<D>, d: D)
    requires base < 16 && Imm10(offset) && offset & 1 == 0
    ensures var regs := if link then SetReg(v.state.regs, RA, v.pc) else v.state.regs;
      Execute(v, Jump16Word(base, offset, link), priv, fpu, mem, m, io, d)
      == Outcome(WithBank(v, regs, v.state.flags).(pc := (Reg(v, base) + offset) & !1), m, d, DONE)
  {
    Jump16WordDecodes(base, offset, link);
  }

  /** Bits 2:0 = 011 with bit 7 clear route the word to br_16. */
  lemma RoutesToBranch16<M, D>(v: CpuView, x: bv32, priv: PrivilegeLevel, fpu: FloatOps, mem: MemoryOps<M>, m: M, io: IoOps<D>, d: D)
    requires x & 0x87 == 0x3
    ensures Execute(v, x, priv, fpu, mem, m, io, d) == Outcome(Branch16(v, x), m, d, DONE)
  {
  }

  /**
   * The branch rule on an even PC and offset: Link always writes the PC after
   * the fetch into Ra, and the PC moves by the offset exactly when the
   * condition is satisfied.
   */
  lemma BranchExpectation(v: CpuView, cond: BranchCondition, offset: bv32)
    requires offset & 1 == 0 && v.pc & 1 == 0
    ensures var regs := if cond == BLink then SetReg(v.state.regs, RA, v.pc) else v.state.regs;
      var pc := if SatisfyBranch(v.state.flags, cond) then WrappingAdd(v.pc, offset) else v.pc;
      Branch(v, cond, offset) == WithBank(v, regs, v.state.flags).(pc := pc)
  {
    var linked := if cond == BLink then WithReg(v, RA, v.pc) else v;
    var regs := if cond == BLink then SetReg(v.state.regs, RA, v.pc) else v.state.regs;
    assert linked == WithBank(v, regs, v.state.flags);
    EvenJumpTarget(v.pc, offset);
    if SatisfyBranch(v.state.flags, cond) {
      assert Branch(v, cond, offset) == linked.(pc := JumpTarget(v.pc, offset));
    } else {
      assert Branch(v, cond, offset) == linked;
    }
  }

  /** br_16 on its encoded word. */
  lemma Branch16Expectation(v: CpuView, cond: BranchCondition, offset: bv32)
    requires Imm10(offset) && offset & 1 == 0 && v.pc & 1 == 0
    ensures var regs := if cond == BLink then SetReg(v.state.regs, RA, v.pc) else v.state.regs;
      var pc := if SatisfyBranch(v.state.flags, cond) then WrappingAdd(v.pc, offset) else v.pc;
      Branch16(v, Branch16Word(cond, offset)) == WithBank(v, regs, v.state.flags).(pc := pc)
  {
    Branch16WordDecodes(cond, offset);
    BranchExpectation(v, cond, offset);
  }

  /** br_16: the decode tree run on the encoded word. */
  lemma Branch16Test<M, D>(v: CpuView, cond: BranchCondition, offset: bv32, priv: PrivilegeLevel, fpu: FloatOps, mem: MemoryOps<M>, m: M, io: IoOps<D>, d: D)
    requires Imm10(offset) && offset & 1 == 0 && v.pc & 1 == 0
    ensures var regs := if cond == BLink then SetReg(v.state.regs, RA, v.pc) else v.state.regs;
      var pc := if SatisfyBranch(v.state.flags, cond) then WrappingAdd(v.pc, offset) else v.pc;
      Execute(v, Branch16Word(cond, offset), priv, fpu, mem, m, io, d) == Outcome(WithBank(v, regs, v.state.flags).(pc := pc), m, d, DONE)
  {
    Branch16WordDecodes(cond, offset);
    RoutesToBranch16(v, Branch16Word(cond, offset), priv, fpu, mem, m, io, d);
    Branch16Expectation(v, cond, offset);
  }

  /** On an even base and offset the jump target needs no rounding down. */
  lemma EvenJumpTarget(a: bv32, b: bv32)
    requires a & 1 == 0 && b & 1 == 0
    ensures JumpTarget(a, b) == WrappingAdd(a, b)
  {
    EvenSumIsEven(a, b);
    assert JumpTarget(a, b) == (a + b) & !1;
  }

  /** Bits 4:0 = 00111 route the word to alu_16. */
  lemma RoutesToAlu16<M, D>(v: CpuView, x: bv32, priv: PrivilegeLevel, fpu: FloatOps, mem: MemoryOps<M>, m: M, io: IoOps<D>, d: D)
    requires x & 0x1F == 0x07
    ensures Execute(v, x, priv, fpu, mem, m, io, d) == Outcome(Alu16(v, x), m, d, DONE)
  {
  }

  /** The opcode byte of alu_16 row `op` and the row the handler reads back from it. */
  lemma AluOpcodeRead(x: bv32, op: bv32)
    requires op < 8 && x & 0xFF == (op << 5) | 0x07
    ensures (x & 0xE0) >> 5 == op
  {
    assert x & 0xE0 == (x & 0xFF) & 0xE0;
  }

  /** The ALU handler on the encoded word of row `op`. */
  lemma Alu16Expectation(v: CpuView, op: bv32, lhs: Register, rhs: Register)
    requires op < 8 && lhs < 16 && rhs < 16
    ensures var (result, flags) := ExpectedAlu(op, Reg(v, lhs), Reg(v, rhs), v.state.flags);
      Alu16(v, RegisterWord16(lhs, rhs, (op << 5) | 0x07)) == WithBank(v, SetReg(v.state.regs, lhs, result), flags)
  {
    var x := RegisterWord16(lhs, rhs, (op << 5) | 0x07);
    RegisterWord16Decodes(lhs, rhs, (op << 5) | 0x07);
    AluOpcodeRead(x, op);
    AluMeetsExpectation(op, Reg(v, lhs), Reg(v, rhs), v.state.flags);
  }

  /**
   * add_16, sub_16, and_16, or_16, xor_16, shl_16, lsr_16 and asr_16: the
   * first register and the flags take what the test computes for row `op`.
   */
  lemma Alu16Test<M, D>(v: CpuView, op: bv32, lhs: Register, rhs: Register, priv: PrivilegeLevel, fpu: FloatOps, mem: MemoryOps<M>, m: M, io: IoOps<D>, d: D)
    requires op < 8 && lhs < 16 && rhs < 16
    ensures var (result, flags) := ExpectedAlu(op, Reg(v, lhs), Reg(v, rhs), v.state.flags);
      Execute(v, RegisterWord16(lhs, rhs, (op << 5) | 0x07), priv, fpu, mem, m, io, d)
      == Outcome(WithBank(v, SetReg(v.state.regs, lhs, result), flags), m, d, DONE)
  {
    var x := RegisterWord16(lhs, rhs, (op << 5) | 0x07);
    RegisterWord16Decodes(lhs, rhs, (op << 5) | 0x07);
    RoutesToAlu16(v, x, priv, fpu, mem, m, io, d);
    Alu16Expectation(v, op, lhs, rhs);
  }

  /** A word holding a condition's number at 7:5 decodes to that condition. */
  lemma MovConditionRead(x: bv32, cond: Condition)
    requires FieldRange(x, 5, 3, 0) == ConditionToU32(cond)
    ensures MovCondition16(x) == cond
  {
  }

  /** mov_16: the target takes the source exactly when the condition is satisfied. */
  lemma Mov16Test<M, D>(v: CpuView, cond: Condition, target: Register, source: Register, priv: PrivilegeLevel, fpu: FloatOps, mem: MemoryOps<M>, m: M, io: IoOps<D>, d: D)
    requires target < 16 && source < 16
    ensures var regs := if Satisfy(v.state.flags, cond) then SetReg(v.state.regs, target, Reg(v, source)) else v.state.regs;
      Execute(v, RegisterWord16(target, source, (ConditionToU32(cond) << 5) | 0x0F), priv, fpu, mem, m, io, d)
      == Outcome(WithBank(v, regs, v.state.flags), m, d, DONE)
  {
    var x := RegisterWord16(target, source, (ConditionToU32(cond) << 5) | 0x0F);
    RegisterWord16Decodes(target, source, (ConditionToU32(cond) << 5) | 0x0F);
    assert FieldRange(x, 5, 3, 0) == ConditionToU32(cond);
    MovConditionRead(x, cond);
  }

  /** Bits 7:0 = 00010111 route the word to cmp_16. */
  lemma RoutesToCmp16<M, D>(v: CpuView, x: bv32, priv: PrivilegeLevel, fpu: FloatOps, mem: MemoryOps<M>, m: M, io: IoOps<D>, d: D)
    requires x & 0xFF == 0x17
    ensures Execute(v, x, priv, fpu, mem, m, io, d) == Outcome(Cmp16(v, x), m, d, DONE)
  {
  }

  /** The compare handler keeps only the flags of the subtraction. */
  lemma Cmp16Expectation(v: CpuView, lhs: Register, rhs: Register)
    requires lhs < 16 && rhs < 16
    ensures Cmp16(v, RegisterWord16(lhs, rhs, 0x17)) == WithBank(v, v.state.regs, SimulateAdd(Reg(v, lhs), !Reg(v, rhs), true).1)
  {
    RegisterWord16Decodes(lhs, rhs, 0x17);
    SimulateAddIsExecuteAdd(v.state.flags, Reg(v, lhs), !Reg(v, rhs), true);
  }

  /** cmp_16: only the flags change, to those of `simulate_add(lhs, !rhs, true)`. */
  lemma Cmp16Test<M, D>(v: CpuView, lhs: Register, rhs: Register, priv: PrivilegeLevel, fpu: FloatOps, mem: MemoryOps<M>, m: M, io: IoOps<D>, d: D)
    requires lhs < 16 && rhs < 16
    ensures Execute(v, RegisterWord16(lhs, rhs, 0x17), priv, fpu, mem, m, io, d)
      == Outcome(WithBank(v, v.state.regs, SimulateAdd(Reg(v, lhs), !Reg(v, rhs), true).1), m, d, DONE)
  {
    RegisterWord16Decodes(lhs, rhs, 0x17);
    RoutesToCmp16(v, RegisterWord16(lhs, rhs, 0x17), priv, fpu, mem, m, io, d);
    Cmp16Expectation(v, lhs, rhs);
  }

  /** Bits 4:0 = 10111 with a non-zero shift at 6:5 route the word to the immediate shifts. */
  lemma RoutesToShiftImm16<M, D>(v: CpuView, x: bv32, priv: PrivilegeLevel, fpu: FloatOps, mem: MemoryOps<M>, m: M, io: IoOps<D>, d: D)
    requires x & 0x1F == 0x17 && x & 0x60 != 0
    ensures Execute(v, x, priv, fpu, mem, m, io, d) == Outcome(Alui16(v, x), m, d, DONE)
  {
  }

  /** The shift each of shli_16 (op 1), lsri_16 (op 2) and asri_16 (op 3) expects, by an unmasked count. */
  function ExpectedShift(op: bv32, value: bv32, count: bv32): bv32
    requires count < 32
  {
    if op == 1 then value << count else if op == 2 then value >> count else Ashr(value, count)
  }

  /** The immediate-shift handler on the encoded word. */
  lemma ShiftImm16Expectation(v: CpuView, op: bv32, lhs: Register, count: bv32)
    requires 1 <= op < 4 && lhs < 16 && count < 32
    ensures var result := ExpectedShift(op, Reg(v, lhs), count);
      Alui16(v, ShiftImmWord16(lhs, count, op))
      == WithBank(v, SetReg(v.state.regs, lhs, result), SetFlag(v.state.flags, ZERO_FLAG, result == 0))
  {
    ShiftImmWord16Decodes(lhs, count, op);
  }

  /** shli_16, lsri_16 and asri_16: the count is not masked, and only ZERO is updated. */
  lemma ShiftImm16Test<M, D>(v: CpuView, op: bv32, lhs: Register, count: bv32, priv: PrivilegeLevel, fpu: FloatOps, mem: MemoryOps<M>, m: M, io: IoOps<D>, d: D)
    requires 1 <= op < 4 && lhs < 16 && count < 32
    ensures var result := ExpectedShift(op, Reg(v, lhs), count);
      Execute(v, ShiftImmWord16(lhs, count, op), priv, fpu, mem, m, io, d)
      == Outcome(WithBank(v, SetReg(v.state.regs, lhs, result), SetFlag(v.state.flags, ZERO_FLAG, result == 0)), m, d, DONE)
  {
    ShiftImmWord16Decodes(lhs, count, op);
    assert ShiftImmWord16(lhs, count, op) & 0x60 != 0;
    RoutesToShiftImm16(v, ShiftImmWord16(lhs, count, op), priv, fpu, mem, m, io, d);
    ShiftImm16Expectation(v, op, lhs, count);
  }

  /** ret_16: the PC becomes Ra with its low bit cleared, and nothing else changes. */
  lemma Ret16Test<M, D>(v: CpuView, priv: PrivilegeLevel, fpu: FloatOps, mem: MemoryOps<M>, m: M, io: IoOps<D>, d: D)
    ensures Execute(v, 0x097, priv, fpu, mem, m, io, d) == Outcome(v.(pc := Reg(v, RA) & !1), m, d, DONE)
  {
  }

  /** fence_16, whatever its four ordering bits: nothing changes but the fetch's PC. */
  lemma Fence16Test<M, D>(v: CpuView, bits: bv32, priv: PrivilegeLevel, fpu: FloatOps, mem: MemoryOps<M>, m: M, io: IoOps<D>, d: D)
    requires bits < 16
    ensures Execute(v, (bits << 12) | 0x297, priv, fpu, mem, m, io, d) == Outcome(v, m, d, DONE)
  {
  }

  /** ifence_16: nothing changes but the fetch's PC. */
  lemma Ifence16Test<M, D>(v: CpuView, priv: PrivilegeLevel, fpu: FloatOps, mem: MemoryOps<M>, m: M, io: IoOps<D>, d: D)
    ensures Execute(v, 0x397, priv, fpu, mem, m, io, d) == Outcome(v, m, d, DONE)
  {
  }

  /** envcall_16: `step` returns the slot and nothing changes but the fetch's PC. */
  lemma Envcall16Test<M, D>(v: CpuView, slot: bv32, priv: PrivilegeLevel, fpu: FloatOps, mem: MemoryOps<M>, m: M, io: IoOps<D>, d: D)
    requires slot < 16
    ensures Execute(v, (slot << 12) | 0xE97, priv, fpu, mem, m, io, d) == Outcome(v, m, d, Completed(Some(slot as bv8)))
  {
    assert Bits15To12((slot << 12) | 0xE97) == slot;
  }

  // ---------------------------------------------------------------------------
  // The 32-bit forms. The test memory holds the whole word `x`: the fetch of
  // `step_inner` reads its lower half, so the decode tree starts on
  // `x & 0xFFFF` with `v.pc` at the upper half, whose read is a precondition.

  /** The two half-words of a word, joined again as `fetch_upper` joins them. */
  lemma JoinHalves(x: bv32)
    ensures (x & 0xFFFF) | ((((x >> 16) as bv16) as bv32) << 16) == x
  {
  }

  /** ldui and apcui: bits 2:0 = 011 with bit 7 set fetch the upper half and run the upper-immediate handler. */
  lemma RoutesToUpper32<M, D>(v: CpuView, x: bv32, priv: PrivilegeLevel, fpu: FloatOps, mem: MemoryOps<M>, m: M, io: IoOps<D>, d: D)
    requires x & 0x87 == 0x83
    requires mem.read16(m, v.pc, priv, false).0 == Ok((x >> 16) as bv16)
    ensures Execute(v, x & 0xFFFF, priv, fpu, mem, m, io, d)
         == Outcome(Uimm32(v.(pc := v.pc + 2), x), mem.read16(m, v.pc, priv, false).1, d, DONE)
  {
    JoinHalves(x);
  }

  /** Bits 5:0 all set: the upper half is fetched and the 32-bit decode tree runs on the whole word. */
  lemma RoutesToExecute32<M, D>(v: CpuView, x: bv32, priv: PrivilegeLevel, fpu: FloatOps, mem: MemoryOps<M>, m: M, io: IoOps<D>, d: D)
    requires x & 0x3F == 0x3F
    requires mem.read16(m, v.pc, priv, false).0 == Ok((x >> 16) as bv16)
    ensures Execute(v, x & 0xFFFF, priv, fpu, mem, m, io, d)
         == Execute32(v.(pc := v.pc + 2), x, priv, fpu, mem, mem.read16(m, v.pc, priv, false).1, io, d)
  {
    JoinHalves(x);
  }

  /** An `i32` in `-4096..=4095` cast to `u32`. */
  predicate Imm13(value: bv32) {
    value < 0x1000 || value >= 0xFFFF_F000
  }

  /** An `i32` in `-1_048_576..=1_048_575` cast to `u32`. */
  predicate Imm21(value: bv32) {
    value < 0x10_0000 || value >= 0xFFF0_0000
  }

  /**
   * ldui_32 and apcui_32: `[31:27] => [31:27], [12:10] => [26:24], [14:13] => [23:22],
   * [19:15] => [21:17], [26:23] => [11:8], [22:20] => [6:4]`, rd at 16:12, bit 3 set for apcui.
   */
  function UpperWord(target: Register, value: bv32, apcui: bool): bv32
    requires target < 32
  {
    (FieldRange(value, 27, 5, 27) | (FieldRange(value, 10, 3, 24) | (FieldRange(value, 13, 2, 22)
    | (FieldRange(value, 15, 5, 17) | (FieldRange(value, 23, 4, 8) | FieldRange(value, 20, 3, 4))))))
    | (target << 12) | (if apcui then 0x8B else 0x83)
  }

  /** The test's value `(value as u32) << 10` has its low ten bits clear, and reads back whole. */
  lemma UpperWordDecodes(target: Register, value: bv32, apcui: bool)
    requires target < 32 && value & 0x3FF == 0
    ensures UpperImm(UpperWord(target, value, apcui)) == value
    ensures Rd32(UpperWord(target, value, apcui)) == target
    ensures UpperWord(target, value, apcui) & 0x87 == 0x83
    ensures (UpperWord(target, value, apcui) & 0x8 == 0) == !apcui
  {
  }

  /** The upper-immediate handler on the encoded word. */
  lemma Upper32Expectation(w: CpuView, target: Register, value: bv32, apcui: bool)
    requires target < 32 && value & 0x3FF == 0
    ensures var result := if apcui then WrappingAdd(w.pc, value) else value;
      Uimm32(w, UpperWord(target, value, apcui)) == WithBank(w, SetReg(w.state.regs, target, result), w.state.flags)
  {
    UpperWordDecodes(target, value, apcui);
    UpperRule(w, UpperWord(target, value, apcui), target, value, apcui);
  }

  /** The upper-immediate handler on any word with these fields. */
  lemma UpperRule(w: CpuView, x: bv32, target: Register, value: bv32, apcui: bool)
    requires UpperImm(x) == value && Rd32(x) == target && (x & 0x8 == 0) == !apcui
    ensures var result := if apcui then WrappingAdd(w.pc, value) else value;
      Uimm32(w, x) == WithBank(w, SetReg(w.state.regs, target, result), w.state.flags)
  {
  }

  /** ldui_32 writes the value and apcui_32 the PC after the whole instruction plus it; nothing else changes. */
  lemma Upper32Test<M, D>(v: CpuView, x: bv32, target: Register, value: bv32, apcui: bool, priv: PrivilegeLevel, fpu: FloatOps, mem: MemoryOps<M>, m: M, io: IoOps<D>, d: D)
    requires target < 32 && value & 0x3FF == 0 && x == UpperWord(target, value, apcui)
    requires mem.read16(m, v.pc, priv, false).0 == Ok((x >> 16) as bv16)
    ensures var w := v.(pc := v.pc + 2);
      var result := if apcui then WrappingAdd(w.pc, value) else value;
      Execute(v, x & 0xFFFF, priv, fpu, mem, m, io, d)
      == Outcome(WithBank(w, SetReg(v.state.regs, target, result), v.state.flags), mem.read16(m, v.pc, priv, false).1, d, DONE)
  {
    UpperWordDecodes(target, value, apcui);
    RoutesToUpper32(v, x, priv, fpu, mem, m, io, d);
    Upper32Expectation(v.(pc := v.pc + 2), target, value, apcui);
  }

  /** jl_32: `[13] => [31], [8:5] => [30:27], [12:10] => [26:24], [4:1] => [11:8], [9] => [7]`, rb at 21:17, rd at 16:12. */
  function Jump32Word(link: Register, base: Register, offset: bv32): bv32
    requires link < 32 && base < 32
  {
    (Bit(offset, 13, 31) | (FieldRange(offset, 5, 4, 27) | (FieldRange(offset, 10, 3, 24) | (FieldRange(offset, 1, 4, 8) | Bit(offset, 9, 7)))))
    | (base << 17) | (link << 12) | 0x3F
  }

  lemma Jump32WordDecodes(link: Register, base: Register, offset: bv32)
    requires link < 32 && base < 32 && Imm13(offset) && offset & 1 == 0
    ensures Jump32Imm(Jump32Word(link, base, offset)) == offset
    ensures Rs1Of32(Jump32Word(link, base, offset)) == base
    ensures Rd32(Jump32Word(link, base, offset)) == link
    ensures Jump32Word(link, base, offset) & 0x3F == 0x3F
    ensures Jump32Word(link, base, offset) & 0xC0_0040 == 0
  {
  }

  /** Bits 23:22 = 00 with bit 6 clear select jl_32. */
  lemma RoutesToJump32<M, D>(v: CpuView, x: bv32, priv: PrivilegeLevel, fpu: FloatOps, mem: MemoryOps<M>, m: M, io: IoOps<D>, d: D)
    requires x & 0xC0_0040 == 0
    ensures Execute32(v, x, priv, fpu, mem, m, io, d) == Outcome(Jump32(v, x), m, d, DONE)
  {
  }

  /** The jl_32 handler on the encoded word. */
  lemma Jump32Expectation(w: CpuView, link: Register, base: Register, offset: bv32)
    requires link < 32 && base < 32 && Imm13(offset) && offset & 1 == 0
    ensures Jump32(w, Jump32Word(link, base, offset))
         == WithBank(w, SetReg(w.state.regs, link, w.pc), w.state.flags).(pc := (Reg(w, base) + offset) & !1)
  {
    Jump32WordDecodes(link, base, offset);
  }

  /** jl_32: rd takes the PC after the whole instruction and the PC becomes `(rb + offset) & !1`. */
  lemma Jump32Test<M, D>(v: CpuView, x: bv32, link: Register, base: Register, offset: bv32, priv: PrivilegeLevel, fpu: FloatOps, mem: MemoryOps<M>, m: M, io: IoOps<D>, d: D)
    requires link < 32 && base < 32 && Imm13(offset) && offset & 1 == 0 && x == Jump32Word(link, base, offset)
    requires mem.read16(m, v.pc, priv, false).0 == Ok((x >> 16) as bv16)
    ensures var w := v.(pc := v.pc + 2);
      Execute(v, x & 0xFFFF, priv, fpu, mem, m, io, d)
      == Outcome(WithBank(w, SetReg(v.state.regs, link, w.pc), v.state.flags).(pc := (Reg(v, base) + offset) & !1),
                 mem.read16(m, v.pc, priv, false).1, d, DONE)
  {
    var m' := mem.read16(m, v.pc, priv, false).1;
    Jump32WordDecodes(link, base, offset);
    RoutesToExecute32(v, x, priv, fpu, mem, m, io, d);
    RoutesToJump32(v.(pc := v.pc + 2), x, priv, fpu, mem, m', io, d);
    assert Reg(v.(pc := v.pc + 2), base) == Reg(v, base);
    Jump32Expectation(v.(pc := v.pc + 2), link, base, offset);
  }

  /**
   * br_32: `[20] => [31], [8:5] => [30:27], [12:10] => [26:24], [19:13] => [21:15],
   * [4:1] => [11:8], [9] => [7]`, the condition at 14:12.
   */
  function Branch32Word(cond: BranchCondition, offset: bv32): bv32 {
    Branch32Bits(BranchConditionToU32(cond), offset)
  }

  /** `Branch32Word` for the condition's number. */
  function Branch32Bits(code: bv32, offset: bv32): bv32 {
    (Bit(offset, 20, 31) | (FieldRange(offset, 5, 4, 27) | (FieldRange(offset, 10, 3, 24) | (FieldRange(offset, 13, 7, 15)
    | (FieldRange(offset, 1, 4, 8) | Bit(offset, 9, 7))))))
    | (code << 12) | 0x7F
  }

  lemma Branch32BitsDecode(code: bv32, offset: bv32)
    requires code < 8 && Imm21(offset) && offset & 1 == 0
    ensures Branch32Imm(Branch32Bits(code, offset)) == offset
    ensures FieldRange(Branch32Bits(code, offset), 12, 3, 0) == code
    ensures Branch32Bits(code, offset) & 0x3F == 0x3F
    ensures Branch32Bits(code, offset) & 0xC0_0040 == 0x40
  {
  }

  lemma Branch32WordDecodes(cond: BranchCondition, offset: bv32)
    requires Imm21(offset) && offset & 1 == 0
    ensures Branch32Imm(Branch32Word(cond, offset)) == offset
    ensures BranchConditionOf(Branch32Word(cond, offset)) == cond
    ensures Branch32Word(cond, offset) & 0x3F == 0x3F
    ensures Branch32Word(cond, offset) & 0xC0_0040 == 0x40
  {
    Branch32BitsDecode(BranchConditionToU32(cond), offset);
    BranchConditionRead(Branch32Word(cond, offset), cond);
  }

  /** Bits 23:22 = 00 with bit 6 set select br_32. */
  lemma RoutesToBranch32<M, D>(v: CpuView, x: bv32, priv: PrivilegeLevel, fpu: FloatOps, mem: MemoryOps<M>, m: M, io: IoOps<D>, d: D)
    requires x & 0xC0_0040 == 0x40
    ensures Execute32(v, x, priv, fpu, mem, m, io, d) == Outcome(Branch32(v, x), m, d, DONE)
  {
  }

  /** The br_32 handler on the encoded word, from an even PC. */
  lemma Branch32Expectation(w: CpuView, cond: BranchCondition, offset: bv32)
    requires Imm21(offset) && offset & 1 == 0 && w.pc & 1 == 0
    ensures var regs := if cond == BLink then SetReg(w.state.regs, RA, w.pc) else w.state.regs;
      var pc := if SatisfyBranch(w.state.flags, cond) then WrappingAdd(w.pc, offset) else w.pc;
      Branch32(w, Branch32Word(cond, offset)) == WithBank(w, regs, w.state.flags).(pc := pc)
  {
    Branch32WordDecodes(cond, offset);
    BranchExpectation(w, cond, offset);
  }

  /** br_32: the branch rule, from the PC after the whole instruction. */
  lemma Branch32Test<M, D>(v: CpuView, x: bv32, cond: BranchCondition, offset: bv32, priv: PrivilegeLevel, fpu: FloatOps, mem: MemoryOps<M>, m: M, io: IoOps<D>, d: D)
    requires Imm21(offset) && offset & 1 == 0 && v.pc & 1 == 0 && x == Branch32Word(cond, offset)
    requires mem.read16(m, v.pc, priv, false).0 == Ok((x >> 16) as bv16)
    ensures var w := v.(pc := v.pc + 2);
      var regs := if cond == BLink then SetReg(v.state.regs, RA, w.pc) else v.state.regs;
      var pc := if SatisfyBranch(v.state.flags, cond) then WrappingAdd(w.pc, offset) else w.pc;
      Execute(v, x & 0xFFFF, priv, fpu, mem, m, io, d)
      == Outcome(WithBank(w, regs, v.state.flags).(pc := pc), mem.read16(m, v.pc, priv, false).1, d, DONE)
  {
    var w := v.(pc := v.pc + 2);
    var m' := mem.read16(m, v.pc, priv, false).1;
    Branch32WordDecodes(cond, offset);
    RoutesToExecute32(v, x, priv, fpu, mem, m, io, d);
    RoutesToBranch32(w, x, priv, fpu, mem, m', io, d);
    EvenSumIsEven(v.pc, 2);
    Branch32Expectation(w, cond, offset);
  }

  /** The 10-bit immediate of alui_32 and movi_32: `[9] => [31], [8:5] => [30:27], [4:0] => [11:7]`. */
  function Imm10Bits(imm: bv32): bv32 {
    Bit(imm, 9, 31) | (FieldRange(imm, 5, 4, 27) | FieldRange(imm, 0, 5, 7))
  }

  /** alui_32 row `op`: the immediate, rs1 at 21:17, rd at 16:12 and `0b{op}_01` at 26:22. */
  function AluiWord32(target: Register, lhs: Register, imm: bv32, op: bv32): bv32
    requires target < 32 && lhs < 32 && op < 8
  {
    Imm10Bits(imm) | (lhs << 17) | (target << 12) | (((op << 2) | 1) << 22) | 0x3F
  }

  lemma AluiWord32Decodes(target: Register, lhs: Register, imm: bv32, op: bv32)
    requires target < 32 && lhs < 32 && op < 8 && Imm10(imm)
    ensures Imm32(AluiWord32(target, lhs, imm, op)) == imm
    ensures Rs1Of32(AluiWord32(target, lhs, imm, op)) == lhs
    ensures Rd32(AluiWord32(target, lhs, imm, op)) == target
    ensures (AluiWord32(target, lhs, imm, op) & 0x700_0000) >> 24 == op
    ensures AluiWord32(target, lhs, imm, op) & 0x3F == 0x3F
    ensures AluiWord32(target, lhs, imm, op) & 0xC0_0040 == 0x40_0000
  {
  }

  /** Bits 23:22 = 01 with bit 6 clear select alui_32. */
  lemma RoutesToAlui32<M, D>(v: CpuView, x: bv32, priv: PrivilegeLevel, fpu: FloatOps, mem: MemoryOps<M>, m: M, io: IoOps<D>, d: D)
    requires x & 0xC0_0040 == 0x40_0000
    ensures Execute32(v, x, priv, fpu, mem, m, io, d) == Outcome(Alui32(v, x), m, d, DONE)
  {
  }

  /** The alui_32 handler on the encoded word of row `op`. */
  lemma Alui32Expectation(w: CpuView, op: bv32, target: Register, lhs: Register, imm: bv32)
    requires op < 8 && target < 32 && lhs < 32 && Imm10(imm)
    ensures var (result, flags) := ExpectedAlu(op, Reg(w, lhs), imm, w.state.flags);
      Alui32(w, AluiWord32(target, lhs, imm, op)) == WithBank(w, SetReg(w.state.regs, target, result), flags)
  {
    AluiWord32Decodes(target, lhs, imm, op);
    AluMeetsExpectation(op, Reg(w, lhs), imm, w.state.flags);
  }

  /**
   * addi_32, subi_32, andi_32, ori_32, xori_32, shli_32, lsri_32 and asri_32:
   * rd and the flags take what the test computes for row `op` on rs1 and the
   * immediate.
   */
  lemma Alui32Test<M, D>(v: CpuView, x: bv32, op: bv32, target: Register, lhs: Register, imm: bv32, priv: PrivilegeLevel, fpu: FloatOps, mem: MemoryOps<M>, m: M, io: IoOps<D>, d: D)
    requires op < 8 && target < 32 && lhs < 32 && Imm10(imm) && x == AluiWord32(target, lhs, imm, op)
    requires mem.read16(m, v.pc, priv, false).0 == Ok((x >> 16) as bv16)
    ensures var (result, flags) := ExpectedAlu(op, Reg(v, lhs), imm, v.state.flags);
      Execute(v, x & 0xFFFF, priv, fpu, mem, m, io, d)
      == Outcome(WithBank(v.(pc := v.pc + 2), SetReg(v.state.regs, target, result), flags), mem.read16(m, v.pc, priv, false).1, d, DONE)
  {
    AluiWord32Decodes(target, lhs, imm, op);
    RoutesToExecute32(v, x, priv, fpu, mem, m, io, d);
    RoutesToAlui32(v.(pc := v.pc + 2), x, priv, fpu, mem, mem.read16(m, v.pc, priv, false).1, io, d);
    Alui32Expectation(v.(pc := v.pc + 2), op, target, lhs, imm);
  }

  /** movi_32: the immediate, rs1, rd, the condition at 26:24 and `0b01` at 23:22, bit 6 set. */
  function MoviWord32(cond: Condition, target: Register, lhs: Register, imm: bv32): bv32
    requires target < 32 && lhs < 32
  {
    Imm10Bits(imm) | (lhs << 17) | (target << 12) | (ConditionToU32(cond) << 24) | (1 << 22) | 0x7F
  }

  lemma MoviWord32Decodes(cond: Condition, target: Register, lhs: Register, imm: bv32)
    requires target < 32 && lhs < 32 && Imm10(imm)
    ensures Imm32(MoviWord32(cond, target, lhs, imm)) == imm
    ensures Rs1Of32(MoviWord32(cond, target, lhs, imm)) == lhs
    ensures Rd32(MoviWord32(cond, target, lhs, imm)) == target
    ensures Condition32(MoviWord32(cond, target, lhs, imm)) == cond
    ensures MoviWord32(cond, target, lhs, imm) & 0x3F == 0x3F
    ensures MoviWord32(cond, target, lhs, imm) & 0xC0_0040 == 0x40_0040
  {
    MoviWord32Immediate(cond, target, lhs, imm);
    MoviWord32Condition(cond, target, lhs, imm);
  }

  lemma MoviWord32Immediate(cond: Condition, target: Register, lhs: Register, imm: bv32)
    requires target < 32 && lhs < 32 && Imm10(imm)
    ensures Imm32(MoviWord32(cond, target, lhs, imm)) == imm
  {
  }

  lemma MoviWord32Condition(cond: Condition, target: Register, lhs: Register, imm: bv32)
    requires target < 32 && lhs < 32
    ensures Condition32(MoviWord32(cond, target, lhs, imm)) == cond
  {
    assert FieldRange(MoviWord32(cond, target, lhs, imm), 24, 3, 0) == ConditionToU32(cond);
    Condition32Read(MoviWord32(cond, target, lhs, imm), cond);
  }

  /** A word holding a condition's number at 26:24 decodes to that condition. */
  lemma Condition32Read(x: bv32, cond: Condition)
    requires FieldRange(x, 24, 3, 0) == ConditionToU32(cond)
    ensures Condition32(x) == cond
  {
  }

  /** Bits 23:22 = 01 with bit 6 set select movi_32. */
  lemma RoutesToMovi32<M, D>(v: CpuView, x: bv32, priv: PrivilegeLevel, fpu: FloatOps, mem: MemoryOps<M>, m: M, io: IoOps<D>, d: D)
    requires x & 0xC0_0040 == 0x40_0040
    ensures Execute32(v, x, priv, fpu, mem, m, io, d) == Outcome(Movi32(v, x), m, d, DONE)
  {
  }

  /** The movi_32 handler on the encoded word. */
  lemma Movi32Expectation(w: CpuView, cond: Condition, target: Register, lhs: Register, imm: bv32)
    requires target < 32 && lhs < 32 && Imm10(imm)
    ensures var value := if Satisfy(w.state.flags, cond) then imm else Reg(w, lhs);
      Movi32(w, MoviWord32(cond, target, lhs, imm)) == WithBank(w, SetReg(w.state.regs, target, value), w.state.flags)
  {
    MoviWord32Decodes(cond, target, lhs, imm);
  }

  /** movi_32: rd takes the immediate when the condition is satisfied and rs1 otherwise. */
  lemma Movi32Test<M, D>(v: CpuView, x: bv32, cond: Condition, target: Register, lhs: Register, imm: bv32, priv: PrivilegeLevel, fpu: FloatOps, mem: MemoryOps<M>, m: M, io: IoOps<D>, d: D)
    requires target < 32 && lhs < 32 && Imm10(imm) && x == MoviWord32(cond, target, lhs, imm)
    requires mem.read16(m, v.pc, priv, false).0 == Ok((x >> 16) as bv16)
    ensures var value := if Satisfy(v.state.flags, cond) then imm else Reg(v, lhs);
      Execute(v, x & 0xFFFF, priv, fpu, mem, m, io, d)
      == Outcome(WithBank(v.(pc := v.pc + 2), SetReg(v.state.regs, target, value), v.state.flags), mem.read16(m, v.pc, priv, false).1, d, DONE)
  {
    MoviWord32Decodes(cond, target, lhs, imm);
    RoutesToExecute32(v, x, priv, fpu, mem, m, io, d);
    RoutesToMovi32(v.(pc := v.pc + 2), x, priv, fpu, mem, mem.read16(m, v.pc, priv, false).1, io, d);
    Movi32Expectation(v.(pc := v.pc + 2), cond, target, lhs, imm);
  }

  /**
   * The register forms: rs1 at 21:17, rd at 16:12, rs2 by `[3:0] => [11:8], [4] => [7]`,
   * `row` at 31:22 and bit 6 as given.
   */
  function RegisterWord32(target: Register, lhs: Register, rhs: Register, row: bv32, bit6: bool): bv32
    requires target < 32 && lhs < 32 && rhs < 32 && row < 0x400
  {
    (lhs << 17) | (target << 12) | (FieldRange(rhs, 0, 4, 8) | Bit(rhs, 4, 7)) | (row << 22) | (if bit6 then 0x7F else 0x3F)
  }

  lemma RegisterWord32Decodes(target: Register, lhs: Register, rhs: Register, row: bv32, bit6: bool)
    requires target < 32 && lhs < 32 && rhs < 32 && row < 0x400
    ensures Rs1Of32(RegisterWord32(target, lhs, rhs, row, bit6)) == lhs
    ensures Rd32(RegisterWord32(target, lhs, rhs, row, bit6)) == target
    ensures Rs2Of32(RegisterWord32(target, lhs, rhs, row, bit6)) == rhs
    ensures (RegisterWord32(target, lhs, rhs, row, bit6) & 0x700_0000) >> 24 == (row >> 2) & 7
    ensures FieldRange(RegisterWord32(target, lhs, rhs, row, bit6), 24, 3, 0) == (row >> 2) & 7
    ensures Opcode32(RegisterWord32(target, lhs, rhs, row, bit6)) == ((row >> 5) << 1) | (if bit6 then 1 else 0)
    ensures RegisterWord32(target, lhs, rhs, row, bit6) & 0xC0_0000 == (row & 3) << 22
    ensures RegisterWord32(target, lhs, rhs, row, bit6) & 0x3F == 0x3F
  {
  }

  /** The register group (bits 23:22 = 11) with sub-opcode 0 is alu_32. */
  lemma RoutesToAlu32<M, D>(v: CpuView, x: bv32, priv: PrivilegeLevel, fpu: FloatOps, mem: MemoryOps<M>, m: M, io: IoOps<D>, d: D)
    requires x & 0xC0_0000 == 0xC0_0000 && Opcode32(x) == 0
    ensures Execute32(v, x, priv, fpu, mem, m, io, d) == Outcome(Alu32(v, x), m, d, DONE)
  {
  }

  /** The alu_32 handler on the encoded word of row `op`. */
  lemma Alu32Expectation(w: CpuView, op: bv32, target: Register, lhs: Register, rhs: Register)
    requires op < 8 && target < 32 && lhs < 32 && rhs < 32
    ensures var (result, flags) := ExpectedAlu(op, Reg(w, lhs), Reg(w, rhs), w.state.flags);
      Alu32(w, RegisterWord32(target, lhs, rhs, (op << 2) | 3, false)) == WithBank(w, SetReg(w.state.regs, target, result), flags)
  {
    RegisterWord32Decodes(target, lhs, rhs, (op << 2) | 3, false);
    AluMeetsExpectation(op, Reg(w, lhs), Reg(w, rhs), w.state.flags);
  }

  /**
   * add_32, sub_32, and_32, or_32, xor_32, shl_32, lsr_32 and asr_32: rd and
   * the flags take what the test computes for row `op` on rs1 and rs2.
   */
  lemma Alu32Test<M, D>(v: CpuView, x: bv32, op: bv32, target: Register, lhs: Register, rhs: Register, priv: PrivilegeLevel, fpu: FloatOps, mem: MemoryOps<M>, m: M, io: IoOps<D>, d: D)
    requires op < 8 && target < 32 && lhs < 32 && rhs < 32 && x == RegisterWord32(target, lhs, rhs, (op << 2) | 3, false)
    requires mem.read16(m, v.pc, priv, false).0 == Ok((x >> 16) as bv16)
    ensures var (result, flags) := ExpectedAlu(op, Reg(v, lhs), Reg(v, rhs), v.state.flags);
      Execute(v, x & 0xFFFF, priv, fpu, mem, m, io, d)
      == Outcome(WithBank(v.(pc := v.pc + 2), SetReg(v.state.regs, target, result), flags), mem.read16(m, v.pc, priv, false).1, d, DONE)
  {
    RegisterWord32Decodes(target, lhs, rhs, (op << 2) | 3, false);
    RoutesToExecute32(v, x, priv, fpu, mem, m, io, d);
    RoutesToAlu32(v.(pc := v.pc + 2), x, priv, fpu, mem, mem.read16(m, v.pc, priv, false).1, io, d);
    Alu32Expectation(v.(pc := v.pc + 2), op, target, lhs, rhs);
  }

  /** The register group with sub-opcode 1 is mov_32. */
  lemma RoutesToMov32<M, D>(v: CpuView, x: bv32, priv: PrivilegeLevel, fpu: FloatOps, mem: MemoryOps<M>, m: M, io: IoOps<D>, d: D)
    requires x & 0xC0_0000 == 0xC0_0000 && Opcode32(x) == 1
    ensures Execute32(v, x, priv, fpu, mem, m, io, d) == Outcome(Mov32(v, x), m, d, DONE)
  {
  }

  /** The mov_32 handler on the encoded word. */
  lemma Mov32Expectation(w: CpuView, cond: Condition, target: Register, lhs: Register, rhs: Register)
    requires target < 32 && lhs < 32 && rhs < 32
    ensures var value := if Satisfy(w.state.flags, cond) then Reg(w, rhs) else Reg(w, lhs);
      Mov32(w, RegisterWord32(target, lhs, rhs, (ConditionToU32(cond) << 2) | 3, true))
      == WithBank(w, SetReg(w.state.regs, target, value), w.state.flags)
  {
    var row := (ConditionToU32(cond) << 2) | 3;
    RegisterWord32Decodes(target, lhs, rhs, row, true);
    assert (row >> 2) & 7 == ConditionToU32(cond);
    Condition32Read(RegisterWord32(target, lhs, rhs, row, true), cond);
  }

  /** mov_32: rd takes rs2 when the condition is satisfied and rs1 otherwise. */
  lemma Mov32Test<M, D>(v: CpuView, x: bv32, cond: Condition, target: Register, lhs: Register, rhs: Register, priv: PrivilegeLevel, fpu: FloatOps, mem: MemoryOps<M>, m: M, io: IoOps<D>, d: D)
    requires target < 32 && lhs < 32 && rhs < 32 && x == RegisterWord32(target, lhs, rhs, (ConditionToU32(cond) << 2) | 3, true)
    requires mem.read16(m, v.pc, priv, false).0 == Ok((x >> 16) as bv16)
    ensures var value := if Satisfy(v.state.flags, cond) then Reg(v, rhs) else Reg(v, lhs);
      Execute(v, x & 0xFFFF, priv, fpu, mem, m, io, d)
      == Outcome(WithBank(v.(pc := v.pc + 2), SetReg(v.state.regs, target, value), v.state.flags), mem.read16(m, v.pc, priv, false).1, d, DONE)
  {
    var row := (ConditionToU32(cond) << 2) | 3;
    RegisterWord32Decodes(target, lhs, rhs, row, true);
    assert row >> 5 == 0;
    RoutesToExecute32(v, x, priv, fpu, mem, m, io, d);
    RoutesToMov32(v.(pc := v.pc + 2), x, priv, fpu, mem, mem.read16(m, v.pc, priv, false).1, io, d);
    Mov32Expectation(v.(pc := v.pc + 2), cond, target, lhs, rhs);
  }

  /**
   * What addc_32 (op 0) and subc_32 (op 1) expect: `simulate_add` with the
   * stored CARRY as carry-in, then ZERO removed unless it was already set.
   */
  function ExpectedAddWithCarry(op: bv32, lhs: bv32, rhs: bv32, f: Flags): (bv32, Flags) {
    var sum := SimulateAdd(lhs, if op == 0 then rhs else !rhs, Contains(f, CARRY));
    (sum.0, if Contains(f, ZERO_FLAG) then sum.1 else SetFlag(sum.1, ZERO_FLAG, false))
  }

  /** The carry-in additions are what the tests expect: ZERO can only be cleared, every other flag is fresh. */
  lemma AddWithCarryMeetsExpectation(op: bv32, lhs: bv32, rhs: bv32, f: Flags)
    requires op < 2
    ensures AddWithCarry(op, lhs, rhs, f).0 == ExpectedAddWithCarry(op, lhs, rhs, f).0
    ensures AddWithCarry(op, lhs, rhs, f).1 == ExpectedAddWithCarry(op, lhs, rhs, f).1
  {
    AddWithCarryResult(op, lhs, rhs, f);
    AddWithCarryFlags(op, lhs, rhs, f);
  }

  /** The carry-in additions' result is `simulate_add`'s. */
  lemma AddWithCarryResult(op: bv32, lhs: bv32, rhs: bv32, f: Flags)
    requires op < 2
    ensures AddWithCarry(op, lhs, rhs, f).0 == ExpectedAddWithCarry(op, lhs, rhs, f).0
  {
    var rhs' := if op == 0 then rhs else !rhs;
    SimulateAddIsExecuteAdd(f, lhs, rhs', Contains(f, CARRY));
    AddWithCarryParts(op, lhs, rhs, f);
  }

  /** The carry-in additions' flags are `simulate_add`'s, ZERO removed unless it was set. */
  lemma AddWithCarryFlags(op: bv32, lhs: bv32, rhs: bv32, f: Flags)
    requires op < 2
    ensures AddWithCarry(op, lhs, rhs, f).1 == ExpectedAddWithCarry(op, lhs, rhs, f).1
  {
    CarryInFlags(f, lhs, if op == 0 then rhs else !rhs, Contains(f, CARRY));
    AddWithCarryParts(op, lhs, rhs, f);
  }

  /** `execute_add` followed by the ZERO rule of addc/subc, against `simulate_add`. */
  lemma CarryInFlags(f: Flags, lhs: bv32, rhs: bv32, cIn: bool)
    ensures var e := ExecuteAdd(f, lhs, rhs, cIn);
      var sim := SimulateAdd(lhs, rhs, cIn);
      ClearZeroUnlessZero(e.1, e.0) == if Contains(f, ZERO_FLAG) then sim.1 else SetFlag(sim.1, ZERO_FLAG, false)
  {
    var e := ExecuteAdd(f, lhs, rhs, cIn);
    var sim := SimulateAdd(lhs, rhs, cIn);
    assert sim.0 == e.0 && sim.1 == SetZero(e.1, e.0) && Contains(e.1, ZERO_FLAG) == Contains(f, ZERO_FLAG) by {
      SimulateAddIsExecuteAdd(f, lhs, rhs, cIn);
    }
    CarryInZero(f, e.1, sim.1, e.0);
  }

  /** The two halves of `AddWithCarry`, written out. */
  lemma AddWithCarryParts(op: bv32, lhs: bv32, rhs: bv32, f: Flags)
    requires op < 2
    ensures var e := ExecuteAdd(f, lhs, if op == 0 then rhs else !rhs, Contains(f, CARRY));
      AddWithCarry(op, lhs, rhs, f).0 == e.0 && AddWithCarry(op, lhs, rhs, f).1 == ClearZeroUnlessZero(e.1, e.0)
  {
  }

  /**
   * The flags step of the carry-in additions: after an addition that kept
   * ZERO, clearing it unless the result is zero equals setting it from the
   * result and then removing it unless it was set before.
   */
  lemma CarryInZero(f: Flags, g: Flags, h: Flags, result: bv32)
    requires Contains(g, ZERO_FLAG) == Contains(f, ZERO_FLAG) && h == SetZero(g, result)
    ensures ClearZeroUnlessZero(g, result) == if Contains(f, ZERO_FLAG) then h else SetFlag(h, ZERO_FLAG, false)
  {
    ZeroUpdateKeeps(g, result == 0);
    ZeroUpdateKeeps(g, false);
    ZeroUpdateKeeps(h, false);
    FlagsByMembers(ClearZeroUnlessZero(g, result), if Contains(f, ZERO_FLAG) then h else SetFlag(h, ZERO_FLAG, false));
  }

  /** Writing ZERO leaves the other three flags as they were. */
  lemma ZeroUpdateKeeps(f: Flags, on: bool)
    ensures Contains(SetFlag(f, ZERO_FLAG, on), CARRY) == Contains(f, CARRY)
    ensures Contains(SetFlag(f, ZERO_FLAG, on), SIGN) == Contains(f, SIGN)
    ensures Contains(SetFlag(f, ZERO_FLAG, on), OVERFLOW) == Contains(f, OVERFLOW)
  {
  }

  /** The register group with sub-opcode 2 is addc/subc. */
  lemma RoutesToAluc32<M, D>(v: CpuView, x: bv32, priv: PrivilegeLevel, fpu: FloatOps, mem: MemoryOps<M>, m: M, io: IoOps<D>, d: D)
    requires x & 0xC0_0000 == 0xC0_0000 && Opcode32(x) == 2
    ensures Execute32(v, x, priv, fpu, mem, m, io, d) == Outcome(Aluc32(v, x).0, m, d, Aluc32(v, x).1)
  {
  }

  /** The addc/subc handler on the encoded word. */
  lemma AddWithCarry32Expectation(w: CpuView, op: bv32, target: Register, lhs: Register, rhs: Register)
    requires op < 2 && target < 32 && lhs < 32 && rhs < 32
    ensures var (result, flags) := ExpectedAddWithCarry(op, Reg(w, lhs), Reg(w, rhs), w.state.flags);
      Aluc32(w, RegisterWord32(target, lhs, rhs, 0x23 | (op << 2), false)) == (WithBank(w, SetReg(w.state.regs, target, result), flags), DONE)
  {
    RegisterWord32Decodes(target, lhs, rhs, 0x23 | (op << 2), false);
    AddWithCarryMeetsExpectation(op, Reg(w, lhs), Reg(w, rhs), w.state.flags);
  }

  /** addc_32 and subc_32: rd and the flags take what the test computes. */
  lemma AddWithCarry32Test<M, D>(v: CpuView, x: bv32, op: bv32, target: Register, lhs: Register, rhs: Register, priv: PrivilegeLevel, fpu: FloatOps, mem: MemoryOps<M>, m: M, io: IoOps<D>, d: D)
    requires op < 2 && target < 32 && lhs < 32 && rhs < 32 && x == RegisterWord32(target, lhs, rhs, 0x23 | (op << 2), false)
    requires mem.read16(m, v.pc, priv, false).0 == Ok((x >> 16) as bv16)
    ensures var (result, flags) := ExpectedAddWithCarry(op, Reg(v, lhs), Reg(v, rhs), v.state.flags);
      Execute(v, x & 0xFFFF, priv, fpu, mem, m, io, d)
      == Outcome(WithBank(v.(pc := v.pc + 2), SetReg(v.state.regs, target, result), flags), mem.read16(m, v.pc, priv, false).1, d, DONE)
  {
    RegisterWord32Decodes(target, lhs, rhs, 0x23 | (op << 2), false);
    RoutesToExecute32(v, x, priv, fpu, mem, m, io, d);
    RoutesToAluc32(v.(pc := v.pc + 2), x, priv, fpu, mem, mem.read16(m, v.pc, priv, false).1, io, d);
    AddWithCarry32Expectation(v.(pc := v.pc + 2), op, target, lhs, rhs);
  }

  /** Adding two even words needs no rounding down. */
  lemma EvenSumIsEven(a: bv32, b: bv32)
    requires a & 1 == 0 && b & 1 == 0
    ensures (a + b) & !1 == a + b
  {
  }

  // ---------------------------------------------------------------------------
  // Stepping the tests' CPU

  /**
   * The tests' CPU comes from `Cpu::new` and so is servicing, at System
   * privilege: `step` takes no interrupt, reads the lower half-word from the
   * test memory at the PC, advances the PC by 2 and runs the decode tree on
   * it. Unless the decode tree raises an exception (a panic while
   * servicing), that is the whole step.
   */
  lemma FetchFromTestMemory(v: CpuView, s: TestMemoryState, fpu: FloatOps, h: bv16)
    requires v.interruptState == Servicing
    requires TestRead16(s, v.pc as nat) == Ok(h)
    ensures var o := Execute(v.(pc := v.pc + 2), h as bv32, System, fpu, TestMemoryOps(), s, TestIoOps(), ());
      StepInner(v, fpu, TestMemoryOps(), s, TestIoOps(), ()) == o
      && (!o.status.Raised? ==> Step(v, fpu, TestMemoryOps(), s, TestIoOps(), ()) == o)
  {
    assert TestMemoryOps().read16(s, v.pc, System, false) == (Ok(h), s);
    CpuProperties.StepWhileServicing(v, fpu, TestMemoryOps(), s, TestIoOps(), (), h, s);
    var o := Execute(v.(pc := v.pc + 2), h as bv32, System, fpu, TestMemoryOps(), s, TestIoOps(), ());
    if !o.status.Raised? {
      CpuProperties.StepWithoutException(v, fpu, TestMemoryOps(), s, TestIoOps(), (), o);
    }
  }
}
