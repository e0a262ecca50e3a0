/**
 * The instruction-field decoders of Emulator/src/cpu.rs. Every handler takes
 * its operands out of the instruction word with `shuffle_bits!`; each
 * decoder here is one such invocation written out arm by arm, and the
 * lemmas `...IsShuffle` tie the written-out form back to the macro applied
 * to the same field list.
 */
module CpuDecode {
  import opened Bits
  import opened Registers

  /** `shuffle_bits!(instruction { [15:12] => [3:0] })`: rd/rs1 of the 16-bit forms, also the envcall code and syscall slot. */
  function Bits15To12(x: bv32): (r: bv32)
    ensures r < 16
  {
    FieldRange(x, 12, 4, 0)
  }

  /** The `[15:12]` field read as a register number. */
  function RegHi16(x: bv32): Register
  {
    Bits15To12(x)
  }

  /** `[11:8] => [3:0]`: rs2 of the 16-bit forms. */
  function RegLo16(x: bv32): (r: Register)
    ensures r < 16
  {
    FieldRange(x, 8, 4, 0)
  }

  /** `[16:12] => [4:0]`: rd of the 32-bit forms. */
  function Rd32(x: bv32): (r: Register)
  {
    FieldRange(x, 12, 5, 0)
  }

  /** `[21:17] => [4:0]`: rs1 or rb of the 32-bit forms. */
  function Rs1Of32(x: bv32): (r: Register)
  {
    FieldRange(x, 17, 5, 0)
  }

  const RS2_32_FIELDS: seq<Field> := [Range(8, 4, 0), Single(7, 4)]

  /** `[11:8] => [3:0], [7] => [4]`: rs2 or rs of the 32-bit forms. */
  function Rs2Of32(x: bv32): (r: Register)
  {
    FieldRange(x, 8, 4, 0) | Bit(x, 7, 4)
  }

  lemma Rs2Of32IsShuffle(x: bv32)
    ensures AllWellFormed(RS2_32_FIELDS) && Rs2Of32(x) == Shuffle(x, RS2_32_FIELDS)
  {
  }

  /** `[7:5] => [2:0]`, the condition of mov_16; the conversion cannot fail on three bits. */
  function MovCondition16(x: bv32): (c: Condition)
    ensures ConditionToU32(c) == FieldRange(x, 5, 3, 0)
  {
    ConditionFromU32(FieldRange(x, 5, 3, 0)).value
  }

  /** `[14:12] => [2:0]`, the condition of both branch forms. */
  function BranchConditionOf(x: bv32): (c: BranchCondition)
    ensures BranchConditionToU32(c) == FieldRange(x, 12, 3, 0)
  {
    BranchConditionFromU32(FieldRange(x, 12, 3, 0)).value
  }

  /** `[26:24] => [2:0]`, the condition of movi_32 and mov_32. */
  function Condition32(x: bv32): (c: Condition)
    ensures ConditionToU32(c) == FieldRange(x, 24, 3, 0)
  {
    ConditionFromU32(FieldRange(x, 24, 3, 0)).value
  }

  const LDI_IMM_FIELDS: seq<Field> := [Range(7, 5, 0), Range(4, 3, 6), Sign(3, 9), Single(2, 5)]

  /** The immediate of ldi/addi: a sign-extended 10-bit value. */
  function LdiImm(x: bv32): (r: bv32)
    ensures r <= 0x1FF || 0xFFFF_FE00 <= r
  {
    FieldRange(x, 7, 5, 0) | (FieldRange(x, 4, 3, 6) | (SignFill(x, 3, 9) | Bit(x, 2, 5)))
  }

  lemma LdiImmIsShuffle(x: bv32)
    ensures AllWellFormed(LDI_IMM_FIELDS) && LdiImm(x) == Shuffle(x, LDI_IMM_FIELDS)
  {
  }

  const JUMP16_IMM_FIELDS: seq<Field> := [Range(8, 4, 1), Single(7, 5), Range(4, 3, 6), Sign(3, 9)]

  /** The offset of j/jl_16: an even, sign-extended 10-bit value. */
  function Jump16Imm(x: bv32): (r: bv32)
    ensures r & 1 == 0
    ensures r <= 0x1FF || 0xFFFF_FE00 <= r
  {
    FieldRange(x, 8, 4, 1) | (Bit(x, 7, 5) | (FieldRange(x, 4, 3, 6) | SignFill(x, 3, 9)))
  }

  lemma Jump16ImmIsShuffle(x: bv32)
    ensures AllWellFormed(JUMP16_IMM_FIELDS) && Jump16Imm(x) == Shuffle(x, JUMP16_IMM_FIELDS)
  {
  }

  const BRANCH16_IMM_FIELDS: seq<Field> := [Single(15, 5), Range(8, 4, 1), Range(4, 3, 6), Sign(3, 9)]

  /** The offset of br_16: an even, sign-extended 10-bit value. */
  function Branch16Imm(x: bv32): (r: bv32)
    ensures r & 1 == 0
    ensures r <= 0x1FF || 0xFFFF_FE00 <= r
  {
    Bit(x, 15, 5) | (FieldRange(x, 8, 4, 1) | (FieldRange(x, 4, 3, 6) | SignFill(x, 3, 9)))
  }

  lemma Branch16ImmIsShuffle(x: bv32)
    ensures AllWellFormed(BRANCH16_IMM_FIELDS) && Branch16Imm(x) == Shuffle(x, BRANCH16_IMM_FIELDS)
  {
  }

  const UPPER_IMM_FIELDS: seq<Field> :=
    [Sign(31, 31), Range(27, 4, 27), Range(24, 3, 10), Range(22, 2, 13), Range(17, 5, 15), Range(8, 4, 23), Range(4, 3, 20)]

  /** The immediate of ldui/apcui: a 22-bit value shifted up by 10. */
  function UpperImm(x: bv32): (r: bv32)
    ensures r & 0x3FF == 0
  {
    SignFill(x, 31, 31) | (FieldRange(x, 27, 4, 27) | (FieldRange(x, 24, 3, 10) | (FieldRange(x, 22, 2, 13)
    | (FieldRange(x, 17, 5, 15) | (FieldRange(x, 8, 4, 23) | FieldRange(x, 4, 3, 20))))))
  }

  lemma UpperImmIsShuffle(x: bv32)
    ensures AllWellFormed(UPPER_IMM_FIELDS) && UpperImm(x) == Shuffle(x, UPPER_IMM_FIELDS)
  {
  }

  /** `[11:7] => [4:0]`: the shift count of the 16-bit immediate shifts. */
  function ShiftImm16(x: bv32): (r: bv32)
    ensures r < 32
  {
    FieldRange(x, 7, 5, 0)
  }

  const SP_OFFSET_FIELDS: seq<Field> := [Range(9, 3, 2), Range(7, 2, 5)]

  /** The stack-pointer offset of the 16-bit ld/st: a multiple of 4 below 128. */
  function SpOffset16(x: bv32): (r: bv32)
    ensures r & 3 == 0 && r < 128
  {
    FieldRange(x, 9, 3, 2) | FieldRange(x, 7, 2, 5)
  }

  lemma SpOffset16IsShuffle(x: bv32)
    ensures AllWellFormed(SP_OFFSET_FIELDS) && SpOffset16(x) == Shuffle(x, SP_OFFSET_FIELDS)
  {
  }

  const JUMP32_IMM_FIELDS: seq<Field> :=
    [Sign(31, 13), Range(27, 4, 5), Range(24, 3, 10), Range(8, 4, 1), Single(7, 9)]

  /** The offset of jl_32: an even, sign-extended 14-bit value. */
  function Jump32Imm(x: bv32): (r: bv32)
    ensures r & 1 == 0
    ensures r <= 0x1FFF || 0xFFFF_E000 <= r
  {
    SignFill(x, 31, 13) | (FieldRange(x, 27, 4, 5) | (FieldRange(x, 24, 3, 10) | (FieldRange(x, 8, 4, 1) | Bit(x, 7, 9))))
  }

  lemma Jump32ImmIsShuffle(x: bv32)
    ensures AllWellFormed(JUMP32_IMM_FIELDS) && Jump32Imm(x) == Shuffle(x, JUMP32_IMM_FIELDS)
  {
  }

  const BRANCH32_IMM_FIELDS: seq<Field> :=
    [Sign(31, 20), Range(27, 4, 5), Range(24, 3, 10), Range(15, 7, 13), Range(8, 4, 1), Single(7, 9)]

  /** The offset of br_32: an even, sign-extended 21-bit value. */
  function Branch32Imm(x: bv32): (r: bv32)
    ensures r & 1 == 0
    ensures r <= 0xF_FFFF || 0xFFF0_0000 <= r
  {
    SignFill(x, 31, 20) | (FieldRange(x, 27, 4, 5) | (FieldRange(x, 24, 3, 10) | (FieldRange(x, 15, 7, 13)
    | (FieldRange(x, 8, 4, 1) | Bit(x, 7, 9)))))
  }

  lemma Branch32ImmIsShuffle(x: bv32)
    ensures AllWellFormed(BRANCH32_IMM_FIELDS) && Branch32Imm(x) == Shuffle(x, BRANCH32_IMM_FIELDS)
  {
  }

  const IMM32_FIELDS: seq<Field> := [Sign(31, 9), Range(27, 4, 5), Range(7, 5, 0)]

  /** The immediate of alui_32, movi_32 and the 32-bit loads: a sign-extended 10-bit value. */
  function Imm32(x: bv32): (r: bv32)
    ensures r <= 0x1FF || 0xFFFF_FE00 <= r
  {
    SignFill(x, 31, 9) | (FieldRange(x, 27, 4, 5) | FieldRange(x, 7, 5, 0))
  }

  lemma Imm32IsShuffle(x: bv32)
    ensures AllWellFormed(IMM32_FIELDS) && Imm32(x) == Shuffle(x, IMM32_FIELDS)
  {
  }

  const STORE_IMM_FIELDS: seq<Field> := [Sign(31, 9), Range(27, 4, 5), Range(12, 5, 0)]

  /** The offset of the 32-bit stores: a sign-extended 10-bit value whose low bits sit where rd would be. */
  function StoreImm32(x: bv32): (r: bv32)
    ensures r <= 0x1FF || 0xFFFF_FE00 <= r
  {
    SignFill(x, 31, 9) | (FieldRange(x, 27, 4, 5) | FieldRange(x, 12, 5, 0))
  }

  lemma StoreImm32IsShuffle(x: bv32)
    ensures AllWellFormed(STORE_IMM_FIELDS) && StoreImm32(x) == Shuffle(x, STORE_IMM_FIELDS)
  {
  }

  const OPCODE32_FIELDS: seq<Field> := [Range(27, 5, 1), Single(6, 0)]

  /** `[31:27] => [5:1], [6] => [0]`: the sub-opcode of the 32-bit register forms. */
  function Opcode32(x: bv32): (r: bv32)
    ensures r < 64
  {
    FieldRange(x, 27, 5, 1) | Bit(x, 6, 0)
  }

  lemma Opcode32IsShuffle(x: bv32)
    ensures AllWellFormed(OPCODE32_FIELDS) && Opcode32(x) == Shuffle(x, OPCODE32_FIELDS)
  {
  }
}
