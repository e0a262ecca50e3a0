/**
 * The behaviour of `Cpu` in Emulator/src/cpu.rs as functions on a snapshot of
 * the processor (`CpuView`): the flag arithmetic, the interrupt controller,
 * the privileged I/O window, every instruction handler and the decode tree
 * of `step_inner`. The `Cpu` class in cpu.dfy performs the same steps in
 * place and is proved against these functions.
 *
 * Every handler receives the view with the program counter already
 * advanced past the instruction, as `step_inner` advances it before
 * dispatching. A `panic!` becomes the status `Fatal`.
 */
module CpuModel {
  import opened Wrappers
  import opened Bits
  import opened Registers
  import opened Interface
  import opened CpuDecode
  import Word

  // ---------------------------------------------------------------------------
  // Exceptions

  /** `ExceptionKind`, `repr(usize)` 0..2, indexing the exception vector table. */
  datatype ExceptionKind =
    | IllegalInstructionException
    | AccessViolationException
    | UnalignedAccessException

  const EXCEPTION_COUNT: nat := 3

  /** `usize::from(kind)`. */
  function ExceptionIndex(k: ExceptionKind): (i: nat)
    ensures i < EXCEPTION_COUNT
  {
    match k
    case IllegalInstructionException => 0
    case AccessViolationException => 1
    case UnalignedAccessException => 2
  }

  /** `ExceptionKind::try_from(usize)`. */
  function ExceptionFromIndex(i: nat): (k: Option<ExceptionKind>)
    ensures k.Some? <==> i < EXCEPTION_COUNT
  {
    if i == 0 then Some(IllegalInstructionException)
    else if i == 1 then Some(AccessViolationException)
    else if i == 2 then Some(UnalignedAccessException)
    else None
  }

  lemma ExceptionIndexRoundTrip(k: ExceptionKind, i: nat)
    ensures ExceptionFromIndex(ExceptionIndex(k)) == Some(k)
    ensures ExceptionFromIndex(i).Some? ==> ExceptionIndex(ExceptionFromIndex(i).value) == i
  {
  }

  /** `From<MemoryError> for ExceptionKind`: one exception per error kind. */
  function FromMemoryError(e: MemoryError): (k: ExceptionKind)
    ensures k != IllegalInstructionException
    ensures (k == AccessViolationException) <==> (e == AccessViolation)
  {
    match e
    case AccessViolation => AccessViolationException
    case UnalignedAccess => UnalignedAccessException
  }

  /** `From<IoError> for ExceptionKind`. */
  function FromIoError(e: IoError): (k: ExceptionKind)
    ensures k == AccessViolationException
  {
    match e
    case IoAccessViolation => AccessViolationException
  }

  // ---------------------------------------------------------------------------
  // Processor state

  datatype InterruptState = Servicing | Listening

  const HARD_INT_SLOTS: nat := 16
  const SOFT_INT_SLOTS: nat := 16

  type Table16 = s: seq<bv32> | |s| == 16 witness seq(16, _ => 0)
  type Table3 = s: seq<bv32> | |s| == 3 witness seq(3, _ => 0)

  /** `CpuState`: one register bank and its flags. */
  datatype Bank = Bank(regs: RegisterValues, flags: Flags)

  /** The fields of `Cpu`, field by field. */
  datatype CpuView = CpuView(
    pc: bv32,
    interruptState: InterruptState,
    privilege: PrivilegeLevel,
    state: Bank,
    altState: Bank,
    mask: bv16,
    pending: bv16,
    hardTable: Table16,
    softTable: Table16,
    exceptionTable: Table3,
    returnAddress: bv32)

  /** `RESET_PROGRAM_COUNTER`, which is `KERNEL_RAM_START`. */
  const RESET_PROGRAM_COUNTER: bv32 := 0x1000_0000

  const ZERO_BANK: Bank := Bank(seq(32, _ => 0), NO_FLAGS)

  /** `Cpu::new`: everything zero, System privilege, Servicing, at the reset address. */
  function NewCpu(): (v: CpuView)
    ensures v.pc == RESET_PROGRAM_COUNTER && v.interruptState == Servicing && v.privilege == System
    ensures v.state == v.altState == ZERO_BANK
    ensures v.mask == 0 && v.pending == 0 && v.returnAddress == 0
    ensures v.hardTable == v.softTable == seq(16, _ => 0) && v.exceptionTable == seq(3, _ => 0)
  {
    CpuView(RESET_PROGRAM_COUNTER, Servicing, System, ZERO_BANK, ZERO_BANK, 0, 0,
            seq(16, _ => 0), seq(16, _ => 0), seq(3, _ => 0), 0)
  }

  /**
   * `Cpu::reset`: the program counter, interrupt state, privilege, mask and
   * pending set return to their reset values; the banks, the vector tables
   * and the return address are kept.
   */
  function ResetCpu(v: CpuView): (r: CpuView)
    ensures r.pc == RESET_PROGRAM_COUNTER && r.interruptState == Servicing && r.privilege == System
    ensures r.mask == 0 && r.pending == 0
    ensures r.state == v.state && r.altState == v.altState && r.returnAddress == v.returnAddress
    ensures r.hardTable == v.hardTable && r.softTable == v.softTable && r.exceptionTable == v.exceptionTable
  {
    v.(pc := RESET_PROGRAM_COUNTER, interruptState := Servicing, privilege := System, mask := 0, pending := 0)
  }

  function Reg(v: CpuView, r: Register): bv32 {
    GetReg(v.state.regs, r)
  }

  function WithReg(v: CpuView, r: Register, value: bv32): CpuView {
    v.(state := v.state.(regs := SetReg(v.state.regs, r, value)))
  }

  function WithFlags(v: CpuView, f: Flags): CpuView {
    v.(state := v.state.(flags := f))
  }

  /**
   * The invariant behind the `debug_assert!`s of `enter_interrupt`,
   * `leave_interrupt` and `step_inner`: the program counter, the return
   * address and every vector are even.
   */
  predicate Aligned(v: CpuView) {
    v.pc & 1 == 0 && v.returnAddress & 1 == 0
    && (forall i :: 0 <= i < 16 ==> v.hardTable[i] & 1 == 0)
    && (forall i :: 0 <= i < 16 ==> v.softTable[i] & 1 == 0)
    && (forall i :: 0 <= i < 3 ==> v.exceptionTable[i] & 1 == 0)
  }

  // ---------------------------------------------------------------------------
  // Flag arithmetic

  /** The carry out of a 32-bit addition: bit 32 of the 33-bit sum (`overflowing_add`). */
  predicate AddCarries(a: bv32, b: bv32) {
    ((a as bv33) + (b as bv33)) >> 32 == 1
  }

  /** `carry_add`: two `overflowing_add`s, the carries OR-ed. */
  function CarryAdd(lhs: bv32, rhs: bv32, cIn: bool): (bv32, bool) {
    var c: bv32 := if cIn then 1 else 0;
    var r1 := lhs + rhs;
    (r1 + c, AddCarries(lhs, rhs) || AddCarries(r1, c))
  }

  /** `(x as i32) < 0`. */
  predicate IsNegative(x: bv32) {
    x >> 31 == 1
  }

  /**
   * `execute_add`: the wrapped sum, with CARRY, SIGN and OVERFLOW rewritten
   * and every other flag (ZERO in particular) kept.
   */
  function ExecuteAdd(f: Flags, lhs: bv32, rhs: bv32, cIn: bool): (r: (bv32, Flags))
    ensures r.0 == CarryAdd(lhs, rhs, cIn).0
    ensures Contains(r.1, CARRY) == CarryAdd(lhs, rhs, cIn).1
    ensures Contains(r.1, SIGN) == IsNegative(r.0)
    ensures Contains(r.1, OVERFLOW) == (IsNegative(lhs) == IsNegative(rhs) && IsNegative(lhs) != IsNegative(r.0))
    ensures Contains(r.1, ZERO_FLAG) == Contains(f, ZERO_FLAG)
  {
    var (result, carry) := CarryAdd(lhs, rhs, cIn);
    var f1 := SetFlag(f, CARRY, carry);
    var f2 := SetFlag(f1, SIGN, IsNegative(result));
    (result, SetFlag(f2, OVERFLOW, IsNegative(lhs) == IsNegative(rhs) && IsNegative(lhs) != IsNegative(result)))
  }

  /** `lhs << n` for a count below 32. */
  function Shl(x: bv32, n: bv32): bv32
    requires n < 32
  {
    x << n
  }

  /** `lhs >> n` for a count below 32. */
  function Lsr(x: bv32, n: bv32): bv32
    requires n < 32
  {
    x >> n
  }

  /** The logic and shift rows (2..7) of the ALU table shared by alu_16, alui_32 and alu_32. */
  function Logic(op: bv32, lhs: bv32, rhs: bv32): bv32
    requires 2 <= op < 8
  {
    if op == 2 then lhs & rhs
    else if op == 3 then lhs | rhs
    else if op == 4 then lhs ^ rhs
    else if op == 5 then Shl(lhs, rhs & 0x1F)
    else if op == 6 then Lsr(lhs, rhs & 0x1F)
    else Ashr(lhs, rhs & 0x1F)
  }

  /**
   * The ALU table of alu_16, alui_32 and alu_32 before the ZERO update:
   * add and sub go through `execute_add`, the rest leave the flags alone.
   */
  function AluOp(op: bv32, lhs: bv32, rhs: bv32, f: Flags): (r: (bv32, Flags))
    requires op < 8
    ensures op >= 2 ==> r.1 == f
  {
    if op == 0 then ExecuteAdd(f, lhs, rhs, false)
    else if op == 1 then ExecuteAdd(f, lhs, !rhs, true)
    else (Logic(op, lhs, rhs), f)
  }

  /** What every ALU form does after its table: ZERO := (result == 0). */
  function SetZero(f: Flags, result: bv32): Flags {
    SetFlag(f, ZERO_FLAG, result == 0)
  }

  /** `if result != 0 { flags.remove(ZERO) }`: ZERO can only be cleared. */
  function ClearZeroUnlessZero(f: Flags, result: bv32): (g: Flags)
    ensures Contains(g, ZERO_FLAG) == (Contains(f, ZERO_FLAG) && result == 0)
    ensures Contains(g, CARRY) == Contains(f, CARRY)
    ensures Contains(g, SIGN) == Contains(f, SIGN)
    ensures Contains(g, OVERFLOW) == Contains(f, OVERFLOW)
  {
    if result != 0 then SetFlag(f, ZERO_FLAG, false) else f
  }

  /** `(x as i32) as i64` as a 64-bit pattern. */
  function SignExtend64(x: bv32): bv64 {
    if IsNegative(x) then (x as bv64) | 0xFFFF_FFFF_0000_0000 else x as bv64
  }

  /** The high word of a 64-bit product, `(p >> 32) as u32`. */
  function HighWord(p: bv64): bv32 {
    ((p >> 32) & 0xFFFF_FFFF) as bv32
  }

  /**
   * `i32::wrapping_div(lhs as i32, rhs as i32) as u32` for a non-zero divisor:
   * the quotient of the two's-complement values rounded toward zero, wrapped
   * to 32 bits (so `i32::MIN / -1` wraps to `i32::MIN`).
   */
  function SignedDiv(lhs: bv32, rhs: bv32): bv32
    requires rhs != 0
  {
    Word.SignedZero(rhs);
    Word.FromSigned(Word.TruncDiv(Word.Signed(lhs), Word.Signed(rhs)))
  }

  /** `i32::wrapping_rem(lhs as i32, rhs as i32) as u32` for a non-zero divisor. */
  function SignedRem(lhs: bv32, rhs: bv32): bv32
    requires rhs != 0
  {
    Word.SignedZero(rhs);
    Word.FromSigned(Word.TruncRem(Word.Signed(lhs), Word.Signed(rhs)))
  }

  /** Rows 0..3 of mul_32: the low word with ZERO from it, or a high word that can only clear ZERO. */
  function Multiply(op: bv32, lhs: bv32, rhs: bv32, f: Flags): (bv32, Flags)
    requires op < 4
  {
    if op == 0 then
      var res := lhs * rhs;
      (res, SetZero(f, res))
    else
      var res :=
        if op == 1 then HighWord((lhs as bv64) * (rhs as bv64))
        else if op == 2 then HighWord(SignExtend64(lhs) * SignExtend64(rhs))
        else HighWord((lhs as bv64) * SignExtend64(rhs));
      (res, ClearZeroUnlessZero(f, res))
  }

  /** Rows 4..7 of mul_32: divu, divs, remu, rems, each with its divide-by-zero value. */
  function DivRem(op: bv32, lhs: bv32, rhs: bv32): bv32
    requires 4 <= op < 8
  {
    if op == 4 then (if rhs == 0 then 0xFFFF_FFFF else lhs / rhs)
    else if op == 5 then (if rhs == 0 then (if IsNegative(lhs) then 0x8000_0000 else 0x7FFF_FFFF) else SignedDiv(lhs, rhs))
    else if op == 6 then (if rhs == 0 then 0 else lhs % rhs)
    else (if rhs == 0 then 0 else SignedRem(lhs, rhs))
  }

  /** The table of mul_32, result and flags: the divisions leave the flags alone. */
  function MulOp(op: bv32, lhs: bv32, rhs: bv32, f: Flags): (bv32, Flags)
    requires op < 8
  {
    if op < 4 then Multiply(op, lhs, rhs, f) else (DivRem(op, lhs, rhs), f)
  }

  // ---------------------------------------------------------------------------
  // Floating point

  /**
   * The IEEE single-precision operations the float handlers use, as functions
   * of the register bits. `fabs` and `fneg` are the sign-bit operations Rust
   * performs and are written out instead; `!=` on floats is the negation of
   * `==`; `frsqrt` is `recip(sqrt(x))`.
   */
  datatype FloatOps = FloatOps(
    add: (bv32, bv32) -> bv32,
    sub: (bv32, bv32) -> bv32,
    mul: (bv32, bv32) -> bv32,
    div: (bv32, bv32) -> bv32,
    min: (bv32, bv32) -> bv32,
    max: (bv32, bv32) -> bv32,
    floor: bv32 -> bv32,
    ceil: bv32 -> bv32,
    round: bv32 -> bv32,
    trunc: bv32 -> bv32,
    sqrt: bv32 -> bv32,
    recip: bv32 -> bv32,
    eq: (bv32, bv32) -> bool,
    lt: (bv32, bv32) -> bool,
    ge: (bv32, bv32) -> bool,
    toInt: bv32 -> bv32,
    fromInt: bv32 -> bv32)

  // ---------------------------------------------------------------------------
  // Interrupt controller

  function EffectivePrivilege(v: CpuView): (p: PrivilegeLevel)
    ensures v.interruptState == Servicing ==> p == System
    ensures v.interruptState == Listening ==> p == v.privilege
  {
    match v.interruptState
    case Servicing => System
    case Listening => v.privilege
  }

  /** `1 << i` as a 16-bit mask, for i in 0..15. */
  const BIT16: seq<bv16> :=
    [0x1, 0x2, 0x4, 0x8, 0x10, 0x20, 0x40, 0x80, 0x100, 0x200, 0x400, 0x800, 0x1000, 0x2000, 0x4000, 0x8000]

  /** `signal_interrupt(slot)`: `pending |= 1 << slot` (the source asserts slot < 16); nothing but the pending set changes. */
  function SignalInterrupt(v: CpuView, slot: nat): (r: CpuView)
    requires slot < HARD_INT_SLOTS
    ensures r == v.(pending := r.pending)
  {
    v.(pending := v.pending | BIT16[slot])
  }

  /** The sixteen bits of a 16-bit value, bit 0 first. */
  function Bits16(p: bv16): (b: seq<bool>)
    ensures |b| == 16
  {
    seq(16, j requires 0 <= j < 16 => p & BIT16[j] != 0)
  }

  /**
   * The highest set position below `n`, searched from the top as
   * `leading_zeros` counts: for a 16-bit value it is
   * `HARD_INT_SLOTS - leading_zeros - 1`.
   */
  function HighestSetBit(b: seq<bool>, n: nat): (r: Option<nat>)
    requires n <= |b|
    ensures r.Some? ==> r.value < n && b[r.value]
    ensures r.Some? ==> forall j :: r.value < j < n ==> !b[j]
    ensures r.None? ==> forall j :: 0 <= j < n ==> !b[j]
  {
    if n == 0 then None
    else if b[n - 1] then Some(n - 1)
    else HighestSetBit(b, n - 1)
  }

  /** A value whose sixteen bits are all clear is zero. */
  lemma AllBitsClear(p: bv16)
    requires forall j :: 0 <= j < 16 ==> !Bits16(p)[j]
    ensures p == 0
  {
    var b := Bits16(p);
    assert !b[0] && !b[1] && !b[2] && !b[3] && !b[4] && !b[5] && !b[6] && !b[7];
    assert !b[8] && !b[9] && !b[10] && !b[11] && !b[12] && !b[13] && !b[14] && !b[15];
  }

  /** Every non-zero value has a highest set bit. */
  lemma NonZeroHasHighestBit(p: bv16)
    requires p != 0
    ensures HighestSetBit(Bits16(p), 16).Some?
  {
    if HighestSetBit(Bits16(p), 16).None? {
      AllBitsClear(p);
    }
  }

  /** `pending & !(1 << slot)`. */
  function ClearPending(p: bv16, slot: nat): bv16
    requires slot < HARD_INT_SLOTS
  {
    p & !BIT16[slot]
  }

  /** `pending & mask`. */
  function MaskedPending(pending: bv16, mask: bv16): bv16 {
    pending & mask
  }

  /** The pending interrupts the mask lets through. */
  function Unmasked(v: CpuView): bv16 {
    MaskedPending(v.pending, v.mask)
  }

  /**
   * `next_interrupt`: when listening and some pending interrupt is unmasked,
   * the highest such slot, removed from the pending set.
   */
  function NextInterrupt(v: CpuView): (r: (Option<nat>, CpuView))
    ensures r.0.Some? ==> r.0.value < HARD_INT_SLOTS
  {
    if v.interruptState == Listening && Unmasked(v) != 0 then
      NonZeroHasHighestBit(Unmasked(v));
      var slot := HighestSetBit(Bits16(Unmasked(v)), 16).value;
      (Some(slot), v.(pending := ClearPending(v.pending, slot)))
    else
      (None, v)
  }

  /** `enter_interrupt`: save the PC, jump to the vector, start servicing, swap the banks. */
  function EnterInterrupt(v: CpuView, target: bv32): CpuView {
    v.(returnAddress := v.pc, pc := target, interruptState := Servicing, state := v.altState, altState := v.state)
  }

  /** `leave_interrupt`: resume at the return address, listen again, swap the banks back. */
  function LeaveInterrupt(v: CpuView): CpuView {
    v.(pc := v.returnAddress, interruptState := Listening, state := v.altState, altState := v.state)
  }

  /** `exception`: enter the kind's vector, or `None` for the panic raised while servicing. */
  function Exception(v: CpuView, kind: ExceptionKind): (r: Option<CpuView>)
    ensures r.None? <==> v.interruptState == Servicing
  {
    match v.interruptState
    case Servicing => None
    case Listening => Some(EnterInterrupt(v, v.exceptionTable[ExceptionIndex(kind)]))
  }

  // ---------------------------------------------------------------------------
  // The configuration window of `read_io` / `write_io`

  const INT_MASK_ADDR: bv32 := 0x030
  const INT_PENDING_ADDR: bv32 := 0x031
  const PRIV_LEVEL_ADDR: bv32 := 0x032
  const INT_RET_ADDR: bv32 := 0x033
  const ALT_FLAGS_REG_ADDR: bv32 := 0x03F

  /** What an I/O address names at System privilege. */
  datatype IoRegister =
    | HardVector(hardSlot: bv32)
    | SoftVector(softSlot: bv32)
    | ExceptionVector(exceptionSlot: bv32)
    | MaskRegister
    | PendingRegister
    | PrivilegeRegister
    | ReturnAddressRegister
    | AltFlagsRegister
    | AltRegister(reg: Register)
    | Bus

  /**
   * The address ranges of the `match` in `read_io` and `write_io`:
   * 0x000-0x00F hardware vectors, 0x010-0x01F software vectors,
   * 0x020-0x022 exception vectors, 0x030-0x033 and 0x03F the
   * configuration registers, 0x040-0x05F the alternate registers.
   */
  function DecodeIo(addr: bv32): (r: IoRegister)
    ensures ValidIoRegister(r)
  {
    if addr <= 0x00F then HardVector(addr)
    else if addr <= 0x01F then SoftVector(addr - 0x010)
    else if addr <= 0x022 then ExceptionVector(addr - 0x020)
    else if addr == INT_MASK_ADDR then MaskRegister
    else if addr == INT_PENDING_ADDR then PendingRegister
    else if addr == PRIV_LEVEL_ADDR then PrivilegeRegister
    else if addr == INT_RET_ADDR then ReturnAddressRegister
    else if addr == ALT_FLAGS_REG_ADDR then AltFlagsRegister
    else if 0x040 <= addr <= 0x05F then AltRegister(addr - 0x040)
    else Bus
  }

  /** The slot numbers a decoded window address carries are in range. */
  predicate ValidIoRegister(t: IoRegister) {
    (t.HardVector? ==> t.hardSlot < 16)
    && (t.SoftVector? ==> t.softSlot < 16)
    && (t.ExceptionVector? ==> t.exceptionSlot < 3)
  }

  /** `value & !1`: vectors, return addresses and jump targets are kept even. */
  function ClearLowBit(x: bv32): bv32 {
    x & !1
  }

  /** `(base + offset) & !1`, the target of every jump and taken branch. */
  function JumpTarget(base: bv32, offset: bv32): bv32 {
    (base + offset) & !1
  }

  /** `value & 1`. */
  function LowBit(x: bv32): bv32 {
    x & 1
  }

  /** `value as u16`. */
  function Truncate16(x: bv32): bv16 {
    (x & 0xFFFF) as bv16
  }

  /** `value as u8`. */
  function Truncate8(x: bv32): bv8 {
    (x & 0xFF) as bv8
  }

  /** A read of a window register at System privilege. */
  function ReadWindow(v: CpuView, t: IoRegister): bv32
    requires t != Bus && ValidIoRegister(t)
  {
    match t
    case HardVector(i) => v.hardTable[i]
    case SoftVector(i) => v.softTable[i]
    case ExceptionVector(i) => v.exceptionTable[i]
    case MaskRegister => v.mask as bv32
    case PendingRegister => v.pending as bv32
    case PrivilegeRegister => PrivilegeToU32(v.privilege)
    case ReturnAddressRegister => v.returnAddress
    case AltFlagsRegister => FlagBits(v.altState.flags) as bv32
    case AltRegister(r) => GetReg(v.altState.regs, r)
  }

  /**
   * A write of a window register at System privilege: vectors and the return
   * address lose bit 0, mask and pending keep 16 bits, the privilege is bit 0,
   * the alternate flags keep their 4 defined bits, and alternate-register
   * writes go through `RegisterFile::set`.
   */
  function WriteWindow(v: CpuView, t: IoRegister, value: bv32): CpuView
    requires t != Bus && ValidIoRegister(t)
  {
    match t
    case HardVector(i) => v.(hardTable := v.hardTable[i := ClearLowBit(value)])
    case SoftVector(i) => v.(softTable := v.softTable[i := ClearLowBit(value)])
    case ExceptionVector(i) => v.(exceptionTable := v.exceptionTable[i := ClearLowBit(value)])
    case MaskRegister => v.(mask := Truncate16(value))
    case PendingRegister => v.(pending := Truncate16(value))
    case PrivilegeRegister => v.(privilege := PrivilegeFromU32(LowBit(value)).value)
    case ReturnAddressRegister => v.(returnAddress := ClearLowBit(value))
    case AltFlagsRegister => v.(altState := v.altState.(flags := FromBitsTruncate(Truncate8(value))))
    case AltRegister(r) => v.(altState := v.altState.(regs := SetReg(v.altState.regs, r, value)))
  }

  /** `read_io`: the window at System privilege, the bus otherwise. */
  function ReadIo<D>(v: CpuView, io: IoOps<D>, d: D, addr: bv32, priv: PrivilegeLevel): (Result<bv32, IoError>, D) {
    var t := if priv == System then DecodeIo(addr) else Bus;
    if t == Bus then io.read(d, addr, priv) else (Ok(ReadWindow(v, t)), d)
  }

  /** `write_io`: the window at System privilege, the bus otherwise. */
  function WriteIo<D>(v: CpuView, io: IoOps<D>, d: D, addr: bv32, value: bv32, priv: PrivilegeLevel)
    : (CpuView, D, Result<(), IoError>)
  {
    var t := if priv == System then DecodeIo(addr) else Bus;
    if t == Bus then
      var (res, d') := io.write(d, addr, value, priv);
      (v, d', res)
    else
      (WriteWindow(v, t, value), d, Ok(()))
  }

  // ---------------------------------------------------------------------------
  // Handlers (the PC has already been advanced past the instruction)

  /** How a handler or a step ends: normally (with the envcall code, if any), with an exception, or in a panic. */
  datatype Status = Completed(code: Option<bv8>) | Raised(kind: ExceptionKind) | Fatal

  const DONE: Status := Completed(None)

  /** ldi (bit 1 clear) writes the immediate; addi adds it with full flags. */
  function LdiAddi16(v: CpuView, x: bv32): CpuView {
    var rd := RegHi16(x);
    var imm := LdiImm(x);
    if x & 0x2 == 0 then WithReg(v, rd, imm)
    else
      var (sum, f) := ExecuteAdd(v.state.flags, Reg(v, rd), imm, false);
      WithReg(WithFlags(v, SetZero(f, sum)), rd, sum)
  }

  /** j/jl_16: jump to `(rb + offset) & !1`; bit 2 links the return address into Ra. */
  function Jump16(v: CpuView, x: bv32): CpuView {
    var target := JumpTarget(Reg(v, RegHi16(x)), Jump16Imm(x));
    var linked := if x & 0x4 != 0 then WithReg(v, RA, v.pc) else v;
    linked.(pc := target)
  }

  /** The branch rule shared by br_16 and br_32. */
  function Branch(v: CpuView, cond: BranchCondition, offset: bv32): CpuView {
    var linked := if cond == BLink then WithReg(v, RA, v.pc) else v;
    if SatisfyBranch(linked.state.flags, cond) then linked.(pc := JumpTarget(linked.pc, offset)) else linked
  }

  function Branch16(v: CpuView, x: bv32): CpuView {
    Branch(v, BranchConditionOf(x), Branch16Imm(x))
  }

  /** `u32::wrapping_add`. */
  function WrappingAdd(a: bv32, b: bv32): bv32 {
    a + b
  }

  /** The value ldui (bit 3 clear) or apcui writes: the upper immediate, or the PC plus it. */
  function UpperResult(pc: bv32, x: bv32): bv32 {
    if x & 0x8 == 0 then UpperImm(x) else WrappingAdd(pc, UpperImm(x))
  }

  /** ldui (bit 3 clear) writes the upper immediate; apcui adds it to the PC. */
  function Uimm32(v: CpuView, x: bv32): CpuView {
    var rd := Rd32(x);
    WithReg(v, rd, UpperResult(v.pc, x))
  }

  /** The register-register ALU rule shared by alu_16, alui_32 and alu_32. */
  function Alu(v: CpuView, op: bv32, rd: Register, lhs: bv32, rhs: bv32): CpuView
    requires op < 8
  {
    var (result, f) := AluOp(op, lhs, rhs, v.state.flags);
    WithFlags(WithReg(v, rd, result), SetZero(f, result))
  }

  function Alu16(v: CpuView, x: bv32): CpuView {
    var rd := RegHi16(x);
    Alu(v, (x & 0xE0) >> 5, rd, Reg(v, rd), Reg(v, RegLo16(x)))
  }

  function Mov16(v: CpuView, x: bv32): CpuView {
    if Satisfy(v.state.flags, MovCondition16(x)) then WithReg(v, RegHi16(x), Reg(v, RegLo16(x))) else v
  }

  /** cmp: a subtraction that keeps only its flags. */
  function Cmp16(v: CpuView, x: bv32): CpuView {
    var (result, f) := ExecuteAdd(v.state.flags, Reg(v, RegHi16(x)), !Reg(v, RegLo16(x)), true);
    WithFlags(v, SetZero(f, result))
  }

  /** The system group: ret, sysret, fence, ifence, envcall, syscall. */
  function Sys16(v: CpuView, x: bv32): (CpuView, Status) {
    var op := (x & 0xF00) >> 8;
    if op == 0 then (v.(pc := ClearLowBit(Reg(v, RA))), DONE)
    else if op == 1 then
      (if v.interruptState == Servicing then (LeaveInterrupt(v), DONE) else (v, Raised(IllegalInstructionException)))
    else if op == 2 || op == 3 then (v, DONE)
    else if op <= 13 then (v, Raised(IllegalInstructionException))
    else if op == 14 then (v, Completed(Some(Bits15To12(x) as bv8)))
    else if v.interruptState == Servicing then (v, Fatal)
    else (EnterInterrupt(v, v.softTable[Bits15To12(x)]), DONE)
  }

  /** The 16-bit immediate shifts (sub-opcodes 1..3 of bits 6:5). */
  function Alui16(v: CpuView, x: bv32): CpuView
    requires x & 0x60 != 0
  {
    var rd := RegHi16(x);
    var op := (x & 0x60) >> 5;
    var lhs := Reg(v, rd);
    var n := ShiftImm16(x);
    var result := if op == 1 then Shl(lhs, n) else if op == 2 then Lsr(lhs, n) else Ashr(lhs, n);
    WithFlags(WithReg(v, rd, result), SetZero(v.state.flags, result))
  }

  /** Map a memory error into the handler's status. */
  function MemoryStatus<T>(r: Result<T, MemoryError>): Status
    requires r.Err?
  {
    Raised(FromMemoryError(r.error))
  }

  /** `sp + offset` of the 16-bit ld/st. */
  function SpAddress(sp: bv32, x: bv32): bv32 {
    sp + SpOffset16(x)
  }

  /** ld.32/st.32 relative to Sp (bit 6 selects the store). */
  function Mem16<M>(v: CpuView, x: bv32, priv: PrivilegeLevel, mem: MemoryOps<M>, m: M): (CpuView, M, Status) {
    var rd := RegHi16(x);
    var addr := SpAddress(Reg(v, SP), x);
    if x & 0x40 == 0 then
      var (r, m') := mem.read32(m, addr, priv, false);
      if r.Err? then (v, m', MemoryStatus(r)) else (WithReg(v, rd, r.value), m', DONE)
    else
      var (w, m') := mem.write32(m, addr, Reg(v, rd), priv, false);
      if w.Err? then (v, m', MemoryStatus(w)) else (v, m', DONE)
  }

  /** jl_32: link into rd, jump to `(rb + offset) & !1`. */
  function Jump32(v: CpuView, x: bv32): CpuView {
    var target := JumpTarget(Reg(v, Rs1Of32(x)), Jump32Imm(x));
    WithReg(v, Rd32(x), v.pc).(pc := target)
  }

  function Branch32(v: CpuView, x: bv32): CpuView {
    Branch(v, BranchConditionOf(x), Branch32Imm(x))
  }

  function Alui32(v: CpuView, x: bv32): CpuView {
    Alu(v, (x & 0x700_0000) >> 24, Rd32(x), Reg(v, Rs1Of32(x)), Imm32(x))
  }

  /** movi_32: rd := imm if the condition holds, else rs1. */
  function Movi32(v: CpuView, x: bv32): CpuView {
    WithReg(v, Rd32(x), if Satisfy(v.state.flags, Condition32(x)) then Imm32(x) else Reg(v, Rs1Of32(x)))
  }

  /** `((value as i8) as i32) as u32`. */
  function SignExtend8(b: bv8): bv32 {
    if b >> 7 == 1 then (b as bv32) | 0xFFFF_FF00 else b as bv32
  }

  /** `((value as i16) as i32) as u32`. */
  function SignExtend16(h: bv16): bv32 {
    if h >> 15 == 1 then (h as bv32) | 0xFFFF_0000 else h as bv32
  }

  /**
   * The load rows 0..5 shared by mem_32 and ldr_32: 32-bit, 8-bit zero- and
   * sign-extended, 16-bit zero- and sign-extended.
   */
  function Load<M>(mem: MemoryOps<M>, m: M, addr: bv32, priv: PrivilegeLevel, reserve: bool, op: bv32)
    : (Result<bv32, MemoryError>, M)
    requires op < 6
  {
    if op <= 1 then mem.read32(m, addr, priv, reserve)
    else if op <= 3 then
      var (r, m') := mem.read8(m, addr, priv, reserve);
      if r.Err? then (Err(r.error), m')
      else (Ok(if op == 2 then r.value as bv32 else SignExtend8(r.value)), m')
    else
      var (r, m') := mem.read16(m, addr, priv, reserve);
      if r.Err? then (Err(r.error), m')
      else (Ok(if op == 4 then r.value as bv32 else SignExtend16(r.value)), m')
  }

  /** The store rows 0..2 shared by mem_32 and stc_32: 32-, 8- and 16-bit. */
  function Store<M>(mem: MemoryOps<M>, m: M, addr: bv32, value: bv32, priv: PrivilegeLevel, reserve: bool, op: bv32)
    : (Result<bool, MemoryError>, M)
    requires op < 3
  {
    if op == 0 then mem.write32(m, addr, value, priv, reserve)
    else if op == 1 then mem.write8(m, addr, Truncate8(value), priv, reserve)
    else mem.write16(m, addr, Truncate16(value), priv, reserve)
  }

  /** `rb + imm` of the 32-bit loads and `in`. */
  function LoadAddress(base: bv32, x: bv32): bv32 {
    base + Imm32(x)
  }

  /** `rb + imm` of the 32-bit stores and `out`. */
  function StoreAddress(base: bv32, x: bv32): bv32 {
    base + StoreImm32(x)
  }

  /** The 32-bit loads, stores, `in` and `out` (bit 6 selects the store forms). */
  function Mem32<M, D>(v: CpuView, x: bv32, priv: PrivilegeLevel, mem: MemoryOps<M>, m: M, io: IoOps<D>, d: D)
    : (CpuView, M, D, Status)
  {
    var base := Reg(v, Rs1Of32(x));
    if x & 0x40 == 0 then
      var addr := LoadAddress(base, x);
      var rd := Rd32(x);
      var op := (x & 0x700_0000) >> 24;
      if op < 6 then
        var (r, m') := Load(mem, m, addr, priv, false, op);
        if r.Err? then (v, m', d, MemoryStatus(r)) else (WithReg(v, rd, r.value), m', d, DONE)
      else
        var (r, d') := ReadIo(v, io, d, addr, priv);
        if r.Err? then (v, m, d', Raised(FromIoError(r.error))) else (WithReg(v, rd, r.value), m, d', DONE)
    else
      var addr := StoreAddress(base, x);
      var value := Reg(v, Rs2Of32(x));
      var op := (x & 0x600_0000) >> 25;
      if op < 3 then
        var (w, m') := Store(mem, m, addr, value, priv, false, op);
        if w.Err? then (v, m', d, MemoryStatus(w)) else (v, m', d, DONE)
      else
        var (v', d', r) := WriteIo(v, io, d, addr, value, priv);
        if r.Err? then (v', m, d', Raised(FromIoError(r.error))) else (v', m, d', DONE)
  }

  function Alu32(v: CpuView, x: bv32): CpuView {
    Alu(v, (x & 0x700_0000) >> 24, Rd32(x), Reg(v, Rs1Of32(x)), Reg(v, Rs2Of32(x)))
  }

  /** mov_32: rd := rs2 if the condition holds, else rs1. */
  function Mov32(v: CpuView, x: bv32): CpuView {
    WithReg(v, Rd32(x), if Satisfy(v.state.flags, Condition32(x)) then Reg(v, Rs2Of32(x)) else Reg(v, Rs1Of32(x)))
  }

  /**
   * addc (op 0) and subc (op 1): the stored CARRY is the carry-in, subc adds
   * the complement, and the result can only clear ZERO.
   */
  function AddWithCarry(op: bv32, lhs: bv32, rhs: bv32, f: Flags): (bv32, Flags)
    requires op < 2
  {
    var (result, g) := ExecuteAdd(f, lhs, if op == 0 then rhs else !rhs, Contains(f, CARRY));
    (result, ClearZeroUnlessZero(g, result))
  }

  /** addc/subc; rows 2..7 are illegal. */
  function Aluc32(v: CpuView, x: bv32): (CpuView, Status) {
    var op := (x & 0x700_0000) >> 24;
    if op >= 2 then (v, Raised(IllegalInstructionException))
    else
      var (result, f) := AddWithCarry(op, Reg(v, Rs1Of32(x)), Reg(v, Rs2Of32(x)), v.state.flags);
      (WithFlags(WithReg(v, Rd32(x), result), f), DONE)
  }

  function Mul32(v: CpuView, x: bv32): CpuView {
    var (result, f) := MulOp((x & 0x700_0000) >> 24, Reg(v, Rs1Of32(x)), Reg(v, Rs2Of32(x)), v.state.flags);
    WithFlags(WithReg(v, Rd32(x), result), f)
  }

  /** fadd, fsub, fmul, fdiv, fmin, fmax; rows 4 and 5 are illegal. */
  function Fpu3(v: CpuView, x: bv32, fpu: FloatOps): (CpuView, Status) {
    var op := (x & 0x700_0000) >> 24;
    var lhs := Reg(v, Rs1Of32(x));
    var rhs := Reg(v, Rs2Of32(x));
    if op == 4 || op == 5 then (v, Raised(IllegalInstructionException))
    else
      var result :=
        if op == 0 then fpu.add(lhs, rhs)
        else if op == 1 then fpu.sub(lhs, rhs)
        else if op == 2 then fpu.mul(lhs, rhs)
        else if op == 3 then fpu.div(lhs, rhs)
        else if op == 6 then fpu.min(lhs, rhs)
        else fpu.max(lhs, rhs);
      (WithReg(v, Rd32(x), result), DONE)
  }

  /** fabs: clear the sign bit. */
  function FloatAbs(x: bv32): bv32 {
    x & 0x7FFF_FFFF
  }

  /** fneg: flip the sign bit. */
  function FloatNeg(x: bv32): bv32 {
    x ^ 0x8000_0000
  }

  /** ffloor, fceil, fround, ftrunc, fabs, fneg, fsqrt, frsqrt. */
  function Fpu2(v: CpuView, x: bv32, fpu: FloatOps): CpuView {
    var op := (x & 0x700_0000) >> 24;
    var value := Reg(v, Rs1Of32(x));
    var result :=
      if op == 0 then fpu.floor(value)
      else if op == 1 then fpu.ceil(value)
      else if op == 2 then fpu.round(value)
      else if op == 3 then fpu.trunc(value)
      else if op == 4 then FloatAbs(value)
      else if op == 5 then FloatNeg(value)
      else if op == 6 then fpu.sqrt(value)
      else fpu.recip(fpu.sqrt(value));
    WithReg(v, Rd32(x), result)
  }

  /** feq, fne, flt, fge: rd := 1 or 0. */
  function Fcmp(v: CpuView, x: bv32, fpu: FloatOps): CpuView {
    var op := (x & 0x300_0000) >> 24;
    var lhs := Reg(v, Rs1Of32(x));
    var rhs := Reg(v, Rs2Of32(x));
    var holds :=
      if op == 0 then fpu.eq(lhs, rhs)
      else if op == 1 then !fpu.eq(lhs, rhs)
      else if op == 2 then fpu.lt(lhs, rhs)
      else fpu.ge(lhs, rhs);
    WithReg(v, Rd32(x), if holds then 1 else 0)
  }

  /** ftoi and itof; rows 2..7 are illegal. */
  function Cvt(v: CpuView, x: bv32, fpu: FloatOps): (CpuView, Status) {
    var op := (x & 0x700_0000) >> 24;
    var value := Reg(v, Rs1Of32(x));
    if op == 0 then (WithReg(v, Rd32(x), fpu.toInt(value)), DONE)
    else if op == 1 then (WithReg(v, Rd32(x), fpu.fromInt(value)), DONE)
    else (v, Raised(IllegalInstructionException))
  }

  /** The reserving loads at `[rb]`; rows 6 and 7 are illegal. */
  function Ldr<M>(v: CpuView, x: bv32, priv: PrivilegeLevel, mem: MemoryOps<M>, m: M): (CpuView, M, Status) {
    var op := (x & 0x700_0000) >> 24;
    if op >= 6 then (v, m, Raised(IllegalInstructionException))
    else
      var (r, m') := Load(mem, m, Reg(v, Rs1Of32(x)), priv, true, op);
      if r.Err? then (v, m', MemoryStatus(r)) else (WithReg(v, Rd32(x), r.value), m', DONE)
  }

  /** The conditional stores at `[rb]`: rd receives the success bit; row 3 is illegal. */
  function Stc<M>(v: CpuView, x: bv32, priv: PrivilegeLevel, mem: MemoryOps<M>, m: M): (CpuView, M, Status) {
    var op := (x & 0x600_0000) >> 25;
    if op == 3 then (v, m, Raised(IllegalInstructionException))
    else
      var (w, m') := Store(mem, m, Reg(v, Rs1Of32(x)), Reg(v, Rs2Of32(x)), priv, true, op);
      if w.Err? then (v, m', MemoryStatus(w)) else (WithReg(v, Rd32(x), if w.value then 1 else 0), m', DONE)
  }

  // ---------------------------------------------------------------------------
  // The decode tree

  datatype Outcome<M, D> = Outcome(cpu: CpuView, mem: M, io: D, status: Status)

  /** The register-form group of the 32-bit encodings (bits 23:22 = 11), by `Opcode32`. */
  function Execute32Register<M>(v: CpuView, x: bv32, priv: PrivilegeLevel, fpu: FloatOps, mem: MemoryOps<M>, m: M)
    : (CpuView, M, Status)
  {
    var op := Opcode32(x);
    if op == 0 then (Alu32(v, x), m, DONE)
    else if op == 1 then (Mov32(v, x), m, DONE)
    else if op == 2 then var (v', s) := Aluc32(v, x); (v', m, s)
    else if op == 3 then (Mul32(v, x), m, DONE)
    else if op == 4 then var (v', s) := Fpu3(v, x, fpu); (v', m, s)
    else if op == 5 then (Fpu2(v, x, fpu), m, DONE)
    else if op == 6 then (Fcmp(v, x, fpu), m, DONE)
    else if op == 7 then var (v', s) := Cvt(v, x, fpu); (v', m, s)
    else if op < 16 && op & 1 == 0 then Ldr(v, x, priv, mem, m)
    else if op < 16 then Stc(v, x, priv, mem, m)
    else (v, m, Raised(IllegalInstructionException))
  }

  /** A 32-bit instruction (both half-words fetched) by bits 23:22. */
  function Execute32<M, D>(v: CpuView, x: bv32, priv: PrivilegeLevel, fpu: FloatOps, mem: MemoryOps<M>, m: M, io: IoOps<D>, d: D)
    : Outcome<M, D>
  {
    var group := (x & 0xC0_0000) >> 22;
    if group == 0 then Outcome(if x & 0x40 == 0 then Jump32(v, x) else Branch32(v, x), m, d, DONE)
    else if group == 1 then Outcome(if x & 0x40 == 0 then Alui32(v, x) else Movi32(v, x), m, d, DONE)
    else if group == 2 then var (v', m', d', s) := Mem32(v, x, priv, mem, m, io, d); Outcome(v', m', d', s)
    else var (v', m', s) := Execute32Register(v, x, priv, fpu, mem, m); Outcome(v', m', d, s)
  }

  /**
   * Read the upper half-word at the PC, join it above the lower one and
   * advance the PC by 2 more; a failed read raises its exception with the
   * PC left after the lower half-word.
   */
  function FetchUpper<M>(v: CpuView, lower: bv32, priv: PrivilegeLevel, mem: MemoryOps<M>, m: M)
    : (Option<bv32>, CpuView, M, Status)
  {
    var (r, m') := mem.read16(m, v.pc, priv, false);
    if r.Err? then (None, v, m', MemoryStatus(r))
    else (Some(lower | ((r.value as bv32) << 16)), v.(pc := v.pc + 2), m', DONE)
  }

  /** The decode tree of `step_inner` below the fetch of the lower half-word `x`. */
  function Execute<M, D>(v: CpuView, x: bv32, priv: PrivilegeLevel, fpu: FloatOps, mem: MemoryOps<M>, m: M, io: IoOps<D>, d: D)
    : Outcome<M, D>
  {
    if x & 0x1 == 0 then Outcome(LdiAddi16(v, x), m, d, DONE)
    else if x & 0x2 == 0 then Outcome(Jump16(v, x), m, d, DONE)
    else if x & 0x4 == 0 then
      if x & 0x80 == 0 then Outcome(Branch16(v, x), m, d, DONE)
      else
        var (full, v', m', s) := FetchUpper(v, x, priv, mem, m);
        if full.None? then Outcome(v', m', d, s) else Outcome(Uimm32(v', full.value), m', d, DONE)
    else
      var group := (x & 0x18) >> 3;
      if group == 0 then Outcome(Alu16(v, x), m, d, DONE)
      else if group == 1 then Outcome(Mov16(v, x), m, d, DONE)
      else if group == 2 then
        if x & 0x60 != 0 then Outcome(Alui16(v, x), m, d, DONE)
        else if x & 0x80 == 0 then Outcome(Cmp16(v, x), m, d, DONE)
        else var (v', s) := Sys16(v, x); Outcome(v', m, d, s)
      else if x & 0x20 == 0 then var (v', m', s) := Mem16(v, x, priv, mem, m); Outcome(v', m', d, s)
      else
        var (full, v', m', s) := FetchUpper(v, x, priv, mem, m);
        if full.None? then Outcome(v', m', d, s) else Execute32(v', full.value, priv, fpu, mem, m', io, d)
  }

  /**
   * `step_inner`: a serviceable interrupt enters its hardware vector and
   * fetches nothing; otherwise the lower half-word is read at the PC with the
   * effective privilege, the PC advances by 2 and the decode tree runs.
   */
  function StepInner<M, D>(v: CpuView, fpu: FloatOps, mem: MemoryOps<M>, m: M, io: IoOps<D>, d: D): Outcome<M, D> {
    var (slot, v1) := NextInterrupt(v);
    if slot.Some? then
      Outcome(EnterInterrupt(v1, v1.hardTable[slot.value]), m, d, DONE)
    else
      var priv := EffectivePrivilege(v1);
      var (r, m') := mem.read16(m, v1.pc, priv, false);
      if r.Err? then Outcome(v1, m', d, MemoryStatus(r))
      else Execute(v1.(pc := v1.pc + 2), r.value as bv32, priv, fpu, mem, m', io, d)
  }

  /** `step`: an exception raised by `step_inner` enters its vector, or is fatal while servicing. */
  function Step<M, D>(v: CpuView, fpu: FloatOps, mem: MemoryOps<M>, m: M, io: IoOps<D>, d: D): (r: Outcome<M, D>)
    ensures !r.status.Raised?
  {
    var o := StepInner(v, fpu, mem, m, io, d);
    match o.status
    case Raised(kind) =>
      var entered := Exception(o.cpu, kind);
      if entered.None? then o.(status := Fatal) else o.(cpu := entered.value, status := DONE)
    case _ => o
  }
}
