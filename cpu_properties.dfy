/**
 * Properties of the processor model in cpu_model.dfy: the flag arithmetic,
 * the interrupt controller, the configuration window, division by zero and
 * the order of fetch, advance and exception entry in a step.
 */
module CpuProperties {
  import opened Wrappers
  import opened Registers
  import opened Interface
  import opened CpuDecode
  import opened CpuModel
  import Word

  // ---------------------------------------------------------------------------
  // Flag arithmetic

  /** Without a carry-in the carry is exactly bit 32 of the 33-bit sum. */
  lemma CarryAddWithoutCarryIn(a: bv32, b: bv32)
    ensures CarryAdd(a, b, false).0 == a + b
    ensures CarryAdd(a, b, false).1 == AddCarries(a, b)
  {
    ZeroNeverCarries(a + b);
  }

  lemma ZeroNeverCarries(x: bv32)
    ensures !AddCarries(x, 0)
  {
  }

  /** With a carry-in of 1 the second addition carries only out of an all-ones word. */
  lemma CarryAddWithCarryIn(a: bv32, b: bv32)
    ensures CarryAdd(a, b, true).0 == a + b + 1
    ensures CarryAdd(a, b, true).1 == (AddCarries(a, b) || a + b == 0xFFFF_FFFF)
  {
    IncrementCarries(a + b);
  }

  lemma IncrementCarries(x: bv32)
    ensures AddCarries(x, 1) == (x == 0xFFFF_FFFF)
  {
  }

  /** After a compare, the wrapped difference is zero only for equal operands. */
  lemma CompareZeroIsEquality(f: Flags, a: bv32, b: bv32)
    ensures var (r, g) := ExecuteAdd(f, a, !b, true);
      Satisfy(SetZero(g, r), Eq) ==> a == b
    ensures var (r, g) := ExecuteAdd(f, a, !b, true);
      a == b ==> Satisfy(SetZero(g, r), Eq)
  {
    CarryAddSum(a, !b, true);
    DifferenceZero(a, b);
  }

  /** The value half of `carry_add` is the wrapped sum. */
  lemma CarryAddSum(a: bv32, b: bv32, cIn: bool)
    ensures CarryAdd(a, b, cIn).0 == a + b + (if cIn then 1 else 0)
  {
  }

  lemma DifferenceZero(a: bv32, b: bv32)
    ensures a + !b + 1 == 0 ==> a == b
    ensures a == b ==> a + !b + 1 == 0
  {
  }

  /** A compare writes only the flags: registers, PC and everything else stay. */
  lemma CompareWritesOnlyFlags(v: CpuView, x: bv32)
    ensures Cmp16(v, x) == v.(state := v.state.(flags := Cmp16(v, x).state.flags))
  {
  }

  /** The logic and shift rows never touch the flags before the ZERO update. */
  lemma LogicKeepsFlags(op: bv32, lhs: bv32, rhs: bv32, f: Flags)
    requires 2 <= op < 8
    ensures AluOp(op, lhs, rhs, f).1 == f
    ensures Contains(SetZero(AluOp(op, lhs, rhs, f).1, AluOp(op, lhs, rhs, f).0), ZERO_FLAG) == (AluOp(op, lhs, rhs, f).0 == 0)
  {
  }

  /** Shift counts are taken modulo 32. */
  lemma ShiftCountMasked(op: bv32, lhs: bv32, rhs: bv32, f: Flags)
    requires 5 <= op < 8
    ensures AluOp(op, lhs, rhs, f) == AluOp(op, lhs, rhs & 0x1F, f)
  {
    assert (rhs & 0x1F) & 0x1F == rhs & 0x1F;
  }

  // ---------------------------------------------------------------------------
  // Multiplication and division

  /** Division and remainder rows never change the flags; the rows 4..7 are chosen by op. */
  lemma DivisionKeepsFlags(op: bv32, lhs: bv32, rhs: bv32, f: Flags)
    requires 4 <= op < 8
    ensures MulOp(op, lhs, rhs, f) == (DivRem(op, lhs, rhs), f)
  {
  }

  /** Dividing by zero: divu gives all ones, divs saturates toward the dividend's sign, remainders give 0. */
  lemma DivisionByZero(lhs: bv32)
    ensures DivRem(4, lhs, 0) == 0xFFFF_FFFF
    ensures DivRem(5, lhs, 0) == if IsNegative(lhs) then 0x8000_0000 else 0x7FFF_FFFF
    ensures DivRem(6, lhs, 0) == 0
    ensures DivRem(7, lhs, 0) == 0
  {
  }

  /** `i32::MIN / -1` wraps to `i32::MIN`, and its remainder is 0. */
  lemma SignedDivisionOverflowWraps()
    ensures SignedDiv(0x8000_0000, 0xFFFF_FFFF) == 0x8000_0000
    ensures SignedRem(0x8000_0000, 0xFFFF_FFFF) == 0
  {
    Word.SignedExtremes();
    assert Word.TruncDiv(Word.MinSigned, -1) == 0x8000_0000;
    assert 0x8000_0000 % Word.Modulus == Word.MinSigned % Word.Modulus;
    assert Word.TruncRem(Word.MinSigned, -1) == 0;
    Word.SignedZero(0);
    Word.FromSignedOfSigned(0);
  }

  /** The `i32` values of the words the examples below use. */
  lemma SmallSignedValues()
    ensures Word.Signed(0xFFFF_FFF9) == -7 && Word.Signed(0xFFFF_FFFE) == -2
    ensures Word.Signed(0xFFFF_FFFD) == -3 && Word.Signed(0xFFFF_FFFF) == -1
    ensures Word.Signed(7) == 7 && Word.Signed(2) == 2 && Word.Signed(1) == 1
  {
    assert Word.Unsigned(0xFFFF_FFF9) == Word.Horner(9, 15, 15, 15, 15, 15, 15, 15);
    assert Word.Unsigned(0xFFFF_FFFE) == Word.Horner(14, 15, 15, 15, 15, 15, 15, 15);
    assert Word.Unsigned(0xFFFF_FFFD) == Word.Horner(13, 15, 15, 15, 15, 15, 15, 15);
    assert Word.Unsigned(0xFFFF_FFFF) == Word.Horner(15, 15, 15, 15, 15, 15, 15, 15);
    assert Word.Unsigned(7) == Word.Horner(7, 0, 0, 0, 0, 0, 0, 0);
    assert Word.Unsigned(2) == Word.Horner(2, 0, 0, 0, 0, 0, 0, 0);
    assert Word.Unsigned(1) == Word.Horner(1, 0, 0, 0, 0, 0, 0, 0);
  }

  /** -7 / 2 = -3 rem -1 and 7 / -2 = -3 rem 1. */
  lemma SignedDivisionExamples()
    ensures SignedDiv(0xFFFF_FFF9, 2) == 0xFFFF_FFFD
    ensures SignedRem(0xFFFF_FFF9, 2) == 0xFFFF_FFFF
    ensures SignedDiv(7, 0xFFFF_FFFE) == 0xFFFF_FFFD
    ensures SignedRem(7, 0xFFFF_FFFE) == 1
  {
    SmallSignedValues();
    assert Word.TruncDiv(-7, 2) == -3 && Word.TruncRem(-7, 2) == -1;
    assert Word.TruncDiv(7, -2) == -3 && Word.TruncRem(7, -2) == 1;
    Word.FromSignedOfSigned(0xFFFF_FFFD);
    Word.FromSignedOfSigned(0xFFFF_FFFF);
    Word.FromSignedOfSigned(1);
  }

  /** Outside `i32::MIN / -1`, the signed quotient is the truncated quotient of the `i32` values. */
  lemma SignedDivValue(lhs: bv32, rhs: bv32)
    requires rhs != 0 && !(lhs == 0x8000_0000 && rhs == 0xFFFF_FFFF)
    ensures Word.Signed(rhs) != 0
    ensures Word.Signed(SignedDiv(lhs, rhs)) == Word.TruncDiv(Word.Signed(lhs), Word.Signed(rhs))
  {
    Word.SignedZero(rhs);
    if Word.Signed(lhs) == Word.MinSigned && Word.Signed(rhs) == -1 {
      Word.FromSignedOfSigned(lhs);
      Word.FromSignedOfSigned(rhs);
      Word.SignedExtremes();
    }
    Word.TruncDivRange(Word.Signed(lhs), Word.Signed(rhs));
    Word.SignedOfFromSigned(Word.TruncDiv(Word.Signed(lhs), Word.Signed(rhs)));
  }

  /** The signed remainder is the truncated remainder of the `i32` values, for every non-zero divisor. */
  lemma SignedRemValue(lhs: bv32, rhs: bv32)
    requires rhs != 0
    ensures Word.Signed(rhs) != 0
    ensures Word.Signed(SignedRem(lhs, rhs)) == Word.TruncRem(Word.Signed(lhs), Word.Signed(rhs))
  {
    Word.SignedZero(rhs);
    Word.TruncRemRange(Word.Signed(lhs), Word.Signed(rhs));
    Word.SignedOfFromSigned(Word.TruncRem(Word.Signed(lhs), Word.Signed(rhs)));
  }

  /**
   * Signed division rounds toward zero: read as `i32`, the dividend is
   * quotient times divisor plus remainder, and the remainder is smaller than
   * the divisor in magnitude.
   */
  lemma SignedDivisionTruncates(lhs: bv32, rhs: bv32)
    requires rhs != 0 && !(lhs == 0x8000_0000 && rhs == 0xFFFF_FFFF)
    ensures Word.Signed(lhs) == Word.Signed(SignedDiv(lhs, rhs)) * Word.Signed(rhs) + Word.Signed(SignedRem(lhs, rhs))
    ensures Word.Abs(Word.Signed(SignedRem(lhs, rhs))) < Word.Abs(Word.Signed(rhs))
  {
    SignedDivValue(lhs, rhs);
    SignedRemValue(lhs, rhs);
    TruncatedValues(Word.Signed(lhs), Word.Signed(rhs), Word.Signed(SignedDiv(lhs, rhs)), Word.Signed(SignedRem(lhs, rhs)));
  }

  /** A non-zero signed remainder has the dividend's sign, for every non-zero divisor. */
  lemma SignedRemainderSign(lhs: bv32, rhs: bv32)
    requires rhs != 0
    ensures SignedRem(lhs, rhs) == 0 || IsNegative(SignedRem(lhs, rhs)) == IsNegative(lhs)
  {
    SignedRemValue(lhs, rhs);
    TruncatedRemainderSign(Word.Signed(lhs), Word.Signed(rhs), Word.Signed(SignedRem(lhs, rhs)));
    RemainderSign(lhs, SignedRem(lhs, rhs));
  }

  lemma TruncatedRemainderSign(a: int, b: int, r: int)
    requires b != 0 && r == Word.TruncRem(a, b)
    ensures r == 0 || (r < 0) == (a < 0)
  {
    Word.TruncDivision(a, b);
  }

  /** TruncDivision for a quotient and remainder already computed. */
  lemma TruncatedValues(a: int, b: int, q: int, r: int)
    requires b != 0 && q == Word.TruncDiv(a, b) && r == Word.TruncRem(a, b)
    ensures a == q * b + r && Word.Abs(r) < Word.Abs(b)
  {
    Word.TruncDivision(a, b);
  }

  /** A word whose `i32` value is 0 or has the dividend's sign is 0 or has the dividend's sign bit. */
  lemma RemainderSign(lhs: bv32, r: bv32)
    requires Word.Signed(r) == 0 || (Word.Signed(r) < 0) == (Word.Signed(lhs) < 0)
    ensures r == 0 || IsNegative(r) == IsNegative(lhs)
  {
    Word.SignedZero(r);
    Word.SignedNegative(r);
    Word.SignedNegative(lhs);
  }

  /** mul sets ZERO from its result; the high-word multiplies can only clear it. */
  lemma MultiplyZeroRules(op: bv32, lhs: bv32, rhs: bv32, f: Flags)
    requires op < 4
    ensures op == 0 ==> Contains(MulOp(op, lhs, rhs, f).1, ZERO_FLAG) == (MulOp(op, lhs, rhs, f).0 == 0)
    ensures op != 0 ==> Contains(MulOp(op, lhs, rhs, f).1, ZERO_FLAG) == (Contains(f, ZERO_FLAG) && MulOp(op, lhs, rhs, f).0 == 0)
  {
  }

  // ---------------------------------------------------------------------------
  // Even addresses

  /** A new CPU starts at an even address with even (zero) vectors and return address. */
  lemma NewCpuAligned()
    ensures Aligned(NewCpu())
  {
  }

  /** Reset moves to the even reset address and keeps the vectors and the return address. */
  lemma ResetKeepsAligned(v: CpuView)
    requires Aligned(v)
    ensures Aligned(ResetCpu(v))
  {
  }

  /** Every jump and taken-branch target is even, whatever the base and offset. */
  lemma JumpTargetEven(base: bv32, offset: bv32)
    ensures JumpTarget(base, offset) & 1 == 0
    ensures ClearLowBit(base) & 1 == 0
  {
  }

  /** Advancing past a half-word or a word keeps an even PC even. */
  lemma AdvanceKeepsEven(pc: bv32)
    requires pc & 1 == 0
    ensures (pc + 2) & 1 == 0 && (pc + 4) & 1 == 0
  {
  }

  /** Writing any value to any window register keeps the vectors and the return address even. */
  lemma WriteWindowKeepsAligned(v: CpuView, t: IoRegister, value: bv32)
    requires t != Bus && ValidIoRegister(t) && Aligned(v)
    ensures Aligned(WriteWindow(v, t, value))
  {
    JumpTargetEven(value, 0);
  }

  /** Entering an even vector and leaving again keep the invariant. */
  lemma InterruptEntryKeepsAligned(v: CpuView, target: bv32)
    requires Aligned(v) && target & 1 == 0
    ensures Aligned(EnterInterrupt(v, target))
    ensures Aligned(LeaveInterrupt(v))
  {
  }

  /** An exception enters its (even) vector. */
  lemma ExceptionKeepsAligned(v: CpuView, kind: ExceptionKind)
    requires Aligned(v) && v.interruptState == Listening
    ensures Exception(v, kind).Some? && Aligned(Exception(v, kind).value)
  {
    InterruptEntryKeepsAligned(v, v.exceptionTable[ExceptionIndex(kind)]);
  }

  // ---------------------------------------------------------------------------
  // Interrupt controller

  /** No interrupt is taken while servicing or when no pending slot is unmasked; then nothing changes. */
  lemma NextInterruptNone(v: CpuView)
    ensures NextInterrupt(v).0.None? ==> v.interruptState == Servicing || Unmasked(v) == 0
    ensures v.interruptState == Servicing || Unmasked(v) == 0 ==> NextInterrupt(v).0.None?
    ensures NextInterrupt(v).0.None? ==> NextInterrupt(v).1 == v
  {
  }

  /** An interrupt taken is the highest pending unmasked slot. */
  lemma NextInterruptHighest(v: CpuView)
    requires NextInterrupt(v).0.Some?
    ensures NextInterrupt(v).0.value < HARD_INT_SLOTS
    ensures Bits16(Unmasked(v))[NextInterrupt(v).0.value]
    ensures forall j :: NextInterrupt(v).0.value < j < 16 ==> !Bits16(Unmasked(v))[j]
  {
    NonZeroHasHighestBit(Unmasked(v));
  }

  /**
   * Signalling sets the slot's pending bit and keeps every other one: with c
   * the slot's mask `1 << slot`, all of c is set afterwards and the pending
   * set outside c is the old one.
   */
  lemma SignalInterruptSetsItsSlot(v: CpuView, slot: nat, c: bv16)
    requires slot < HARD_INT_SLOTS && c == BIT16[slot]
    ensures SignalInterrupt(v, slot).pending & c == c
    ensures SignalInterrupt(v, slot).pending & !c == v.pending & !c
  {
    OrKeepsMask(v.pending, c);
    OrThenClear(v.pending, c);
  }

  /** After a signal the slot's bit is set in the sequence of pending bits, and NEXT_INTERRUPT can see it. */
  lemma SignalledSlotPending(v: CpuView, slot: nat, c: bv16)
    requires slot < HARD_INT_SLOTS && c == BIT16[slot]
    ensures Bits16(SignalInterrupt(v, slot).pending)[slot]
  {
    SignalInterruptSetsItsSlot(v, slot, c);
    SlotMaskNonZero(slot, c);
    BitOfMask(SignalInterrupt(v, slot).pending, slot, c);
  }

  /**
   * A signalled slot that the mask lets through is served: a listening CPU
   * takes an interrupt next, at that slot or at a higher one.
   */
  lemma SignalledInterruptTaken(v: CpuView, slot: nat)
    requires v.interruptState == Listening && slot < HARD_INT_SLOTS && Bits16(v.mask)[slot]
    ensures NextInterrupt(SignalInterrupt(v, slot)).0.Some?
    ensures NextInterrupt(SignalInterrupt(v, slot)).0.value >= slot
  {
    UnmaskedAfterSignal(v, slot, BIT16[slot]);
    NextInterruptHighest(SignalInterrupt(v, slot));
  }

  lemma UnmaskedAfterSignal(v: CpuView, slot: nat, c: bv16)
    requires slot < HARD_INT_SLOTS && c == BIT16[slot] && Bits16(v.mask)[slot]
    ensures Bits16(Unmasked(SignalInterrupt(v, slot)))[slot]
    ensures Unmasked(SignalInterrupt(v, slot)) != 0
  {
    var w := SignalInterrupt(v, slot);
    BitOfMask(v.mask, slot, c);
    SignalInterruptSetsItsSlot(v, slot, c);
    AndKeepsMask(w.pending, w.mask, c);
    BitOfMask(Unmasked(w), slot, c);
  }

  lemma SlotMaskNonZero(slot: nat, c: bv16)
    requires slot < HARD_INT_SLOTS && c == BIT16[slot]
    ensures c != 0
  {
  }

  lemma BitOfMask(p: bv16, slot: nat, c: bv16)
    requires slot < HARD_INT_SLOTS && c == BIT16[slot]
    ensures Bits16(p)[slot] == (p & c != 0)
  {
  }

  lemma OrKeepsMask(p: bv16, c: bv16)
    ensures (p | c) & c == c
  {
  }

  lemma OrThenClear(p: bv16, c: bv16)
    ensures (p | c) & !c == p & !c
  {
  }

  lemma AndKeepsMask(p: bv16, q: bv16, c: bv16)
    requires p & c == c
    ensures (p & q) & c == q & c
  {
  }

  /** Taking an interrupt changes only the pending set, and there only the slot's own bit, which it clears. */
  lemma NextInterruptClearsOnlyItsSlot(v: CpuView)
    requires NextInterrupt(v).0.Some?
    ensures var (slot, r) := NextInterrupt(v);
      r == v.(pending := ClearPending(v.pending, slot.value))
    ensures var (slot, r) := NextInterrupt(v);
      r.pending & BIT16[slot.value] == 0 && r.pending | BIT16[slot.value] == v.pending | BIT16[slot.value]
  {
    var slot := NextInterrupt(v).0.value;
    ClearPendingSpec(v.pending, slot);
  }

  lemma ClearPendingSpec(p: bv16, slot: nat)
    requires slot < HARD_INT_SLOTS
    ensures ClearPending(p, slot) & BIT16[slot] == 0
    ensures ClearPending(p, slot) | BIT16[slot] == p | BIT16[slot]
  {
    ClearBit(p, BIT16[slot]);
  }

  lemma ClearBit(p: bv16, c: bv16)
    ensures (p & !c) & c == 0
    ensures (p & !c) | c == p | c
  {
  }

  /** Entering and then leaving an interrupt restores the PC, the listening state and both banks exactly. */
  lemma EnterLeaveRoundTrip(v: CpuView, target: bv32)
    requires v.interruptState == Listening
    ensures LeaveInterrupt(EnterInterrupt(v, target)) == v.(returnAddress := v.pc)
  {
  }

  /** Leaving and then re-entering at the same address restores a servicing CPU. */
  lemma LeaveEnterRoundTrip(v: CpuView)
    requires v.interruptState == Servicing
    ensures EnterInterrupt(LeaveInterrupt(v), v.pc) == v
  {
  }

  /** An exception while servicing is fatal; otherwise it enters its exception vector, saving the PC. */
  lemma ExceptionEntry(v: CpuView, kind: ExceptionKind)
    ensures v.interruptState == Servicing ==> Exception(v, kind).None?
    ensures v.interruptState == Listening ==>
      Exception(v, kind) == Some(v.(returnAddress := v.pc, pc := v.exceptionTable[ExceptionIndex(kind)],
                                    interruptState := Servicing, state := v.altState, altState := v.state))
  {
  }

  /** sysret outside a handler is illegal; syscall inside one is fatal; envcall returns bits 15:12. */
  lemma SystemGroupRules(v: CpuView, x: bv32)
    ensures (x & 0xF00) >> 8 == 1 && v.interruptState == Listening ==> Sys16(v, x) == (v, Raised(IllegalInstructionException))
    ensures (x & 0xF00) >> 8 == 1 && v.interruptState == Servicing ==> Sys16(v, x) == (LeaveInterrupt(v), DONE)
    ensures (x & 0xF00) >> 8 == 15 && v.interruptState == Servicing ==> Sys16(v, x).1 == Fatal
    ensures (x & 0xF00) >> 8 == 14 ==> Sys16(v, x) == (v, Completed(Some(Bits15To12(x) as bv8)))
  {
  }

  // ---------------------------------------------------------------------------
  // The configuration window

  /** At User privilege the window is invisible: reads and writes go to the bus and the CPU is unchanged. */
  lemma UserIoGoesToBus<D>(v: CpuView, io: IoOps<D>, d: D, addr: bv32, value: bv32)
    ensures ReadIo(v, io, d, addr, User) == io.read(d, addr, User)
    ensures var (v', d', r) := WriteIo(v, io, d, addr, value, User);
      v' == v && (r, d') == io.write(d, addr, value, User)
  {
  }

  /** An address outside the window goes to the bus at any privilege. */
  lemma UnmappedIoGoesToBus<D>(v: CpuView, io: IoOps<D>, d: D, addr: bv32, value: bv32, priv: PrivilegeLevel)
    requires DecodeIo(addr) == Bus
    ensures ReadIo(v, io, d, addr, priv) == io.read(d, addr, priv)
    ensures var (v', d', r) := WriteIo(v, io, d, addr, value, priv);
      v' == v && (r, d') == io.write(d, addr, value, priv)
  {
  }

  /** The window address ranges, both directions: each range decodes to its own register. */
  lemma DecodeIoRanges(addr: bv32)
    ensures DecodeIo(addr).HardVector? <==> addr <= 0x00F
    ensures DecodeIo(addr).SoftVector? <==> 0x010 <= addr <= 0x01F
    ensures DecodeIo(addr).ExceptionVector? <==> 0x020 <= addr <= 0x022
    ensures DecodeIo(addr).AltRegister? <==> 0x040 <= addr <= 0x05F
    ensures DecodeIo(addr) == Bus <==>
      (0x023 <= addr <= 0x02F || 0x034 <= addr <= 0x03E || 0x060 <= addr)
  {
  }

  /**
   * What a System-privilege read of a window register returns after a System
   * write of `value` to a CPU in state `v` (slot 0 of the alternate bank keeps
   * its value).
   */
  function WindowReadBack(v: CpuView, t: IoRegister, value: bv32): bv32 {
    match t
    case HardVector(_) => ClearLowBit(value)
    case SoftVector(_) => ClearLowBit(value)
    case ExceptionVector(_) => ClearLowBit(value)
    case MaskRegister => value & 0xFFFF
    case PendingRegister => value & 0xFFFF
    case PrivilegeRegister => value & 1
    case ReturnAddressRegister => ClearLowBit(value)
    case AltFlagsRegister => value & 0x0F
    case AltRegister(r) => if r == ZERO then GetReg(v.altState.regs, ZERO) else value
    case Bus => value
  }

  lemma Truncate16RoundTrip(value: bv32)
    ensures Truncate16(value) as bv32 == value & 0xFFFF
  {
  }

  lemma AltFlagsRoundTrip(value: bv32)
    ensures FlagBits(FromBitsTruncate(Truncate8(value))) as bv32 == value & 0x0F
  {
  }

  lemma PrivilegeBitRoundTrip(value: bv32)
    ensures PrivilegeToU32(PrivilegeFromU32(LowBit(value)).value) == LowBit(value)
  {
    PrivilegeRoundTrip(System, LowBit(value));
  }

  /** Each window register reads back what was written to it, as the write masked it. */
  lemma WindowRoundTrip(v: CpuView, t: IoRegister, value: bv32)
    requires t != Bus && ValidIoRegister(t)
    ensures ReadWindow(WriteWindow(v, t, value), t) == WindowReadBack(v, t, value)
  {
    match t
    case MaskRegister => Truncate16RoundTrip(value);
    case PendingRegister => Truncate16RoundTrip(value);
    case PrivilegeRegister => PrivilegeBitRoundTrip(value);
    case AltFlagsRegister => AltFlagsRoundTrip(value);
    case AltRegister(r) => GetAfterSet(v.altState.regs, r, value, r);
    case _ =>
  }

  /**
   * `read_io` mirrors `write_io`: at System privilege a window address reads
   * back what was written, as the write masked it, and the bus is not used.
   */
  lemma WindowWriteThenRead<D>(v: CpuView, io: IoOps<D>, d: D, addr: bv32, value: bv32)
    requires DecodeIo(addr) != Bus
    ensures WriteIo(v, io, d, addr, value, System).1 == d
    ensures WriteIo(v, io, d, addr, value, System).2 == Ok(())
    ensures ReadIo(WriteIo(v, io, d, addr, value, System).0, io, d, addr, System)
      == (Ok(WindowReadBack(v, DecodeIo(addr), value)), d)
  {
    WindowRoundTrip(v, DecodeIo(addr), value);
  }

  // ---------------------------------------------------------------------------
  // The order of a step

  /** A serviceable interrupt enters its hardware vector before any fetch: memory is not read, the un-advanced PC is saved. */
  lemma StepTakesInterrupt<M, D>(v: CpuView, fpu: FloatOps, mem: MemoryOps<M>, m: M, io: IoOps<D>, d: D)
    requires v.interruptState == Listening && Unmasked(v) != 0
    ensures NextInterrupt(v).0.Some?
    ensures Step(v, fpu, mem, m, io, d)
      == Outcome(EnterInterrupt(NextInterrupt(v).1, v.hardTable[NextInterrupt(v).0.value]), m, d, DONE)
    ensures Step(v, fpu, mem, m, io, d).cpu.returnAddress == v.pc
  {
  }

  /** Without an interrupt, a failed fetch of the lower half raises its exception at the un-advanced PC. */
  lemma StepFetchFails<M, D>(v: CpuView, fpu: FloatOps, mem: MemoryOps<M>, m: M, io: IoOps<D>, d: D)
    requires v.interruptState == Listening && Unmasked(v) == 0
    requires mem.read16(m, v.pc, v.privilege, false).0.Err?
    ensures var (r, m') := mem.read16(m, v.pc, v.privilege, false);
      Step(v, fpu, mem, m, io, d) == Outcome(Exception(v, FromMemoryError(r.error)).value, m', d, DONE)
    ensures Step(v, fpu, mem, m, io, d).cpu.returnAddress == v.pc
  {
    NextInterruptNone(v);
  }

  /** Otherwise the PC is advanced past the lower half-word before the half-word is decoded. */
  lemma StepAdvancesBeforeDecode<M, D>(v: CpuView, fpu: FloatOps, mem: MemoryOps<M>, m: M, io: IoOps<D>, d: D)
    requires NextInterrupt(v).0.None?
    requires mem.read16(m, v.pc, EffectivePrivilege(v), false).0.Ok?
    ensures var (r, m') := mem.read16(m, v.pc, EffectivePrivilege(v), false);
      StepInner(v, fpu, mem, m, io, d)
        == Execute(v.(pc := v.pc + 2), r.value as bv32, EffectivePrivilege(v), fpu, mem, m', io, d)
  {
    NextInterruptNone(v);
  }

  /** An exception raised while decoding saves the advanced PC: sysret outside a handler returns to the next instruction's address. */
  lemma IllegalSysretSavesAdvancedPc<M, D>(v: CpuView, fpu: FloatOps, mem: MemoryOps<M>, m: M, io: IoOps<D>, d: D)
    requires v.interruptState == Listening && Unmasked(v) == 0
    requires mem.read16(m, v.pc, v.privilege, false).0 == Ok(0x197)
    ensures Step(v, fpu, mem, m, io, d).status == DONE
    ensures Step(v, fpu, mem, m, io, d).cpu
      == Exception(v.(pc := v.pc + 2), IllegalInstructionException).value
    ensures Step(v, fpu, mem, m, io, d).cpu.returnAddress == v.pc + 2
  {
    var m' := mem.read16(m, v.pc, v.privilege, false).1;
    StepAdvancesBeforeDecode(v, fpu, mem, m, io, d);
    SysretOutsideHandler(v.(pc := v.pc + 2), v.privilege, fpu, mem, m', io, d);
  }

  lemma SysretOutsideHandler<M, D>(v: CpuView, priv: PrivilegeLevel, fpu: FloatOps, mem: MemoryOps<M>, m: M, io: IoOps<D>, d: D)
    requires v.interruptState == Listening
    ensures Execute(v, 0x197, priv, fpu, mem, m, io, d) == Outcome(v, m, d, Raised(IllegalInstructionException))
  {
  }

  /** A raising system instruction changes nothing. */
  lemma Sys16RaiseKeepsView(v: CpuView, x: bv32)
    ensures Sys16(v, x).1.Raised? ==> Sys16(v, x).0 == v
  {
  }

  /** A 16-bit ld/st whose access fails leaves the view as it was. */
  lemma Mem16RaiseKeepsView<M>(v: CpuView, x: bv32, priv: PrivilegeLevel, mem: MemoryOps<M>, m: M)
    ensures Mem16(v, x, priv, mem, m).2.Raised? ==> Mem16(v, x, priv, mem, m).0 == v
  {
  }

  /** A 32-bit load, store, in or out whose access fails leaves the view as it was. */
  lemma Mem32RaiseKeepsView<M, D>(v: CpuView, x: bv32, priv: PrivilegeLevel, mem: MemoryOps<M>, m: M, io: IoOps<D>, d: D)
    ensures Mem32(v, x, priv, mem, m, io, d).3.Raised? ==> Mem32(v, x, priv, mem, m, io, d).0 == v
  {
  }

  /** An illegal row or a failed ldr/stc access of the register group leaves the view as it was. */
  lemma Execute32RegisterRaiseKeepsView<M>(v: CpuView, x: bv32, priv: PrivilegeLevel, fpu: FloatOps, mem: MemoryOps<M>, m: M)
    ensures Execute32Register(v, x, priv, fpu, mem, m).2.Raised? ==> Execute32Register(v, x, priv, fpu, mem, m).0 == v
  {
  }

  /** A raising 32-bit instruction leaves the view it was given. */
  lemma Execute32RaiseKeepsView<M, D>(v: CpuView, x: bv32, priv: PrivilegeLevel, fpu: FloatOps, mem: MemoryOps<M>, m: M, io: IoOps<D>, d: D)
    ensures Execute32(v, x, priv, fpu, mem, m, io, d).status.Raised? ==> Execute32(v, x, priv, fpu, mem, m, io, d).cpu == v
  {
    Mem32RaiseKeepsView(v, x, priv, mem, m, io, d);
    Execute32RegisterRaiseKeepsView(v, x, priv, fpu, mem, m);
  }

  /**
   * Whatever raises in the decode tree (an illegal row, a failed memory or
   * I/O access, a failed fetch of the upper half-word) leaves the view as it
   * was, except that the PC is past the upper half-word when that was
   * fetched.
   */
  lemma ExecuteRaiseKeepsView<M, D>(v: CpuView, x: bv32, priv: PrivilegeLevel, fpu: FloatOps, mem: MemoryOps<M>, m: M, io: IoOps<D>, d: D,
    o: Outcome<M, D>)
    requires Execute(v, x, priv, fpu, mem, m, io, d) == o && o.status.Raised?
    ensures o.cpu == v || o.cpu == v.(pc := v.pc + 2)
  {
    Sys16RaiseKeepsView(v, x);
    Mem16RaiseKeepsView(v, x, priv, mem, m);
    var (full, v', m', s) := FetchUpper(v, x, priv, mem, m);
    if full.Some? {
      Execute32RaiseKeepsView(v', full.value, priv, fpu, mem, m', io, d);
    }
  }

  /** The inner step of a Listening CPU without an interrupt raises with the PC 2 or 4 past the instruction's start. */
  lemma StepInnerRaiseKeepsView<M, D>(v: CpuView, fpu: FloatOps, mem: MemoryOps<M>, m: M, io: IoOps<D>, d: D, o: Outcome<M, D>)
    requires NextInterrupt(v).0.None?
    requires mem.read16(m, v.pc, EffectivePrivilege(v), false).0.Ok?
    requires StepInner(v, fpu, mem, m, io, d) == o && o.status.Raised?
    ensures o.cpu == v.(pc := v.pc + 2) || o.cpu == v.(pc := v.pc + 4)
  {
    var (r, m') := mem.read16(m, v.pc, EffectivePrivilege(v), false);
    var w := v.(pc := v.pc + 2);
    StepAdvancesBeforeDecode(v, fpu, mem, m, io, d);
    ExecuteRaiseKeepsView(w, r.value as bv32, EffectivePrivilege(v), fpu, mem, m', io, d, o);
    assert w.(pc := w.pc + 2) == v.(pc := v.pc + 4);
  }

  /** A step whose inner step raised enters the exception with the inner step's view, or is fatal. */
  lemma StepEntersRaised<M, D>(v: CpuView, fpu: FloatOps, mem: MemoryOps<M>, m: M, io: IoOps<D>, d: D, o: Outcome<M, D>)
    requires StepInner(v, fpu, mem, m, io, d) == o && o.status.Raised?
    ensures Exception(o.cpu, o.status.kind).Some? ==>
      Step(v, fpu, mem, m, io, d) == o.(cpu := Exception(o.cpu, o.status.kind).value, status := DONE)
    ensures Exception(o.cpu, o.status.kind).None? ==> Step(v, fpu, mem, m, io, d) == o.(status := Fatal)
  {
  }

  /**
   * An exception raised while decoding saves the advanced PC: 2 past the
   * instruction's start, or 4 once its upper half-word has been fetched.
   */
  lemma StepRaiseSavesAdvancedPc<M, D>(v: CpuView, fpu: FloatOps, mem: MemoryOps<M>, m: M, io: IoOps<D>, d: D, o: Outcome<M, D>)
    requires v.interruptState == Listening && Unmasked(v) == 0
    requires mem.read16(m, v.pc, v.privilege, false).0.Ok?
    requires StepInner(v, fpu, mem, m, io, d) == o && o.status.Raised?
    ensures Step(v, fpu, mem, m, io, d).status == DONE
    ensures Step(v, fpu, mem, m, io, d).cpu == Exception(o.cpu, o.status.kind).value
    ensures Step(v, fpu, mem, m, io, d).cpu.returnAddress == v.pc + 2
         || Step(v, fpu, mem, m, io, d).cpu.returnAddress == v.pc + 4
  {
    NextInterruptNone(v);
    StepInnerRaiseKeepsView(v, fpu, mem, m, io, d, o);
    ExceptionEntry(o.cpu, o.status.kind);
    StepEntersRaised(v, fpu, mem, m, io, d, o);
  }

  /** A step whose inner step raised nothing is the inner step. */
  lemma StepWithoutException<M, D>(v: CpuView, fpu: FloatOps, mem: MemoryOps<M>, m: M, io: IoOps<D>, d: D, o: Outcome<M, D>)
    requires StepInner(v, fpu, mem, m, io, d) == o && !o.status.Raised?
    ensures Step(v, fpu, mem, m, io, d) == o
  {
  }

  /** While servicing no interrupt is taken and the fetch is at System privilege. */
  lemma StepWhileServicing<M, D>(v: CpuView, fpu: FloatOps, mem: MemoryOps<M>, m: M, io: IoOps<D>, d: D, h: bv16, m': M)
    requires v.interruptState == Servicing
    requires mem.read16(m, v.pc, System, false) == (Ok(h), m')
    ensures StepInner(v, fpu, mem, m, io, d) == Execute(v.(pc := v.pc + 2), h as bv32, System, fpu, mem, m', io, d)
  {
    StepAdvancesBeforeDecode(v, fpu, mem, m, io, d);
  }

  // ---------------------------------------------------------------------------
  // Extending loads, the success bit of the conditional stores, illegal rows

  /** The 8-bit sign extension keeps the byte and copies bit 7 into bits 31:8. */
  lemma SignExtend8Rules(b: bv8)
    ensures SignExtend8(b) & 0xFF == b as bv32
    ensures SignExtend8(b) >> 8 == if b >> 7 == 1 then 0xFF_FFFF else 0
  {
  }

  /** The 16-bit sign extension keeps the half-word and copies bit 15 into bits 31:16. */
  lemma SignExtend16Rules(h: bv16)
    ensures SignExtend16(h) & 0xFFFF == h as bv32
    ensures SignExtend16(h) >> 16 == if h >> 15 == 1 then 0xFFFF else 0
  {
    if h >> 15 == 1 {
      FilledHalfKeepsLowHalf(h);
    } else {
      WidenedHalfKeepsLowHalf(h);
    }
  }

  /** `x` holds `h` in bits 15:0 and bits 31:16 are copies of bit 15 if `signed`, zeros otherwise. */
  ghost predicate HalfExtended(x: bv32, h: bv16, signed: bool) {
    x & 0xFFFF == h as bv32 && x >> 16 == if signed && h >> 15 == 1 then 0xFFFF else 0
  }

  /** Both 16-bit extensions, as the load rows 4 (unsigned) and 5 (signed) apply them. */
  lemma HalfExtension(h: bv16, signed: bool)
    ensures HalfExtended(if signed then SignExtend16(h) else h as bv32, h, signed)
  {
    if signed {
      SignExtend16Rules(h);
    } else {
      WidenedHalfKeepsLowHalf(h);
    }
  }

  lemma WidenedHalfKeepsLowHalf(h: bv16)
    ensures (h as bv32) & 0xFFFF == h as bv32
  {
  }

  lemma FilledHalfKeepsLowHalf(h: bv16)
    ensures ((h as bv32) | 0xFFFF_0000) & 0xFFFF == h as bv32
  {
  }

  /**
   * Load rows 2 and 3 keep the byte read in bits 7:0; row 2 clears bits 31:8
   * and row 3 fills them with bit 7 of the byte.
   */
  lemma ByteLoadExtends<M>(mem: MemoryOps<M>, m: M, addr: bv32, priv: PrivilegeLevel, reserve: bool, op: bv32, b: bv8, mb: M)
    requires op == 2 || op == 3
    requires mem.read8(m, addr, priv, reserve) == (Ok(b), mb)
    ensures Load(mem, m, addr, priv, reserve, op).0.Ok? && Load(mem, m, addr, priv, reserve, op).1 == mb
    ensures Load(mem, m, addr, priv, reserve, op).0.value & 0xFF == b as bv32
    ensures Load(mem, m, addr, priv, reserve, op).0.value >> 8 == if op == 3 && b >> 7 == 1 then 0xFF_FFFF else 0
  {
    SignExtend8Rules(b);
  }

  /**
   * Load rows 4 and 5 keep the half-word read in bits 15:0; row 4 clears
   * bits 31:16 and row 5 fills them with bit 15.
   */
  lemma HalfLoadExtends<M>(mem: MemoryOps<M>, m: M, addr: bv32, priv: PrivilegeLevel, reserve: bool, op: bv32, h: bv16, mh: M)
    requires op == 4 || op == 5
    requires mem.read16(m, addr, priv, reserve) == (Ok(h), mh)
    ensures Load(mem, m, addr, priv, reserve, op).0.Ok? && Load(mem, m, addr, priv, reserve, op).1 == mh
    ensures HalfExtended(Load(mem, m, addr, priv, reserve, op).0.value, h, op == 5)
  {
    HalfLoadValue(mem, m, addr, priv, reserve, op, h, mh);
    HalfExtension(h, op == 5);
  }

  lemma HalfLoadValue<M>(mem: MemoryOps<M>, m: M, addr: bv32, priv: PrivilegeLevel, reserve: bool, op: bv32, h: bv16, mh: M)
    requires op == 4 || op == 5
    requires mem.read16(m, addr, priv, reserve) == (Ok(h), mh)
    ensures Load(mem, m, addr, priv, reserve, op) == (Ok(if op == 5 then SignExtend16(h) else h as bv32), mh)
  {
  }

  /** Every load row passes a failed read's error through, with the memory state the read left. */
  lemma LoadPassesErrors<M>(mem: MemoryOps<M>, m: M, addr: bv32, priv: PrivilegeLevel, reserve: bool, op: bv32)
    requires op < 6
    ensures var (r, m') := Load(mem, m, addr, priv, reserve, op);
      r.Err? <==>
        (if op <= 1 then mem.read32(m, addr, priv, reserve).0.Err?
         else if op <= 3 then mem.read8(m, addr, priv, reserve).0.Err?
         else mem.read16(m, addr, priv, reserve).0.Err?)
    ensures var (r, m') := Load(mem, m, addr, priv, reserve, op);
      2 <= op <= 3 && r.Err? ==> (r.error, m') == (mem.read8(m, addr, priv, reserve).0.error, mem.read8(m, addr, priv, reserve).1)
    ensures var (r, m') := Load(mem, m, addr, priv, reserve, op);
      4 <= op && r.Err? ==> (r.error, m') == (mem.read16(m, addr, priv, reserve).0.error, mem.read16(m, addr, priv, reserve).1)
  {
  }

  /**
   * A conditional store that reaches memory leaves 1 in rd when the write
   * happened and 0 when the reservation had been lost, and changes no other
   * register; a failed store raises its error with the registers unchanged.
   */
  lemma StcWritesSuccessBit<M>(v: CpuView, x: bv32, priv: PrivilegeLevel, mem: MemoryOps<M>, m: M)
    requires (x & 0x600_0000) >> 25 != 3
    ensures var (w, mw) := Store(mem, m, Reg(v, Rs1Of32(x)), Reg(v, Rs2Of32(x)), priv, true, (x & 0x600_0000) >> 25);
      var (v', m', s) := Stc(v, x, priv, mem, m);
      m' == mw
      && (w.Err? ==> v' == v && s == Raised(FromMemoryError(w.error)))
      && (w.Ok? ==> s == DONE
                    && (Rd32(x) != ZERO ==> Reg(v', Rd32(x)) == if w.value then 1 else 0)
                    && forall q :: q != Rd32(x) ==> Reg(v', q) == Reg(v, q))
  {
    var (w, mw) := Store(mem, m, Reg(v, Rs1Of32(x)), Reg(v, Rs2Of32(x)), priv, true, (x & 0x600_0000) >> 25);
    if w.Ok? {
      var bit: bv32 := if w.value then 1 else 0;
      forall q: Register
        ensures Reg(WithReg(v, Rd32(x), bit), q) == if q == Rd32(x) && q != ZERO then bit else Reg(v, q)
      {
        GetAfterSet(v.state.regs, Rd32(x), bit, q);
      }
    }
  }

  /** sys rows 4..13 are unassigned and raise IllegalInstruction, changing nothing. */
  lemma UnassignedSystemRows(v: CpuView, x: bv32)
    requires 4 <= (x & 0xF00) >> 8 <= 13
    ensures Sys16(v, x) == (v, Raised(IllegalInstructionException))
  {
  }

  /** Of aluc, rows 2..7 and only those raise IllegalInstruction, changing nothing. */
  lemma UnassignedAlucRows(v: CpuView, x: bv32)
    ensures Aluc32(v, x).1.Raised? <==> (x & 0x700_0000) >> 24 >= 2
    ensures Aluc32(v, x).1.Raised? ==> Aluc32(v, x) == (v, Raised(IllegalInstructionException))
  {
  }

  /** Of the three-operand float ops, rows 4 and 5 and only those raise IllegalInstruction. */
  lemma UnassignedFloatRows(v: CpuView, x: bv32, fpu: FloatOps)
    ensures Fpu3(v, x, fpu).1.Raised? <==> ((x & 0x700_0000) >> 24 == 4 || (x & 0x700_0000) >> 24 == 5)
    ensures Fpu3(v, x, fpu).1.Raised? ==> Fpu3(v, x, fpu) == (v, Raised(IllegalInstructionException))
  {
  }

  /** Of cvt, rows 2..7 and only those raise IllegalInstruction. */
  lemma UnassignedConversionRows(v: CpuView, x: bv32, fpu: FloatOps)
    ensures Cvt(v, x, fpu).1.Raised? <==> (x & 0x700_0000) >> 24 >= 2
    ensures Cvt(v, x, fpu).1.Raised? ==> Cvt(v, x, fpu) == (v, Raised(IllegalInstructionException))
  {
  }

  /**
   * ldr rows 6 and 7, stc row 3 and the register-group opcodes from 16 up
   * raise IllegalInstruction before touching memory.
   */
  lemma UnassignedMemoryRows<M>(v: CpuView, x: bv32, priv: PrivilegeLevel, fpu: FloatOps, mem: MemoryOps<M>, m: M)
    ensures (x & 0x700_0000) >> 24 >= 6 ==> Ldr(v, x, priv, mem, m) == (v, m, Raised(IllegalInstructionException))
    ensures (x & 0x600_0000) >> 25 == 3 ==> Stc(v, x, priv, mem, m) == (v, m, Raised(IllegalInstructionException))
    ensures Opcode32(x) >= 16 ==> Execute32Register(v, x, priv, fpu, mem, m) == (v, m, Raised(IllegalInstructionException))
  {
  }
}
