/**
 * `Cpu` of Emulator/src/cpu.rs as a class: the fields of the Rust struct,
 * the two boxed register banks that interrupt entry swaps, and one method
 * per handler. Every method updates the fields in place and is proved to
 * leave the processor in the state the corresponding function of
 * cpu_model.dfy computes from the state before the call.
 */
module CpuCore {
  import opened Wrappers
  import opened Bits
  import opened Registers
  import opened Interface
  import opened CpuDecode
  import opened CpuModel

  /** `CpuState`: a register file and its flags, boxed in the processor. */
  class CpuState {
    const regs: RegisterFile
    var flags: Flags

    /** `CpuState::default()`. */
    constructor ()
      ensures fresh(regs) && fresh(regs.slots) && regs.Valid()
      ensures regs.Values() == seq(32, _ => 0) && flags == NO_FLAGS
    {
      regs := new RegisterFile();
      flags := NO_FLAGS;
    }
  }

  class Cpu {
    var programCounter: bv32
    var interruptState: InterruptState
    var privilegeLevel: PrivilegeLevel
    var state: CpuState
    var altState: CpuState
    var interruptMask: bv16
    var pendingInterrupts: bv16
    const hardwareInterruptTable: array<bv32>
    const softwareInterruptTable: array<bv32>
    const exceptionTable: array<bv32>
    var interruptReturnAddress: bv32

    ghost var Repr: set<object>

    ghost predicate Valid()
      reads this, Repr
    {
      this in Repr && state in Repr && altState in Repr
      && state.regs.slots in Repr && altState.regs.slots in Repr
      && hardwareInterruptTable in Repr && softwareInterruptTable in Repr && exceptionTable in Repr
      && state != altState
      && state.regs.Valid() && altState.regs.Valid()
      && hardwareInterruptTable.Length == 16 && softwareInterruptTable.Length == 16 && exceptionTable.Length == 3
      // the five word arrays are distinct
      && state.regs.slots != altState.regs.slots
      && state.regs.slots != hardwareInterruptTable && state.regs.slots != softwareInterruptTable
      && state.regs.slots != exceptionTable
      && altState.regs.slots != hardwareInterruptTable && altState.regs.slots != softwareInterruptTable
      && altState.regs.slots != exceptionTable
      && hardwareInterruptTable != softwareInterruptTable && hardwareInterruptTable != exceptionTable
      && softwareInterruptTable != exceptionTable
    }

    ghost function StateBank(): Bank
      reads this, state, state.regs.slots
      requires state.regs.Valid()
    {
      Bank(state.regs.Values(), state.flags)
    }

    ghost function AltBank(): Bank
      reads this, altState, altState.regs.slots
      requires altState.regs.Valid()
    {
      Bank(altState.regs.Values(), altState.flags)
    }

    ghost function HardTable(): Table16
      reads hardwareInterruptTable
      requires hardwareInterruptTable.Length == 16
    {
      hardwareInterruptTable[..]
    }

    ghost function SoftTable(): Table16
      reads softwareInterruptTable
      requires softwareInterruptTable.Length == 16
    {
      softwareInterruptTable[..]
    }

    ghost function ExceptionTable(): Table3
      reads exceptionTable
      requires exceptionTable.Length == 3
    {
      exceptionTable[..]
    }

    /** The processor's state as a value. */
    ghost function View(): CpuView
      reads this, Repr
      requires Valid()
    {
      CpuView(programCounter, interruptState, privilegeLevel, StateBank(), AltBank(),
              interruptMask, pendingInterrupts, HardTable(), SoftTable(), ExceptionTable(),
              interruptReturnAddress)
    }

    /** `Cpu::new`. */
    constructor ()
      ensures Valid() && fresh(Repr)
      ensures View() == NewCpu()
    {
      programCounter := RESET_PROGRAM_COUNTER;
      interruptState := Servicing;
      privilegeLevel := System;
      state := new CpuState();
      altState := new CpuState();
      interruptMask := 0;
      pendingInterrupts := 0;
      hardwareInterruptTable := new bv32[16](_ => 0);
      softwareInterruptTable := new bv32[16](_ => 0);
      exceptionTable := new bv32[3](_ => 0);
      interruptReturnAddress := 0;
      new;
      Repr := {this, state, altState, state.regs.slots, altState.regs.slots,
               hardwareInterruptTable, softwareInterruptTable, exceptionTable};
    }

    /** `Cpu::reset`. */
    method Reset()
      requires Valid()
      modifies this
      ensures Valid() && Repr == old(Repr)
      ensures View() == ResetCpu(old(View()))
    {
      programCounter := RESET_PROGRAM_COUNTER;
      interruptState := Servicing;
      privilegeLevel := System;
      interruptMask := 0;
      pendingInterrupts := 0;
    }

    /** `Cpu::signal_interrupt`. */
    method SignalInterrupt(slot: nat)
      requires Valid() && slot < HARD_INT_SLOTS
      modifies this
      ensures Valid() && Repr == old(Repr)
      ensures View() == CpuModel.SignalInterrupt(old(View()), slot)
    {
      pendingInterrupts := pendingInterrupts | BIT16[slot];
    }

    /** `get_reg`. */
    function GetRegister(r: Register): (value: bv32)
      reads this, Repr
      requires Valid()
      ensures value == Reg(View(), r)
    {
      state.regs.Get(r)
    }

    /** `set_reg`. */
    method SetRegister(r: Register, value: bv32)
      requires Valid()
      modifies Repr
      ensures Valid() && Repr == old(Repr)
      ensures View() == WithReg(old(View()), r, value)
    {
      state.regs.Set(r, value);
    }

    method SetFlags(f: Flags)
      requires Valid()
      modifies Repr
      ensures Valid() && Repr == old(Repr)
      ensures View() == WithFlags(old(View()), f)
    {
      state.flags := f;
    }

    function EffectivePrivilegeLevel(): (p: PrivilegeLevel)
      reads this, Repr
      requires Valid()
      ensures p == EffectivePrivilege(View())
    {
      match interruptState
      case Servicing => System
      case Listening => privilegeLevel
    }

    /** `next_interrupt`. */
    method NextInterrupt() returns (slot: Option<nat>)
      requires Valid()
      modifies this
      ensures Valid() && Repr == old(Repr)
      ensures (slot, View()) == CpuModel.NextInterrupt(old(View()))
    {
      if interruptState == Listening {
        var pending := MaskedPending(pendingInterrupts, interruptMask);
        if pending != 0 {
          NonZeroHasHighestBit(pending);
          var s := HighestSetBit(Bits16(pending), 16).value;
          pendingInterrupts := ClearPending(pendingInterrupts, s);
          return Some(s);
        }
      }
      return None;
    }

    /** `enter_interrupt`: the banks are swapped, not copied. */
    method EnterInterrupt(newProgramCounter: bv32)
      requires Valid()
      modifies this
      ensures Valid() && Repr == old(Repr)
      ensures View() == CpuModel.EnterInterrupt(old(View()), newProgramCounter)
    {
      interruptReturnAddress := programCounter;
      programCounter := newProgramCounter;
      interruptState := Servicing;
      state, altState := altState, state;
    }

    /** `leave_interrupt`. */
    method LeaveInterrupt()
      requires Valid()
      modifies this
      ensures Valid() && Repr == old(Repr)
      ensures View() == CpuModel.LeaveInterrupt(old(View()))
    {
      programCounter := interruptReturnAddress;
      interruptState := Listening;
      state, altState := altState, state;
    }

    /** `exception`: false reports the panic raised while servicing. */
    method Exception(kind: ExceptionKind) returns (entered: bool)
      requires Valid()
      modifies this
      ensures Valid() && Repr == old(Repr)
      ensures var r := CpuModel.Exception(old(View()), kind);
        entered == r.Some? && (entered ==> View() == r.value) && (!entered ==> View() == old(View()))
    {
      match interruptState
      case Servicing =>
        entered := false;
      case Listening =>
        EnterInterrupt(exceptionTable[ExceptionIndex(kind)]);
        entered := true;
    }

    /** `read_io`. */
    method ReadIo<D>(io: IoOps<D>, d: D, addr: bv32, priv: PrivilegeLevel) returns (r: Result<bv32, IoError>, d': D)
      requires Valid()
      ensures (r, d') == CpuModel.ReadIo(View(), io, d, addr, priv)
    {
      if priv == System {
        var t := DecodeIo(addr);
        match t
        case HardVector(i) => return Ok(hardwareInterruptTable[i]), d;
        case SoftVector(i) => return Ok(softwareInterruptTable[i]), d;
        case ExceptionVector(i) => return Ok(exceptionTable[i]), d;
        case MaskRegister => return Ok(interruptMask as bv32), d;
        case PendingRegister => return Ok(pendingInterrupts as bv32), d;
        case PrivilegeRegister => return Ok(PrivilegeToU32(privilegeLevel)), d;
        case ReturnAddressRegister => return Ok(interruptReturnAddress), d;
        case AltFlagsRegister => return Ok(FlagBits(altState.flags) as bv32), d;
        case AltRegister(reg) => return Ok(altState.regs.Get(reg)), d;
        case Bus =>
      }
      r, d' := io.read(d, addr, priv).0, io.read(d, addr, priv).1;
    }

    /** A write of a window register at System privilege. */
    method WriteWindow(t: IoRegister, value: bv32)
      requires Valid() && t != Bus && ValidIoRegister(t)
      modifies Repr
      ensures Valid() && Repr == old(Repr)
      ensures View() == CpuModel.WriteWindow(old(View()), t, value)
    {
      if t.HardVector? || t.SoftVector? || t.ExceptionVector? {
        WriteVector(t, value);
      } else if t.AltFlagsRegister? || t.AltRegister? {
        WriteAlternate(t, value);
      } else {
        WriteControl(t, value);
      }
    }

    /** The three vector tables: the written vector loses bit 0. */
    method WriteVector(t: IoRegister, value: bv32)
      requires Valid() && ValidIoRegister(t) && (t.HardVector? || t.SoftVector? || t.ExceptionVector?)
      modifies Repr
      ensures Valid() && Repr == old(Repr)
      ensures View() == CpuModel.WriteWindow(old(View()), t, value)
    {
      match t
      case HardVector(i) =>
        hardwareInterruptTable[i] := ClearLowBit(value);
        assert HardTable() == old(HardTable())[i := ClearLowBit(value)];
      case SoftVector(i) =>
        softwareInterruptTable[i] := ClearLowBit(value);
        assert SoftTable() == old(SoftTable())[i := ClearLowBit(value)];
      case ExceptionVector(i) =>
        exceptionTable[i] := ClearLowBit(value);
        assert ExceptionTable() == old(ExceptionTable())[i := ClearLowBit(value)];
    }

    /** The alternate bank: its flags and its registers. */
    method WriteAlternate(t: IoRegister, value: bv32)
      requires Valid() && (t.AltFlagsRegister? || t.AltRegister?)
      modifies Repr
      ensures Valid() && Repr == old(Repr)
      ensures View() == CpuModel.WriteWindow(old(View()), t, value)
    {
      match t
      case AltFlagsRegister => altState.flags := FromBitsTruncate(Truncate8(value));
      case AltRegister(reg) => altState.regs.Set(reg, value);
    }

    /** Mask, pending set, privilege and return address. */
    method WriteControl(t: IoRegister, value: bv32)
      requires Valid() && (t.MaskRegister? || t.PendingRegister? || t.PrivilegeRegister? || t.ReturnAddressRegister?)
      modifies this
      ensures Valid() && Repr == old(Repr)
      ensures View() == CpuModel.WriteWindow(old(View()), t, value)
    {
      match t
      case MaskRegister => interruptMask := Truncate16(value);
      case PendingRegister => pendingInterrupts := Truncate16(value);
      case PrivilegeRegister => privilegeLevel := PrivilegeFromU32(LowBit(value)).value;
      case ReturnAddressRegister => interruptReturnAddress := ClearLowBit(value);
    }

    /** `write_io`. */
    method WriteIo<D>(io: IoOps<D>, d: D, addr: bv32, value: bv32, priv: PrivilegeLevel)
      returns (d': D, r: Result<(), IoError>)
      requires Valid()
      modifies Repr
      ensures Valid() && Repr == old(Repr)
      ensures (View(), d', r) == CpuModel.WriteIo(old(View()), io, d, addr, value, priv)
    {
      var t := if priv == System then DecodeIo(addr) else Bus;
      if t == Bus {
        r, d' := io.write(d, addr, value, priv).0, io.write(d, addr, value, priv).1;
      } else {
        WriteWindow(t, value);
        d', r := d, Ok(());
      }
    }

    // -------------------------------------------------------------------------
    // Handlers

    method LdiAddi16(x: bv32)
      requires Valid()
      modifies Repr
      ensures Valid() && Repr == old(Repr)
      ensures View() == CpuModel.LdiAddi16(old(View()), x)
    {
      var rd := RegHi16(x);
      var imm := LdiImm(x);
      if x & 0x2 == 0 {
        SetRegister(rd, imm);
      } else {
        var (sum, f) := ExecuteAdd(state.flags, GetRegister(rd), imm, false);
        SetFlags(SetZero(f, sum));
        SetRegister(rd, sum);
      }
    }

    method Jump16(x: bv32)
      requires Valid()
      modifies Repr
      ensures Valid() && Repr == old(Repr)
      ensures View() == CpuModel.Jump16(old(View()), x)
    {
      var jumpAddr := JumpTarget(GetRegister(RegHi16(x)), Jump16Imm(x));
      if x & 0x4 != 0 {
        SetRegister(RA, programCounter);
      }
      programCounter := jumpAddr;
    }

    method Branch(cond: BranchCondition, offset: bv32)
      requires Valid()
      modifies Repr
      ensures Valid() && Repr == old(Repr)
      ensures View() == CpuModel.Branch(old(View()), cond, offset)
    {
      if cond == BLink {
        SetRegister(RA, programCounter);
      }
      if SatisfyBranch(state.flags, cond) {
        programCounter := JumpTarget(programCounter, offset);
      }
    }

    method Branch16(x: bv32)
      requires Valid()
      modifies Repr
      ensures Valid() && Repr == old(Repr)
      ensures View() == CpuModel.Branch16(old(View()), x)
    {
      Branch(BranchConditionOf(x), Branch16Imm(x));
    }

    method Uimm32(x: bv32)
      requires Valid()
      modifies Repr
      ensures Valid() && Repr == old(Repr)
      ensures View() == CpuModel.Uimm32(old(View()), x)
    {
      SetRegister(Rd32(x), UpperResult(programCounter, x));
    }

    /** The ALU rule shared by alu_16, alui_32 and alu_32. */
    method Alu(op: bv32, rd: Register, lhs: bv32, rhs: bv32)
      requires Valid() && op < 8
      modifies Repr
      ensures Valid() && Repr == old(Repr)
      ensures View() == CpuModel.Alu(old(View()), op, rd, lhs, rhs)
    {
      var (result, f) := AluOp(op, lhs, rhs, state.flags);
      SetRegister(rd, result);
      SetFlags(SetZero(f, result));
    }

    method Alu16(x: bv32)
      requires Valid()
      modifies Repr
      ensures Valid() && Repr == old(Repr)
      ensures View() == CpuModel.Alu16(old(View()), x)
    {
      var rd := RegHi16(x);
      Alu((x & 0xE0) >> 5, rd, GetRegister(rd), GetRegister(RegLo16(x)));
    }

    method Mov16(x: bv32)
      requires Valid()
      modifies Repr
      ensures Valid() && Repr == old(Repr)
      ensures View() == CpuModel.Mov16(old(View()), x)
    {
      if Satisfy(state.flags, MovCondition16(x)) {
        SetRegister(RegHi16(x), GetRegister(RegLo16(x)));
      }
    }

    method Cmp16(x: bv32)
      requires Valid()
      modifies Repr
      ensures Valid() && Repr == old(Repr)
      ensures View() == CpuModel.Cmp16(old(View()), x)
    {
      var (result, f) := ExecuteAdd(state.flags, GetRegister(RegHi16(x)), !GetRegister(RegLo16(x)), true);
      SetFlags(SetZero(f, result));
    }

    method Sys16(x: bv32) returns (status: Status)
      requires Valid()
      modifies Repr
      ensures Valid() && Repr == old(Repr)
      ensures (View(), status) == CpuModel.Sys16(old(View()), x)
    {
      var op := (x & 0xF00) >> 8;
      if op == 0 {
        programCounter := ClearLowBit(GetRegister(RA));
        status := DONE;
      } else if op == 1 {
        if interruptState == Servicing {
          LeaveInterrupt();
          status := DONE;
        } else {
          status := Raised(IllegalInstructionException);
        }
      } else if op == 2 || op == 3 {
        status := DONE;
      } else if op <= 13 {
        status := Raised(IllegalInstructionException);
      } else if op == 14 {
        status := Completed(Some(Bits15To12(x) as bv8));
      } else if interruptState == Servicing {
        status := Fatal;
      } else {
        EnterInterrupt(softwareInterruptTable[Bits15To12(x)]);
        status := DONE;
      }
    }

    method Alui16(x: bv32)
      requires Valid() && x & 0x60 != 0
      modifies Repr
      ensures Valid() && Repr == old(Repr)
      ensures View() == CpuModel.Alui16(old(View()), x)
    {
      var rd := RegHi16(x);
      var op := (x & 0x60) >> 5;
      var lhs := GetRegister(rd);
      var n := ShiftImm16(x);
      var result := if op == 1 then Shl(lhs, n) else if op == 2 then Lsr(lhs, n) else Ashr(lhs, n);
      var f := SetZero(state.flags, result);
      SetRegister(rd, result);
      SetFlags(f);
    }

    method Mem16<M>(x: bv32, priv: PrivilegeLevel, mem: MemoryOps<M>, m: M) returns (m': M, status: Status)
      requires Valid()
      modifies Repr
      ensures Valid() && Repr == old(Repr)
      ensures View() == CpuModel.Mem16(old(View()), x, priv, mem, m).0
      ensures m' == CpuModel.Mem16(old(View()), x, priv, mem, m).1
      ensures status == CpuModel.Mem16(old(View()), x, priv, mem, m).2
    {
      var rd := RegHi16(x);
      var addr := SpAddress(GetRegister(SP), x);
      if x & 0x40 == 0 {
        var (r, m1) := mem.read32(m, addr, priv, false);
        m' := m1;
        if r.Err? {
          status := MemoryStatus(r);
        } else {
          SetRegister(rd, r.value);
          status := DONE;
        }
      } else {
        var (w, m1) := mem.write32(m, addr, GetRegister(rd), priv, false);
        m' := m1;
        status := if w.Err? then MemoryStatus(w) else DONE;
      }
    }

    method Jump32(x: bv32)
      requires Valid()
      modifies Repr
      ensures Valid() && Repr == old(Repr)
      ensures View() == CpuModel.Jump32(old(View()), x)
    {
      var jumpAddr := JumpTarget(GetRegister(Rs1Of32(x)), Jump32Imm(x));
      SetRegister(Rd32(x), programCounter);
      programCounter := jumpAddr;
    }

    method Branch32(x: bv32)
      requires Valid()
      modifies Repr
      ensures Valid() && Repr == old(Repr)
      ensures View() == CpuModel.Branch32(old(View()), x)
    {
      Branch(BranchConditionOf(x), Branch32Imm(x));
    }

    method Alui32(x: bv32)
      requires Valid()
      modifies Repr
      ensures Valid() && Repr == old(Repr)
      ensures View() == CpuModel.Alui32(old(View()), x)
    {
      Alu((x & 0x700_0000) >> 24, Rd32(x), GetRegister(Rs1Of32(x)), Imm32(x));
    }

    method Movi32(x: bv32)
      requires Valid()
      modifies Repr
      ensures Valid() && Repr == old(Repr)
      ensures View() == CpuModel.Movi32(old(View()), x)
    {
      var value := if Satisfy(state.flags, Condition32(x)) then Imm32(x) else GetRegister(Rs1Of32(x));
      SetRegister(Rd32(x), value);
    }

    method Mem32<M, D>(x: bv32, priv: PrivilegeLevel, mem: MemoryOps<M>, m: M, io: IoOps<D>, d: D)
      returns (m': M, d': D, status: Status)
      requires Valid()
      modifies Repr
      ensures Valid() && Repr == old(Repr)
      ensures View() == CpuModel.Mem32(old(View()), x, priv, mem, m, io, d).0
      ensures m' == CpuModel.Mem32(old(View()), x, priv, mem, m, io, d).1
      ensures d' == CpuModel.Mem32(old(View()), x, priv, mem, m, io, d).2
      ensures status == CpuModel.Mem32(old(View()), x, priv, mem, m, io, d).3
    {
      var base := GetRegister(Rs1Of32(x));
      m', d' := m, d;
      if x & 0x40 == 0 {
        var addr := LoadAddress(base, x);
        var rd := Rd32(x);
        var op := (x & 0x700_0000) >> 24;
        if op < 6 {
          var (r, m1) := Load(mem, m, addr, priv, false, op);
          m' := m1;
          if r.Err? {
            status := MemoryStatus(r);
          } else {
            SetRegister(rd, r.value);
            status := DONE;
          }
        } else {
          var r;
          r, d' := ReadIo(io, d, addr, priv);
          if r.Err? {
            status := Raised(FromIoError(r.error));
          } else {
            SetRegister(rd, r.value);
            status := DONE;
          }
        }
      } else {
        var addr := StoreAddress(base, x);
        var value := GetRegister(Rs2Of32(x));
        var op := (x & 0x600_0000) >> 25;
        if op < 3 {
          var (w, m1) := Store(mem, m, addr, value, priv, false, op);
          m' := m1;
          status := if w.Err? then MemoryStatus(w) else DONE;
        } else {
          var r;
          d', r := WriteIo(io, d, addr, value, priv);
          status := if r.Err? then Raised(FromIoError(r.error)) else DONE;
        }
      }
    }

    method Alu32(x: bv32)
      requires Valid()
      modifies Repr
      ensures Valid() && Repr == old(Repr)
      ensures View() == CpuModel.Alu32(old(View()), x)
    {
      Alu((x & 0x700_0000) >> 24, Rd32(x), GetRegister(Rs1Of32(x)), GetRegister(Rs2Of32(x)));
    }

    method Mov32(x: bv32)
      requires Valid()
      modifies Repr
      ensures Valid() && Repr == old(Repr)
      ensures View() == CpuModel.Mov32(old(View()), x)
    {
      var value := if Satisfy(state.flags, Condition32(x)) then GetRegister(Rs2Of32(x)) else GetRegister(Rs1Of32(x));
      SetRegister(Rd32(x), value);
    }

    method Aluc32(x: bv32) returns (status: Status)
      requires Valid()
      modifies Repr
      ensures Valid() && Repr == old(Repr)
      ensures (View(), status) == CpuModel.Aluc32(old(View()), x)
    {
      var op := (x & 0x700_0000) >> 24;
      if op >= 2 {
        return Raised(IllegalInstructionException);
      }
      var (result, f) := AddWithCarry(op, GetRegister(Rs1Of32(x)), GetRegister(Rs2Of32(x)), state.flags);
      SetRegister(Rd32(x), result);
      SetFlags(f);
      status := DONE;
    }

    method Mul32(x: bv32)
      requires Valid()
      modifies Repr
      ensures Valid() && Repr == old(Repr)
      ensures View() == CpuModel.Mul32(old(View()), x)
    {
      var (result, f) := MulOp((x & 0x700_0000) >> 24, GetRegister(Rs1Of32(x)), GetRegister(Rs2Of32(x)), state.flags);
      SetFlags(f);
      SetRegister(Rd32(x), result);
    }

    method Fpu3(x: bv32, fpu: FloatOps) returns (status: Status)
      requires Valid()
      modifies Repr
      ensures Valid() && Repr == old(Repr)
      ensures (View(), status) == CpuModel.Fpu3(old(View()), x, fpu)
    {
      var op := (x & 0x700_0000) >> 24;
      var lhs := GetRegister(Rs1Of32(x));
      var rhs := GetRegister(Rs2Of32(x));
      if op == 4 || op == 5 {
        return Raised(IllegalInstructionException);
      }
      var result :=
        if op == 0 then fpu.add(lhs, rhs)
        else if op == 1 then fpu.sub(lhs, rhs)
        else if op == 2 then fpu.mul(lhs, rhs)
        else if op == 3 then fpu.div(lhs, rhs)
        else if op == 6 then fpu.min(lhs, rhs)
        else fpu.max(lhs, rhs);
      SetRegister(Rd32(x), result);
      status := DONE;
    }

    method Fpu2(x: bv32, fpu: FloatOps)
      requires Valid()
      modifies Repr
      ensures Valid() && Repr == old(Repr)
      ensures View() == CpuModel.Fpu2(old(View()), x, fpu)
    {
      var op := (x & 0x700_0000) >> 24;
      var value := GetRegister(Rs1Of32(x));
      var result :=
        if op == 0 then fpu.floor(value)
        else if op == 1 then fpu.ceil(value)
        else if op == 2 then fpu.round(value)
        else if op == 3 then fpu.trunc(value)
        else if op == 4 then FloatAbs(value)
        else if op == 5 then FloatNeg(value)
        else if op == 6 then fpu.sqrt(value)
        else fpu.recip(fpu.sqrt(value));
      SetRegister(Rd32(x), result);
    }

    method Fcmp(x: bv32, fpu: FloatOps)
      requires Valid()
      modifies Repr
      ensures Valid() && Repr == old(Repr)
      ensures View() == CpuModel.Fcmp(old(View()), x, fpu)
    {
      var op := (x & 0x300_0000) >> 24;
      var lhs := GetRegister(Rs1Of32(x));
      var rhs := GetRegister(Rs2Of32(x));
      var holds :=
        if op == 0 then fpu.eq(lhs, rhs)
        else if op == 1 then !fpu.eq(lhs, rhs)
        else if op == 2 then fpu.lt(lhs, rhs)
        else fpu.ge(lhs, rhs);
      SetRegister(Rd32(x), if holds then 1 else 0);
    }

    method Cvt(x: bv32, fpu: FloatOps) returns (status: Status)
      requires Valid()
      modifies Repr
      ensures Valid() && Repr == old(Repr)
      ensures (View(), status) == CpuModel.Cvt(old(View()), x, fpu)
    {
      var op := (x & 0x700_0000) >> 24;
      var value := GetRegister(Rs1Of32(x));
      if op == 0 {
        SetRegister(Rd32(x), fpu.toInt(value));
        status := DONE;
      } else if op == 1 {
        SetRegister(Rd32(x), fpu.fromInt(value));
        status := DONE;
      } else {
        status := Raised(IllegalInstructionException);
      }
    }

    method Ldr<M>(x: bv32, priv: PrivilegeLevel, mem: MemoryOps<M>, m: M) returns (m': M, status: Status)
      requires Valid()
      modifies Repr
      ensures Valid() && Repr == old(Repr)
      ensures View() == CpuModel.Ldr(old(View()), x, priv, mem, m).0
      ensures m' == CpuModel.Ldr(old(View()), x, priv, mem, m).1
      ensures status == CpuModel.Ldr(old(View()), x, priv, mem, m).2
    {
      var op := (x & 0x700_0000) >> 24;
      if op >= 6 {
        return m, Raised(IllegalInstructionException);
      }
      var (r, m1) := Load(mem, m, GetRegister(Rs1Of32(x)), priv, true, op);
      m' := m1;
      if r.Err? {
        status := MemoryStatus(r);
      } else {
        SetRegister(Rd32(x), r.value);
        status := DONE;
      }
    }

    method Stc<M>(x: bv32, priv: PrivilegeLevel, mem: MemoryOps<M>, m: M) returns (m': M, status: Status)
      requires Valid()
      modifies Repr
      ensures Valid() && Repr == old(Repr)
      ensures View() == CpuModel.Stc(old(View()), x, priv, mem, m).0
      ensures m' == CpuModel.Stc(old(View()), x, priv, mem, m).1
      ensures status == CpuModel.Stc(old(View()), x, priv, mem, m).2
    {
      var op := (x & 0x600_0000) >> 25;
      if op == 3 {
        return m, Raised(IllegalInstructionException);
      }
      var (w, m1) := Store(mem, m, GetRegister(Rs1Of32(x)), GetRegister(Rs2Of32(x)), priv, true, op);
      m' := m1;
      if w.Err? {
        status := MemoryStatus(w);
      } else {
        SetRegister(Rd32(x), if w.value then 1 else 0);
        status := DONE;
      }
    }

    // -------------------------------------------------------------------------
    // The decode tree

    method Execute32Register<M>(x: bv32, priv: PrivilegeLevel, fpu: FloatOps, mem: MemoryOps<M>, m: M)
      returns (m': M, status: Status)
      requires Valid()
      modifies Repr
      ensures Valid() && Repr == old(Repr)
      ensures (View(), m', status) == CpuModel.Execute32Register(old(View()), x, priv, fpu, mem, m)
    {
      var op := Opcode32(x);
      m', status := m, DONE;
      if op == 0 {
        Alu32(x);
      } else if op == 1 {
        Mov32(x);
      } else if op == 2 {
        status := Aluc32(x);
      } else if op == 3 {
        Mul32(x);
      } else if op == 4 {
        status := Fpu3(x, fpu);
      } else if op == 5 {
        Fpu2(x, fpu);
      } else if op == 6 {
        Fcmp(x, fpu);
      } else if op == 7 {
        status := Cvt(x, fpu);
      } else if op < 16 && op & 1 == 0 {
        m', status := Ldr(x, priv, mem, m);
      } else if op < 16 {
        m', status := Stc(x, priv, mem, m);
      } else {
        status := Raised(IllegalInstructionException);
      }
    }

    method Execute32<M, D>(x: bv32, priv: PrivilegeLevel, fpu: FloatOps, mem: MemoryOps<M>, m: M, io: IoOps<D>, d: D)
      returns (m': M, d': D, status: Status)
      requires Valid()
      modifies Repr
      ensures Valid() && Repr == old(Repr)
      ensures Outcome(View(), m', d', status) == CpuModel.Execute32(old(View()), x, priv, fpu, mem, m, io, d)
    {
      var group := (x & 0xC0_0000) >> 22;
      m', d', status := m, d, DONE;
      if group == 0 {
        if x & 0x40 == 0 { Jump32(x); } else { Branch32(x); }
      } else if group == 1 {
        if x & 0x40 == 0 { Alui32(x); } else { Movi32(x); }
      } else if group == 2 {
        m', d', status := Mem32(x, priv, mem, m, io, d);
      } else {
        m', status := Execute32Register(x, priv, fpu, mem, m);
      }
    }

    /** Fetch the upper half-word, join it to the lower one and advance the PC. */
    method FetchUpper<M>(lower: bv32, priv: PrivilegeLevel, mem: MemoryOps<M>, m: M)
      returns (full: Option<bv32>, m': M, status: Status)
      requires Valid()
      modifies this
      ensures Valid() && Repr == old(Repr)
      ensures (full, View(), m', status) == CpuModel.FetchUpper(old(View()), lower, priv, mem, m)
    {
      var (r, m1) := mem.read16(m, programCounter, priv, false);
      m' := m1;
      if r.Err? {
        return None, m', MemoryStatus(r);
      }
      full := Some(lower | ((r.value as bv32) << 16));
      programCounter := programCounter + 2;
      status := DONE;
    }

    method Execute<M, D>(x: bv32, priv: PrivilegeLevel, fpu: FloatOps, mem: MemoryOps<M>, m: M, io: IoOps<D>, d: D)
      returns (m': M, d': D, status: Status)
      requires Valid()
      modifies Repr
      ensures Valid() && Repr == old(Repr)
      ensures Outcome(View(), m', d', status) == CpuModel.Execute(old(View()), x, priv, fpu, mem, m, io, d)
    {
      m', d', status := m, d, DONE;
      if x & 0x1 == 0 {
        LdiAddi16(x);
      } else if x & 0x2 == 0 {
        Jump16(x);
      } else if x & 0x4 == 0 {
        if x & 0x80 == 0 {
          Branch16(x);
        } else {
          var full;
          full, m', status := FetchUpper(x, priv, mem, m);
          if full.Some? {
            Uimm32(full.value);
          }
        }
      } else {
        var group := (x & 0x18) >> 3;
        if group == 0 {
          Alu16(x);
        } else if group == 1 {
          Mov16(x);
        } else if group == 2 {
          if x & 0x60 != 0 {
            Alui16(x);
          } else if x & 0x80 == 0 {
            Cmp16(x);
          } else {
            status := Sys16(x);
          }
        } else if x & 0x20 == 0 {
          m', status := Mem16(x, priv, mem, m);
        } else {
          var full;
          full, m', status := FetchUpper(x, priv, mem, m);
          if full.Some? {
            m', d', status := Execute32(full.value, priv, fpu, mem, m', io, d);
          }
        }
      }
    }

    /** `step_inner`. */
    method StepInner<M, D>(fpu: FloatOps, mem: MemoryOps<M>, m: M, io: IoOps<D>, d: D)
      returns (m': M, d': D, status: Status)
      requires Valid()
      modifies Repr
      ensures Valid() && Repr == old(Repr)
      ensures Outcome(View(), m', d', status) == CpuModel.StepInner(old(View()), fpu, mem, m, io, d)
    {
      var slot := NextInterrupt();
      if slot.Some? {
        EnterInterrupt(hardwareInterruptTable[slot.value]);
        return m, d, DONE;
      }
      var priv := EffectivePrivilegeLevel();
      var (r, m1) := mem.read16(m, programCounter, priv, false);
      if r.Err? {
        return m1, d, MemoryStatus(r);
      }
      programCounter := programCounter + 2;
      m', d', status := Execute(r.value as bv32, priv, fpu, mem, m1, io, d);
    }

    /**
     * `step`: the envcall code, if any, in `Completed`; an exception enters
     * its vector; `Fatal` is the panic of an exception inside a handler.
     */
    method Step<M, D>(fpu: FloatOps, mem: MemoryOps<M>, m: M, io: IoOps<D>, d: D)
      returns (m': M, d': D, status: Status)
      requires Valid()
      modifies Repr
      ensures Valid() && Repr == old(Repr)
      ensures Outcome(View(), m', d', status) == CpuModel.Step(old(View()), fpu, mem, m, io, d)
    {
      m', d', status := StepInner(fpu, mem, m, io, d);
      if status.Raised? {
        var entered := Exception(status.kind);
        status := if entered then DONE else Fatal;
      }
    }
  }
}
