/**
 * The memory and I/O doubles of Emulator/src/cpu/tests.rs, which the
 * instruction tests run the CPU against.
 *
 * `TestMemory` borrows a slice of words that starts at the reset address and
 * is the only implementation of the memory interface that reports
 * `UnalignedAccess`: the alignment check of the 16- and 32-bit accessors
 * comes before the range check. Privilege and the reserve flag are ignored,
 * and a conditional write succeeds exactly when `pass_cond` was set. As for
 * the MMU, its accessors are pure functions of a state value (`TestRead32`,
 * ...), and class `TestMemory` performs the writes in place and is proved to
 * agree with them. `TestIo` rejects every access.
 */
module TestDoubles {
  import opened Wrappers
  import opened Interface
  import Mem = Memory

  /** `RESET_PROGRAM_COUNTER`, where the test memory starts, as a number. */
  const TEST_MEMORY_START: nat := 0x1000_0000

  datatype TestMemoryData = TestMemoryData(mem: seq<bv32>, passCond: bool)

  /**
   * The `u32` sum `RESET_PROGRAM_COUNTER + mem.len() * 4` that computes the
   * last address must not overflow.
   */
  type TestMemoryState = s: TestMemoryData | TEST_MEMORY_START + 4 * |s.mem| <= 0xFFFF_FFFF
    witness TestMemoryData([], false)

  /** `(RESET_PROGRAM_COUNTER..=mem_end).contains(&addr)` with `mem_end` the last byte of the slice. */
  predicate InTestRange(s: TestMemoryState, addr: nat) {
    TEST_MEMORY_START <= addr <= TEST_MEMORY_START + 4 * |s.mem| - 1
  }

  /** The byte offset of an address in the slice. */
  function TestOffset(s: TestMemoryState, addr: nat): (o: nat)
    requires InTestRange(s, addr)
    ensures Mem.InBounds(s.mem, o)
  {
    addr - TEST_MEMORY_START
  }

  function TestRead32(s: TestMemoryState, addr: nat): Result<bv32, MemoryError> {
    if addr % 4 != 0 then Err(UnalignedAccess)
    else if InTestRange(s, addr) then Ok(Mem.Load32(s.mem, TestOffset(s, addr)))
    else Err(AccessViolation)
  }

  function TestRead16(s: TestMemoryState, addr: nat): Result<bv16, MemoryError> {
    if addr % 2 != 0 then Err(UnalignedAccess)
    else if InTestRange(s, addr) then Ok(Mem.Load16(s.mem, TestOffset(s, addr)))
    else Err(AccessViolation)
  }

  function TestRead8(s: TestMemoryState, addr: nat): Result<bv8, MemoryError> {
    if InTestRange(s, addr) then Ok(Mem.Load8(s.mem, TestOffset(s, addr)))
    else Err(AccessViolation)
  }

  /** `do_write = self.pass_cond | !conditional`. */
  predicate TestDoWrite(s: TestMemoryState, conditional: bool) {
    s.passCond || !conditional
  }

  function TestWrite32(s: TestMemoryState, addr: nat, value: bv32, conditional: bool): (Result<bool, MemoryError>, TestMemoryState) {
    if addr % 4 != 0 then (Err(UnalignedAccess), s)
    else if InTestRange(s, addr) then
      var doWrite := TestDoWrite(s, conditional);
      (Ok(doWrite), if doWrite then s.(mem := Mem.Store32(s.mem, TestOffset(s, addr), value)) else s)
    else (Err(AccessViolation), s)
  }

  function TestWrite16(s: TestMemoryState, addr: nat, value: bv16, conditional: bool): (Result<bool, MemoryError>, TestMemoryState) {
    if addr % 2 != 0 then (Err(UnalignedAccess), s)
    else if InTestRange(s, addr) then
      var doWrite := TestDoWrite(s, conditional);
      (Ok(doWrite), if doWrite then s.(mem := Mem.Store16(s.mem, TestOffset(s, addr), value)) else s)
    else (Err(AccessViolation), s)
  }

  function TestWrite8(s: TestMemoryState, addr: nat, value: bv8, conditional: bool): (Result<bool, MemoryError>, TestMemoryState) {
    if InTestRange(s, addr) then
      var doWrite := TestDoWrite(s, conditional);
      (Ok(doWrite), if doWrite then s.(mem := Mem.Store8(s.mem, TestOffset(s, addr), value)) else s)
    else (Err(AccessViolation), s)
  }

  /** `MemoryInterface for TestMemory`: the privilege level and the reserve flag are unused. */
  function TestMemoryOps(): MemoryOps<TestMemoryState> {
    MemoryOps(
      (s, addr: bv32, _, _) => (TestRead32(s, addr as int), s),
      (s, addr: bv32, _, _) => (TestRead16(s, addr as int), s),
      (s, addr: bv32, _, _) => (TestRead8(s, addr as int), s),
      (s, addr: bv32, value, _, conditional) => TestWrite32(s, addr as int, value, conditional),
      (s, addr: bv32, value, _, conditional) => TestWrite16(s, addr as int, value, conditional),
      (s, addr: bv32, value, _, conditional) => TestWrite8(s, addr as int, value, conditional))
  }

  /** `IoInterface for TestIo`: every read and write is an access violation. */
  function TestIoOps(): IoOps<()> {
    IoOps(
      (d, _, _) => (Err(IoAccessViolation), d),
      (d, _, _, _) => (Err(IoAccessViolation), d))
  }

  // ---------------------------------------------------------------------
  // Properties of the doubles
  // ---------------------------------------------------------------------

  /**
   * A misaligned 32-bit access is reported as unaligned whether or not the
   * address is in range, and a failed write leaves the memory as it was.
   */
  lemma Unaligned32(s: TestMemoryState, addr: nat, value: bv32, conditional: bool)
    requires addr % 4 != 0
    ensures TestRead32(s, addr) == Err(UnalignedAccess)
    ensures TestWrite32(s, addr, value, conditional) == (Err(UnalignedAccess), s)
  {
  }

  /** A 16-bit access at an odd address is reported as unaligned. */
  lemma Unaligned16(s: TestMemoryState, addr: nat, value: bv16, conditional: bool)
    requires addr % 2 != 0
    ensures TestRead16(s, addr) == Err(UnalignedAccess)
    ensures TestWrite16(s, addr, value, conditional) == (Err(UnalignedAccess), s)
  {
  }

  /** An aligned access (every 8-bit access is aligned) is unaligned for no address. */
  lemma AlignedNeverUnaligned(s: TestMemoryState, addr: nat, v32: bv32, v16: bv16, v8: bv8, conditional: bool)
    ensures TestRead8(s, addr) != Err(UnalignedAccess)
    ensures TestWrite8(s, addr, v8, conditional).0 != Err(UnalignedAccess)
    ensures addr % 2 == 0 ==> TestRead16(s, addr) != Err(UnalignedAccess)
    ensures addr % 2 == 0 ==> TestWrite16(s, addr, v16, conditional).0 != Err(UnalignedAccess)
    ensures addr % 4 == 0 ==> TestRead32(s, addr) != Err(UnalignedAccess)
    ensures addr % 4 == 0 ==> TestWrite32(s, addr, v32, conditional).0 != Err(UnalignedAccess)
  {
  }

  /** An aligned access outside the slice is an access violation and changes nothing. */
  lemma OutOfRange(s: TestMemoryState, addr: nat, v32: bv32, v16: bv16, v8: bv8, conditional: bool)
    requires !InTestRange(s, addr)
    ensures TestRead8(s, addr) == Err(AccessViolation)
    ensures TestWrite8(s, addr, v8, conditional) == (Err(AccessViolation), s)
    ensures addr % 2 == 0 ==> TestRead16(s, addr) == Err(AccessViolation)
    ensures addr % 2 == 0 ==> TestWrite16(s, addr, v16, conditional) == (Err(AccessViolation), s)
    ensures addr % 4 == 0 ==> TestRead32(s, addr) == Err(AccessViolation)
    ensures addr % 4 == 0 ==> TestWrite32(s, addr, v32, conditional) == (Err(AccessViolation), s)
  {
  }

  /** The in-range addresses are exactly `RESET_PROGRAM_COUNTER` up to the slice's last byte. */
  lemma RangeIsSlice(s: TestMemoryState, addr: nat)
    ensures InTestRange(s, addr) <==> TEST_MEMORY_START <= addr < TEST_MEMORY_START + 4 * |s.mem|
  {
  }

  /**
   * An aligned in-range write reports `pass_cond || !conditional`; it stores
   * the value when it reports true, after which a read returns it, and it
   * changes nothing when it reports false.
   */
  lemma Write32Outcome(s: TestMemoryState, addr: nat, value: bv32, conditional: bool)
    requires addr % 4 == 0 && InTestRange(s, addr)
    ensures TestWrite32(s, addr, value, conditional).0 == Ok(s.passCond || !conditional)
    ensures s.passCond || !conditional ==> TestRead32(TestWrite32(s, addr, value, conditional).1, addr) == Ok(value)
    ensures !(s.passCond || !conditional) ==> TestWrite32(s, addr, value, conditional).1 == s
  {
    Mem.Load32AfterStore32(s.mem, TestOffset(s, addr), value);
  }

  lemma Write16Outcome(s: TestMemoryState, addr: nat, value: bv16, conditional: bool)
    requires addr % 2 == 0 && InTestRange(s, addr)
    ensures TestWrite16(s, addr, value, conditional).0 == Ok(s.passCond || !conditional)
    ensures s.passCond || !conditional ==> TestRead16(TestWrite16(s, addr, value, conditional).1, addr) == Ok(value)
    ensures !(s.passCond || !conditional) ==> TestWrite16(s, addr, value, conditional).1 == s
  {
    Mem.Load16AfterStore16(s.mem, TestOffset(s, addr), value);
  }

  lemma Write8Outcome(s: TestMemoryState, addr: nat, value: bv8, conditional: bool)
    requires InTestRange(s, addr)
    ensures TestWrite8(s, addr, value, conditional).0 == Ok(s.passCond || !conditional)
    ensures s.passCond || !conditional ==> TestRead8(TestWrite8(s, addr, value, conditional).1, addr) == Ok(value)
    ensures !(s.passCond || !conditional) ==> TestWrite8(s, addr, value, conditional).1 == s
  {
    Mem.Load8AfterStore8(s.mem, TestOffset(s, addr), value);
  }

  /** The result and the next state of every accessor do not depend on the privilege level or the reserve flag. */
  lemma IgnoresPrivilegeAndReserve(s: TestMemoryState, addr: bv32, v32: bv32, v16: bv16, v8: bv8,
                                   p: PrivilegeLevel, q: PrivilegeLevel, reserve: bool, conditional: bool)
    ensures TestMemoryOps().read32(s, addr, p, reserve) == TestMemoryOps().read32(s, addr, q, false)
    ensures TestMemoryOps().read16(s, addr, p, reserve) == TestMemoryOps().read16(s, addr, q, false)
    ensures TestMemoryOps().read8(s, addr, p, reserve) == TestMemoryOps().read8(s, addr, q, false)
    ensures TestMemoryOps().write32(s, addr, v32, p, conditional) == TestMemoryOps().write32(s, addr, v32, q, conditional)
    ensures TestMemoryOps().write16(s, addr, v16, p, conditional) == TestMemoryOps().write16(s, addr, v16, q, conditional)
    ensures TestMemoryOps().write8(s, addr, v8, p, conditional) == TestMemoryOps().write8(s, addr, v8, q, conditional)
  {
  }

  /** `TestIo` rejects every read and every write, and has no state to change. */
  lemma TestIoRejects(addr: bv32, value: bv32, p: PrivilegeLevel)
    ensures TestIoOps().read((), addr, p) == (Err(IoAccessViolation), ())
    ensures TestIoOps().write((), addr, value, p) == (Err(IoAccessViolation), ())
  {
  }

  // ---------------------------------------------------------------------
  // The double as an object
  // ---------------------------------------------------------------------

  /** `TestMemory`: a mutable borrow of a word slice and the outcome of conditional writes. */
  class TestMemory {
    const mem: array<bv32>
    const passCond: bool

    ghost predicate Valid()
      reads this
    {
      TEST_MEMORY_START + 4 * mem.Length <= 0xFFFF_FFFF
    }

    function State(): TestMemoryState
      reads this, mem
      requires Valid()
    {
      TestMemoryData(mem[..], passCond)
    }

    /** `TestMemory::new`. */
    constructor (mem: array<bv32>, passCond: bool)
      requires TEST_MEMORY_START + 4 * mem.Length <= 0xFFFF_FFFF
      ensures Valid() && this.mem == mem && this.passCond == passCond
    {
      this.mem := mem;
      this.passCond := passCond;
    }

    method Read32(addr: nat) returns (r: Result<bv32, MemoryError>)
      requires Valid()
      ensures r == TestRead32(State(), addr)
    {
      if addr % 4 != 0 {
        return Err(UnalignedAccess);
      }
      if TEST_MEMORY_START <= addr <= TEST_MEMORY_START + 4 * mem.Length - 1 {
        r := Ok(mem[(addr - TEST_MEMORY_START) / 4]);
      } else {
        r := Err(AccessViolation);
      }
    }

    method Read16(addr: nat) returns (r: Result<bv16, MemoryError>)
      requires Valid()
      ensures r == TestRead16(State(), addr)
    {
      if addr % 2 != 0 {
        return Err(UnalignedAccess);
      }
      if TEST_MEMORY_START <= addr <= TEST_MEMORY_START + 4 * mem.Length - 1 {
        var o := addr - TEST_MEMORY_START;
        r := Ok(Mem.HalfOf(mem[o / 4], Mem.HalfLane(o)));
      } else {
        r := Err(AccessViolation);
      }
    }

    method Read8(addr: nat) returns (r: Result<bv8, MemoryError>)
      requires Valid()
      ensures r == TestRead8(State(), addr)
    {
      if TEST_MEMORY_START <= addr <= TEST_MEMORY_START + 4 * mem.Length - 1 {
        var o := addr - TEST_MEMORY_START;
        r := Ok(Mem.ByteOf(mem[o / 4], Mem.ByteLane(o)));
      } else {
        r := Err(AccessViolation);
      }
    }

    method Write32(addr: nat, value: bv32, conditional: bool) returns (r: Result<bool, MemoryError>)
      requires Valid()
      modifies mem
      ensures Valid() && (r, State()) == TestWrite32(old(State()), addr, value, conditional)
    {
      if addr % 4 != 0 {
        return Err(UnalignedAccess);
      }
      var doWrite := passCond || !conditional;
      if TEST_MEMORY_START <= addr <= TEST_MEMORY_START + 4 * mem.Length - 1 {
        if doWrite {
          mem[(addr - TEST_MEMORY_START) / 4] := value;
        }
        r := Ok(doWrite);
      } else {
        r := Err(AccessViolation);
      }
    }

    method Write16(addr: nat, value: bv16, conditional: bool) returns (r: Result<bool, MemoryError>)
      requires Valid()
      modifies mem
      ensures Valid() && (r, State()) == TestWrite16(old(State()), addr, value, conditional)
    {
      if addr % 2 != 0 {
        return Err(UnalignedAccess);
      }
      var doWrite := passCond || !conditional;
      if TEST_MEMORY_START <= addr <= TEST_MEMORY_START + 4 * mem.Length - 1 {
        if doWrite {
          var o := addr - TEST_MEMORY_START;
          mem[o / 4] := Mem.WithHalf(mem[o / 4], Mem.HalfLane(o), value);
        }
        r := Ok(doWrite);
      } else {
        r := Err(AccessViolation);
      }
    }

    method Write8(addr: nat, value: bv8, conditional: bool) returns (r: Result<bool, MemoryError>)
      requires Valid()
      modifies mem
      ensures Valid() && (r, State()) == TestWrite8(old(State()), addr, value, conditional)
    {
      var doWrite := passCond || !conditional;
      if TEST_MEMORY_START <= addr <= TEST_MEMORY_START + 4 * mem.Length - 1 {
        if doWrite {
          var o := addr - TEST_MEMORY_START;
          mem[o / 4] := Mem.WithByte(mem[o / 4], Mem.ByteLane(o), value);
        }
        r := Ok(doWrite);
      } else {
        r := Err(AccessViolation);
      }
    }
  }
}
