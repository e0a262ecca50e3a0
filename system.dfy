/**
 * Emulator/src/system.rs: the memory map, the load-reserve/store-conditional
 * reservation and the MMU that routes the CPU's memory accesses to the two
 * RAM blocks.
 *
 * The MMU is modelled twice: as pure functions over an `MmuState` value,
 * which is what the CPU model is generic over (`MmuOps`), and as class `Mmu`,
 * which holds references to two `Memory` objects and a `Reservation` and
 * whose methods are proved to act exactly as the pure functions.
 */
module Art32System {
  import opened Wrappers
  import opened Interface
  import Mem = Memory

  // The `u32` constants of the memory map, as numbers.
  const KERNEL_RAM_SIZE: nat := 0x0000_8000
  const KERNEL_RAM_START: nat := 0x1000_0000
  const KERNEL_RAM_END: nat := 0x1000_7FFF // KERNEL_RAM_START + KERNEL_RAM_SIZE - 1

  const SYSTEM_RAM_SIZE: nat := 0x0010_0000
  const SYSTEM_RAM_START: nat := 0x2000_0000
  const SYSTEM_RAM_END: nat := 0x200F_FFFF // SYSTEM_RAM_START + SYSTEM_RAM_SIZE - 1

  /** Number of 32-bit words in each RAM block (`Memory::new(size)` holds size / 4). */
  const KERNEL_RAM_WORDS: nat := 0x2000
  const SYSTEM_RAM_WORDS: nat := 0x4_0000

  predicate InKernelRange(addr: nat) {
    KERNEL_RAM_START <= addr <= KERNEL_RAM_END
  }

  predicate InSystemRange(addr: nat) {
    SYSTEM_RAM_START <= addr <= SYSTEM_RAM_END
  }

  // ---------------------------------------------------------------------
  // Reservation
  // ---------------------------------------------------------------------

  /** The word-aligned address `addr & !3`, as a number. */
  function WordBase(addr: nat): (base: nat)
    ensures base <= addr && base % 4 == 0 && addr - base < 4
  {
    addr - addr % 4
  }

  /** Whether a reservation covers the aligned word of `addr`. */
  predicate Reserves(reservation: Option<nat>, addr: nat) {
    reservation == Some(WordBase(addr))
  }

  /** The reservation after `check_write(addr)`. */
  function AfterCheckWrite(reservation: Option<nat>, addr: nat): Option<nat> {
    if Reserves(reservation, addr) then None else reservation
  }

  /** A reservation taken by a read at `a` is matched by a write at `b` exactly when both are in the same word. */
  lemma TakeMatchesSameWord(a: nat, b: nat)
    ensures Reserves(Some(WordBase(a)), b) <==> a / 4 == b / 4
  {
  }

  /**
   * A successful `check_write` consumes the reservation: a second
   * `check_write`, at any address, fails unless a `take` came in between,
   * and leaves the reservation empty.
   */
  lemma CheckWriteSucceedsOnce(reservation: Option<nat>, a: nat, b: nat)
    requires Reserves(reservation, a)
    ensures AfterCheckWrite(reservation, a) == None
    ensures !Reserves(AfterCheckWrite(reservation, a), b)
  {
  }

  /** A failed `check_write` leaves the reservation as it was. */
  lemma CheckWriteMissKeeps(reservation: Option<nat>, a: nat)
    requires !Reserves(reservation, a)
    ensures AfterCheckWrite(reservation, a) == reservation
  {
  }

  /** `Reservation`: an optional word-aligned address. */
  class Reservation {
    var addr: Option<nat>

    /** `Default::default()`: no reservation. */
    constructor ()
      ensures addr == None
    {
      addr := None;
    }

    method Reset()
      modifies this
      ensures addr == None
    {
      addr := None;
    }

    method Take(readAddr: nat)
      modifies this
      ensures addr == Some(WordBase(readAddr))
    {
      addr := Some(readAddr - readAddr % 4);
    }

    method CheckWrite(writeAddr: nat) returns (reserved: bool)
      modifies this
      ensures reserved == Reserves(old(addr), writeAddr)
      ensures addr == AfterCheckWrite(old(addr), writeAddr)
    {
      if addr == Some(writeAddr - writeAddr % 4) {
        addr := None;
        reserved := true;
      } else {
        reserved := false;
      }
    }
  }

  // ---------------------------------------------------------------------
  // Address decoding
  // ---------------------------------------------------------------------

  /** Where an MMU access goes: an offset into one RAM block, or nowhere. */
  datatype Target = KernelRam(offset: nat) | SystemRam(offset: nat) | Unmapped

  /**
   * The `match addr` of every MMU accessor. Kernel RAM is only reachable at
   * System privilege; at User privilege its addresses fall through to the
   * system RAM arm, which they do not match either.
   */
  function Route(addr: nat, priv: PrivilegeLevel): (t: Target)
    ensures t.KernelRam? ==> t.offset < KERNEL_RAM_SIZE
    ensures t.SystemRam? ==> t.offset < SYSTEM_RAM_SIZE
  {
    if InKernelRange(addr) && priv == System then KernelRam(addr - KERNEL_RAM_START)
    else if InSystemRange(addr) then SystemRam(addr - SYSTEM_RAM_START)
    else Unmapped
  }

  /** The memory map: which addresses reach which block, at which privilege. */
  lemma RouteKernel(addr: nat, priv: PrivilegeLevel)
    ensures Route(addr, priv).KernelRam? <==> InKernelRange(addr) && priv == System
  {
  }

  lemma RouteSystem(addr: nat, priv: PrivilegeLevel)
    ensures Route(addr, priv).SystemRam? <==> InSystemRange(addr)
  {
    DisjointRanges(addr);
  }

  lemma RouteUnmapped(addr: nat, priv: PrivilegeLevel)
    ensures Route(addr, priv).Unmapped? <==> !InSystemRange(addr) && !(InKernelRange(addr) && priv == System)
  {
  }

  lemma DisjointRanges(addr: nat)
    ensures !(InKernelRange(addr) && InSystemRange(addr))
  {
  }

  /** The offset is the distance from the start of the block reached. */
  lemma RouteOffset(addr: nat, priv: PrivilegeLevel)
    ensures Route(addr, priv).KernelRam? ==> Route(addr, priv).offset == addr - KERNEL_RAM_START
    ensures Route(addr, priv).SystemRam? ==> Route(addr, priv).offset == addr - SYSTEM_RAM_START
  {
  }

  // ---------------------------------------------------------------------
  // The MMU as functions of its state
  // ---------------------------------------------------------------------

  /** The state an `Mmu` reaches through its references. */
  datatype MmuData = MmuData(kernel: seq<bv32>, system: seq<bv32>, reservation: Option<nat>)

  type MmuState = s: MmuData | |s.kernel| == KERNEL_RAM_WORDS && |s.system| == SYSTEM_RAM_WORDS
    witness MmuData(seq(KERNEL_RAM_WORDS, _ => 0), seq(SYSTEM_RAM_WORDS, _ => 0), None)

  /** A reserving read takes the reservation first, whatever the outcome. */
  function ReadReservation(s: MmuState, addr: nat, reserve: bool): MmuState {
    if reserve then s.(reservation := Some(WordBase(addr))) else s
  }

  function MmuRead32(s: MmuState, addr: nat, priv: PrivilegeLevel, reserve: bool): (Result<bv32, MemoryError>, MmuState) {
    var s' := ReadReservation(s, addr, reserve);
    match Route(addr, priv)
    case KernelRam(o) => (Ok(Mem.Load32(s.kernel, o)), s')
    case SystemRam(o) => (Ok(Mem.Load32(s.system, o)), s')
    case Unmapped => (Err(AccessViolation), s')
  }

  function MmuRead16(s: MmuState, addr: nat, priv: PrivilegeLevel, reserve: bool): (Result<bv16, MemoryError>, MmuState) {
    var s' := ReadReservation(s, addr, reserve);
    match Route(addr, priv)
    case KernelRam(o) => (Ok(Mem.Load16(s.kernel, o)), s')
    case SystemRam(o) => (Ok(Mem.Load16(s.system, o)), s')
    case Unmapped => (Err(AccessViolation), s')
  }

  function MmuRead8(s: MmuState, addr: nat, priv: PrivilegeLevel, reserve: bool): (Result<bv8, MemoryError>, MmuState) {
    var s' := ReadReservation(s, addr, reserve);
    match Route(addr, priv)
    case KernelRam(o) => (Ok(Mem.Load8(s.kernel, o)), s')
    case SystemRam(o) => (Ok(Mem.Load8(s.system, o)), s')
    case Unmapped => (Err(AccessViolation), s')
  }

  /** `do_write`: the reservation matched, or the write is not conditional. */
  predicate DoWrite(s: MmuState, addr: nat, conditional: bool) {
    Reserves(s.reservation, addr) || !conditional
  }

  /** Every write runs `check_write` before it decodes the address. */
  function WriteReservation(s: MmuState, addr: nat): MmuState {
    s.(reservation := AfterCheckWrite(s.reservation, addr))
  }

  function MmuWrite32(s: MmuState, addr: nat, value: bv32, priv: PrivilegeLevel, conditional: bool): (Result<bool, MemoryError>, MmuState) {
    var doWrite := DoWrite(s, addr, conditional);
    var s' := WriteReservation(s, addr);
    match Route(addr, priv)
    case KernelRam(o) =>
      (Ok(doWrite), if doWrite then s'.(kernel := Mem.Store32(s.kernel, o, value)) else s')
    case SystemRam(o) =>
      (Ok(doWrite), if doWrite then s'.(system := Mem.Store32(s.system, o, value)) else s')
    case Unmapped => (Err(AccessViolation), s')
  }

  function MmuWrite16(s: MmuState, addr: nat, value: bv16, priv: PrivilegeLevel, conditional: bool): (Result<bool, MemoryError>, MmuState) {
    var doWrite := DoWrite(s, addr, conditional);
    var s' := WriteReservation(s, addr);
    match Route(addr, priv)
    case KernelRam(o) =>
      (Ok(doWrite), if doWrite then s'.(kernel := Mem.Store16(s.kernel, o, value)) else s')
    case SystemRam(o) =>
      (Ok(doWrite), if doWrite then s'.(system := Mem.Store16(s.system, o, value)) else s')
    case Unmapped => (Err(AccessViolation), s')
  }

  function MmuWrite8(s: MmuState, addr: nat, value: bv8, priv: PrivilegeLevel, conditional: bool): (Result<bool, MemoryError>, MmuState) {
    var doWrite := DoWrite(s, addr, conditional);
    var s' := WriteReservation(s, addr);
    match Route(addr, priv)
    case KernelRam(o) =>
      (Ok(doWrite), if doWrite then s'.(kernel := Mem.Store8(s.kernel, o, value)) else s')
    case SystemRam(o) =>
      (Ok(doWrite), if doWrite then s'.(system := Mem.Store8(s.system, o, value)) else s')
    case Unmapped => (Err(AccessViolation), s')
  }

  /** `MemoryInterface for Mmu`: the trait passes the `u32` address, which the functions above take as a number. */
  function MmuOps(): MemoryOps<MmuState> {
    MemoryOps(
      (s, addr: bv32, priv, reserve) => MmuRead32(s, addr as int, priv, reserve),
      (s, addr: bv32, priv, reserve) => MmuRead16(s, addr as int, priv, reserve),
      (s, addr: bv32, priv, reserve) => MmuRead8(s, addr as int, priv, reserve),
      (s, addr: bv32, value, priv, conditional) => MmuWrite32(s, addr as int, value, priv, conditional),
      (s, addr: bv32, value, priv, conditional) => MmuWrite16(s, addr as int, value, priv, conditional),
      (s, addr: bv32, value, priv, conditional) => MmuWrite8(s, addr as int, value, priv, conditional))
  }

  /** Through the interface the CPU sees, a User read of kernel RAM is rejected at every width. */
  lemma MmuOpsGuardsKernelReads(s: MmuState, addr: bv32, reserve: bool)
    requires InKernelRange(addr as int)
    ensures MmuOps().read32(s, addr, User, reserve).0 == Err(AccessViolation)
    ensures MmuOps().read16(s, addr, User, reserve).0 == Err(AccessViolation)
    ensures MmuOps().read8(s, addr, User, reserve).0 == Err(AccessViolation)
  {
    var n := addr as int;
    UserCannotReachKernel(s, n, reserve, 0, 0, 0, false);
  }

  /** Through the interface the CPU sees, a System word read of kernel RAM returns the RAM word. */
  lemma MmuOpsKernelSystemRead(s: MmuState, addr: bv32, reserve: bool)
    requires InKernelRange(addr as int)
    ensures MmuOps().read32(s, addr, System, reserve).0 == Ok(Mem.Load32(s.kernel, addr as int - KERNEL_RAM_START))
  {
    var n := addr as int;
    SystemReadsKernel(s, n, reserve);
  }

  /** Through the interface the CPU sees, a User write to kernel RAM is rejected at every width. */
  lemma MmuOpsGuardsKernelWrites(s: MmuState, addr: bv32, v32: bv32, v16: bv16, v8: bv8, conditional: bool)
    requires InKernelRange(addr as int)
    ensures MmuOps().write32(s, addr, v32, User, conditional).0 == Err(AccessViolation)
    ensures MmuOps().write16(s, addr, v16, User, conditional).0 == Err(AccessViolation)
    ensures MmuOps().write8(s, addr, v8, User, conditional).0 == Err(AccessViolation)
  {
    var n := addr as int;
    UserCannotReachKernel(s, n, false, v32, v16, v8, conditional);
  }

  // ---------------------------------------------------------------------
  // Properties of the memory map
  // ---------------------------------------------------------------------

  /** A User access to kernel RAM is rejected, at every width, for reads and writes. */
  lemma UserCannotReachKernel(s: MmuState, addr: nat, reserve: bool, v32: bv32, v16: bv16, v8: bv8, conditional: bool)
    requires InKernelRange(addr)
    ensures MmuRead32(s, addr, User, reserve).0 == Err(AccessViolation)
    ensures MmuRead16(s, addr, User, reserve).0 == Err(AccessViolation)
    ensures MmuRead8(s, addr, User, reserve).0 == Err(AccessViolation)
    ensures MmuWrite32(s, addr, v32, User, conditional) == (Err(AccessViolation), WriteReservation(s, addr))
    ensures MmuWrite16(s, addr, v16, User, conditional) == (Err(AccessViolation), WriteReservation(s, addr))
    ensures MmuWrite8(s, addr, v8, User, conditional) == (Err(AccessViolation), WriteReservation(s, addr))
  {
  }

  /** At System privilege kernel RAM reads return the word stored at the offset. */
  lemma SystemReadsKernel(s: MmuState, addr: nat, reserve: bool)
    requires InKernelRange(addr)
    ensures Mem.InBounds(s.kernel, addr - KERNEL_RAM_START)
    ensures MmuRead32(s, addr, System, reserve).0 == Ok(Mem.Load32(s.kernel, addr - KERNEL_RAM_START))
    ensures MmuRead16(s, addr, System, reserve).0 == Ok(Mem.Load16(s.kernel, addr - KERNEL_RAM_START))
    ensures MmuRead8(s, addr, System, reserve).0 == Ok(Mem.Load8(s.kernel, addr - KERNEL_RAM_START))
  {
  }

  /** System RAM is reachable at any privilege level. */
  lemma AnyPrivilegeReadsSystemRam(s: MmuState, addr: nat, priv: PrivilegeLevel, reserve: bool)
    requires InSystemRange(addr)
    ensures Mem.InBounds(s.system, addr - SYSTEM_RAM_START)
    ensures MmuRead32(s, addr, priv, reserve).0 == Ok(Mem.Load32(s.system, addr - SYSTEM_RAM_START))
    ensures MmuRead16(s, addr, priv, reserve).0 == Ok(Mem.Load16(s.system, addr - SYSTEM_RAM_START))
    ensures MmuRead8(s, addr, priv, reserve).0 == Ok(Mem.Load8(s.system, addr - SYSTEM_RAM_START))
  {
  }

  /** An address outside both blocks is rejected at every privilege and width, and no RAM changes. */
  lemma UnmappedRejected(s: MmuState, addr: nat, priv: PrivilegeLevel, reserve: bool, v32: bv32, v16: bv16, v8: bv8, conditional: bool)
    requires !InKernelRange(addr) && !InSystemRange(addr)
    ensures MmuRead32(s, addr, priv, reserve).0 == Err(AccessViolation)
    ensures MmuRead16(s, addr, priv, reserve).0 == Err(AccessViolation)
    ensures MmuRead8(s, addr, priv, reserve).0 == Err(AccessViolation)
    ensures MmuWrite32(s, addr, v32, priv, conditional) == (Err(AccessViolation), WriteReservation(s, addr))
    ensures MmuWrite16(s, addr, v16, priv, conditional) == (Err(AccessViolation), WriteReservation(s, addr))
    ensures MmuWrite8(s, addr, v8, priv, conditional) == (Err(AccessViolation), WriteReservation(s, addr))
  {
  }

  /** Reads never change RAM; a reserving read replaces the reservation even when it fails. */
  lemma ReadsTakeReservation(s: MmuState, addr: nat, priv: PrivilegeLevel, reserve: bool)
    ensures MmuRead32(s, addr, priv, reserve).1 == ReadReservation(s, addr, reserve)
    ensures MmuRead16(s, addr, priv, reserve).1 == ReadReservation(s, addr, reserve)
    ensures MmuRead8(s, addr, priv, reserve).1 == ReadReservation(s, addr, reserve)
    ensures reserve ==> ReadReservation(s, addr, reserve) == s.(reservation := Some(WordBase(addr)))
    ensures !reserve ==> ReadReservation(s, addr, reserve) == s
  {
  }

  /** Every write runs `check_write` first, so a write to the reserved word clears it even if it is rejected. */
  lemma WritesCheckReservation(s: MmuState, addr: nat, priv: PrivilegeLevel, v32: bv32, v16: bv16, v8: bv8, conditional: bool)
    ensures MmuWrite32(s, addr, v32, priv, conditional).1.reservation == AfterCheckWrite(s.reservation, addr)
    ensures MmuWrite16(s, addr, v16, priv, conditional).1.reservation == AfterCheckWrite(s.reservation, addr)
    ensures MmuWrite8(s, addr, v8, priv, conditional).1.reservation == AfterCheckWrite(s.reservation, addr)
  {
  }

  /**
   * A mapped conditional write returns Ok(true) and stores exactly when the
   * reservation matched; otherwise it returns Ok(false) and both RAMs are
   * as they were.
   */
  lemma ConditionalWrite32(s: MmuState, addr: nat, value: bv32, priv: PrivilegeLevel)
    requires !Route(addr, priv).Unmapped?
    ensures MmuWrite32(s, addr, value, priv, true).0 == Ok(Reserves(s.reservation, addr))
    ensures !Reserves(s.reservation, addr) ==>
      MmuWrite32(s, addr, value, priv, true).1 == s
    ensures Reserves(s.reservation, addr) ==>
      MmuWrite32(s, addr, value, priv, true) == MmuWrite32(s, addr, value, priv, false)
    ensures Reserves(s.reservation, addr) && Route(addr, priv).KernelRam? ==>
      Mem.Load32(MmuWrite32(s, addr, value, priv, true).1.kernel, addr - KERNEL_RAM_START) == value
    ensures Reserves(s.reservation, addr) && Route(addr, priv).SystemRam? ==>
      Mem.Load32(MmuWrite32(s, addr, value, priv, true).1.system, addr - SYSTEM_RAM_START) == value
  {
    PlainWrite32(s, addr, value, priv);
  }

  /** A mapped plain write always stores and returns Ok(true). */
  lemma PlainWrite32(s: MmuState, addr: nat, value: bv32, priv: PrivilegeLevel)
    requires !Route(addr, priv).Unmapped?
    ensures MmuWrite32(s, addr, value, priv, false).0 == Ok(true)
    ensures Route(addr, priv).KernelRam? ==>
      Mem.Load32(MmuWrite32(s, addr, value, priv, false).1.kernel, addr - KERNEL_RAM_START) == value
    ensures Route(addr, priv).SystemRam? ==>
      Mem.Load32(MmuWrite32(s, addr, value, priv, false).1.system, addr - SYSTEM_RAM_START) == value
  {
    var t := Route(addr, priv);
    if t.KernelRam? {
      Mem.Load32AfterStore32(s.kernel, t.offset, value);
    } else {
      Mem.Load32AfterStore32(s.system, t.offset, value);
    }
  }

  /**
   * Load-reserved followed by store-conditional to the same word, with
   * nothing in between, succeeds and stores.
   */
  lemma ReservedPairSucceeds(s: MmuState, readAddr: nat, writeAddr: nat, value: bv32, priv: PrivilegeLevel)
    requires readAddr / 4 == writeAddr / 4
    requires !Route(writeAddr, priv).Unmapped?
    ensures MmuWrite32(MmuRead32(s, readAddr, priv, true).1, writeAddr, value, priv, true).0 == Ok(true)
    ensures MmuWrite32(MmuRead32(s, readAddr, priv, true).1, writeAddr, value, priv, true).1.reservation == None
    ensures Route(writeAddr, priv).KernelRam? ==>
      Mem.Load32(MmuWrite32(MmuRead32(s, readAddr, priv, true).1, writeAddr, value, priv, true).1.kernel,
                 writeAddr - KERNEL_RAM_START) == value
    ensures Route(writeAddr, priv).SystemRam? ==>
      Mem.Load32(MmuWrite32(MmuRead32(s, readAddr, priv, true).1, writeAddr, value, priv, true).1.system,
                 writeAddr - SYSTEM_RAM_START) == value
  {
    TakeMatchesSameWord(readAddr, writeAddr);
    ConditionalWrite32(MmuRead32(s, readAddr, priv, true).1, writeAddr, value, priv);
  }

  // ---------------------------------------------------------------------
  // The MMU object
  // ---------------------------------------------------------------------

  /** `Mmu`: mutable borrows of both RAM blocks and of the reservation. */
  class Mmu {
    const kernelRam: Mem.Memory
    const systemRam: Mem.Memory
    const reservation: Reservation

    ghost predicate Valid()
      reads this, kernelRam, systemRam
    {
      kernelRam.words.Length == KERNEL_RAM_WORDS &&
      systemRam.words.Length == SYSTEM_RAM_WORDS &&
      kernelRam.words != systemRam.words
    }

    function State(): MmuState
      reads this, kernelRam, systemRam, kernelRam.words, systemRam.words, reservation
      requires Valid()
    {
      MmuData(kernelRam.words[..], systemRam.words[..], reservation.addr)
    }

    constructor (kernelRam: Mem.Memory, systemRam: Mem.Memory, reservation: Reservation)
      requires kernelRam.words.Length == KERNEL_RAM_WORDS
      requires systemRam.words.Length == SYSTEM_RAM_WORDS
      requires kernelRam.words != systemRam.words
      ensures this.kernelRam == kernelRam && this.systemRam == systemRam && this.reservation == reservation
      ensures Valid()
    {
      this.kernelRam := kernelRam;
      this.systemRam := systemRam;
      this.reservation := reservation;
    }

    method Read32(addr: nat, priv: PrivilegeLevel, reserve: bool) returns (r: Result<bv32, MemoryError>)
      requires Valid()
      modifies reservation
      ensures Valid() && (r, State()) == MmuRead32(old(State()), addr, priv, reserve)
    {
      if reserve {
        reservation.Take(addr);
      }
      match Route(addr, priv)
      case KernelRam(o) =>
        r := Ok(kernelRam.Read32(o));
      case SystemRam(o) =>
        r := Ok(systemRam.Read32(o));
      case Unmapped =>
        r := Err(AccessViolation);
    }

    method Read16(addr: nat, priv: PrivilegeLevel, reserve: bool) returns (r: Result<bv16, MemoryError>)
      requires Valid()
      modifies reservation
      ensures Valid() && (r, State()) == MmuRead16(old(State()), addr, priv, reserve)
    {
      if reserve {
        reservation.Take(addr);
      }
      match Route(addr, priv)
      case KernelRam(o) =>
        r := Ok(kernelRam.Read16(o));
      case SystemRam(o) =>
        r := Ok(systemRam.Read16(o));
      case Unmapped =>
        r := Err(AccessViolation);
    }

    method Read8(addr: nat, priv: PrivilegeLevel, reserve: bool) returns (r: Result<bv8, MemoryError>)
      requires Valid()
      modifies reservation
      ensures Valid() && (r, State()) == MmuRead8(old(State()), addr, priv, reserve)
    {
      if reserve {
        reservation.Take(addr);
      }
      match Route(addr, priv)
      case KernelRam(o) =>
        r := Ok(kernelRam.Read8(o));
      case SystemRam(o) =>
        r := Ok(systemRam.Read8(o));
      case Unmapped =>
        r := Err(AccessViolation);
    }

    method Write32(addr: nat, value: bv32, priv: PrivilegeLevel, conditional: bool) returns (r: Result<bool, MemoryError>)
      requires Valid()
      modifies reservation, kernelRam.words, systemRam.words
      ensures Valid() && (r, State()) == MmuWrite32(old(State()), addr, value, priv, conditional)
    {
      var isReserved := reservation.CheckWrite(addr);
      var doWrite := isReserved || !conditional;
      match Route(addr, priv)
      case KernelRam(o) =>
        if doWrite {
          kernelRam.Write32(o, value);
        }
        r := Ok(doWrite);
      case SystemRam(o) =>
        if doWrite {
          systemRam.Write32(o, value);
        }
        r := Ok(doWrite);
      case Unmapped =>
        r := Err(AccessViolation);
    }

    method Write16(addr: nat, value: bv16, priv: PrivilegeLevel, conditional: bool) returns (r: Result<bool, MemoryError>)
      requires Valid()
      modifies reservation, kernelRam.words, systemRam.words
      ensures Valid() && (r, State()) == MmuWrite16(old(State()), addr, value, priv, conditional)
    {
      var isReserved := reservation.CheckWrite(addr);
      var doWrite := isReserved || !conditional;
      match Route(addr, priv)
      case KernelRam(o) =>
        if doWrite {
          kernelRam.Write16(o, value);
        }
        r := Ok(doWrite);
      case SystemRam(o) =>
        if doWrite {
          systemRam.Write16(o, value);
        }
        r := Ok(doWrite);
      case Unmapped =>
        r := Err(AccessViolation);
    }

    method Write8(addr: nat, value: bv8, priv: PrivilegeLevel, conditional: bool) returns (r: Result<bool, MemoryError>)
      requires Valid()
      modifies reservation, kernelRam.words, systemRam.words
      ensures Valid() && (r, State()) == MmuWrite8(old(State()), addr, value, priv, conditional)
    {
      var isReserved := reservation.CheckWrite(addr);
      var doWrite := isReserved || !conditional;
      match Route(addr, priv)
      case KernelRam(o) =>
        if doWrite {
          kernelRam.Write8(o, value);
        }
        r := Ok(doWrite);
      case SystemRam(o) =>
        if doWrite {
          systemRam.Write8(o, value);
        }
        r := Ok(doWrite);
      case Unmapped =>
        r := Err(AccessViolation);
    }
  }
}
