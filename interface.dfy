/**
 * Emulator/src/cpu/interface.rs: the privilege levels, the error kinds, and the
 * two interfaces the CPU is generic over.
 *
 * Rust's `MemoryInterface` and `IoInterface` traits become records of total
 * functions over a state type: each call takes the device's state and
 * returns its result together with the device's next state. A read returns a
 * value of exactly its access width and a write reports, as a bool, whether
 * the store took place.
 */
module Interface {
  import opened Wrappers

  /** `PrivilegeLevel`, `repr(u8)`: System = 0, User = 1. */
  datatype PrivilegeLevel = System | User

  /** `TryFrom<u32> for PrivilegeLevel`. */
  function PrivilegeFromU32(value: bv32): (p: Option<PrivilegeLevel>)
    ensures p.Some? <==> value < 2
    ensures p == Some(System) <==> value == 0
    ensures p == Some(User) <==> value == 1
  {
    if value > 0xFF then None
    else if value == 0 then Some(System)
    else if value == 1 then Some(User)
    else None
  }

  /** `From<PrivilegeLevel> for u32`. */
  function PrivilegeToU32(p: PrivilegeLevel): (v: bv32)
    ensures v < 2
    ensures (v == 0) == (p == System)
  {
    match p
    case System => 0
    case User => 1
  }

  lemma PrivilegeRoundTrip(p: PrivilegeLevel, value: bv32)
    ensures PrivilegeFromU32(PrivilegeToU32(p)) == Some(p)
    ensures PrivilegeFromU32(value).Some? ==> PrivilegeToU32(PrivilegeFromU32(value).value) == value
  {
  }

  datatype MemoryError = AccessViolation | UnalignedAccess

  datatype IoError = IoAccessViolation

  /** `MemoryInterface` over a memory whose state has type `M`. */
  datatype MemoryOps<!M> = MemoryOps(
    read32: (M, bv32, PrivilegeLevel, bool) -> (Result<bv32, MemoryError>, M),
    read16: (M, bv32, PrivilegeLevel, bool) -> (Result<bv16, MemoryError>, M),
    read8: (M, bv32, PrivilegeLevel, bool) -> (Result<bv8, MemoryError>, M),
    write32: (M, bv32, bv32, PrivilegeLevel, bool) -> (Result<bool, MemoryError>, M),
    write16: (M, bv32, bv16, PrivilegeLevel, bool) -> (Result<bool, MemoryError>, M),
    write8: (M, bv32, bv8, PrivilegeLevel, bool) -> (Result<bool, MemoryError>, M)
  )

  /** `IoInterface` over an I/O bus whose state has type `D`. */
  datatype IoOps<!D> = IoOps(
    read: (D, bv32, PrivilegeLevel) -> (Result<bv32, IoError>, D),
    write: (D, bv32, bv32, PrivilegeLevel) -> (Result<(), IoError>, D)
  )
}
