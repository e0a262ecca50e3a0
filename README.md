# Art32 emulator core in Dafny

This project models the core of the Art32 emulator and proves properties about it. Art32 is a 32-bit processor with mixed 16- and 32-bit instruction encodings. The model covers:

- the bit-field extraction macro `shuffle_bits!` and the arithmetic right shift;
- the register file, the four-bit flag set and the two condition tables;
- the privilege levels and the memory and I/O interfaces;
- the word-array RAM;
- the reservation and the privilege-gated MMU;
- the `Cpu` with its ~30 instruction handlers, the decode tree, the interrupt controller and the configuration window;
- the test doubles `TestMemory` / `TestIo`, and `simulate_add` with the per-instruction encoders of the emulator's unit tests;
- the `golden_*` ALU reference and the `GoldenFetchUnit` reference of the gate-level test bench.

Layout, one module per file:

| file | module | models |
|---|---|---|
| `wrappers.dfy` | `Wrappers` | `Option` / `Result` |
| `bits.dfy` | `Bits` | `shuffle_bits!` arms as a `Field` list, `Ashr` |
| `registers.dfy` | `Registers` | `Register`, `RegisterFile` (class over an array), `Flags`, `Condition`, `BranchCondition`, `satisfy*`, `Display` |
| `interface.dfy` | `Interface` | `PrivilegeLevel`, `MemoryError`, `IoError`, and `MemoryOps` / `IoOps` (the two interfaces as records of functions over a state) |
| `memory.dfy` | `Memory` | spec functions over `seq<bv32>` and the `Memory` class over an `array<bv32>` |
| `system.dfy` | `Art32System` | RAM map constants, `Reservation` class, MMU functions and the `Mmu` class |
| `decode.dfy` | `CpuDecode` | every instruction field reader, each proved equal to its `shuffle_bits!` field list |
| `word.dfy` | `Word` | the unsigned and two's-complement integer values of a word (`as u32`, `as i32`) and division rounded toward zero |
| `cpu_model.dfy` | `CpuModel` | the CPU as a value `CpuView`; one function per handler, the decode tree, `step_inner`, `step` |
| `cpu.dfy` | `CpuCore` | the `Cpu` class; every method is proved to take the state to the `CpuModel` function of the old state |
| `cpu_properties.dfy` | `CpuProperties` | properties of the CPU model |
| `art32.dfy` | `Art32Machine` | `Art32::new` / `reset` |
| `test_doubles.dfy` | `TestDoubles` | `TestMemory`, `TestIo` |
| `instruction_tests.dfy` | `InstructionTests` | `simulate_add`, the encoders, and each test's expected state |
| `golden_alu.dfy` | `GoldenAlu` | the `golden_*` ALU reference, proved to agree with the CPU |
| `fetch_unit.dfy` | `FetchUnit` | `GoldenFetchUnit` class and its invariants |

Modelling choices:

- Some things are parameters of the model, not code:
  - the memory and I/O implementations the CPU calls (`MemoryOps<M>`, `IoOps<D>` with their state types);
  - the IEEE single-precision operations (`FloatOps`, uninterpreted functions of the register bits).
- A `panic!` is the status `Fatal`. A handler's `Err(kind)` is `Raised(kind)`, and `Ok(code)` is `Completed(code)`.
- The `debug_assert!`s on even addresses become the predicate `CpuModel.Aligned` (even PC, return address and vectors). The reset state is proved to meet it, and each operation that writes one of those fields is proved to keep it.
- All arithmetic is on `bv32` (or narrower bit-vectors) with the source's wrap-around.
- Addresses into RAM are the numeric `u32` value (`nat`).

The model follows the code as written in its three known oddities:

- The MMU never checks alignment. `Memory` rounds a misaligned address down to its aligned unit.
- The MMU returns `Err(())`, while the interface declares `MemoryError`. The model reads `Err(())` as `AccessViolation`.
- A reserving read replaces the reservation before the address is range-checked.

Only the test double `TestMemory` ever reports `UnalignedAccess`.

## Model

| member | source | states |
|---|---|---|
| Bits.Bit | Emulator/src/main.rs:37-42 | a single-bit arm is `1 << dst` exactly when bit `src` of the word is set, else 0 |
| Bits.SignFill | Emulator/src/main.rs:43-50 | a sign arm is 0 when bit `src` is clear, and all ones shifted up to `dst` when it is set |
| Bits.SignFillSetsHighBits | Emulator/src/main.rs:43-50 | with the bit set, the sign arm sets exactly bits `dst`..31 (the complement of the low mask) |
| Bits.ShuffleAppend | Emulator/src/main.rs:51-62 | a multi-field shuffle is the bitwise OR of the shuffles of any split of its field list |
| Bits.ShuffleFromAppend | Emulator/src/main.rs:51-62 | the recursive expansion of a concatenated field list splits at the seam |
| Bits.ShuffleFromSuffix | Emulator/src/main.rs:51-62 | fields expand the same way wherever they sit in a longer list |
| Bits.Shuffle | Emulator/src/main.rs:26-62 | `shuffle_bits!` as the OR of its arms over a field list; its split and suffix laws are `ShuffleAppend`, `ShuffleFromAppend` and `ShuffleFromSuffix` |
| Bits.ShuffleFrom | Emulator/src/main.rs:51-62 | the macro's recursive expansion from one arm onward; its laws are the three lemmas above |
| Bits.Ashr | Emulator/src/main.rs:17-24 | `((x as i32) >> n) as u32`; `AshrKeepsSign` and `AshrNonNegative` state its behaviour |
| Bits.AshrKeepsSign | Emulator/src/main.rs:17-24 | for shift counts below 32 the arithmetic shift keeps bit 31 |
| Bits.AshrNonNegative | Emulator/src/main.rs:17-24 | on a word with bit 31 clear the arithmetic shift equals the logical shift |
| Interface.PrivilegeFromU32 | Emulator/src/cpu/interface.rs:10-18 | succeeds exactly for 0 (System) and 1 (User) |
| Interface.PrivilegeToU32 | Emulator/src/cpu/interface.rs:20-25 | System encodes as 0 and User as 1 |
| Interface.PrivilegeRoundTrip | Emulator/src/cpu/interface.rs:10-25 | decoding inverts encoding, and encoding inverts every successful decoding |
| Registers.RegisterFromU32 | Emulator/src/cpu/register.rs:63-71 | succeeds exactly for 0..31, yielding that register number |
| Registers.RegisterFromUsize | Emulator/src/cpu/register.rs:45-53 | succeeds exactly for 0..31, yielding that register number |
| Registers.RegisterRoundTrip | Emulator/src/cpu/register.rs:63-79 | `try_from(u32::from(r)) == Some(r)` |
| Registers.RegisterToU32 | Emulator/src/cpu/register.rs:73-79 | `u32::from(r)` is the register number; `RegisterRoundTrip` proves `try_from` recovers every register from it |
| Registers.GetAfterSet | Emulator/src/cpu/register.rs:93-98 | after `set(r, v)`, `get(r) == v` when r is not Zero; every other register, and Zero, keeps its value |
| Registers.SetKeepsZero | Emulator/src/cpu/register.rs:93-98 | `set(Zero, v)` leaves the file unchanged, so slot 0 keeps reading 0 |
| Registers.RegisterFile.constructor | Emulator/src/cpu/register.rs:81-83 | a default file holds 32 zeros |
| Registers.RegisterFile.Get | Emulator/src/cpu/register.rs:87-90 | reads the slot of the register |
| Registers.RegisterFile.Set | Emulator/src/cpu/register.rs:93-98 | the array afterwards holds the old contents with slot r replaced, unless r is Zero |
| Registers.SetFlag | Emulator/src/cpu/register.rs:163-171 | `set(flag, on)` makes `contains(flag) == on` and leaves the other three flags |
| Registers.FromBitsTruncate | Emulator/src/cpu/register.rs:163-171 | only bits 0..3 survive |
| Registers.FlagBitsRoundTrip | Emulator/src/cpu/register.rs:163-171 | `from_bits_truncate(bits())` is the identity |
| Registers.Contains | Emulator/src/cpu/register.rs:163-171 | `contains(flag)`: all of the flag's bits are set; `SetFlag`, `FromBitsTruncate` and `CpuModel.ExecuteAdd` state each flag through it |
| Registers.FlagBits | Emulator/src/cpu/register.rs:163-171 | `bits()`, the raw u8; `FlagBitsRoundTrip` proves `from_bits_truncate` recovers the flag set from it |
| Registers.Display | Emulator/src/cpu/register.rs:174-196 | four characters: O, S, Z, C at positions 0..3 for set flags and `_` for clear ones |
| Registers.ConditionFromU32 | Emulator/src/cpu/register.rs:115-123 | succeeds exactly for 0..7 |
| Registers.ConditionToU32 | Emulator/src/cpu/register.rs:125-144 | every condition has a code below 8 that the table maps back to it |
| Registers.BranchConditionFromU32 | Emulator/src/cpu/register.rs:146-154 | succeeds exactly for 0..7 |
| Registers.BranchConditionToU32 | Emulator/src/cpu/register.rs:156-161 | every branch condition has a code below 8 that the table maps back to it |
| Registers.ConditionRoundTrip | Emulator/src/cpu/register.rs:115-161 | encoding inverts decoding for both condition kinds |
| Registers.SatisfyTablesAgree | Emulator/src/cpu/register.rs:199-223 | `satisfy` and `satisfy_branch` agree on codes 0..6; code 7 never holds as a condition and always holds as a branch (Link) |
| Registers.SatisfyComplementary | Emulator/src/cpu/register.rs:199-210 | codes 2k and 2k+1 are complementary for every flag set |
| Registers.Satisfy | Emulator/src/cpu/register.rs:199-210 | the eight-row condition table; `SatisfyComplementary`, `SatisfyTablesAgree` and `GoldenAlu.SatisfyTablesMatch` state it |
| Registers.SatisfyBranch | Emulator/src/cpu/register.rs:212-223 | the branch table, Link always true; `SatisfyTablesAgree` relates it to `Satisfy` |
| Memory.Load32 | Emulator/src/memory.rs:20-24 | `read_32` on the word view; `Load32AfterStore32` and `Load32IgnoresLowBits` state it |
| Memory.Load16 | Emulator/src/memory.rs:26-30 | `read_16` on the half-word view; `Load16AfterStore16`, `Load16IsLittleEndian` and `Load16IgnoresBitZero` state it |
| Memory.Load8 | Emulator/src/memory.rs:32-36 | `read_8` on the byte view; `Load8AfterStore8` states it |
| Memory.Store32 | Emulator/src/memory.rs:38-42 | the word count is kept; `Load32AfterStore32` and `Store32KeepsOtherBytes` state what it changes |
| Memory.Store16 | Emulator/src/memory.rs:44-48 | the word count is kept; `Load16AfterStore16` and `Store16KeepsOtherBytes` state what it changes |
| Memory.Store8 | Emulator/src/memory.rs:50-54 | the word count is kept; `Load8AfterStore8` and `Store8KeepsOtherBytes` state what it changes |
| Memory.Load32AfterStore32 | Emulator/src/memory.rs:20-24 | a 32-bit read returns the value just written at the same address |
| Memory.Load16AfterStore16 | Emulator/src/memory.rs:26-30 | a 16-bit read returns the value just written at the same address |
| Memory.Load8AfterStore8 | Emulator/src/memory.rs:32-36 | an 8-bit read returns the value just written at the same address |
| Memory.Store32KeepsOtherBytes | Emulator/src/memory.rs:38-42 | a 32-bit write changes no byte outside its aligned word |
| Memory.Store16KeepsOtherBytes | Emulator/src/memory.rs:44-48 | a 16-bit write changes no byte outside its aligned half-word |
| Memory.Store8KeepsOtherBytes | Emulator/src/memory.rs:50-54 | an 8-bit write changes no other byte |
| Memory.Load32IgnoresLowBits | Emulator/src/memory.rs:22 | a 32-bit read ignores address bits 1:0 |
| Memory.Store32IgnoresLowBits | Emulator/src/memory.rs:40 | a 32-bit write ignores address bits 1:0 |
| Memory.Load16IgnoresBitZero | Emulator/src/memory.rs:28 | a 16-bit read ignores address bit 0 |
| Memory.Store16IgnoresBitZero | Emulator/src/memory.rs:46 | a 16-bit write ignores address bit 0 |
| Memory.Load32IsLittleEndian | Emulator/src/memory.rs:20-36 | `read_32(4k)` is the four bytes from 4k, least significant first |
| Memory.Load16IsLittleEndian | Emulator/src/memory.rs:26-36 | `read_16(2k)` is the two bytes from 2k, least significant first |
| Memory.LowHalfBytes | Emulator/src/memory.rs:26-36 | the half-word at a word start is its two bytes, low byte first |
| Memory.HighHalfBytes | Emulator/src/memory.rs:26-36 | the half-word in the middle of a word is its two bytes, low byte first |
| Memory.ByteOfWordFromBytes | Emulator/src/memory.rs:14-17 | after `reset(data)`, byte i of the block is `data[i]` |
| Memory.Memory.constructor | Emulator/src/memory.rs:8-11 | `new(size)` with size a multiple of 4 yields size/4 zero words |
| Memory.Memory.Reset | Emulator/src/memory.rs:14-17 | the words afterwards are `data` packed little-endian, four bytes per word |
| Memory.Memory.Read32 | Emulator/src/memory.rs:20-24 | the word view at `addr >> 2` |
| Memory.Memory.Read16 | Emulator/src/memory.rs:26-30 | the half-word view at `addr >> 1` |
| Memory.Memory.Read8 | Emulator/src/memory.rs:32-36 | the byte view at `addr` |
| Memory.Memory.Write32 | Emulator/src/memory.rs:38-42 | the words afterwards are `Store32` of the old words |
| Memory.Memory.Write16 | Emulator/src/memory.rs:44-48 | the words afterwards are `Store16` of the old words |
| Memory.Memory.Write8 | Emulator/src/memory.rs:50-54 | the words afterwards are `Store8` of the old words |
| Art32System.WordBase | Emulator/src/system.rs:26-28 | `a & !3`: the largest multiple of 4 not above a |
| Art32System.TakeMatchesSameWord | Emulator/src/system.rs:26-38 | after `take(a)`, `check_write(b)` matches exactly when a and b are in the same word |
| Art32System.CheckWriteSucceedsOnce | Emulator/src/system.rs:31-38 | after any `check_write` the reservation is empty, so a second one cannot succeed without a `take` in between |
| Art32System.CheckWriteMissKeeps | Emulator/src/system.rs:31-38 | a `check_write` that does not match leaves the reservation unchanged |
| Art32System.Reservation.constructor | Emulator/src/system.rs:13-17 | no reservation |
| Art32System.Reservation.Reset | Emulator/src/system.rs:21-23 | clears the reservation |
| Art32System.Reservation.Take | Emulator/src/system.rs:26-28 | stores `a & !3` |
| Art32System.Reservation.CheckWrite | Emulator/src/system.rs:31-38 | returns whether the stored word is `b & !3`, and on a match clears it |
| Art32System.Route | Emulator/src/system.rs:48-62 | the address decoding shared by the six accessors, with in-block offsets |
| Art32System.RouteKernel | Emulator/src/system.rs:5-7 | kernel RAM (0x1000_0000..0x1000_7FFF) is reached exactly at System privilege |
| Art32System.RouteSystem | Emulator/src/system.rs:9-11 | system RAM (0x2000_0000..0x200F_FFFF) is reached at every privilege |
| Art32System.RouteUnmapped | Emulator/src/system.rs:48-62 | every other address, and kernel addresses at User privilege, reach nothing |
| Art32System.DisjointRanges | Emulator/src/system.rs:5-11 | the two RAM ranges do not overlap |
| Art32System.RouteOffset | Emulator/src/system.rs:54-59 | the offset is the distance from the start of the block |
| Art32System.UserCannotReachKernel | Emulator/src/system.rs:54-56 | every User read or write of kernel RAM is rejected, and a rejected write only updates the reservation |
| Art32System.SystemReadsKernel | Emulator/src/system.rs:54-56 | at System privilege a kernel RAM read returns the stored value of each width at the offset |
| Art32System.AnyPrivilegeReadsSystemRam | Emulator/src/system.rs:57-59 | system RAM reads return the stored value at any privilege |
| Art32System.UnmappedRejected | Emulator/src/system.rs:60-61 | an unmapped read or write is rejected at every width, and no RAM changes |
| Art32System.ReadsTakeReservation | Emulator/src/system.rs:49-51 | reads never change RAM; a reserving read replaces the reservation even when it is then rejected |
| Art32System.WritesCheckReservation | Emulator/src/system.rs:103 | every write runs `check_write` first, so the reservation is consumed even by a rejected write |
| Art32System.ConditionalWrite32 | Emulator/src/system.rs:96-123 | a mapped conditional write returns Ok(true) exactly when the reservation matched; then it is the plain write and the word reads back, otherwise both RAMs and the reservation are unchanged |
| Art32System.PlainWrite32 | Emulator/src/system.rs:96-123 | a mapped plain write always stores and returns Ok(true) |
| Art32System.ReservedPairSucceeds | Emulator/src/system.rs:48-123 | a reserving read followed by a conditional write to the same word succeeds, stores the word so that it reads back, and empties the reservation |
| Art32System.MmuRead32 | Emulator/src/system.rs:48-62 | the MMU's 32-bit read on values; `SystemReadsKernel`, `AnyPrivilegeReadsSystemRam`, `UserCannotReachKernel`, `UnmappedRejected` and `ReadsTakeReservation` state it |
| Art32System.MmuRead16 | Emulator/src/system.rs:64-78 | the 16-bit read; the same lemmas state it |
| Art32System.MmuRead8 | Emulator/src/system.rs:80-94 | the 8-bit read; the same lemmas state it |
| Art32System.MmuWrite32 | Emulator/src/system.rs:96-123 | the 32-bit write; `ConditionalWrite32`, `PlainWrite32`, `WritesCheckReservation`, `UserCannotReachKernel` and `UnmappedRejected` state it |
| Art32System.MmuWrite16 | Emulator/src/system.rs:125-152 | the 16-bit write; `WritesCheckReservation`, `UserCannotReachKernel` and `UnmappedRejected` state it |
| Art32System.MmuWrite8 | Emulator/src/system.rs:154-181 | the 8-bit write; the same lemmas state it |
| Art32System.MmuOps | Emulator/src/system.rs:47-181 | `MemoryInterface for Mmu`, the six accessors on the `u32` address; `MmuOpsGuardsKernelReads`, `MmuOpsGuardsKernelWrites` and `MmuOpsKernelSystemRead` state the privilege rule through it |
| Art32System.MmuOpsGuardsKernelReads | Emulator/src/system.rs:47-94 | through the CPU's interface, a User read of kernel RAM is AccessViolation at every width |
| Art32System.MmuOpsGuardsKernelWrites | Emulator/src/system.rs:96-180 | through the CPU's interface, a User write to kernel RAM is AccessViolation at every width |
| Art32System.MmuOpsKernelSystemRead | Emulator/src/system.rs:47-61 | through the CPU's interface, a System word read of kernel RAM returns the word stored at its offset |
| Art32System.Mmu.constructor | Emulator/src/system.rs:41-45 | the MMU borrows both RAM blocks and the reservation |
| Art32System.Mmu.Read32 | Emulator/src/system.rs:48-62 | result and new state are `MmuRead32` of the old state |
| Art32System.Mmu.Read16 | Emulator/src/system.rs:64-78 | result and new state are `MmuRead16` of the old state |
| Art32System.Mmu.Read8 | Emulator/src/system.rs:80-94 | result and new state are `MmuRead8` of the old state |
| Art32System.Mmu.Write32 | Emulator/src/system.rs:96-123 | result and new state are `MmuWrite32` of the old state |
| Art32System.Mmu.Write16 | Emulator/src/system.rs:125-152 | result and new state are `MmuWrite16` of the old state |
| Art32System.Mmu.Write8 | Emulator/src/system.rs:154-181 | result and new state are `MmuWrite8` of the old state |
| Art32Machine.Art32.constructor | Emulator/src/system.rs:218-226 | a new CPU, both RAM blocks zero, no reservation |
| Art32Machine.Art32.Reset | Emulator/src/system.rs:228-231 | resets the CPU and clears the reservation; both RAM blocks are unchanged |
| CpuDecode.Bits15To12 | Emulator/src/cpu.rs:492 | bits 15:12 moved to 3:0 |
| CpuDecode.Rd32 | Emulator/src/cpu.rs:405 | bits 16:12 as a register; `InstructionTests.RegisterWord32Decodes` and the other 32-bit round trips recover it |
| CpuDecode.Rs1Of32 | Emulator/src/cpu.rs:561 | bits 21:17 as a register; the 32-bit round trips recover it |
| CpuDecode.Rs2Of32 | Emulator/src/cpu.rs:735-736 | bits 11:8 and 7 as a register; `Rs2Of32IsShuffle` ties it to its field list |
| CpuDecode.LdiImm | Emulator/src/cpu.rs:348-353 | a sign-extended 10-bit value: at most 0x1FF or at least 0xFFFF_FE00 |
| CpuDecode.Jump16Imm | Emulator/src/cpu.rs:368-373 | an even, sign-extended 10-bit offset |
| CpuDecode.Branch16Imm | Emulator/src/cpu.rs:387-392 | an even, sign-extended 10-bit offset |
| CpuDecode.UpperImm | Emulator/src/cpu.rs:407-415 | bits 9:0 are clear |
| CpuDecode.SpOffset16 | Emulator/src/cpu.rs:541-544 | a multiple of 4 below 128 |
| CpuDecode.Jump32Imm | Emulator/src/cpu.rs:563-569 | an even, sign-extended 14-bit offset |
| CpuDecode.Branch32Imm | Emulator/src/cpu.rs:581-588 | an even, sign-extended 21-bit offset |
| CpuDecode.Imm32 | Emulator/src/cpu.rs:604-608 | a sign-extended 10-bit value |
| CpuDecode.StoreImm32 | Emulator/src/cpu.rs:696-700 | a sign-extended 10-bit value |
| CpuDecode.RegLo16 | Emulator/src/cpu.rs:427 | register number from bits 11:8 |
| CpuDecode.MovCondition16 | Emulator/src/cpu.rs:451 | condition from bits 7:5 |
| CpuDecode.BranchConditionOf | Emulator/src/cpu.rs:385 | branch condition from bits 14:12 |
| CpuDecode.Condition32 | Emulator/src/cpu.rs:631 | condition from bits 26:24 |
| CpuDecode.ShiftImm16 | Emulator/src/cpu.rs:516-518 | bits 11:7 moved to 4:0 |
| CpuDecode.Opcode32 | Emulator/src/cpu.rs:1099 | bits 31:27 to 5:1 and bit 6 to 0 |
| CpuDecode.LdiImmIsShuffle | Emulator/src/cpu.rs:348-353 | the ldi/addi immediate reader is its `shuffle_bits!` field list, sign-fill included |
| CpuDecode.Jump16ImmIsShuffle | Emulator/src/cpu.rs:368-373 | the j/jl_16 offset reader is its field list |
| CpuDecode.Branch16ImmIsShuffle | Emulator/src/cpu.rs:387-392 | the br_16 offset reader is its field list |
| CpuDecode.UpperImmIsShuffle | Emulator/src/cpu.rs:407-415 | the ldui/apcui immediate reader is its field list |
| CpuDecode.SpOffset16IsShuffle | Emulator/src/cpu.rs:541-544 | the ld/st Sp offset reader is its field list |
| CpuDecode.Jump32ImmIsShuffle | Emulator/src/cpu.rs:563-569 | the jl_32 offset reader is its field list |
| CpuDecode.Branch32ImmIsShuffle | Emulator/src/cpu.rs:581-588 | the br_32 offset reader is its field list |
| CpuDecode.Imm32IsShuffle | Emulator/src/cpu.rs:604-608 | the 32-bit immediate reader is its field list |
| CpuDecode.StoreImm32IsShuffle | Emulator/src/cpu.rs:696-700 | the store offset reader is its field list |
| CpuDecode.Rs2Of32IsShuffle | Emulator/src/cpu.rs:735-736 | the rs2 reader is its field list |
| CpuDecode.Opcode32IsShuffle | Emulator/src/cpu.rs:1099 | the register-group opcode reader is its field list |
| CpuModel.ExceptionIndex | Emulator/src/cpu.rs:14-25 | IllegalInstruction, AccessViolation, UnalignedAccess are 0, 1, 2 |
| CpuModel.ExceptionFromIndex | Emulator/src/cpu.rs:14-25 | succeeds exactly below 3 |
| CpuModel.ExceptionIndexRoundTrip | Emulator/src/cpu.rs:14-25 | the two conversions are inverse |
| CpuModel.FromMemoryError | Emulator/src/cpu.rs:27-35 | each memory error kind maps to its own exception, one to one |
| CpuModel.FromIoError | Emulator/src/cpu.rs:37-44 | the I/O error maps to AccessViolation |
| CpuModel.NewCpu | Emulator/src/cpu.rs:103-117 | zero registers, flags, tables and bitmaps; Servicing at System privilege, at the reset address |
| CpuModel.ResetCpu | Emulator/src/cpu.rs:119-125 | PC, interrupt state, privilege, mask and pending return to their reset values; everything else is kept |
| CpuModel.ExecuteAdd | Emulator/src/cpu.rs:327-342 | wrapped `lhs + rhs + c`; CARRY is bit 32 of the exact sum, SIGN is bit 31, OVERFLOW is equal operand signs that differ from the result's; ZERO is kept |
| CpuModel.AluOp | Emulator/src/cpu.rs:431-441 | rows 0/1 are `execute_add` of rhs / of `!rhs` with carry-in; rows 2..7 compute and/or/xor/shl/lsr/ashr and keep the flags |
| CpuModel.ClearZeroUnlessZero | Emulator/src/cpu.rs:789-792 | ZERO can only be cleared, and only by a non-zero result; CARRY, SIGN and OVERFLOW are kept |
| CpuModel.EffectivePrivilege | Emulator/src/cpu.rs:174-179 | System whenever Servicing, the privilege field otherwise |
| CpuModel.SignalInterrupt | Emulator/src/cpu.rs:127-130 | only the pending set changes; every other field of the CPU is kept |
| CpuModel.HighestSetBit | Emulator/src/cpu.rs:181-192 | the position found is set, and no higher position is |
| CpuModel.NonZeroHasHighestBit | Emulator/src/cpu.rs:181-192 | a non-zero pending set has a highest set bit |
| CpuModel.NextInterrupt | Emulator/src/cpu.rs:181-192 | a slot is taken only while Listening, below 16 |
| CpuModel.Exception | Emulator/src/cpu.rs:213-222 | None (the panic) exactly while Servicing |
| CpuModel.DecodeIo | Emulator/src/cpu.rs:224-325 | window registers by address range |
| CpuModel.CarryAdd | Emulator/src/cpu.rs:80-85 | `carry_add`; `CpuProperties.CarryAddWithoutCarryIn`, `CarryAddWithCarryIn` and `GoldenAlu.CarryAddAgrees` state it |
| CpuModel.Logic | Emulator/src/cpu.rs:431-441 | and/or/xor rows of the ALU table; `GoldenAlu.AndAgrees`, `OrAgrees` and `XorAgrees` compare them with the reference |
| CpuModel.Shl | Emulator/src/cpu.rs:431-441 | `wrapping_shl`; `CpuProperties.ShiftCountMasked` and `GoldenAlu.ShlAgrees` state it |
| CpuModel.Lsr | Emulator/src/cpu.rs:431-441 | `wrapping_shr`; `CpuProperties.ShiftCountMasked` and `GoldenAlu.LsrAgrees` state it |
| CpuModel.SignedDiv | Emulator/src/cpu.rs:833-848 | `i32::wrapping_div` as `u32`; `CpuProperties.SignedDivValue`, `SignedDivisionTruncates` and `SignedDivisionOverflowWraps` state it |
| CpuModel.SignedRem | Emulator/src/cpu.rs:833-848 | `i32::wrapping_rem` as `u32`; `CpuProperties.SignedRemValue` and `SignedRemainderSign` state it |
| CpuModel.Multiply | Emulator/src/cpu.rs:806-832 | the four products of mul_32; `GoldenAlu.UnsignedProductAgrees` and `SignedProductAgrees` compare them with the reference |
| CpuModel.DivRem | Emulator/src/cpu.rs:833-848 | the division rows with their zero-divisor values; `CpuProperties.DivisionByZero` and `GoldenAlu.QuotientAgrees` state them |
| CpuModel.MulOp | Emulator/src/cpu.rs:798-853 | the mul_32 table with its flag rule; `CpuProperties.MultiplyZeroRules` and `DivisionKeepsFlags` state it |
| CpuModel.EnterInterrupt | Emulator/src/cpu.rs:194-202 | `enter_interrupt`; `CpuProperties.EnterLeaveRoundTrip` and `InterruptEntryKeepsAligned` state it |
| CpuModel.LeaveInterrupt | Emulator/src/cpu.rs:204-211 | `leave_interrupt`; `CpuProperties.LeaveEnterRoundTrip` and `InterruptEntryKeepsAligned` state it |
| CpuModel.ReadWindow | Emulator/src/cpu.rs:224-269 | the window registers' read values; `CpuProperties.WindowRoundTrip` states them |
| CpuModel.WriteWindow | Emulator/src/cpu.rs:271-325 | the window registers' write rules; `CpuProperties.WindowRoundTrip` and `WriteWindowKeepsAligned` state them |
| CpuModel.ReadIo | Emulator/src/cpu.rs:224-269 | `read_io`; `CpuProperties.UserIoGoesToBus`, `UnmappedIoGoesToBus` and `WindowWriteThenRead` state it |
| CpuModel.WriteIo | Emulator/src/cpu.rs:271-325 | `write_io`; the same lemmas state it |
| CpuModel.LdiAddi16 | Emulator/src/cpu.rs:345-362 | ldi_16/addi_16; `InstructionTests.Ldi16Test` and `Addi16Test` state its effect |
| CpuModel.Jump16 | Emulator/src/cpu.rs:365-380 | j/jl_16; `InstructionTests.Jump16Test` and `CpuProperties.JumpTargetEven` state it |
| CpuModel.Branch16 | Emulator/src/cpu.rs:383-401 | br_16; `InstructionTests.Branch16Test` states it |
| CpuModel.Uimm32 | Emulator/src/cpu.rs:404-422 | ldui/apcui; `InstructionTests.Upper32Test` states it |
| CpuModel.Alu16 | Emulator/src/cpu.rs:425-445 | alu_16; `InstructionTests.Alu16Test` states it |
| CpuModel.Mov16 | Emulator/src/cpu.rs:448-457 | mov_16; `InstructionTests.Mov16Test` states it |
| CpuModel.Cmp16 | Emulator/src/cpu.rs:460-468 | cmp_16; `CpuProperties.CompareWritesOnlyFlags`, `CompareZeroIsEquality` and `InstructionTests.Cmp16Test` state it |
| CpuModel.Sys16 | Emulator/src/cpu.rs:471-510 | sys_16; `CpuProperties.SystemGroupRules`, `UnassignedSystemRows` and the ret/fence/ifence/envcall tests state it |
| CpuModel.Alui16 | Emulator/src/cpu.rs:513-530 | the 16-bit immediate shifts; `InstructionTests.ShiftImm16Test` states it |
| CpuModel.Mem16 | Emulator/src/cpu.rs:533-556 | ld/st relative to Sp; `CpuCore.Cpu.Mem16` is proved against it |
| CpuModel.Jump32 | Emulator/src/cpu.rs:559-574 | jl_32; `InstructionTests.Jump32Test` states it |
| CpuModel.Branch32 | Emulator/src/cpu.rs:577-597 | br_32; `InstructionTests.Branch32Test` states it |
| CpuModel.Alui32 | Emulator/src/cpu.rs:600-625 | alui_32; `InstructionTests.Alui32Test` states it |
| CpuModel.Movi32 | Emulator/src/cpu.rs:628-645 | movi_32; `InstructionTests.Movi32Test` states it |
| CpuModel.Mem32 | Emulator/src/cpu.rs:648-729 | the 32-bit loads and stores; they read through `Load`, which `CpuProperties.ByteLoadExtends`, `HalfLoadExtends`, `HalfLoadValue` and `LoadPassesErrors` state |
| CpuModel.Load | Emulator/src/cpu.rs:668-688 | load rows 0..5 shared by mem_32 and ldr_32 (cpu.rs:956-976); `CpuProperties.ByteLoadExtends`, `HalfLoadExtends`, `HalfLoadValue` and `LoadPassesErrors` state it |
| CpuModel.Alu32 | Emulator/src/cpu.rs:732-754 | alu_32; `InstructionTests.Alu32Test` states it |
| CpuModel.Mov32 | Emulator/src/cpu.rs:757-770 | mov_32; `InstructionTests.Mov32Test` states it |
| CpuModel.Aluc32 | Emulator/src/cpu.rs:773-795 | addc/subc; `CpuProperties.UnassignedAlucRows` and `InstructionTests.AddWithCarry32Test` state it |
| CpuModel.AddWithCarry | Emulator/src/cpu.rs:779-792 | addc/subc with the stored CARRY as carry-in and ZERO only cleared; `InstructionTests.AddWithCarryMeetsExpectation`, `GoldenAlu.AddWithCarryAdd` and `AddWithCarrySub` state it |
| CpuModel.Mul32 | Emulator/src/cpu.rs:798-853 | mul_32 on registers; `MulOp` carries its arithmetic |
| CpuModel.Fpu3 | Emulator/src/cpu.rs:856-878 | the three-operand float group; `CpuProperties.UnassignedFloatRows` states its illegal rows |
| CpuModel.Fpu2 | Emulator/src/cpu.rs:881-899 | the two-operand float group, fabs/fneg exact; `CpuCore.Cpu.Fpu2` is proved against it |
| CpuModel.Fcmp | Emulator/src/cpu.rs:902-919 | fcmp; `CpuCore.Cpu.Fcmp` is proved against it |
| CpuModel.Cvt | Emulator/src/cpu.rs:922-943 | cvt; `CpuProperties.UnassignedConversionRows` states its illegal rows |
| CpuModel.Ldr | Emulator/src/cpu.rs:946-984 | ldr_32, reading through the same `Load`; `CpuProperties.UnassignedMemoryRows` states its illegal rows |
| CpuModel.Stc | Emulator/src/cpu.rs:987-1020 | stc_32; `CpuProperties.StcWritesSuccessBit` states it |
| CpuModel.Execute32Register | Emulator/src/cpu.rs:1098-1115 | the register-group dispatch; `InstructionTests.RoutesToAlu32` and `CpuProperties.UnassignedMemoryRows` state it |
| CpuModel.Execute32 | Emulator/src/cpu.rs:1082-1118 | the 32-bit dispatch; `InstructionTests.RoutesToExecute32` and the `RoutesTo*` lemmas of the 32-bit tests state it |
| CpuModel.FetchUpper | Emulator/src/cpu.rs:1077-1080 | the upper half-word fetch; `CpuCore.Cpu.FetchUpper` and `FetchUnit.CpuReadsUpperHalfIsFetch` state it |
| CpuModel.Execute | Emulator/src/cpu.rs:1043-1122 | the decode tree; `InstructionTests.RoutesToAlu16`, `RoutesToUpper32`, `RoutesToExecute32`, `CpuProperties.ExecuteRaiseKeepsView` and `FetchUnit.CpuReadsUpperHalfIsFetch` state it |
| CpuModel.StepInner | Emulator/src/cpu.rs:1023-1126 | `step_inner`; `CpuProperties.StepTakesInterrupt`, `StepFetchFails`, `StepAdvancesBeforeDecode` and `StepWhileServicing` state it |
| CpuModel.Step | Emulator/src/cpu.rs:1128-1140 | a raised exception is entered or is fatal, otherwise the inner step's outcome; `CpuProperties.StepEntersRaised`, `StepRaiseSavesAdvancedPc` and `StepWithoutException` state it |
| CpuProperties.CarryAddWithoutCarryIn | Emulator/src/cpu.rs:80-85 | without carry-in: the wrapped sum, and the carry is bit 32 of the exact sum |
| CpuProperties.CarryAddWithCarryIn | Emulator/src/cpu.rs:80-85 | with carry-in: the wrapped sum plus one, and the carry is that of the sum or the all-ones case |
| CpuProperties.CarryAddSum | Emulator/src/cpu.rs:80-85 | the value half of `carry_add` is `a + b + c` wrapped |
| CpuProperties.IncrementCarries | Emulator/src/cpu.rs:80-85 | adding 1 carries exactly out of all ones |
| CpuProperties.ZeroNeverCarries | Emulator/src/cpu.rs:80-85 | adding 0 never carries |
| CpuProperties.CompareZeroIsEquality | Emulator/src/cpu.rs:460-468 | after `execute_add(a, !b, true)` the result is zero exactly when a == b (Eq after cmp) |
| CpuProperties.DifferenceZero | Emulator/src/cpu.rs:460-468 | `a + !b + 1 == 0` if and only if a == b |
| CpuProperties.CompareWritesOnlyFlags | Emulator/src/cpu.rs:460-468 | cmp changes only the flags |
| CpuProperties.LogicKeepsFlags | Emulator/src/cpu.rs:431-445 | logic and shift rows keep the flags, then ZERO becomes (result == 0) |
| CpuProperties.ShiftCountMasked | Emulator/src/cpu.rs:431-441 | shift counts are taken mod 32 |
| CpuProperties.DivisionKeepsFlags | Emulator/src/cpu.rs:833-848 | div and rem rows never change the flags |
| CpuProperties.DivisionByZero | Emulator/src/cpu.rs:833-848 | divu by 0 is all ones; divs by 0 is i32::MIN for a negative dividend, else i32::MAX; both remainders by 0 are 0 |
| CpuProperties.SignedDivisionOverflowWraps | Emulator/src/cpu.rs:833-848 | i32::MIN / -1 wraps to i32::MIN with remainder 0 |
| CpuProperties.SignedDivisionTruncates | Emulator/src/cpu.rs:833-848 | outside `i32::MIN / -1`, read as `i32`, the dividend is quotient times divisor plus remainder, and the remainder is smaller than the divisor in magnitude |
| CpuProperties.SignedRemainderSign | Emulator/src/cpu.rs:833-848 | for every non-zero divisor, a non-zero signed remainder has the dividend's sign |
| CpuProperties.SignedDivValue | Emulator/src/cpu.rs:833-848 | outside `i32::MIN / -1`, the signed quotient read as `i32` is the quotient of the `i32` values rounded toward zero |
| CpuProperties.SignedRemValue | Emulator/src/cpu.rs:833-848 | for every non-zero divisor, the signed remainder read as `i32` is the remainder of that rounded quotient |
| CpuProperties.SignedDivisionExamples | Emulator/src/cpu.rs:833-848 | -7 / 2 is -3 remainder -1, and 7 / -2 is -3 remainder 1 |
| Word.SignedOfFromSigned | Emulator/src/cpu.rs:833-848 | every `i32` value survives `as u32` and back |
| Word.FromSignedOfSigned | Emulator/src/cpu.rs:833-848 | every word survives `as i32` and back |
| Word.UnsignedOfFromUnsigned | Emulator/src/cpu.rs:833-848 | every value below 2^32 survives the trip through a word |
| Word.FromUnsignedOfUnsigned | Emulator/src/cpu.rs:833-848 | every word survives the trip through its unsigned value |
| Word.SignedNegative | Emulator/src/cpu.rs:833-848 | the `i32` value is negative exactly when bit 31 is set |
| Word.SignedZero | Emulator/src/cpu.rs:833-848 | only the zero word reads as 0 |
| Word.SignedExtremes | Emulator/src/cpu.rs:833-848 | `0x8000_0000` is `i32::MIN` and `0xFFFF_FFFF` is -1, in both directions |
| Word.TruncDivision | Emulator/src/cpu.rs:833-848 | the quotient rounded toward zero and its remainder: a = q * b + r, \|r\| < \|b\|, r is 0 or has a's sign, and \|q\| <= \|a\| |
| Word.TruncDivRange | Emulator/src/cpu.rs:833-848 | the quotient of two `i32` values is an `i32` except for `i32::MIN / -1` |
| Word.TruncRemRange | Emulator/src/cpu.rs:833-848 | the remainder by an `i32` divisor is an `i32` |
| CpuProperties.MultiplyZeroRules | Emulator/src/cpu.rs:806-832 | mul sets ZERO := (result == 0); the mulh variants only clear ZERO |
| CpuProperties.SignalInterruptSetsItsSlot | Emulator/src/cpu.rs:127-130 | after `signal_interrupt(slot)` the slot's bit of the pending set is set, and every other bit is as before |
| CpuProperties.SignalledSlotPending | Emulator/src/cpu.rs:127-130 | the signalled slot reads as pending |
| CpuProperties.SignalledInterruptTaken | Emulator/src/cpu.rs:127-192 | on a Listening CPU whose mask enables the signalled slot, the next interrupt is taken, at that slot or a higher one |
| CpuProperties.NextInterruptNone | Emulator/src/cpu.rs:181-192 | no interrupt if and only if Servicing or no pending unmasked slot; then nothing changes |
| CpuProperties.NextInterruptHighest | Emulator/src/cpu.rs:181-192 | the interrupt taken is the highest pending unmasked slot |
| CpuProperties.NextInterruptClearsOnlyItsSlot | Emulator/src/cpu.rs:181-192 | taking it clears that pending bit and nothing else |
| CpuProperties.ClearPendingSpec | Emulator/src/cpu.rs:190 | clearing a slot clears its bit and keeps all others |
| CpuProperties.EnterLeaveRoundTrip | Emulator/src/cpu.rs:194-211 | `leave_interrupt(enter_interrupt(v))` restores PC, Listening and both banks exactly, with the return address saved |
| CpuProperties.LeaveEnterRoundTrip | Emulator/src/cpu.rs:194-211 | leaving and re-entering at the saved PC restores a servicing CPU |
| CpuProperties.ExceptionEntry | Emulator/src/cpu.rs:213-222 | an exception while Servicing is fatal; otherwise it enters the kind's vector, saving the PC |
| CpuProperties.SystemGroupRules | Emulator/src/cpu.rs:476-505 | sysret while Listening raises IllegalInstruction and while Servicing leaves the handler; syscall while Servicing is fatal; envcall returns bits 15:12 |
| CpuProperties.UserIoGoesToBus | Emulator/src/cpu.rs:224-325 | at User privilege every window access goes to the bus and the CPU is unchanged |
| CpuProperties.UnmappedIoGoesToBus | Emulator/src/cpu.rs:224-325 | an address outside the window goes to the bus at any privilege |
| CpuProperties.DecodeIoRanges | Emulator/src/cpu.rs:46-63 | each window register range decodes to its register, in both directions |
| CpuProperties.Truncate16RoundTrip | Emulator/src/cpu.rs:271-325 | mask and pending keep exactly the low 16 bits |
| CpuProperties.AltFlagsRoundTrip | Emulator/src/cpu.rs:271-325 | the alternate flags keep exactly the low 4 bits |
| CpuProperties.PrivilegeBitRoundTrip | Emulator/src/cpu.rs:271-325 | the privilege register keeps exactly bit 0 |
| CpuProperties.WindowRoundTrip | Emulator/src/cpu.rs:224-325 | each window register reads back what was written, as the write masked it (vectors and return address lose bit 0, Zero of the alternate bank stays 0) |
| CpuProperties.WindowWriteThenRead | Emulator/src/cpu.rs:224-325 | at System privilege `read_io` after `write_io` to a window address returns the masked value, and the bus is not used |
| CpuProperties.StepTakesInterrupt | Emulator/src/cpu.rs:1028-1031 | a serviceable interrupt enters its hardware vector; memory is not read and the un-advanced PC is saved |
| CpuProperties.StepFetchFails | Emulator/src/cpu.rs:1033-1038 | a failed fetch of the lower half raises its exception at the un-advanced PC |
| CpuProperties.StepAdvancesBeforeDecode | Emulator/src/cpu.rs:1035-1043 | the PC is advanced by 2 before the half-word is decoded |
| CpuProperties.IllegalSysretSavesAdvancedPc | Emulator/src/cpu.rs:1133-1139 | the sysret word outside a handler enters the IllegalInstruction vector saving the PC 2 past it; `StepRaiseSavesAdvancedPc` states the rule for every raising instruction |
| CpuProperties.SysretOutsideHandler | Emulator/src/cpu.rs:476-484 | the sysret word raises IllegalInstruction while Listening, changing nothing |
| CpuProperties.StepWithoutException | Emulator/src/cpu.rs:1128-1140 | a step whose inner step raised nothing is that inner step |
| CpuProperties.Sys16RaiseKeepsView | Emulator/src/cpu.rs:471-510 | a system instruction that raises (sysret outside a handler, rows 4..13) leaves the CPU as it was |
| CpuProperties.Mem16RaiseKeepsView | Emulator/src/cpu.rs:533-556 | a 16-bit ld/st whose access fails leaves the CPU as it was |
| CpuProperties.Mem32RaiseKeepsView | Emulator/src/cpu.rs:648-729 | a 32-bit load, store, in or out whose memory or I/O access fails leaves the CPU as it was |
| CpuProperties.Execute32RegisterRaiseKeepsView | Emulator/src/cpu.rs:1098-1115 | an illegal register-group row, aluc/fpu3/cvt row or failed ldr/stc access leaves the CPU as it was |
| CpuProperties.Execute32RaiseKeepsView | Emulator/src/cpu.rs:1082-1118 | a raising 32-bit instruction leaves the CPU it was given |
| CpuProperties.ExecuteRaiseKeepsView | Emulator/src/cpu.rs:1043-1122 | whatever raises in the decode tree leaves the CPU as it was, with the PC 2 further only once the upper half-word was fetched |
| CpuProperties.StepInnerRaiseKeepsView | Emulator/src/cpu.rs:1023-1126 | without an interrupt and with the lower half fetched, a raising inner step leaves the CPU with the PC 2 or 4 past the instruction's start |
| CpuProperties.StepEntersRaised | Emulator/src/cpu.rs:1128-1140 | a raised exception is entered from the inner step's CPU, or is fatal when there is no vector to enter |
| CpuProperties.StepRaiseSavesAdvancedPc | Emulator/src/cpu.rs:1128-1140 | on a Listening CPU an exception raised by any instruction is entered with the advanced PC saved as the return address: 2 or 4 past the instruction's start |
| CpuProperties.StepWhileServicing | Emulator/src/cpu.rs:1028-1035 | while Servicing no interrupt is taken and the fetch is at System privilege |
| CpuProperties.NewCpuAligned | Emulator/src/cpu.rs:103-117 | a new CPU meets `Aligned`: the reset PC, the return address and every vector are even |
| CpuProperties.ResetKeepsAligned | Emulator/src/cpu.rs:119-125 | reset keeps `Aligned` |
| CpuProperties.JumpTargetEven | Emulator/src/cpu.rs:375-379 | every jump and ret target is even (bit 0 is cleared), whatever the base and offset |
| CpuProperties.AdvanceKeepsEven | Emulator/src/cpu.rs:1033-1080 | advancing an even PC by 2 or 4 keeps it even |
| CpuProperties.WriteWindowKeepsAligned | Emulator/src/cpu.rs:271-325 | a window write of any value to any register keeps the vectors and the return address even |
| CpuProperties.InterruptEntryKeepsAligned | Emulator/src/cpu.rs:194-211 | entering an even vector, and leaving to the saved return address, keep `Aligned` |
| CpuProperties.ExceptionKeepsAligned | Emulator/src/cpu.rs:213-222 | a Listening CPU enters its exception vector and keeps `Aligned` |
| CpuProperties.SignExtend8Rules | Emulator/src/cpu.rs:677-680 | the 8-bit sign extension keeps the byte and copies bit 7 into bits 31:8 |
| CpuProperties.SignExtend16Rules | Emulator/src/cpu.rs:685-688 | the 16-bit sign extension keeps the half-word and copies bit 15 into bits 31:16 |
| CpuModel.SignExtend8 | Emulator/src/cpu.rs:679 | `((value as i8) as i32) as u32`; `CpuProperties.SignExtend8Rules` states it |
| CpuModel.SignExtend16 | Emulator/src/cpu.rs:687 | `((value as i16) as i32) as u32`; `CpuProperties.SignExtend16Rules` states it |
| CpuProperties.HalfExtension | Emulator/src/cpu.rs:681-688 | zero extension clears bits 31:16; sign extension fills them with bit 15 |
| CpuProperties.ByteLoadExtends | Emulator/src/cpu.rs:956-976 | byte load rows keep the byte; row 2 zero-extends, row 3 sign-extends |
| CpuProperties.HalfLoadExtends | Emulator/src/cpu.rs:956-976 | half-word load rows keep the half-word; row 4 zero-extends, row 5 sign-extends |
| CpuProperties.HalfLoadValue | Emulator/src/cpu.rs:956-976 | a successful half-word read loads the half-word, sign-extended for row 5 and zero-extended for row 4, with the state the read left |
| CpuProperties.LoadPassesErrors | Emulator/src/cpu.rs:956-976 | every load row fails exactly when its read fails, passing the error through |
| CpuProperties.StcWritesSuccessBit | Emulator/src/cpu.rs:999-1017 | a conditional store leaves 1 in rd when it stored and 0 when the reservation was lost, and no other register changes; a failed store raises its error with the registers unchanged |
| CpuProperties.UnassignedSystemRows | Emulator/src/cpu.rs:488-490 | sys rows 4..13 raise IllegalInstruction, changing nothing |
| CpuProperties.UnassignedAlucRows | Emulator/src/cpu.rs:785 | aluc raises exactly for rows 2..7 |
| CpuProperties.UnassignedFloatRows | Emulator/src/cpu.rs:869 | the three-operand float group raises exactly for rows 4 and 5 |
| CpuProperties.UnassignedConversionRows | Emulator/src/cpu.rs:936-938 | cvt raises exactly for rows 2..7 |
| CpuProperties.UnassignedMemoryRows | Emulator/src/cpu.rs:977-979 | ldr rows 6/7, stc row 3 (1012-1014) and register-group opcodes from 16 up (1114) raise IllegalInstruction before any memory access |
| CpuCore.CpuState.constructor | Emulator/src/cpu.rs:74-78 | a bank of zero registers and no flags |
| CpuCore.Cpu.constructor | Emulator/src/cpu.rs:103-117 | the view is `NewCpu()` |
| CpuCore.Cpu.Reset | Emulator/src/cpu.rs:119-125 | the view becomes `ResetCpu` of the old view |
| CpuCore.Cpu.SignalInterrupt | Emulator/src/cpu.rs:127-130 | the view becomes `SignalInterrupt` of the old view |
| CpuCore.Cpu.GetRegister | Emulator/src/cpu.rs:165-167 | reads the active bank |
| CpuCore.Cpu.SetRegister | Emulator/src/cpu.rs:170-172 | the active bank takes `set(r, v)`, nothing else changes |
| CpuCore.Cpu.SetFlags | Emulator/src/cpu.rs:327-342 | the active bank's flags are replaced, nothing else changes |
| CpuCore.Cpu.EffectivePrivilegeLevel | Emulator/src/cpu.rs:174-179 | `EffectivePrivilege` of the view |
| CpuCore.Cpu.NextInterrupt | Emulator/src/cpu.rs:181-192 | slot and new view are `NextInterrupt` of the old view |
| CpuCore.Cpu.EnterInterrupt | Emulator/src/cpu.rs:194-202 | the banks are swapped (not copied) and the view becomes `EnterInterrupt` of the old view |
| CpuCore.Cpu.LeaveInterrupt | Emulator/src/cpu.rs:204-211 | the banks are swapped back and the view becomes `LeaveInterrupt` of the old view |
| CpuCore.Cpu.Exception | Emulator/src/cpu.rs:213-222 | fatal exactly when the model says so, else the view is the model's |
| CpuCore.Cpu.ReadIo | Emulator/src/cpu.rs:224-269 | result and bus state are `ReadIo` of the old view |
| CpuCore.Cpu.WriteWindow | Emulator/src/cpu.rs:271-325 | the view becomes `WriteWindow` of the old view |
| CpuCore.Cpu.WriteVector | Emulator/src/cpu.rs:280-293 | one vector table entry, with bit 0 cleared |
| CpuCore.Cpu.WriteAlternate | Emulator/src/cpu.rs:311-319 | the alternate bank's register or flags |
| CpuCore.Cpu.WriteControl | Emulator/src/cpu.rs:294-310 | mask, pending, privilege or return address |
| CpuCore.Cpu.WriteIo | Emulator/src/cpu.rs:271-325 | view, bus state and result are `WriteIo` of the old view |
| CpuCore.Cpu.LdiAddi16 | Emulator/src/cpu.rs:345-362 | the view becomes `LdiAddi16` of the old view |
| CpuCore.Cpu.Jump16 | Emulator/src/cpu.rs:365-380 | the view becomes `Jump16` of the old view |
| CpuCore.Cpu.Branch | Emulator/src/cpu.rs:394-400 | the view becomes `Branch` of the old view |
| CpuCore.Cpu.Branch16 | Emulator/src/cpu.rs:383-401 | the view becomes `Branch16` of the old view |
| CpuCore.Cpu.Uimm32 | Emulator/src/cpu.rs:404-422 | the view becomes `Uimm32` of the old view |
| CpuCore.Cpu.Alu | Emulator/src/cpu.rs:431-444 | the view becomes `Alu` of the old view |
| CpuCore.Cpu.Alu16 | Emulator/src/cpu.rs:425-445 | the view becomes `Alu16` of the old view |
| CpuCore.Cpu.Mov16 | Emulator/src/cpu.rs:448-457 | the view becomes `Mov16` of the old view |
| CpuCore.Cpu.Cmp16 | Emulator/src/cpu.rs:460-468 | the view becomes `Cmp16` of the old view |
| CpuCore.Cpu.Sys16 | Emulator/src/cpu.rs:471-510 | view and status are `Sys16` of the old view |
| CpuCore.Cpu.Alui16 | Emulator/src/cpu.rs:513-530 | the view becomes `Alui16` of the old view |
| CpuCore.Cpu.Mem16 | Emulator/src/cpu.rs:533-556 | view, memory state and status are `Mem16` of the old values |
| CpuCore.Cpu.Jump32 | Emulator/src/cpu.rs:559-574 | the view becomes `Jump32` of the old view |
| CpuCore.Cpu.Branch32 | Emulator/src/cpu.rs:577-597 | the view becomes `Branch32` of the old view |
| CpuCore.Cpu.Alui32 | Emulator/src/cpu.rs:600-625 | the view becomes `Alui32` of the old view |
| CpuCore.Cpu.Movi32 | Emulator/src/cpu.rs:628-645 | the view becomes `Movi32` of the old view |
| CpuCore.Cpu.Mem32 | Emulator/src/cpu.rs:648-729 | view, memory, bus and status are `Mem32` of the old values |
| CpuCore.Cpu.Alu32 | Emulator/src/cpu.rs:732-754 | the view becomes `Alu32` of the old view |
| CpuCore.Cpu.Mov32 | Emulator/src/cpu.rs:757-770 | the view becomes `Mov32` of the old view |
| CpuCore.Cpu.Aluc32 | Emulator/src/cpu.rs:773-795 | view and status are `Aluc32` of the old view |
| CpuCore.Cpu.Mul32 | Emulator/src/cpu.rs:798-853 | the view becomes `Mul32` of the old view |
| CpuCore.Cpu.Fpu3 | Emulator/src/cpu.rs:856-878 | view and status are `Fpu3` of the old view |
| CpuCore.Cpu.Fpu2 | Emulator/src/cpu.rs:881-899 | the view becomes `Fpu2` of the old view |
| CpuCore.Cpu.Fcmp | Emulator/src/cpu.rs:902-919 | the view becomes `Fcmp` of the old view |
| CpuCore.Cpu.Cvt | Emulator/src/cpu.rs:922-943 | view and status are `Cvt` of the old view |
| CpuCore.Cpu.Ldr | Emulator/src/cpu.rs:946-984 | view, memory state and status are `Ldr` of the old values |
| CpuCore.Cpu.Stc | Emulator/src/cpu.rs:987-1020 | view, memory state and status are `Stc` of the old values |
| CpuCore.Cpu.Execute32Register | Emulator/src/cpu.rs:1098-1115 | outcome of the model's register-group dispatch |
| CpuCore.Cpu.Execute32 | Emulator/src/cpu.rs:1082-1118 | outcome of the model's 32-bit dispatch |
| CpuCore.Cpu.FetchUpper | Emulator/src/cpu.rs:1077-1080 | the upper half joined above the lower one with the PC advanced by 2 more, or the read's exception |
| CpuCore.Cpu.Execute | Emulator/src/cpu.rs:1043-1122 | outcome of the model's decode tree |
| CpuCore.Cpu.StepInner | Emulator/src/cpu.rs:1023-1126 | outcome of `StepInner` of the old view |
| CpuCore.Cpu.Step | Emulator/src/cpu.rs:1128-1140 | outcome of `Step` of the old view |
| TestDoubles.TestOffset | Emulator/src/cpu/tests.rs:64-73 | the slice offset of an in-range address |
| TestDoubles.Unaligned32 | Emulator/src/cpu/tests.rs:60-62 | a misaligned 32-bit read or write is UnalignedAccess before any range check, and changes nothing |
| TestDoubles.Unaligned16 | Emulator/src/cpu/tests.rs:82-84 | an odd 16-bit read or write is UnalignedAccess |
| TestDoubles.AlignedNeverUnaligned | Emulator/src/cpu/tests.rs:98-114 | aligned accesses, and all 8-bit ones, are never UnalignedAccess |
| TestDoubles.OutOfRange | Emulator/src/cpu/tests.rs:64-73 | an aligned access outside the slice is AccessViolation and changes nothing |
| TestDoubles.RangeIsSlice | Emulator/src/cpu/tests.rs:64-73 | in range means from `RESET_PROGRAM_COUNTER` to the slice's last byte |
| TestDoubles.Write32Outcome | Emulator/src/cpu/tests.rs:128-139 | an aligned in-range write reports `pass_cond \|\| !conditional`, stores when it reports true and changes nothing otherwise |
| TestDoubles.Write16Outcome | Emulator/src/cpu/tests.rs:142-166 | the same for 16-bit writes |
| TestDoubles.Write8Outcome | Emulator/src/cpu/tests.rs:168-188 | the same for 8-bit writes |
| TestDoubles.IgnoresPrivilegeAndReserve | Emulator/src/cpu/tests.rs:56-58 | no accessor depends on the privilege or the reserve flag |
| TestDoubles.TestIoRejects | Emulator/src/cpu/tests.rs:191-205 | every I/O read and write is AccessViolation |
| TestDoubles.TestMemoryOps | Emulator/src/cpu/tests.rs:53-191 | `MemoryInterface for TestMemory`, the six accessors ignoring privilege and the reserve flag; `IgnoresPrivilegeAndReserve` and `InstructionTests.FetchFromTestMemory` state it |
| TestDoubles.TestIoOps | Emulator/src/cpu/tests.rs:193-206 | `IoInterface for TestIo`; `TestIoRejects` states it |
| TestDoubles.TestRead32 | Emulator/src/cpu/tests.rs:54-74 | `read_32` of the test memory; `Unaligned32`, `OutOfRange` and `AlignedNeverUnaligned` state it |
| TestDoubles.TestRead16 | Emulator/src/cpu/tests.rs:76-96 | `read_16`; `Unaligned16`, `OutOfRange` and `AlignedNeverUnaligned` state it |
| TestDoubles.TestRead8 | Emulator/src/cpu/tests.rs:98-114 | `read_8`; `OutOfRange` and `AlignedNeverUnaligned` state it |
| TestDoubles.TestWrite32 | Emulator/src/cpu/tests.rs:116-140 | `write_32`; `Write32Outcome` states it |
| TestDoubles.TestWrite16 | Emulator/src/cpu/tests.rs:142-166 | `write_16`; `Write16Outcome` states it |
| TestDoubles.TestWrite8 | Emulator/src/cpu/tests.rs:168-188 | `write_8`; `Write8Outcome` states it |
| TestDoubles.TestMemory.constructor | Emulator/src/cpu/tests.rs:48-50 | wraps the slice and `pass_cond` |
| TestDoubles.TestMemory.Read32 | Emulator/src/cpu/tests.rs:54-74 | the model read of the slice |
| TestDoubles.TestMemory.Read16 | Emulator/src/cpu/tests.rs:76-96 | the model read of the slice |
| TestDoubles.TestMemory.Read8 | Emulator/src/cpu/tests.rs:98-114 | the model read of the slice |
| TestDoubles.TestMemory.Write32 | Emulator/src/cpu/tests.rs:116-140 | result and slice afterwards are the model write |
| TestDoubles.TestMemory.Write16 | Emulator/src/cpu/tests.rs:142-166 | result and slice afterwards are the model write |
| TestDoubles.TestMemory.Write8 | Emulator/src/cpu/tests.rs:168-188 | result and slice afterwards are the model write |
| InstructionTests.SimulateAdd | Emulator/src/cpu/tests/instruction.rs:7-25 | the tests' `simulate_add`; `SimulateAddFlags` and `SimulateAddIsExecuteAdd` state it |
| InstructionTests.ExpectedAlu | Emulator/src/cpu/tests/instruction.rs:249-420 | the result and flags each ALU test computes; `AluMeetsExpectation` relates it to the CPU |
| InstructionTests.LdiAddiWord | Emulator/src/cpu/tests/instruction.rs:32-87 | the ldi/addi test encoding; `LdiAddiWordDecodes` states its round trip |
| InstructionTests.Jump16Word | Emulator/src/cpu/tests/instruction.rs:90-148 | the j/jl encoding; `Jump16WordDecodes` |
| InstructionTests.Branch16Word | Emulator/src/cpu/tests/instruction.rs:151-184 | the br_16 encoding; `Branch16WordDecodes` |
| InstructionTests.RegisterWord16 | Emulator/src/cpu/tests/instruction.rs:249-466 | the 16-bit register-form encoding; `RegisterWord16Decodes` |
| InstructionTests.ShiftImmWord16 | Emulator/src/cpu/tests/instruction.rs:533-596 | the 16-bit immediate-shift encoding; `ShiftImmWord16Decodes` |
| InstructionTests.UpperWord | Emulator/src/cpu/tests/instruction.rs:187-246 | the ldui/apcui encoding; `UpperWordDecodes` |
| InstructionTests.Jump32Word | Emulator/src/cpu/tests/instruction.rs:602-633 | the jl_32 encoding; `Jump32WordDecodes` |
| InstructionTests.Branch32Word | Emulator/src/cpu/tests/instruction.rs:636-671 | the br_32 encoding; `Branch32WordDecodes` |
| InstructionTests.AluiWord32 | Emulator/src/cpu/tests/instruction.rs:674-931 | the alui_32 encoding; `AluiWord32Decodes` |
| InstructionTests.MoviWord32 | Emulator/src/cpu/tests/instruction.rs:934-968 | the movi_32 encoding; `MoviWord32Decodes` |
| InstructionTests.RegisterWord32 | Emulator/src/cpu/tests/instruction.rs:974-1302 | the 32-bit register-form encoding; `RegisterWord32Decodes` |
| InstructionTests.SimulateAddFlags | Emulator/src/cpu/tests/instruction.rs:7-25 | `simulate_add` flags: carry of the exact sum, zero, sign, overflow |
| InstructionTests.SimulateAddIsExecuteAdd | Emulator/src/cpu/tests/instruction.rs:7-25 | from any flags, `execute_add` then ZERO := (result == 0) is `simulate_add` |
| InstructionTests.AluMeetsExpectation | Emulator/src/cpu/tests/instruction.rs:249-420 | every ALU row with the ZERO update is the table the tests compute |
| InstructionTests.AddWithCarryMeetsExpectation | Emulator/src/cpu/tests/instruction.rs:1237-1302 | addc/subc: `simulate_add` with the stored carry, ZERO only cleared |
| InstructionTests.ExpectedAddWithCarry | Emulator/src/cpu/tests/instruction.rs:1237-1302 | the result and flags the addc/subc tests compute; `AddWithCarryMeetsExpectation` and `AddWithCarry32Test` state the CPU meets it |
| InstructionTests.LdiAddiWordDecodes | Emulator/src/cpu/tests/instruction.rs:32-87 | a value in -512..511 packed by the ldi/addi encoder decodes to itself sign-extended, with its register and form |
| InstructionTests.Jump16WordDecodes | Emulator/src/cpu/tests/instruction.rs:90-148 | the j/jl encoder round-trips base, offset and link bit |
| InstructionTests.Branch16WordDecodes | Emulator/src/cpu/tests/instruction.rs:151-184 | the br_16 encoder round-trips condition and offset |
| InstructionTests.RegisterWord16Decodes | Emulator/src/cpu/tests/instruction.rs:249-466 | the 16-bit register-form encoders round-trip both registers |
| InstructionTests.ShiftImmWord16Decodes | Emulator/src/cpu/tests/instruction.rs:533-596 | the 16-bit immediate-shift encoder round-trips register, count and row |
| InstructionTests.UpperWordDecodes | Emulator/src/cpu/tests/instruction.rs:187-246 | any 22-bit value shifted left by 10 survives the ldui/apcui encoding |
| InstructionTests.Jump32WordDecodes | Emulator/src/cpu/tests/instruction.rs:602-633 | the jl_32 encoder round-trips link, base and offset |
| InstructionTests.Branch32WordDecodes | Emulator/src/cpu/tests/instruction.rs:636-671 | the br_32 encoder round-trips condition and offset |
| InstructionTests.AluiWord32Decodes | Emulator/src/cpu/tests/instruction.rs:674-931 | the alui_32 encoder round-trips registers, immediate and row |
| InstructionTests.MoviWord32Decodes | Emulator/src/cpu/tests/instruction.rs:934-968 | the movi_32 encoder round-trips condition, registers and immediate |
| InstructionTests.RegisterWord32Decodes | Emulator/src/cpu/tests/instruction.rs:974-1302 | the 32-bit register-form encoders round-trip registers and row |
| InstructionTests.Ldi16Test | Emulator/src/cpu/tests/instruction.rs:32-58 | ldi writes the immediate, advances the PC by 2, and leaves the flags |
| InstructionTests.Addi16Test | Emulator/src/cpu/tests/instruction.rs:61-87 | addi: the register and flags of `simulate_add(rd, value, false)` |
| InstructionTests.Jump16Test | Emulator/src/cpu/tests/instruction.rs:90-148 | the PC becomes `(rb + offset) & !1`; jl sets Ra to the PC after the fetch; j changes no register |
| InstructionTests.Branch16Test | Emulator/src/cpu/tests/instruction.rs:151-184 | Link writes Ra; the PC moves by the offset exactly when `satisfy_branch` holds |
| InstructionTests.BranchExpectation | Emulator/src/cpu/tests/instruction.rs:151-184 | the branch rule on an even PC and offset |
| InstructionTests.Alu16Test | Emulator/src/cpu/tests/instruction.rs:249-420 | rd and flags are what the test computes for each of the eight rows |
| InstructionTests.Mov16Test | Emulator/src/cpu/tests/instruction.rs:423-447 | the target takes the source exactly when the condition holds; no flags change |
| InstructionTests.Cmp16Test | Emulator/src/cpu/tests/instruction.rs:450-466 | only the flags change, to those of `simulate_add(lhs, !rhs, true)` |
| InstructionTests.ShiftImm16Test | Emulator/src/cpu/tests/instruction.rs:533-596 | shli/lsri/asri change rd and only ZERO |
| InstructionTests.ExpectedShift | Emulator/src/cpu/tests/instruction.rs:533-596 | the value the shli/lsri/asri tests expect; `ShiftImm16Test` states the CPU writes it |
| InstructionTests.Ret16Test | Emulator/src/cpu/tests/instruction.rs:469-481 | ret only sets PC := Ra & !1 |
| InstructionTests.Fence16Test | Emulator/src/cpu/tests/instruction.rs:486-498 | fence only advances the PC |
| InstructionTests.Ifence16Test | Emulator/src/cpu/tests/instruction.rs:501-513 | ifence only advances the PC |
| InstructionTests.Envcall16Test | Emulator/src/cpu/tests/instruction.rs:516-528 | envcall returns Some(bits 15:12), advances the PC by 2 and changes nothing else |
| InstructionTests.Upper32Test | Emulator/src/cpu/tests/instruction.rs:187-246 | ldui writes the value; apcui writes PC + 4 + value; flags unchanged |
| InstructionTests.Jump32Test | Emulator/src/cpu/tests/instruction.rs:602-633 | jl_32 sets rd to the old PC + 4 and jumps to `(rb + offset) & !1` |
| InstructionTests.Branch32Test | Emulator/src/cpu/tests/instruction.rs:636-671 | the branch rule from the PC after the whole instruction |
| InstructionTests.Alui32Test | Emulator/src/cpu/tests/instruction.rs:674-931 | rd and flags are what the test computes for each row on rs1 and the immediate |
| InstructionTests.Movi32Test | Emulator/src/cpu/tests/instruction.rs:934-968 | rd takes the immediate when the condition holds and rs1 otherwise |
| InstructionTests.Alu32Test | Emulator/src/cpu/tests/instruction.rs:974-1201 | rd and flags are what the test computes for each row on rs1 and rs2 |
| InstructionTests.Mov32Test | Emulator/src/cpu/tests/instruction.rs:1204-1234 | rd takes rs2 when the condition holds and rs1 otherwise |
| InstructionTests.AddWithCarry32Test | Emulator/src/cpu/tests/instruction.rs:1237-1302 | addc/subc: rd and flags are what the test computes |
| InstructionTests.FetchFromTestMemory | Emulator/src/cpu/tests/instruction.rs:52-53 | the tests' servicing CPU fetches from the test memory at the PC, advances by 2 and decodes at System privilege |
| InstructionTests.RoutesToAlu16 | Emulator/src/cpu.rs:1058-1060 | a half-word with bits 4:0 = 00111 is executed by alu_16 and completes |
| InstructionTests.RoutesToUpper32 | Emulator/src/cpu.rs:1047-1056 | bits 2:0 = 011 with bit 7 set fetch the upper half and run ldui/apcui on the joined word |
| InstructionTests.RoutesToExecute32 | Emulator/src/cpu.rs:1075-1082 | bits 5:0 all set fetch the upper half and run the 32-bit decode tree on the joined word |
| InstructionTests.RoutesToAlu32 | Emulator/src/cpu.rs:1098-1100 | the register group with sub-opcode 0 is executed by alu_32 |
| InstructionTests.RoutesToBranch16 | Emulator/src/cpu.rs:1047-1049 | bits 2:0 = 011 with bit 7 clear are executed by branch_16 and complete |
| InstructionTests.RoutesToCmp16 | Emulator/src/cpu.rs:1062-1065 | the byte 0x17 (group 10, bits 6:5 and 7 clear) is executed by cmp_16 |
| InstructionTests.RoutesToShiftImm16 | Emulator/src/cpu.rs:1062-1070 | group 10 with bits 6:5 not both clear is executed by alui_16 |
| InstructionTests.RoutesToJump32 | Emulator/src/cpu.rs:1082-1085 | 32-bit group 00 with bit 6 clear is executed by jump_32 |
| InstructionTests.RoutesToBranch32 | Emulator/src/cpu.rs:1082-1087 | 32-bit group 00 with bit 6 set is executed by branch_32 |
| InstructionTests.RoutesToAlui32 | Emulator/src/cpu.rs:1090-1092 | 32-bit group 01 with bit 6 clear is executed by alui_32 |
| InstructionTests.RoutesToMovi32 | Emulator/src/cpu.rs:1090-1094 | 32-bit group 01 with bit 6 set is executed by movi_32 |
| InstructionTests.RoutesToMov32 | Emulator/src/cpu.rs:1098-1101 | the register group with sub-opcode 1 is executed by mov_32 |
| InstructionTests.RoutesToAluc32 | Emulator/src/cpu.rs:1098-1102 | the register group with sub-opcode 2 is executed by aluc_32, with its status |
| GoldenAlu.ParseMatchesEmulatorLayout | Simulation/src/tests/alu.rs:75-83 | the reference reads carry, zero, sign and overflow from the emulator's bits 0..3 |
| GoldenAlu.Parse | Simulation/src/tests/alu.rs:75-82 | `Flags::parse`; `ParseMatchesEmulatorLayout` and `ParseInjective` state it |
| GoldenAlu.ParseInjective | Simulation/src/tests/alu.rs:75-83 | parsing loses no flag |
| GoldenAlu.GoldenDisplay | Simulation/src/tests/alu.rs:109-129 | four characters, O/S/Z/C for set flags and `.` for clear ones |
| GoldenAlu.SatisfyTablesMatch | Simulation/src/tests/alu.rs:85-96 | the reference condition table is the emulator's `satisfy` |
| GoldenAlu.GoldenSatisfy | Simulation/src/tests/alu.rs:85-96 | the reference `satisfy`; `SatisfyTablesMatch` proves it is the emulator's table |
| GoldenAlu.CarryAddAgrees | Simulation/src/tests/alu.rs:131-136 | the reference carry chain is the emulator's `carry_add` |
| GoldenAlu.GoldenCarryAdd | Simulation/src/tests/alu.rs:131-135 | the reference `carry_add`; `CarryAddAgrees` proves it is the emulator's |
| GoldenAlu.ExecuteAddAgrees | Simulation/src/tests/alu.rs:138-151 | `execute_add` is the reference's additive flag rule with ZERO carried through |
| GoldenAlu.AluRowAdd | Emulator/src/cpu.rs:431-441 | ALU row 0 is `execute_add` without carry-in, then ZERO := (result == 0) |
| GoldenAlu.AluRowSub | Emulator/src/cpu.rs:431-441 | ALU row 1 is `execute_add` of `!rhs` with carry-in, then ZERO := (result == 0) |
| GoldenAlu.AddWithCarryAdd | Emulator/src/cpu.rs:773-784 | addc is `execute_add` with CARRY as carry-in, and ZERO can then only be cleared |
| GoldenAlu.AddWithCarrySub | Emulator/src/cpu.rs:773-784 | subc is the same on `!rhs` |
| GoldenAlu.CarryInFamilyAgrees | Simulation/src/tests/alu.rs:169-198 | for any right operand, the carry-in rule of the emulator is the reference's: the old carry feeds in, and zero survives only on a zero result |
| GoldenAlu.AddAgrees | Simulation/src/tests/alu.rs:138-151 | add agrees, all four flags set |
| GoldenAlu.SubAgrees | Simulation/src/tests/alu.rs:153-167 | sub agrees |
| GoldenAlu.AddCAgrees | Simulation/src/tests/alu.rs:169-182 | addc agrees: carry-in from the old carry, zero := (result == 0) && old zero |
| GoldenAlu.SubCAgrees | Simulation/src/tests/alu.rs:184-198 | subc agrees on the complement |
| GoldenAlu.AndAgrees | Simulation/src/tests/alu.rs:200-205 | and agrees; only zero changes |
| GoldenAlu.OrAgrees | Simulation/src/tests/alu.rs:207-212 | or agrees; only zero changes |
| GoldenAlu.XorAgrees | Simulation/src/tests/alu.rs:214-219 | xor agrees; only zero changes |
| GoldenAlu.ShlAgrees | Simulation/src/tests/alu.rs:221-226 | shl agrees with the count mod 32 |
| GoldenAlu.LsrAgrees | Simulation/src/tests/alu.rs:228-233 | lsr agrees with the count mod 32 |
| GoldenAlu.AsrAgrees | Simulation/src/tests/alu.rs:235-240 | asr agrees with the count mod 32 |
| GoldenAlu.MulAgrees | Simulation/src/tests/alu.rs:242-247 | mul agrees, zero := (result == 0) |
| GoldenAlu.MulHuuAgrees | Simulation/src/tests/alu.rs:249-254 | mulhuu agrees, zero only cleared |
| GoldenAlu.MulHssAgrees | Simulation/src/tests/alu.rs:256-261 | mulhss agrees, zero only cleared |
| GoldenAlu.MulHusAgrees | Simulation/src/tests/alu.rs:263-268 | mulhus agrees, zero only cleared |
| GoldenAlu.DivuAgrees | Simulation/src/tests/alu.rs:270-274 | divu agrees for rhs >= 1; flags untouched |
| GoldenAlu.GoldenDivs | Simulation/src/tests/alu.rs:276-280 | `golden_divs` on integers: the `i32` quotient rounded toward zero, written back as a word, with `i32::MIN / -1` wrapping; `DivsAgrees` and `CpuProperties.SignedDivisionTruncates` state it |
| GoldenAlu.GoldenRems | Simulation/src/tests/alu.rs:288-292 | `golden_rems` on integers: the remainder of that quotient, 0 for `i32::MIN % -1`; `RemsAgrees` states it |
| GoldenAlu.DivsAgrees | Simulation/src/tests/alu.rs:276-280 | divs agrees for rhs != 0; flags untouched |
| GoldenAlu.RemuAgrees | Simulation/src/tests/alu.rs:282-286 | remu agrees for rhs >= 1; flags untouched |
| GoldenAlu.RemsAgrees | Simulation/src/tests/alu.rs:288-292 | rems agrees for rhs != 0; flags untouched |
| GoldenAlu.CondAgrees | Simulation/src/tests/alu.rs:294-297 | cond returns rhs exactly when `satisfy(cond)`, else lhs; flags untouched |
| GoldenAlu.AddFamilyAgrees | Simulation/src/tests/alu.rs:138-198 | add, sub, addc, subc: reference and emulator agree on result and flags |
| GoldenAlu.LogicAgrees | Simulation/src/tests/alu.rs:200-240 | and, or, xor, shl, lsr, asr agree on result and flags |
| GoldenAlu.UnsignedProductAgrees | Simulation/src/tests/alu.rs:242-254 | mul and mulhuu agree on result and flags |
| GoldenAlu.SignedProductAgrees | Simulation/src/tests/alu.rs:256-268 | mulhss and mulhus agree on result and flags |
| GoldenAlu.QuotientAgrees | Simulation/src/tests/alu.rs:270-292 | divu, divs, remu, rems agree on result and flags for a non-zero divisor |
| GoldenAlu.GoldenAgrees | Simulation/src/tests/alu.rs:138-297 | for every operation the reference is used with, reference and emulator agree on result and flags |
| GoldenAlu.GoldenAdd | Simulation/src/tests/alu.rs:138-151 | the reference add; `AddAgrees` |
| GoldenAlu.GoldenSub | Simulation/src/tests/alu.rs:153-167 | the reference sub; `SubAgrees` |
| GoldenAlu.GoldenAddC | Simulation/src/tests/alu.rs:169-182 | the reference addc; `AddCAgrees` |
| GoldenAlu.GoldenSubC | Simulation/src/tests/alu.rs:184-198 | the reference subc; `SubCAgrees` |
| GoldenAlu.GoldenAnd | Simulation/src/tests/alu.rs:200-205 | the reference and; `AndAgrees` |
| GoldenAlu.GoldenOr | Simulation/src/tests/alu.rs:207-212 | the reference or; `OrAgrees` |
| GoldenAlu.GoldenXor | Simulation/src/tests/alu.rs:214-219 | the reference xor; `XorAgrees` |
| GoldenAlu.GoldenShl | Simulation/src/tests/alu.rs:221-226 | the reference shl; `ShlAgrees` |
| GoldenAlu.GoldenLsr | Simulation/src/tests/alu.rs:228-233 | the reference lsr; `LsrAgrees` |
| GoldenAlu.GoldenAsr | Simulation/src/tests/alu.rs:235-240 | the reference asr; `AsrAgrees` |
| GoldenAlu.GoldenMul | Simulation/src/tests/alu.rs:242-247 | the reference mul; `MulAgrees` |
| GoldenAlu.GoldenMulHuu | Simulation/src/tests/alu.rs:249-254 | the reference mulhuu; `MulHuuAgrees` |
| GoldenAlu.GoldenMulHss | Simulation/src/tests/alu.rs:256-261 | the reference mulhss; `MulHssAgrees` |
| GoldenAlu.GoldenMulHus | Simulation/src/tests/alu.rs:263-268 | the reference mulhus; `MulHusAgrees` |
| GoldenAlu.GoldenCond | Simulation/src/tests/alu.rs:294-297 | the reference cond; `CondAgrees` |
| GoldenAlu.Golden | Simulation/src/tests/alu.rs:138-297 | the reference of each operation; `GoldenAgrees` compares it with `Emulator` |
| GoldenAlu.Emulator | Emulator/src/cpu.rs:431-853 | the emulator's rule for each reference operation; `GoldenAgrees` compares it with `Golden` |
| FetchUnit.WordOf | Simulation/src/tests/fetch_unit.rs:66-77 | `a & !3`: aligned, at most 3 below a |
| FetchUnit.Instruction | Simulation/src/tests/fetch_unit.rs:169-171 | `instruction`, the first two buffered halves; `InstructionIsMemory` proves it is the memory word at an aligned PC |
| FetchUnit.Instruction16Bit | Simulation/src/tests/fetch_unit.rs:174-177 | `instruction_16bit`; `LengthDecodeAgrees` and `CpuReadsUpperHalfIsFetch` tie it to the CPU's decode |
| FetchUnit.InstructionValid | Simulation/src/tests/fetch_unit.rs:180-182 | `instruction_valid`; `LinearStep`, `WhenFatal` and `LengthDecodeAgrees` state it |
| FetchUnit.Initial | Simulation/src/tests/fetch_unit.rs:38-44 | empty zeroed buffer at address 0 |
| FetchUnit.JumpToWord | Simulation/src/tests/fetch_unit.rs:66-77 | a jump to a word-aligned target loads both halves of the word (valid 2) |
| FetchUnit.JumpToUpperHalf | Simulation/src/tests/fetch_unit.rs:66-77 | a jump to the middle of a word loads its upper half (valid 1) |
| FetchUnit.Advance16Good | Simulation/src/tests/fetch_unit.rs:81-104 | advancing past a 16-bit instruction moves the PC by 2 and keeps the invariants |
| FetchUnit.Advance32Good | Simulation/src/tests/fetch_unit.rs:105-126 | advancing past a 32-bit instruction moves the PC by 4 and keeps the invariants |
| FetchUnit.HoldGood | Simulation/src/tests/fetch_unit.rs:128-157 | holding refills the buffer and keeps the invariants |
| FetchUnit.ClockKeepsInvariants | Simulation/src/tests/fetch_unit.rs:46-166 | every completed edge keeps 0 <= valid <= 3 and (PC + 2 valid) mod 4 == 0, and reads only aligned words |
| FetchUnit.InitialInvariants | Simulation/src/tests/fetch_unit.rs:38-44 | the reset state meets both invariants and offers no instruction |
| FetchUnit.JumpGood | Simulation/src/tests/fetch_unit.rs:66-77 | a jump to any even target leaves a state that meets the invariants |
| FetchUnit.InstructionIsMemory | Simulation/src/tests/fetch_unit.rs:169-171 | under the invariants, the first half-word is memory at the PC |
| FetchUnit.LinearStep | Simulation/src/tests/fetch_unit.rs:199-332 | an edge that advances exactly when `instruction_valid` moves the PC by the instruction's length, as the linear test drives it |
| FetchUnit.JumpStep | Simulation/src/tests/fetch_unit.rs:334-472 | a jump wins over advance: PC := target and the word holding it is read |
| FetchUnit.WhenFatal | Simulation/src/tests/fetch_unit.rs:55-127 | the edge panics on an odd target, and on an advance of an invalid instruction |
| FetchUnit.ResetAndEnable | Simulation/src/tests/fetch_unit.rs:57-60 | reset empties the unit at address 0 regardless of enable; without enable and reset, a completed edge leaves the state unchanged (160-164) |
| FetchUnit.LengthDecodeAgrees | Simulation/src/tests/fetch_unit.rs:174-182 | `instruction_16bit` is false exactly when the CPU fetches an upper half-word (cpu.rs 1043-1080); `instruction_valid` holds for 2 valid half-words, or 1 valid 16-bit one |
| FetchUnit.CpuReadsUpperHalfIsFetch | Emulator/src/cpu.rs:1043-1080 | when `CpuReadsUpperHalf` holds, a failed read of the upper half is the outcome of the model's `Execute`; when it does not, `Execute` does not depend on the 16-bit read |
| FetchUnit.SixteenBitRaiseKeepsView | Emulator/src/cpu.rs:1043-1075 | an instruction that the length rule calls 16-bit leaves the CPU unchanged when it raises, so the saved PC is 2 past it |
| FetchUnit.ClockEdge | Simulation/src/tests/fetch_unit.rs:46-166 | one clock edge on values; `ClockKeepsInvariants`, `LinearStep`, `JumpStep`, `WhenFatal` and `ResetAndEnable` state it |
| FetchUnit.JumpNext | Simulation/src/tests/fetch_unit.rs:66-77 | the jump arm; `JumpToWord`, `JumpToUpperHalf` and `JumpGood` state it |
| FetchUnit.AdvanceNext | Simulation/src/tests/fetch_unit.rs:78-127 | the advance arm; `Advance16Good` and `Advance32Good` state it |
| FetchUnit.HoldNext | Simulation/src/tests/fetch_unit.rs:128-157 | the hold arm; `HoldGood` states it |
| FetchUnit.GoldenFetchUnit.constructor | Simulation/src/tests/fetch_unit.rs:38-44 | the fields hold `Initial()` |
| FetchUnit.GoldenFetchUnit.Clock | Simulation/src/tests/fetch_unit.rs:46-166 | the fields afterwards are the model's next state, or unchanged on a panic |
| FetchUnit.GoldenFetchUnit.NextValues | Simulation/src/tests/fetch_unit.rs:55-158 | the next values of the model |
| FetchUnit.GoldenFetchUnit.Store | Simulation/src/tests/fetch_unit.rs:160-164 | the three fields take the next values |
| FetchUnit.GoldenFetchUnit.JumpValues | Simulation/src/tests/fetch_unit.rs:66-77 | the next values of a jump |
| FetchUnit.GoldenFetchUnit.AdvanceValues | Simulation/src/tests/fetch_unit.rs:78-127 | the next values of an advance, None where the source panics |
| FetchUnit.GoldenFetchUnit.HoldValues | Simulation/src/tests/fetch_unit.rs:128-157 | the next values of a hold, None where the source panics |

## Left out

- The display (`Emulator/src/display.rs` and its submodules), `main` with its thread and event loop, and `Cpu::draw_debug_info`: rendering, UI and concurrency.
- IEEE single-precision arithmetic: `fpu3`, `fpu2`, `fcmp` and `cvt` take their results from the uninterpreted `FloatOps`. Only their decoding and their illegal rows are modelled exactly; `fabs`/`fneg` are exact bit operations.
- `IoBus` (it reads a wall-clock timer), the `start_time` field of `Art32` and `Art32::step`: the CPU sees the bus only through `IoOps`.
- Panics are the status `Fatal`; they are not verified as recoverable errors. The `assert!` on `signal_interrupt`'s slot is a `requires`.
- The gate-level simulator drivers (`Simulation/src/main.rs`, `tests.rs`, `program_counter.rs`, `div.rs`, `adder.rs`, `fpu.rs`, `test_impl` in `alu.rs`) and the proptest strategies: they drive external tools or generate random inputs.
- `Bits.FieldRange`: the range arm is defined as `((x >> l) & LowMask(width)) << l'` for widths below 32. The general statement that this equals `((x >> l) mod 2^w) << l'` is not proved. Each decoder's own field list is proved instead (the `*IsShuffle` lemmas).
- `Bits.AshrKeepsSign`: the reading of `ashr(x, n)` as the two's-complement value divided by 2^n and rounded toward minus infinity is not proved. Only sign preservation and the agreement with `>>` on non-negative words are proved.
- `CpuProperties.CompareZeroIsEquality`: after cmp only Eq is proved, in both directions. The Lt (unsigned) and Lts (signed) readings of CARRY/SIGN/OVERFLOW are not proved.
- `CpuProperties.WindowRoundTrip`: it states read-after-write of the same window register. That writes to different window registers are independent is not stated.
- `CpuProperties.StepFetchFails`: it covers the Listening CPU. The Servicing case is the same lemma with System privilege and is not stated separately.
- CpuModel.Aligned: that a whole `Step` keeps it is not proved, and it is not part of `Cpu.Valid()`. Each piece is proved: the reset state, every window write, the jump targets, the PC advance, interrupt and exception entry, and leaving a handler. The branch taken by `Branch` adds an offset that `Branch16Imm` / `Branch32Imm` prove even.
- The Execute-level unit tests of mul, mulh*, div and rem (`Emulator/src/cpu/tests/instruction.rs:1305-1563`): their arithmetic is covered by `CpuProperties.MultiplyZeroRules`, `DivisionByZero`, `DivisionKeepsFlags` and the `GoldenAlu` agreement lemmas, not by decode-tree lemmas.
- `GoldenAlu.DivuAgrees`, `DivsAgrees`, `RemuAgrees`, `RemsAgrees`: the reference panics on a zero divisor and is only used with a non-zero one, so agreement is stated for non-zero divisors only.
