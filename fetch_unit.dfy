/**
 * `GoldenFetchUnit` of Simulation/src/tests/fetch_unit.rs: the reference the
 * hardware fetch unit is compared with in the test bench. It buffers up to three half-words of
 * the instruction stream, reads one aligned 32-bit word per clock when it
 * needs more, and offers the instruction at the program counter.
 *
 * `FetchState` and `ClockEdge` describe one clock edge on values; class
 * `GoldenFetchUnit` is the struct with its fields, whose `Clock` method
 * updates them as the source does and is proved against the function. A
 * Rust panic (a failed `assert!`, `unreachable!` or a `u32` addition that
 * overflows in a debug build) is the outcome `Fatal`. Addresses are integers
 * in the range of `u32`; the half-words and memory words are bit-vectors.
 */
module FetchUnit {
  import opened Wrappers
  import Interface
  import CpuModel
  import CpuProperties

  /** `u8`, the count of valid half-words. */
  newtype U8 = x: int | 0 <= x < 0x100

  /** `u32` as an address. */
  newtype U32 = x: int | 0 <= x < 0x1_0000_0000

  const U32_MAX: int := 0xFFFF_FFFF

  /** `a & !3`: the address of the word holding `a`. */
  function WordOf(a: U32): (w: U32)
    ensures w % 4 == 0 && w <= a && a as int < w as int + 4
  {
    a - a % 4
  }

  // ---------------------------------------------------------------------
  // State and derived signals
  // ---------------------------------------------------------------------

  /**
   * The three fields of the struct: the buffer `[u16; 3]` as its entries
   * `h0`, `h1`, `h2`, the number of valid half-words and the PC.
   */
  datatype FetchState = FetchState(h0: bv16, h1: bv16, h2: bv16, valid: U8, pc: U32)

  /** The state of `new` and of a reset: an empty zeroed buffer at address 0. */
  function Initial(): (s: FetchState)
    ensures s.h0 == s.h1 == s.h2 == 0 && s.valid == 0 && s.pc == 0
  {
    FetchState(0, 0, 0, 0, 0)
  }

  /** Two half-words as one word, the first one low. */
  function Join(lo: bv16, hi: bv16): bv32 {
    (lo as bv32) | ((hi as bv32) << 16)
  }

  /** `instruction`: the first two buffered half-words, the first one low. */
  function Instruction(s: FetchState): bv32 {
    Join(s.h0, s.h1)
  }

  /**
   * Whether a first half-word is a complete 16-bit instruction: it is not,
   * exactly when bits 2..0 are 011 with bit 7 set, or bits 5..0 are all set.
   */
  predicate Is16Bit(h: bv16) {
    (h & 0x87) != 0x83 && (h & 0x3F) != 0x3F
  }

  /** `instruction_16bit`. */
  predicate Instruction16Bit(s: FetchState) {
    Is16Bit(s.h0)
  }

  /** `instruction_valid`: two half-words, or one that is a whole 16-bit instruction. */
  predicate InstructionValid(s: FetchState) {
    s.valid >= 2 || (s.valid >= 1 && Instruction16Bit(s))
  }

  // ---------------------------------------------------------------------
  // One clock edge
  // ---------------------------------------------------------------------

  /** `w as u16`. */
  function Low16(w: bv32): bv16 {
    (w & 0xFFFF) as bv16
  }

  /** `(w >> 16) as u16`. */
  function High16(w: bv32): bv16 {
    (w >> 16) as bv16
  }

  /** `pc + k` on `u32` in a debug build: None where the addition overflows (a panic). */
  function CheckedAdd(pc: U32, k: nat): Option<U32> {
    if pc as int + k > U32_MAX then None else Some((pc as int + k) as U32)
  }

  /** The `next_*` values of one edge, with the address of the word read (if any). */
  datatype Next = Next(h0: bv16, h1: bv16, h2: bv16, valid: U8, pc: U32, read: Option<U32>)

  /** What a clock edge does: the new state and the word address it read, or a panic. */
  datatype ClockOutcome = Clocked(state: FetchState, read: Option<U32>) | Fatal

  /** A jump reads the word holding the target; a target with bit 1 set keeps only its upper half. */
  function JumpNext(target: U32, read: U32 -> bv32): Next {
    var word := read(WordOf(target));
    if target % 4 >= 2 then Next(High16(word), 0, 0, 1, target, Some(WordOf(target)))
    else Next(Low16(word), High16(word), 0, 2, target, Some(WordOf(target)))
  }

  /**
   * Advance past the current instruction: by 2 for a 16-bit one, by 4 for a
   * 32-bit one, reading the next word when fewer than two half-words would remain.
   */
  function AdvanceNext(s: FetchState, read: U32 -> bv32): Option<Next> {
    if Instruction16Bit(s) then
      var pc := CheckedAdd(s.pc, 2);
      if pc.None? then None
      else if s.valid == 1 then
        var word := read(pc.value);
        Some(Next(Low16(word), High16(word), 0, 2, pc.value, Some(pc.value)))
      else if s.valid == 2 then
        var at := CheckedAdd(s.pc, 4);
        if at.None? then None
        else
          var word := read(at.value);
          Some(Next(s.h1, Low16(word), High16(word), 3, pc.value, Some(at.value)))
      else if s.valid == 3 then
        Some(Next(s.h1, s.h2, 0, 2, pc.value, None))
      else None
    else
      var pc := CheckedAdd(s.pc, 4);
      if pc.None? then None
      else if s.valid == 2 then
        var word := read(pc.value);
        Some(Next(Low16(word), High16(word), 0, 2, pc.value, Some(pc.value)))
      else if s.valid == 3 then
        var at := CheckedAdd(s.pc, 6);
        if at.None? then None
        else
          var word := read(at.value);
          Some(Next(s.h2, Low16(word), High16(word), 3, pc.value, Some(at.value)))
      else None
  }

  /** Neither jump nor advance: fill the buffer up to at least two half-words. */
  function HoldNext(s: FetchState, read: U32 -> bv32): Option<Next> {
    if s.valid == 0 then
      var word := read(s.pc);
      Some(Next(Low16(word), High16(word), 0, 2, s.pc, Some(s.pc)))
    else if s.valid == 1 then
      var at := CheckedAdd(s.pc, 2);
      if at.None? then None
      else
        var word := read(at.value);
        Some(Next(s.h0, Low16(word), High16(word), 3, s.pc, Some(at.value)))
    else if s.valid == 2 || s.valid == 3 then
      Some(Next(s.h0, s.h1, s.h2, s.valid, s.pc, None))
    else None
  }

  /** The `next_*` values: a jump wins over advance; advancing an invalid instruction panics. */
  function NextOf(s: FetchState, read: U32 -> bv32, advance: bool, target: U32, doJump: bool): Option<Next> {
    if doJump then Some(JumpNext(target, read))
    else if advance then (if InstructionValid(s) then AdvanceNext(s, read) else None)
    else HoldNext(s, read)
  }

  /** The state the next values describe. */
  function StateOf(n: Next): FetchState {
    FetchState(n.h0, n.h1, n.h2, n.valid, n.pc)
  }

  /**
   * `clock`: an odd jump target panics first; a reset empties the unit
   * whatever `enable` says; otherwise the next values are computed and only
   * stored when `enable` is set.
   */
  function ClockEdge(s: FetchState, read: U32 -> bv32, advance: bool, target: U32, doJump: bool, enable: bool, reset: bool)
    : ClockOutcome
  {
    if target % 2 != 0 then Fatal
    else if reset then Clocked(Initial(), None)
    else
      var n := NextOf(s, read, advance, target, doJump);
      if n.None? then Fatal
      else Clocked(if enable then StateOf(n.value) else s, n.value.read)
  }

  // ---------------------------------------------------------------------
  // What the edge keeps: aligned fetches and a buffer that mirrors memory
  // ---------------------------------------------------------------------

  /** At most three half-words are buffered and the next fetch address `pc + 2 * valid` is word aligned. */
  predicate AlignedFetch(valid: U8, pc: U32) {
    valid <= 3 && (pc as int + 2 * valid as int) % 4 == 0
  }

  predicate Aligned(s: FetchState) {
    AlignedFetch(s.valid, s.pc)
  }

  /** The half-word of memory `read` at the even address `a`: the upper half of its word when bit 1 is set. */
  function HalfAt(read: U32 -> bv32, a: int): bv16 {
    if 0 <= a <= U32_MAX then
      var word := read(WordOf(a as U32));
      if a % 4 >= 2 then High16(word) else Low16(word)
    else 0
  }

  /** The two half-words of an aligned word. */
  lemma HalvesOfWord(read: U32 -> bv32, a: U32)
    requires a % 4 == 0
    ensures a as int + 2 <= U32_MAX
    ensures HalfAt(read, a as int) == Low16(read(a)) && HalfAt(read, a as int + 2) == High16(read(a))
  {
    assert WordOf(a) == a;
    assert WordOf((a as int + 2) as U32) == a;
  }

  /** The word after an aligned one is aligned. */
  lemma NextWordAligned(a: int)
    requires a % 4 == 0
    ensures (a + 4) % 4 == 0
  {
    var q := a / 4;
    assert a + 4 == 4 * (q + 1);
  }

  /** Each valid buffer entry is the half-word of memory at `pc`, `pc + 2`, `pc + 4`. */
  predicate Mirrors(h0: bv16, h1: bv16, h2: bv16, valid: U8, pc: U32, read: U32 -> bv32) {
    (valid >= 1 ==> h0 == HalfAt(read, pc as int))
    && (valid >= 2 ==> h1 == HalfAt(read, pc as int + 2))
    && (valid >= 3 ==> h2 == HalfAt(read, pc as int + 4))
  }

  predicate Coherent(s: FetchState, read: U32 -> bv32) {
    Mirrors(s.h0, s.h1, s.h2, s.valid, s.pc, read)
  }

  /** A word address read, if any, is aligned. */
  predicate ReadAligned(at: Option<U32>) {
    at.Some? ==> at.value % 4 == 0
  }

  /** Next values that keep both invariants, and whose read, if any, is of an aligned word. */
  predicate GoodNext(n: Next, read: U32 -> bv32) {
    AlignedFetch(n.valid, n.pc) && Mirrors(n.h0, n.h1, n.h2, n.valid, n.pc, read) && ReadAligned(n.read)
  }

  /** A jump, one lemma per half of the word the target is in. */
  lemma JumpGood(target: U32, read: U32 -> bv32)
    requires target % 2 == 0
    ensures GoodNext(JumpNext(target, read), read)
  {
    EvenInWord(target as int);
    if target % 4 == 0 {
      JumpToWord(target, read);
    } else {
      JumpToUpperHalf(target, read);
    }
  }

  /** An even address is at the start or in the middle of its word. */
  lemma EvenInWord(a: int)
    requires a % 2 == 0
    ensures a % 4 == 0 || a % 4 == 2
  {
    var q, r, k := a / 4, a % 4, a / 2;
    assert a == 4 * q + r && a == 2 * k;
    assert r == 2 * (k - 2 * q);
  }

  lemma JumpToWord(target: U32, read: U32 -> bv32)
    requires target % 4 == 0
    ensures GoodNext(JumpNext(target, read), read)
  {
    assert WordOf(target) == target;
    HalvesOfWord(read, target);
  }

  lemma JumpToUpperHalf(target: U32, read: U32 -> bv32)
    requires target % 4 == 2
    ensures GoodNext(JumpNext(target, read), read)
  {
    var at := WordOf(target);
    assert at as int == target as int - 2;
    HalvesOfWord(read, at);
  }

  /** Holding, one lemma per count of buffered half-words that reads. */
  lemma HoldGood(s: FetchState, read: U32 -> bv32)
    requires Aligned(s) && Coherent(s, read)
    ensures HoldNext(s, read).Some? ==> GoodNext(HoldNext(s, read).value, read)
  {
    if s.valid == 0 {
      HoldFrom0(s, read);
    } else if s.valid == 1 && s.pc as int + 2 <= U32_MAX {
      HoldFrom1(s, read);
    }
  }

  lemma HoldFrom0(s: FetchState, read: U32 -> bv32)
    requires Aligned(s) && Coherent(s, read) && s.valid == 0
    ensures GoodNext(HoldNext(s, read).value, read)
  {
    var w := read(s.pc);
    assert s.pc % 4 == 0;
    HalvesOfWord(read, s.pc);
    NextWordAligned(s.pc as int);
    assert HoldNext(s, read).value == Next(Low16(w), High16(w), 0, 2, s.pc, Some(s.pc));
  }

  lemma HoldFrom1(s: FetchState, read: U32 -> bv32)
    requires Aligned(s) && Coherent(s, read) && s.valid == 1 && s.pc as int + 2 <= U32_MAX
    ensures GoodNext(HoldNext(s, read).value, read)
  {
    var a := (s.pc as int + 2) as U32;
    var w := read(a);
    assert a % 4 == 0;
    HalvesOfWord(read, a);
    NextWordAligned(a as int);
    assert HoldNext(s, read).value == Next(s.h0, Low16(w), High16(w), 3, s.pc, Some(a));
  }

  /** Advancing past a 16-bit instruction, one lemma per count of buffered half-words. */
  lemma Advance16Good(s: FetchState, read: U32 -> bv32)
    requires Aligned(s) && Coherent(s, read) && Instruction16Bit(s)
    ensures AdvanceNext(s, read).Some? ==> GoodNext(AdvanceNext(s, read).value, read)
  {
    if s.valid == 1 && s.pc as int + 2 <= U32_MAX {
      Advance16From1(s, read);
    } else if s.valid == 2 && s.pc as int + 4 <= U32_MAX {
      Advance16From2(s, read);
    } else if s.valid == 3 && s.pc as int + 2 <= U32_MAX {
      Advance16From3(s, read);
    }
  }

  lemma Advance16From1(s: FetchState, read: U32 -> bv32)
    requires Aligned(s) && Coherent(s, read) && Instruction16Bit(s) && s.valid == 1 && s.pc as int + 2 <= U32_MAX
    ensures GoodNext(AdvanceNext(s, read).value, read)
  {
    var a := (s.pc as int + 2) as U32;
    var w := read(a);
    assert a % 4 == 0;
    HalvesOfWord(read, a);
    NextWordAligned(a as int);
    assert AdvanceNext(s, read).value == Next(Low16(w), High16(w), 0, 2, a, Some(a));
  }

  lemma Advance16From2(s: FetchState, read: U32 -> bv32)
    requires Aligned(s) && Coherent(s, read) && Instruction16Bit(s) && s.valid == 2 && s.pc as int + 4 <= U32_MAX
    ensures GoodNext(AdvanceNext(s, read).value, read)
  {
    var a := (s.pc as int + 4) as U32;
    var w := read(a);
    assert a % 4 == 0;
    HalvesOfWord(read, a);
    NextWordAligned(a as int);
    assert AdvanceNext(s, read).value == Next(s.h1, Low16(w), High16(w), 3, (s.pc as int + 2) as U32, Some(a));
  }

  lemma Advance16From3(s: FetchState, read: U32 -> bv32)
    requires Aligned(s) && Coherent(s, read) && Instruction16Bit(s) && s.valid == 3 && s.pc as int + 2 <= U32_MAX
    ensures GoodNext(AdvanceNext(s, read).value, read)
  {
  }

  /** Advancing past a 32-bit instruction, one lemma per count of buffered half-words. */
  lemma Advance32Good(s: FetchState, read: U32 -> bv32)
    requires Aligned(s) && Coherent(s, read) && !Instruction16Bit(s)
    ensures AdvanceNext(s, read).Some? ==> GoodNext(AdvanceNext(s, read).value, read)
  {
    if s.valid == 2 && s.pc as int + 4 <= U32_MAX {
      Advance32From2(s, read);
    } else if s.valid == 3 && s.pc as int + 6 <= U32_MAX {
      Advance32From3(s, read);
    }
  }

  lemma Advance32From2(s: FetchState, read: U32 -> bv32)
    requires Aligned(s) && Coherent(s, read) && !Instruction16Bit(s) && s.valid == 2 && s.pc as int + 4 <= U32_MAX
    ensures GoodNext(AdvanceNext(s, read).value, read)
  {
    var a := (s.pc as int + 4) as U32;
    var w := read(a);
    assert a % 4 == 0;
    HalvesOfWord(read, a);
    NextWordAligned(a as int);
    assert AdvanceNext(s, read).value == Next(Low16(w), High16(w), 0, 2, a, Some(a));
  }

  lemma Advance32From3(s: FetchState, read: U32 -> bv32)
    requires Aligned(s) && Coherent(s, read) && !Instruction16Bit(s) && s.valid == 3 && s.pc as int + 6 <= U32_MAX
    ensures GoodNext(AdvanceNext(s, read).value, read)
  {
    var a := (s.pc as int + 6) as U32;
    var w := read(a);
    assert a % 4 == 0;
    HalvesOfWord(read, a);
    NextWordAligned(a as int);
    assert AdvanceNext(s, read).value == Next(s.h2, Low16(w), High16(w), 3, (s.pc as int + 4) as U32, Some(a));
  }

  /**
   * Every edge that completes keeps the invariants and reads only aligned
   * words, provided the memory `read` stays the same: from an invariant start
   * (such as `Initial()`) the buffered half-words are always those of memory
   * at the program counter.
   */
  lemma ClockKeepsInvariants(s: FetchState, read: U32 -> bv32, advance: bool, target: U32, doJump: bool, enable: bool, reset: bool)
    requires Aligned(s) && Coherent(s, read)
    ensures var o := ClockEdge(s, read, advance, target, doJump, enable, reset);
      o.Clocked? ==> Aligned(o.state) && Coherent(o.state, read) && ReadAligned(o.read)
  {
    if target % 2 == 0 && !reset {
      if doJump {
        JumpGood(target, read);
      } else if advance {
        if Instruction16Bit(s) {
          Advance16Good(s, read);
        } else {
          Advance32Good(s, read);
        }
      } else {
        HoldGood(s, read);
      }
    }
  }

  /** The state after `new` or a reset meets both invariants and offers no instruction. */
  lemma InitialInvariants(read: U32 -> bv32)
    ensures Aligned(Initial()) && Coherent(Initial(), read) && !InstructionValid(Initial())
  {
  }

  /** The two halves of a word joined back. */
  lemma JoinHalves(w: bv32)
    ensures Join(Low16(w), High16(w)) == w
  {
  }

  /**
   * `instruction`: under the invariants, the first half-word is memory at the
   * PC, and two valid half-words at a word-aligned PC are the memory word there.
   */
  lemma InstructionIsMemory(s: FetchState, read: U32 -> bv32)
    requires Aligned(s) && Coherent(s, read)
    ensures s.valid >= 1 ==> s.h0 == HalfAt(read, s.pc as int)
    ensures s.valid >= 2 && s.pc % 4 == 0 ==> Instruction(s) == read(s.pc)
  {
    if s.valid >= 2 && s.pc % 4 == 0 {
      JoinHalves(read(s.pc));
    }
  }

  // ---------------------------------------------------------------------
  // The clock edges the tests drive
  // ---------------------------------------------------------------------

  /**
   * An edge with no jump and `advance` set to `instruction_valid`, as the
   * linear-advance test drives the unit: the PC moves past a 16-bit
   * instruction by 2, past a 32-bit one by 4, and stays when no instruction is
   * valid; afterwards an instruction is always valid. Below the top six bytes
   * of the address space the edge cannot panic.
   */
  lemma LinearStep(s: FetchState, read: U32 -> bv32)
    requires Aligned(s)
    ensures var o := ClockEdge(s, read, InstructionValid(s), 0, false, true, false);
      (s.pc as int + 6 <= U32_MAX ==> o.Clocked?)
      && (o.Clocked? ==>
            o.state.pc as int == s.pc as int + (if !InstructionValid(s) then 0 else if Instruction16Bit(s) then 2 else 4)
            && InstructionValid(o.state))
  {
  }

  /**
   * A jump to an even target, as the jump test drives it: whatever the state
   * and `advance`, the PC becomes the target and the word holding it is read;
   * a word-aligned target makes a full word valid.
   */
  lemma JumpStep(s: FetchState, read: U32 -> bv32, advance: bool, target: U32)
    requires target % 2 == 0
    ensures var o := ClockEdge(s, read, advance, target, true, true, false);
      o.Clocked? && o.state.pc == target && o.read == Some(WordOf(target))
      && o.state.valid == (if target % 4 == 0 then 2 else 1)
  {
  }

  /**
   * When the edge panics: an odd jump target always does; with an even target
   * and no reset, advancing an invalid instruction does; an aligned state with
   * a legal advance below the top six bytes of the address space never does.
   */
  lemma WhenFatal(s: FetchState, read: U32 -> bv32, advance: bool, target: U32, doJump: bool, enable: bool, reset: bool)
    ensures target % 2 != 0 ==> ClockEdge(s, read, advance, target, doJump, enable, reset).Fatal?
    ensures target % 2 == 0 && !reset && !doJump && advance && !InstructionValid(s)
            ==> ClockEdge(s, read, advance, target, doJump, enable, reset).Fatal?
    ensures target % 2 == 0 && Aligned(s) && (advance ==> InstructionValid(s)) && s.pc as int + 6 <= U32_MAX
            ==> ClockEdge(s, read, advance, target, doJump, enable, reset).Clocked?
  {
  }

  /**
   * A reset wins over everything but an odd target: the unit is empty at
   * address 0 and nothing is read, even with `enable` clear; with `enable`
   * clear and no reset, a completed edge leaves the state as it was.
   */
  lemma ResetAndEnable(s: FetchState, read: U32 -> bv32, advance: bool, target: U32, doJump: bool, enable: bool)
    requires target % 2 == 0
    ensures ClockEdge(s, read, advance, target, doJump, enable, true) == Clocked(Initial(), None)
    ensures var o := ClockEdge(s, read, advance, target, doJump, false, false); o.Clocked? ==> o.state == s
  {
  }

  // ---------------------------------------------------------------------
  // Agreement with the CPU's instruction length
  // ---------------------------------------------------------------------

  /**
   * The two branches of the CPU's decode tree (`step_inner` in
   * Emulator/src/cpu.rs) that read an upper half-word: bits 2..0 are 011 with
   * bit 7 set (`uimm_32`), or bits 2..0 are 111, bits 4..3 are 11 and bit 5 is
   * set (the 32-bit groups).
   */
  predicate CpuReadsUpperHalf(x: bv32) {
    (x & 0x1 != 0 && x & 0x2 != 0 && x & 0x4 == 0 && x & 0x80 != 0)
    || (x & 0x1 != 0 && x & 0x2 != 0 && x & 0x4 != 0 && (x & 0x18) >> 3 == 3 && x & 0x20 != 0)
  }

  /** The fetch unit's 16-bit test agrees with the CPU: a half-word is a whole instruction exactly when the CPU reads no upper half. */
  lemma LengthDecodeAgrees(h: bv16)
    ensures Is16Bit(h) <==> !CpuReadsUpperHalf(h as bv32)
  {
  }

  /**
   * `CpuReadsUpperHalf` is the condition under which the CPU model's decode
   * tree reads the upper half-word: when it holds, a failed read at the
   * advanced PC is the outcome of `Execute`; when it does not, `Execute`
   * gives the same outcome whatever the 16-bit read would return.
   */
  lemma CpuReadsUpperHalfIsFetch<M, D>(v: CpuModel.CpuView, x: bv32, priv: Interface.PrivilegeLevel,
    fpu: CpuModel.FloatOps, mem: Interface.MemoryOps<M>, m: M, io: Interface.IoOps<D>, d: D,
    other: (M, bv32, Interface.PrivilegeLevel, bool) -> (Result<bv16, Interface.MemoryError>, M))
    ensures var (r, m') := mem.read16(m, v.pc, priv, false);
      CpuReadsUpperHalf(x) && r.Err? ==>
        CpuModel.Execute(v, x, priv, fpu, mem, m, io, d) == CpuModel.Outcome(v, m', d, CpuModel.MemoryStatus(r))
    ensures !CpuReadsUpperHalf(x) ==>
      CpuModel.Execute(v, x, priv, fpu, mem.(read16 := other), m, io, d) == CpuModel.Execute(v, x, priv, fpu, mem, m, io, d)
  {
  }

  /**
   * An instruction the length rule calls 16-bit leaves the CPU's view as it
   * was when it raises, so the exception saves the PC just past it.
   */
  lemma SixteenBitRaiseKeepsView<M, D>(v: CpuModel.CpuView, x: bv32, priv: Interface.PrivilegeLevel,
    fpu: CpuModel.FloatOps, mem: Interface.MemoryOps<M>, m: M, io: Interface.IoOps<D>, d: D, o: CpuModel.Outcome<M, D>)
    requires !CpuReadsUpperHalf(x)
    requires CpuModel.Execute(v, x, priv, fpu, mem, m, io, d) == o && o.status.Raised?
    ensures o.cpu == v
  {
    CpuProperties.Sys16RaiseKeepsView(v, x);
    CpuProperties.Mem16RaiseKeepsView(v, x, priv, mem, m);
  }

  // ---------------------------------------------------------------------
  // The struct
  // ---------------------------------------------------------------------

  class GoldenFetchUnit {
    const instructionBuffer: array<bv16>
    var validHalfWords: U8
    var programCounter: U32

    ghost predicate Valid()
      reads this
    {
      instructionBuffer.Length == 3
    }

    function State(): FetchState
      requires Valid()
      reads this, instructionBuffer
    {
      FetchState(instructionBuffer[0], instructionBuffer[1], instructionBuffer[2], validHalfWords, programCounter)
    }

    /** `new`. */
    constructor ()
      ensures Valid() && State() == Initial()
    {
      instructionBuffer := new bv16[3](_ => 0);
      validHalfWords := 0;
      programCounter := 0;
    }

    /**
     * `clock`, with the memory as the function `read`. It returns whether the
     * edge completed (false is a panic, which leaves the fields as they were)
     * and the word address it read.
     */
    method Clock(read: U32 -> bv32, advance: bool, target: U32, doJump: bool, enable: bool, reset: bool)
      returns (ok: bool, readAt: Option<U32>)
      requires Valid()
      modifies this, instructionBuffer
      ensures Valid()
      ensures var o := ClockEdge(old(State()), read, advance, target, doJump, enable, reset);
        ok == o.Clocked? && (ok ==> State() == o.state && readAt == o.read) && (!ok ==> State() == old(State()))
    {
      ok, readAt := false, None;
      if target % 2 != 0 {
        return;
      }
      if reset {
        Store(Next(0, 0, 0, 0, 0, None));
        ok := true;
        return;
      }
      var next := NextValues(read, advance, target, doJump);
      if next.None? {
        return;
      }
      if enable {
        Store(next.value);
      }
      ok, readAt := true, next.value.read;
    }

    /** The `next_*` values; None where the source panics. */
    method NextValues(read: U32 -> bv32, advance: bool, target: U32, doJump: bool) returns (next: Option<Next>)
      requires Valid()
      ensures next == NextOf(State(), read, advance, target, doJump)
    {
      if doJump {
        var jump := JumpValues(read, target);
        next := Some(jump);
      } else if advance {
        if !InstructionValid(State()) {
          return None;
        }
        next := AdvanceValues(read);
      } else {
        next := HoldValues(read);
      }
    }

    /** Overwrite the three fields with the next values. */
    method Store(next: Next)
      requires Valid()
      modifies this, instructionBuffer
      ensures Valid() && State() == StateOf(next)
    {
      instructionBuffer[0], instructionBuffer[1], instructionBuffer[2] := next.h0, next.h1, next.h2;
      validHalfWords := next.valid;
      programCounter := next.pc;
    }

    /** The `next_*` values of a jump. */
    method JumpValues(read: U32 -> bv32, target: U32) returns (next: Next)
      ensures next == JumpNext(target, read)
    {
      var at := WordOf(target);
      var word := read(at);
      if target % 4 >= 2 {
        next := Next(High16(word), 0, 0, 1, target, Some(at));
      } else {
        next := Next(Low16(word), High16(word), 0, 2, target, Some(at));
      }
    }

    /** The `next_*` values of an advance; None where the source panics. */
    method AdvanceValues(read: U32 -> bv32) returns (next: Option<Next>)
      requires Valid()
      ensures next == AdvanceNext(State(), read)
    {
      next := None;
      var b1, b2 := instructionBuffer[1], instructionBuffer[2];
      if Is16Bit(instructionBuffer[0]) {
        var pc := CheckedAdd(programCounter, 2);
        if pc.None? {
          return;
        }
        if validHalfWords == 1 {
          var word := read(pc.value);
          next := Some(Next(Low16(word), High16(word), 0, 2, pc.value, Some(pc.value)));
        } else if validHalfWords == 2 {
          var at := CheckedAdd(programCounter, 4);
          if at.None? {
            return;
          }
          var word := read(at.value);
          next := Some(Next(b1, Low16(word), High16(word), 3, pc.value, Some(at.value)));
        } else if validHalfWords == 3 {
          next := Some(Next(b1, b2, 0, 2, pc.value, None));
        }
      } else {
        var pc := CheckedAdd(programCounter, 4);
        if pc.None? {
          return;
        }
        if validHalfWords == 2 {
          var word := read(pc.value);
          next := Some(Next(Low16(word), High16(word), 0, 2, pc.value, Some(pc.value)));
        } else if validHalfWords == 3 {
          var at := CheckedAdd(programCounter, 6);
          if at.None? {
            return;
          }
          var word := read(at.value);
          next := Some(Next(b2, Low16(word), High16(word), 3, pc.value, Some(at.value)));
        }
      }
    }

    /** The `next_*` values when neither jumping nor advancing; None where the source panics. */
    method HoldValues(read: U32 -> bv32) returns (next: Option<Next>)
      requires Valid()
      ensures next == HoldNext(State(), read)
    {
      next := None;
      if validHalfWords == 0 {
        var word := read(programCounter);
        next := Some(Next(Low16(word), High16(word), 0, 2, programCounter, Some(programCounter)));
      } else if validHalfWords == 1 {
        var at := CheckedAdd(programCounter, 2);
        if at.None? {
          return;
        }
        var word := read(at.value);
        next := Some(Next(instructionBuffer[0], Low16(word), High16(word), 3, programCounter, Some(at.value)));
      } else if validHalfWords == 2 || validHalfWords == 3 {
        next := Some(Next(instructionBuffer[0], instructionBuffer[1], instructionBuffer[2], validHalfWords, programCounter, None));
      }
    }
  }
}
