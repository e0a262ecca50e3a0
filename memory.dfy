/**
 * Emulator/src/memory.rs: a RAM block stored as a boxed slice of 32-bit words
 * and viewed, through `bytemuck` casts, as 16-bit and 8-bit elements.
 *
 * The casts reinterpret the words in host byte order and `from_le`/`to_le`
 * are the identity on a little-endian host, which this model assumes: byte
 * lane 0 of a word is its least significant byte and half-word lane 0 its
 * least significant half. The pure functions below describe the block as a
 * sequence of words; class `Memory` is the block itself.
 *
 * Addresses are the `u32` values taken as natural numbers, so `addr >> 2`,
 * `addr >> 1` and `addr & 3` are `addr / 4`, `addr / 2` and `addr % 4`.
 */
module Memory {
  /** Byte `lane` of a word, lane 0 being the least significant. */
  function ByteOf(w: bv32, lane: nat): bv8
    requires lane < 4
  {
    if lane == 0 then (w & 0xFF) as bv8
    else if lane == 1 then ((w >> 8) & 0xFF) as bv8
    else if lane == 2 then ((w >> 16) & 0xFF) as bv8
    else (w >> 24) as bv8
  }

  /** Half-word `lane` of a word. */
  function HalfOf(w: bv32, lane: nat): bv16
    requires lane < 2
  {
    if lane == 0 then (w & 0xFFFF) as bv16 else (w >> 16) as bv16
  }

  /** The word with byte `lane` replaced. */
  function WithByte(w: bv32, lane: nat, b: bv8): bv32
    requires lane < 4
  {
    if lane == 0 then (w & 0xFFFF_FF00) | (b as bv32)
    else if lane == 1 then (w & 0xFFFF_00FF) | ((b as bv32) << 8)
    else if lane == 2 then (w & 0xFF00_FFFF) | ((b as bv32) << 16)
    else (w & 0x00FF_FFFF) | ((b as bv32) << 24)
  }

  /** The word with half-word `lane` replaced. */
  function WithHalf(w: bv32, lane: nat, h: bv16): bv32
    requires lane < 2
  {
    if lane == 0 then (w & 0xFFFF_0000) | (h as bv32) else (w & 0x0000_FFFF) | ((h as bv32) << 16)
  }

  /** Four bytes joined little-endian. */
  function Pack(b0: bv8, b1: bv8, b2: bv8, b3: bv8): bv32 {
    (b0 as bv32) | ((b1 as bv32) << 8) | ((b2 as bv32) << 16) | ((b3 as bv32) << 24)
  }

  /** The byte lane an address selects within its word. */
  function ByteLane(addr: nat): (lane: nat)
    ensures lane < 4
  {
    addr % 4
  }

  /** The half-word lane an address selects within its word. */
  function HalfLane(addr: nat): (lane: nat)
    ensures lane < 2
  {
    (addr / 2) % 2
  }

  /**
   * Every accessor indexes its view with `addr >> 2`, `addr >> 1` or `addr`,
   * which is in bounds exactly when the word `addr >> 2` exists.
   */
  predicate InBounds(words: seq<bv32>, addr: nat) {
    addr / 4 < |words|
  }

  /** `read_32`: element `addr >> 2` of the word view. */
  function Load32(words: seq<bv32>, addr: nat): bv32
    requires InBounds(words, addr)
  {
    words[addr / 4]
  }

  /** `read_16`: element `addr >> 1` of the half-word view. */
  function Load16(words: seq<bv32>, addr: nat): bv16
    requires InBounds(words, addr)
  {
    HalfOf(words[addr / 4], HalfLane(addr))
  }

  /** `read_8`: element `addr` of the byte view. */
  function Load8(words: seq<bv32>, addr: nat): bv8
    requires InBounds(words, addr)
  {
    ByteOf(words[addr / 4], ByteLane(addr))
  }

  /** `write_32`: replaces element `addr >> 2` of the word view. */
  function Store32(words: seq<bv32>, addr: nat, value: bv32): (r: seq<bv32>)
    requires InBounds(words, addr)
    ensures |r| == |words|
  {
    words[addr / 4 := value]
  }

  /** `write_16`: replaces element `addr >> 1` of the half-word view. */
  function Store16(words: seq<bv32>, addr: nat, value: bv16): (r: seq<bv32>)
    requires InBounds(words, addr)
    ensures |r| == |words|
  {
    words[addr / 4 := WithHalf(words[addr / 4], HalfLane(addr), value)]
  }

  /** `write_8`: replaces element `addr` of the byte view. */
  function Store8(words: seq<bv32>, addr: nat, value: bv8): (r: seq<bv32>)
    requires InBounds(words, addr)
    ensures |r| == |words|
  {
    words[addr / 4 := WithByte(words[addr / 4], ByteLane(addr), value)]
  }

  /* A write followed by a read of the same width at the same address returns the value written. */

  lemma Load32AfterStore32(words: seq<bv32>, addr: nat, value: bv32)
    requires InBounds(words, addr)
    ensures Load32(Store32(words, addr, value), addr) == value
  {
  }

  lemma Load16AfterStore16(words: seq<bv32>, addr: nat, value: bv16)
    requires InBounds(words, addr)
    ensures Load16(Store16(words, addr, value), addr) == value
  {
    HalfOfWithHalf(words[addr / 4], HalfLane(addr), value);
  }

  lemma Load8AfterStore8(words: seq<bv32>, addr: nat, value: bv8)
    requires InBounds(words, addr)
    ensures Load8(Store8(words, addr, value), addr) == value
  {
    ByteOfWithByte(words[addr / 4], ByteLane(addr), value);
  }

  lemma HalfOfWithHalf(w: bv32, lane: nat, h: bv16)
    requires lane < 2
    ensures HalfOf(WithHalf(w, lane, h), lane) == h
  {
    if lane == 0 { HalfLane0(w, h); } else { HalfLane1(w, h); }
  }

  lemma HalfLane0(w: bv32, h: bv16)
    ensures HalfOf(WithHalf(w, 0, h), 0) == h
  {
  }

  lemma HalfLane1(w: bv32, h: bv16)
    ensures HalfOf(WithHalf(w, 1, h), 1) == h
  {
  }

  lemma ByteOfWithByte(w: bv32, lane: nat, b: bv8)
    requires lane < 4
    ensures ByteOf(WithByte(w, lane, b), lane) == b
  {
    if lane == 0 { ByteLane0(w, b); }
    else if lane == 1 { ByteLane1(w, b); }
    else if lane == 2 { ByteLane2(w, b); }
    else { ByteLane3(w, b); }
  }

  lemma ByteLane0(w: bv32, b: bv8)
    ensures ByteOf(WithByte(w, 0, b), 0) == b
  {
  }

  lemma ByteLane1(w: bv32, b: bv8)
    ensures ByteOf(WithByte(w, 1, b), 1) == b
  {
  }

  lemma ByteLane2(w: bv32, b: bv8)
    ensures ByteOf(WithByte(w, 2, b), 2) == b
  {
  }

  lemma ByteLane3(w: bv32, b: bv8)
    ensures ByteOf(WithByte(w, 3, b), 3) == b
  {
  }

  /* A store changes nothing outside its aligned unit. */

  lemma Store32KeepsOtherBytes(words: seq<bv32>, addr: nat, value: bv32, other: nat)
    requires InBounds(words, addr) && InBounds(words, other)
    requires other / 4 != addr / 4
    ensures Load8(Store32(words, addr, value), other) == Load8(words, other)
  {
  }

  lemma Store16KeepsOtherBytes(words: seq<bv32>, addr: nat, value: bv16, other: nat)
    requires InBounds(words, addr) && InBounds(words, other)
    requires other / 2 != addr / 2
    ensures Load8(Store16(words, addr, value), other) == Load8(words, other)
  {
    if other / 4 == addr / 4 {
      HalfOfByteLane(addr);
      HalfOfByteLane(other);
      ByteOutsideHalf(words[addr / 4], HalfLane(addr), ByteLane(other), value);
    }
  }

  /** An address's half-word number is twice its word number plus the half its byte lane lies in. */
  lemma HalfOfByteLane(a: nat)
    ensures a / 2 == 2 * (a / 4) + ByteLane(a) / 2 && HalfLane(a) == ByteLane(a) / 2
  {
    var q, r := a / 4, a % 4;
    assert a == 4 * q + r;
    assert a / 2 == 2 * q + r / 2;
  }

  lemma Store8KeepsOtherBytes(words: seq<bv32>, addr: nat, value: bv8, other: nat)
    requires InBounds(words, addr) && InBounds(words, other)
    requires other != addr
    ensures Load8(Store8(words, addr, value), other) == Load8(words, other)
  {
    if other / 4 == addr / 4 {
      ByteOutsideByte(words[addr / 4], ByteLane(addr), ByteLane(other), value);
    }
  }

  lemma ByteOutsideHalf(w: bv32, half: nat, lane: nat, h: bv16)
    requires half < 2 && lane < 4 && lane / 2 != half
    ensures ByteOf(WithHalf(w, half, h), lane) == ByteOf(w, lane)
  {
    if half == 0 { if lane == 2 {} else {} } else { if lane == 0 {} else {} }
  }

  lemma ByteOutsideByte(w: bv32, written: nat, lane: nat, b: bv8)
    requires written < 4 && lane < 4 && lane != written
    ensures ByteOf(WithByte(w, written, b), lane) == ByteOf(w, lane)
  {
    if written == 0 { if lane == 1 {} else if lane == 2 {} else {} }
    else if written == 1 { if lane == 0 {} else if lane == 2 {} else {} }
    else if written == 2 { if lane == 0 {} else if lane == 1 {} else {} }
    else { if lane == 0 {} else if lane == 1 {} else {} }
  }

  /* A misaligned address acts on the aligned unit that encloses it (`addr & !3`, `addr & !1`). */

  lemma Load32IgnoresLowBits(words: seq<bv32>, addr: nat)
    requires InBounds(words, addr)
    ensures InBounds(words, addr - addr % 4) && Load32(words, addr - addr % 4) == Load32(words, addr)
  {
  }

  lemma Store32IgnoresLowBits(words: seq<bv32>, addr: nat, value: bv32)
    requires InBounds(words, addr)
    ensures InBounds(words, addr - addr % 4) && Store32(words, addr - addr % 4, value) == Store32(words, addr, value)
  {
  }

  lemma Load16IgnoresBitZero(words: seq<bv32>, addr: nat)
    requires InBounds(words, addr)
    ensures InBounds(words, addr - addr % 2) && Load16(words, addr - addr % 2) == Load16(words, addr)
  {
    DropBitZero(addr);
  }

  lemma Store16IgnoresBitZero(words: seq<bv32>, addr: nat, value: bv16)
    requires InBounds(words, addr)
    ensures InBounds(words, addr - addr % 2) && Store16(words, addr - addr % 2, value) == Store16(words, addr, value)
  {
    DropBitZero(addr);
  }

  /** Clearing bit 0 of an address keeps its word and its half-word. */
  lemma DropBitZero(addr: nat)
    ensures (addr - addr % 2) / 4 == addr / 4 && (addr - addr % 2) / 2 == addr / 2
  {
    if addr % 2 == 1 {
      var q, r := addr / 4, addr % 4;
      assert addr == 4 * q + r;
      assert r == 1 || r == 3;
      assert addr - 1 == 4 * q + (r - 1);
    }
  }

  /* Little-endian composition of the wider views from the byte view. */

  lemma Load32IsLittleEndian(words: seq<bv32>, addr: nat)
    requires InBounds(words, addr + 3) && addr % 4 == 0
    ensures InBounds(words, addr)
    ensures Load32(words, addr) ==
      Pack(Load8(words, addr), Load8(words, addr + 1), Load8(words, addr + 2), Load8(words, addr + 3))
  {
    Unpack(words[addr / 4]);
  }

  lemma Load16IsLittleEndian(words: seq<bv32>, addr: nat)
    requires InBounds(words, addr + 1) && addr % 2 == 0
    ensures InBounds(words, addr)
    ensures Load16(words, addr) == (Load8(words, addr) as bv16) | ((Load8(words, addr + 1) as bv16) << 8)
  {
    EvenLane(addr);
    if addr % 4 == 0 { LowHalfBytes(words, addr); } else { HighHalfBytes(words, addr); }
  }

  lemma LowHalfBytes(words: seq<bv32>, addr: nat)
    requires InBounds(words, addr + 1) && addr % 4 == 0
    ensures InBounds(words, addr)
    ensures Load16(words, addr) == (Load8(words, addr) as bv16) | ((Load8(words, addr + 1) as bv16) << 8)
  {
    LowLanes(addr);
    LowHalf(words[addr / 4], Load16(words, addr), Load8(words, addr), Load8(words, addr + 1));
  }

  lemma HighHalfBytes(words: seq<bv32>, addr: nat)
    requires InBounds(words, addr + 1) && addr % 4 == 2
    ensures InBounds(words, addr)
    ensures Load16(words, addr) == (Load8(words, addr) as bv16) | ((Load8(words, addr + 1) as bv16) << 8)
  {
    HighLanes(addr);
    HighHalf(words[addr / 4], Load16(words, addr), Load8(words, addr), Load8(words, addr + 1));
  }

  /** An even address is at byte lane 0 or 2. */
  lemma EvenLane(addr: nat)
    requires addr % 2 == 0
    ensures addr % 4 == 0 || addr % 4 == 2
  {
    var q := addr / 4;
    assert addr == 4 * q + addr % 4;
  }

  /** The lanes of the two bytes of an aligned low half-word. */
  lemma LowLanes(addr: nat)
    requires addr % 4 == 0
    ensures (addr + 1) / 4 == addr / 4 && ByteLane(addr) == 0 && ByteLane(addr + 1) == 1 && HalfLane(addr) == 0
  {
    InWord(addr, 0);
    InWord(addr, 1);
  }

  /** The lanes of the two bytes of an aligned high half-word. */
  lemma HighLanes(addr: nat)
    requires addr % 4 == 2
    ensures (addr + 1) / 4 == addr / 4 && ByteLane(addr) == 2 && ByteLane(addr + 1) == 3 && HalfLane(addr) == 1
  {
    var base := addr - 2;
    assert addr == 4 * (addr / 4) + 2;
    assert base == 4 * (addr / 4);
    InWord(base, 2);
    InWord(base, 3);
  }

  /** Byte `k` of an aligned word is the byte at offset `k` from its address. */
  lemma ByteAtOffset(words: seq<bv32>, base: nat, k: nat)
    requires base % 4 == 0 && k < 4 && InBounds(words, base + k)
    ensures Load8(words, base + k) == ByteOf(words[base / 4], k)
  {
    InWord(base, k);
  }

  /** Offset `k` from an aligned address stays in its word, at byte lane `k` and half-word lane `k / 2`. */
  lemma InWord(base: nat, k: nat)
    requires base % 4 == 0 && k < 4
    ensures (base + k) / 4 == base / 4 && ByteLane(base + k) == k && HalfLane(base + k) == k / 2
  {
    var q := base / 4;
    assert base == 4 * q;
    assert base + k == 4 * q + k;
    assert (base + k) / 2 == 2 * q + k / 2;
  }

  lemma Unpack(w: bv32)
    ensures Pack(ByteOf(w, 0), ByteOf(w, 1), ByteOf(w, 2), ByteOf(w, 3)) == w
  {
  }

  lemma LowHalf(w: bv32, h: bv16, b0: bv8, b1: bv8)
    requires h == HalfOf(w, 0) && b0 == ByteOf(w, 0) && b1 == ByteOf(w, 1)
    ensures h == (b0 as bv16) | ((b1 as bv16) << 8)
  {
  }

  lemma HighHalf(w: bv32, h: bv16, b2: bv8, b3: bv8)
    requires h == HalfOf(w, 1) && b2 == ByteOf(w, 2) && b3 == ByteOf(w, 3)
    ensures h == (b2 as bv16) | ((b3 as bv16) << 8)
  {
  }

  /** Byte `lane` of a packed word is the `lane`-th byte packed. */
  lemma PackSelects(b0: bv8, b1: bv8, b2: bv8, b3: bv8, lane: nat)
    requires lane < 4
    ensures ByteOf(Pack(b0, b1, b2, b3), lane) == [b0, b1, b2, b3][lane]
  {
    if lane == 0 { PackLane0(b0, b1, b2, b3); }
    else if lane == 1 { PackLane1(b0, b1, b2, b3); }
    else if lane == 2 { PackLane2(b0, b1, b2, b3); }
    else { PackLane3(b0, b1, b2, b3); }
  }

  lemma PackLane0(b0: bv8, b1: bv8, b2: bv8, b3: bv8)
    ensures ByteOf(Pack(b0, b1, b2, b3), 0) == b0
  {
  }

  lemma PackLane1(b0: bv8, b1: bv8, b2: bv8, b3: bv8)
    ensures ByteOf(Pack(b0, b1, b2, b3), 1) == b1
  {
  }

  lemma PackLane2(b0: bv8, b1: bv8, b2: bv8, b3: bv8)
    ensures ByteOf(Pack(b0, b1, b2, b3), 2) == b2
  {
  }

  lemma PackLane3(b0: bv8, b1: bv8, b2: bv8, b3: bv8)
    ensures ByteOf(Pack(b0, b1, b2, b3), 3) == b3
  {
  }

  /** Word `k` of a block loaded from `data`, bytes taken little-endian. */
  function WordFromBytes(data: seq<bv8>, k: nat): bv32
    requires 4 * k + 3 < |data|
  {
    Pack(data[4 * k], data[4 * k + 1], data[4 * k + 2], data[4 * k + 3])
  }

  lemma ByteOfWordFromBytes(data: seq<bv8>, i: nat)
    requires i < |data| && |data| % 4 == 0
    ensures ByteOf(WordFromBytes(data, i / 4), i % 4) == data[i]
  {
    var j := i / 4;
    PackSelects(data[4 * j], data[4 * j + 1], data[4 * j + 2], data[4 * j + 3], i % 4);
  }

  /** `Memory`: a RAM block of `words.Length` 32-bit words. */
  class Memory {
    const words: array<bv32>

    /** `new`: `size` bytes, which must be a whole number of words, all zero. */
    constructor (size: nat)
      requires size % 4 == 0
      ensures fresh(words) && words.Length == size / 4
      ensures forall i :: 0 <= i < words.Length ==> words[i] == 0
    {
      words := new bv32[size / 4](_ => 0);
    }

    /** `reset`: copies `data`, which must cover every byte of the block, over the block. */
    method Reset(data: seq<bv8>)
      requires |data| == 4 * words.Length
      modifies words
      ensures forall k :: 0 <= k < words.Length ==> words[k] == WordFromBytes(data, k)
      ensures forall i :: 0 <= i < |data| ==> Load8(words[..], i) == data[i]
    {
      var k := 0;
      while k < words.Length
        invariant 0 <= k <= words.Length
        invariant forall j :: 0 <= j < k ==> words[j] == WordFromBytes(data, j)
      {
        words[k] := WordFromBytes(data, k);
        k := k + 1;
      }
      forall i | 0 <= i < |data|
        ensures Load8(words[..], i) == data[i]
      {
        ByteOfWordFromBytes(data, i);
      }
    }

    function Read32(addr: nat): (r: bv32)
      reads words
      requires InBounds(words[..], addr)
      ensures r == Load32(words[..], addr)
    {
      words[addr / 4]
    }

    function Read16(addr: nat): (r: bv16)
      reads words
      requires InBounds(words[..], addr)
      ensures r == Load16(words[..], addr)
    {
      HalfOf(words[addr / 4], HalfLane(addr))
    }

    function Read8(addr: nat): (r: bv8)
      reads words
      requires InBounds(words[..], addr)
      ensures r == Load8(words[..], addr)
    {
      ByteOf(words[addr / 4], ByteLane(addr))
    }

    method Write32(addr: nat, value: bv32)
      requires InBounds(words[..], addr)
      modifies words
      ensures words[..] == Store32(old(words[..]), addr, value)
    {
      words[addr / 4] := value;
    }

    method Write16(addr: nat, value: bv16)
      requires InBounds(words[..], addr)
      modifies words
      ensures words[..] == Store16(old(words[..]), addr, value)
    {
      words[addr / 4] := WithHalf(words[addr / 4], HalfLane(addr), value);
    }

    method Write8(addr: nat, value: bv8)
      requires InBounds(words[..], addr)
      modifies words
      ensures words[..] == Store8(old(words[..]), addr, value)
    {
      words[addr / 4] := WithByte(words[addr / 4], ByteLane(addr), value);
    }
  }
}
