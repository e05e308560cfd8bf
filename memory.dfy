/**
 * The hart's memory: a byte buffer whose first byte sits at the fixed address
 * `Base`. Every access subtracts `Base` from the address and indexes the
 * buffer at that offset; values are assembled and split little-endian.
 * Neither the `MEM` macro nor `load8`/`load16`/`load32` checks bounds, so an
 * access outside the buffer is undefined in C: here it is a precondition.
 *
 * The address-level operations are thin wrappers over operations on buffer
 * indices, and the facts about them are proved at the index level.
 */
module Memory {

  /** `tinyriscv_MEM_OFFSET` and `MEM_OFFSET`: the address of the buffer's first byte. */
  const Base: bv32 := 0x8000_0000

  /** An access of `width` bytes at `addr` stays inside a buffer of `size` bytes. */
  predicate InBounds(size: int, addr: bv32, width: nat)
  {
    Base <= addr && Offset(addr) + width <= size
  }

  /** The buffer index an address maps to. */
  function Offset(addr: bv32): (r: nat)
    requires Base <= addr
  {
    Unsigned(addr - Base)
  }

  /**
   * The number a word denotes when read as unsigned, counted one step at a
   * time; it equals `v as int`, but keeps bounds reasoning on buffer indices
   * apart from the bit-level reasoning about the addresses themselves.
   */
  function Unsigned(v: bv32): (r: nat)
    decreases v
  {
    if v == 0 then 0 else Unsigned(v - 1) + 1
  }

  /** `load8` and `MEM(8, …)` as an rvalue. */
  function Load8(mem: seq<bv8>, addr: bv32): (r: bv8)
    requires InBounds(|mem|, addr, 1)
  {
    mem[Offset(addr)]
  }

  /** `load16` and `MEM(16, …)` as an rvalue: two bytes, the lower address holding the low byte. */
  function Load16(mem: seq<bv8>, addr: bv32): (r: bv16)
    requires InBounds(|mem|, addr, 2)
  {
    HalfAt(mem, Offset(addr))
  }

  /** `load32` and `MEM(32, …)` as an rvalue: four bytes, little-endian. */
  function Load32(mem: seq<bv8>, addr: bv32): (r: bv32)
    requires InBounds(|mem|, addr, 4)
  {
    WordAt(mem, Offset(addr))
  }

  /** `MEM(8, …) = v`. */
  function Store8(mem: seq<bv8>, addr: bv32, v: bv8): (r: seq<bv8>)
    requires InBounds(|mem|, addr, 1)
    ensures |r| == |mem|
  {
    mem[Offset(addr) := v]
  }

  /** `MEM(16, …) = v`: the low byte goes to the lower address. */
  function Store16(mem: seq<bv8>, addr: bv32, v: bv16): (r: seq<bv8>)
    requires InBounds(|mem|, addr, 2)
    ensures |r| == |mem|
  {
    WithHalfAt(mem, Offset(addr), v)
  }

  /** `MEM(32, …) = v`: four bytes, little-endian. */
  function Store32(mem: seq<bv8>, addr: bv32, v: bv32): (r: seq<bv8>)
    requires InBounds(|mem|, addr, 4)
    ensures |r| == |mem|
  {
    WithWordAt(mem, Offset(addr), v)
  }

  // Index-level operations.

  /** The half-word held by the two bytes from index `o`, the lower index holding the low byte. */
  function HalfAt(mem: seq<bv8>, o: int): (r: bv16)
    requires 0 <= o && o + 2 <= |mem|
  {
    mem[o] as bv16 | (mem[o + 1] as bv16 << 8)
  }

  /** The little-endian word held by the four bytes from index `o`. */
  function WordAt(mem: seq<bv8>, o: int): (r: bv32)
    requires 0 <= o && o + 4 <= |mem|
  {
    Word(mem[o], mem[o + 1], mem[o + 2], mem[o + 3])
  }

  /** The word whose bytes, from least significant up, are `b0`, `b1`, `b2`, `b3`. */
  function Word(b0: bv8, b1: bv8, b2: bv8, b3: bv8): (r: bv32)
  {
    b0 as bv32 | (b1 as bv32 << 8) | (b2 as bv32 << 16) | (b3 as bv32 << 24)
  }

  /** Byte `k` (counting from the least significant) of a word. */
  function ByteOf(v: bv32, k: nat): (r: bv8)
    requires k < 4
  {
    if k == 0 then (v & 0xFF) as bv8
    else if k == 1 then ((v >> 8) & 0xFF) as bv8
    else if k == 2 then ((v >> 16) & 0xFF) as bv8
    else (v >> 24) as bv8
  }

  /** The buffer with the two bytes from index `o` replaced by `v`, low byte first. */
  function WithHalfAt(mem: seq<bv8>, o: int, v: bv16): (r: seq<bv8>)
    requires 0 <= o && o + 2 <= |mem|
    ensures |r| == |mem|
  {
    mem[o := (v & 0xFF) as bv8][o + 1 := (v >> 8) as bv8]
  }

  /** The buffer with the four bytes from index `o` replaced by `v`, least significant first. */
  function WithWordAt(mem: seq<bv8>, o: int, v: bv32): (r: seq<bv8>)
    requires 0 <= o && o + 4 <= |mem|
    ensures |r| == |mem|
  {
    mem[o := ByteOf(v, 0)][o + 1 := ByteOf(v, 1)][o + 2 := ByteOf(v, 2)][o + 3 := ByteOf(v, 3)]
  }

  /** Writes `v` into the two bytes of the buffer from index `o`, low byte first. */
  method PutHalf(mem: array<bv8>, o: int, v: bv16)
    requires 0 <= o && o + 2 <= mem.Length
    modifies mem
    ensures mem[..] == WithHalfAt(old(mem[..]), o, v)
  {
    mem[o] := (v & 0xFF) as bv8;
    mem[o + 1] := (v >> 8) as bv8;
  }

  /** Writes `v` into the four bytes of the buffer from index `o`, least significant first. */
  method PutWord(mem: array<bv8>, o: int, v: bv32)
    requires 0 <= o && o + 4 <= mem.Length
    modifies mem
    ensures mem[..] == WithWordAt(old(mem[..]), o, v)
  {
    mem[o] := ByteOf(v, 0);
    mem[o + 1] := ByteOf(v, 1);
    mem[o + 2] := ByteOf(v, 2);
    mem[o + 3] := ByteOf(v, 3);
  }

  /** Splitting a word into its bytes and assembling them little-endian gives the word back. */
  lemma WordFromBytes(v: bv32)
    ensures Word(ByteOf(v, 0), ByteOf(v, 1), ByteOf(v, 2), ByteOf(v, 3)) == v
  {
  }

  /** The same for a half-word and its two bytes. */
  lemma HalfFromBytes(v: bv16)
    ensures ((v & 0xFF) as bv8) as bv16 | (((v >> 8) as bv8) as bv16 << 8) == v
  {
  }

  lemma HalfRoundTrip(mem: seq<bv8>, o: int, v: bv16)
    requires 0 <= o && o + 2 <= |mem|
    ensures HalfAt(WithHalfAt(mem, o, v), o) == v
  {
    var r := WithHalfAt(mem, o, v);
    assert r[o] == (v & 0xFF) as bv8 && r[o + 1] == (v >> 8) as bv8;
    HalfFromBytes(v);
  }

  lemma WordRoundTrip(mem: seq<bv8>, o: int, v: bv32)
    requires 0 <= o && o + 4 <= |mem|
    ensures WordAt(WithWordAt(mem, o, v), o) == v
  {
    var r := WithWordAt(mem, o, v);
    assert r[o] == ByteOf(v, 0) && r[o + 1] == ByteOf(v, 1) && r[o + 2] == ByteOf(v, 2) && r[o + 3] == ByteOf(v, 3);
    WordFromBytes(v);
  }

  lemma WordDisjoint(mem: seq<bv8>, so: int, v: bv32, lo: int)
    requires 0 <= so && so + 4 <= |mem| && 0 <= lo && lo + 4 <= |mem|
    requires lo + 4 <= so || so + 4 <= lo
    ensures WordAt(WithWordAt(mem, so, v), lo) == WordAt(mem, lo)
  {
    var r := WithWordAt(mem, so, v);
    assert r[lo] == mem[lo] && r[lo + 1] == mem[lo + 1] && r[lo + 2] == mem[lo + 2] && r[lo + 3] == mem[lo + 3];
  }

  lemma NarrowAt(mem: seq<bv8>, o: int)
    requires 0 <= o && o + 4 <= |mem|
    ensures HalfAt(mem, o) as bv32 == WordAt(mem, o) & 0xFFFF
    ensures mem[o] as bv32 == WordAt(mem, o) & 0xFF
  {
  }

  /** `a` and `b` have the same length and agree outside the `width` bytes from index `lo`. */
  ghost predicate SameOutside(a: seq<bv8>, b: seq<bv8>, lo: int, width: nat)
  {
    |a| == |b| && forall i :: 0 <= i < |a| && !(lo <= i < lo + width) ==> a[i] == b[i]
  }

  // Address-level facts.

  /** A byte store is read back by a byte load. */
  lemma Store8Load8(mem: seq<bv8>, addr: bv32, v: bv8)
    requires InBounds(|mem|, addr, 1)
    ensures Load8(Store8(mem, addr, v), addr) == v
  {
  }

  /** A half-word store is read back by a half-word load. */
  lemma Store16Load16(mem: seq<bv8>, addr: bv32, v: bv16)
    requires InBounds(|mem|, addr, 2)
    ensures Load16(Store16(mem, addr, v), addr) == v
  {
    HalfRoundTrip(mem, Offset(addr), v);
  }

  /** A word store is read back by a word load. */
  lemma Store32Load32(mem: seq<bv8>, addr: bv32, v: bv32)
    requires InBounds(|mem|, addr, 4)
    ensures Load32(Store32(mem, addr, v), addr) == v
  {
    WordRoundTrip(mem, Offset(addr), v);
  }

  /** Each store writes exactly its own bytes: every other byte of the buffer keeps its value. */
  lemma Store8Local(mem: seq<bv8>, addr: bv32, v: bv8)
    requires InBounds(|mem|, addr, 1)
    ensures SameOutside(mem, Store8(mem, addr, v), Offset(addr), 1)
  {
  }

  lemma Store16Local(mem: seq<bv8>, addr: bv32, v: bv16)
    requires InBounds(|mem|, addr, 2)
    ensures SameOutside(mem, Store16(mem, addr, v), Offset(addr), 2)
  {
  }

  lemma Store32Local(mem: seq<bv8>, addr: bv32, v: bv32)
    requires InBounds(|mem|, addr, 4)
    ensures SameOutside(mem, Store32(mem, addr, v), Offset(addr), 4)
  {
  }

  /**
   * Byte `k` of the buffer sits at guest address `Base + k`: the address is
   * in bounds and `load8` there reads that byte.
   */
  lemma ByteAtBasePlus(mem: seq<bv8>, k: bv32)
    requires k < 0x8000_0000 && Unsigned(k) < |mem|
    ensures InBounds(|mem|, Base + k, 1) && Load8(mem, Base + k) == mem[Unsigned(k)]
  {
    assert Base + k - Base == k;
  }

  /** `load16` reads two bytes from the address's offset, the first as the low byte. */
  lemma HalfLoadIsLittleEndian(mem: seq<bv8>, addr: bv32)
    requires InBounds(|mem|, addr, 2)
    ensures (Load16(mem, addr) & 0xFF) as bv8 == mem[Offset(addr)]
    ensures (Load16(mem, addr) >> 8) as bv8 == mem[Offset(addr) + 1]
  {
  }

  /** `load32` reads four bytes from the address's offset, least significant first. */
  lemma WordLoadIsLittleEndian(mem: seq<bv8>, addr: bv32)
    requires InBounds(|mem|, addr, 4)
    ensures ByteOf(Load32(mem, addr), 0) == mem[Offset(addr)]
    ensures ByteOf(Load32(mem, addr), 1) == mem[Offset(addr) + 1]
    ensures ByteOf(Load32(mem, addr), 2) == mem[Offset(addr) + 2]
    ensures ByteOf(Load32(mem, addr), 3) == mem[Offset(addr) + 3]
  {
  }

  /** The half-word at an address is the low half of the word there, and the byte its low byte. */
  lemma NarrowLoadsAreLowParts(mem: seq<bv8>, addr: bv32)
    requires InBounds(|mem|, addr, 4)
    ensures Load16(mem, addr) as bv32 == Load32(mem, addr) & 0xFFFF
    ensures Load8(mem, addr) as bv32 == Load32(mem, addr) & 0xFF
  {
    NarrowAt(mem, Offset(addr));
  }

  /** A word load of bytes that a word store did not touch returns what was there before. */
  lemma LoadAfterDisjointStore(mem: seq<bv8>, store: bv32, v: bv32, load: bv32)
    requires InBounds(|mem|, store, 4) && InBounds(|mem|, load, 4)
    requires Offset(load) + 4 <= Offset(store) || Offset(store) + 4 <= Offset(load)
    ensures Load32(Store32(mem, store, v), load) == Load32(mem, load)
  {
    var so, lo := Offset(store), Offset(load);
    var r := Store32(mem, store, v);
    assert r == WithWordAt(mem, so, v);
    assert Load32(r, load) == WordAt(r, lo);
    assert Load32(mem, load) == WordAt(mem, lo);
    WordDisjoint(mem, so, v, lo);
  }
}
