/**
 * The per-format execution units of the hart: `tinyriscv_B_type`,
 * `tinyriscv_L_type`, `tinyriscv_S_type`, `tinyriscv_i_type` and
 * `tinyriscv_R_type`. Each unit is a method that works on the register array
 * (and, for loads and stores, the memory buffer) in place, as the C functions
 * do through their `u32*` and `u8*` parameters, and is proved against a pure function
 * of its operands: `BranchPc`, `LoadResult`, `StoreResult`, `IResult` and
 * `RResult`. An `Option` result is `None` when the unit's `switch` matches no
 * case and the unit therefore changes nothing.
 *
 * The parameters keep the C types: the register and function fields are `u8`
 * (`bv8`), the immediates `i16` (`bv16`) and are widened with `(i32)` before use.
 */
module Units {
  import opened Wrappers
  import opened Bits
  import opened Memory

  // Branches

  /** The condition `tinyriscv_B_type` tests for `funct3`; funct3 2, 3 and above 7 never branch. */
  predicate BranchTaken(funct3: bv8, a: bv32, b: bv32)
  {
    if funct3 == 0 then a == b
    else if funct3 == 1 then a != b
    else if funct3 == 4 then LessSigned(a, b)
    else if funct3 == 5 then !LessSigned(a, b)
    else if funct3 == 6 then a < b
    else if funct3 == 7 then a >= b
    else false
  }

  /**
   * The pc after the unit: `pc` has already been advanced past the branch, so
   * a taken branch adds `(i32)imm - 4`.
   */
  function BranchPc(funct3: bv8, a: bv32, b: bv32, pc: bv32, imm: bv16): (r: bv32)
  {
    if BranchTaken(funct3, a, b) then pc + (Sext16(imm) - 4) else pc
  }

  /** `tinyriscv_B_type`: reads the registers and updates the caller's pc. */
  method BType(funct3: bv8, x: array<bv32>, pc: bv32, rs1: bv8, rs2: bv8, imm: bv16) returns (newPc: bv32)
    requires rs1 as int < x.Length && rs2 as int < x.Length
    ensures newPc == BranchPc(funct3, x[rs1], x[rs2], pc, imm)
  {
    newPc := pc;
    if funct3 == 0 {
      if x[rs1] == x[rs2] { newPc := newPc + (Sext16(imm) - 4); }
    } else if funct3 == 1 {
      if x[rs1] != x[rs2] { newPc := newPc + (Sext16(imm) - 4); }
    } else if funct3 == 4 {
      if LessSigned(x[rs1], x[rs2]) { newPc := newPc + (Sext16(imm) - 4); }
    } else if funct3 == 5 {
      if !LessSigned(x[rs1], x[rs2]) { newPc := newPc + (Sext16(imm) - 4); }
    } else if funct3 == 6 {
      if x[rs1] < x[rs2] { newPc := newPc + (Sext16(imm) - 4); }
    } else if funct3 == 7 {
      if x[rs1] >= x[rs2] { newPc := newPc + (Sext16(imm) - 4); }
    }
  }

  /** BEQ/BNE, BLT/BGE and BLTU/BGEU are complementary pairs: exactly one of each pair branches. */
  lemma BranchPairsComplement(a: bv32, b: bv32)
    ensures BranchTaken(0, a, b) != BranchTaken(1, a, b)
    ensures BranchTaken(4, a, b) != BranchTaken(5, a, b)
    ensures BranchTaken(6, a, b) != BranchTaken(7, a, b)
  {
  }

  /** The funct3 values that name no branch leave the pc alone. */
  lemma UndefinedBranchesFallThrough(funct3: bv8, a: bv32, b: bv32, pc: bv32, imm: bv16)
    requires funct3 == 2 || funct3 == 3 || funct3 > 7
    ensures BranchPc(funct3, a, b, pc, imm) == pc
  {
  }

  /**
   * BLT compares as signed and BLTU as unsigned: on operands of the same sign
   * they agree, and on operands of different signs they disagree.
   */
  lemma SignedAndUnsignedBranches(a: bv32, b: bv32)
    ensures a & 0x8000_0000 == b & 0x8000_0000 ==> BranchTaken(4, a, b) == BranchTaken(6, a, b)
    ensures a & 0x8000_0000 != b & 0x8000_0000 ==> BranchTaken(4, a, b) != BranchTaken(6, a, b)
  {
    if a & 0x8000_0000 == b & 0x8000_0000 {
      SameSignOrder(a, b);
    } else if a & 0x8000_0000 != 0 {
      NegativeBelowNonNegative(a, b);
    } else {
      NegativeBelowNonNegative(b, a);
    }
  }

  /** The address `tinyriscv_L_type` and `tinyriscv_S_type` access: `x[rs1] + (i32)imm`, wrapping. */
  function Address(base: bv32, imm: bv16): (r: bv32)
  {
    base + Sext16(imm)
  }

  // Loads

  /** The number of bytes `tinyriscv_L_type` reads for `funct3`, 0 when it reads nothing. */
  function LoadWidth(funct3: bv8): (r: nat)
  {
    if funct3 == 0 || funct3 == 4 then 1
    else if funct3 == 1 || funct3 == 5 then 2
    else if funct3 == 2 then 4
    else 0
  }

  /** The load reads only bytes of the buffer (C leaves any other read undefined). */
  predicate LoadDefined(funct3: bv8, size: int, addr: bv32)
  {
    LoadWidth(funct3) == 0 || InBounds(size, addr, LoadWidth(funct3))
  }

  /** The value `tinyriscv_L_type` writes to `x[rd]`: LB and LH sign-extend, LBU and LHU zero-extend. */
  function LoadResult(funct3: bv8, mem: seq<bv8>, addr: bv32): (r: Option<bv32>)
    requires LoadDefined(funct3, |mem|, addr)
    ensures r.Some? <==> LoadWidth(funct3) != 0
  {
    if funct3 == 0 then Some(Sext8(Load8(mem, addr)))
    else if funct3 == 1 then Some(Sext16(Load16(mem, addr)))
    else if funct3 == 2 then Some(Load32(mem, addr))
    else if funct3 == 4 then Some(Load8(mem, addr) as bv32)
    else if funct3 == 5 then Some(Load16(mem, addr) as bv32)
    else None
  }

  /** The register file after a unit writes its result, if any, to `rd`. */
  function WriteBack(regs: seq<bv32>, rd: bv8, v: Option<bv32>): (r: seq<bv32>)
    requires rd as int < |regs|
    ensures |r| == |regs|
    ensures forall i :: 0 <= i < |regs| && i != rd as int ==> r[i] == regs[i]
    ensures v.Some? ==> r[rd] == v.value
    ensures v.None? ==> r == regs
  {
    if v.Some? then regs[rd := v.value] else regs
  }

  /** `tinyriscv_L_type`: reads memory at `x[rs1] + (i32)imm` and writes `x[rd]`. */
  method LType(funct3: bv8, x: array<bv32>, mem: array<bv8>, rd: bv8, rs1: bv8, imm: bv16)
    requires rd as int < x.Length && rs1 as int < x.Length
    requires LoadDefined(funct3, mem.Length, Address(x[rs1], imm))
    modifies x
    ensures x[..] == WriteBack(old(x[..]), rd, LoadResult(funct3, mem[..], Address(old(x[rs1]), imm)))
  {
    var addr := Address(x[rs1], imm);
    if funct3 == 0 {
      x[rd] := Sext8(Load8(mem[..], addr));
    } else if funct3 == 1 {
      x[rd] := Sext16(Load16(mem[..], addr));
    } else if funct3 == 2 {
      x[rd] := Load32(mem[..], addr);
    } else if funct3 == 4 {
      x[rd] := Load8(mem[..], addr) as bv32;
    } else if funct3 == 5 {
      x[rd] := Load16(mem[..], addr) as bv32;
    }
  }

  /** LB and LBU read the same byte: LBU zero-extends it and LB copies its bit 7 upwards. */
  lemma ByteLoadsExtend(mem: seq<bv8>, addr: bv32)
    requires InBounds(|mem|, addr, 1)
    ensures var lb, lbu := LoadResult(0, mem, addr).value, LoadResult(4, mem, addr).value;
      lbu & 0xFFFF_FF00 == 0 && lb & 0xFF == lbu && SignExtended(lb, 0xFFFF_FF80)
  {
    var b := Load8(mem, addr);
    assert LoadResult(0, mem, addr).value == Sext8(b);
    assert LoadResult(4, mem, addr).value == b as bv32;
    ByteExtensions(b);
  }

  /** LH and LHU read the same half-word: LHU zero-extends it and LH copies its bit 15 upwards. */
  lemma HalfLoadsExtend(mem: seq<bv8>, addr: bv32)
    requires InBounds(|mem|, addr, 2)
    ensures LoadResult(5, mem, addr).value & 0xFFFF_0000 == 0
    ensures LoadResult(1, mem, addr).value & 0xFFFF == LoadResult(5, mem, addr).value
    ensures SignExtended(LoadResult(1, mem, addr).value, 0xFFFF_8000)
  {
    HalfLoads(mem, addr);
    HalfExtensions(Load16(mem, addr));
  }

  lemma HalfLoads(mem: seq<bv8>, addr: bv32)
    requires InBounds(|mem|, addr, 2)
    ensures LoadResult(1, mem, addr) == Some(Sext16(Load16(mem, addr)))
    ensures LoadResult(5, mem, addr) == Some(Load16(mem, addr) as bv32)
  {
  }

  lemma ByteExtensions(b: bv8)
    ensures b as bv32 & 0xFFFF_FF00 == 0 && Sext8(b) & 0xFF == b as bv32
  {
  }

  lemma HalfExtensions(h: bv16)
    ensures h as bv32 & 0xFFFF_0000 == 0 && Sext16(h) & 0xFFFF == h as bv32
  {
  }

  // Stores

  /** The number of bytes `tinyriscv_S_type` writes for `funct3`, 0 when it writes nothing. */
  function StoreWidth(funct3: bv8): (r: nat)
  {
    if funct3 == 0 then 1 else if funct3 == 1 then 2 else if funct3 == 2 then 4 else 0
  }

  /** The store writes only bytes of the buffer. */
  predicate StoreDefined(funct3: bv8, size: int, addr: bv32)
  {
    StoreWidth(funct3) == 0 || InBounds(size, addr, StoreWidth(funct3))
  }

  /** The buffer after `tinyriscv_S_type`: the low 1, 2 or 4 bytes of `v` at `addr`. */
  function StoreResult(funct3: bv8, mem: seq<bv8>, addr: bv32, v: bv32): (r: seq<bv8>)
    requires StoreDefined(funct3, |mem|, addr)
    ensures |r| == |mem|
  {
    if funct3 == 0 then Store8(mem, addr, Narrow8(v))
    else if funct3 == 1 then Store16(mem, addr, Narrow16(v))
    else if funct3 == 2 then Store32(mem, addr, v)
    else mem
  }

  /** `tinyriscv_S_type`: writes `x[rs2]` to memory at `x[rs1] + (i32)imm`. */
  method SType(funct3: bv8, x: array<bv32>, mem: array<bv8>, rs1: bv8, rs2: bv8, imm: bv16)
    requires rs1 as int < x.Length && rs2 as int < x.Length
    requires StoreDefined(funct3, mem.Length, Address(x[rs1], imm))
    modifies mem
    ensures mem[..] == StoreResult(funct3, old(mem[..]), Address(old(x[rs1]), imm), old(x[rs2]))
  {
    var addr := Address(x[rs1], imm);
    if funct3 == 0 {
      mem[Offset(addr)] := Narrow8(x[rs2]);
    } else if funct3 == 1 {
      PutHalf(mem, Offset(addr), Narrow16(x[rs2]));
    } else if funct3 == 2 {
      PutWord(mem, Offset(addr), x[rs2]);
    }
  }

  /** A store changes exactly the bytes of its width at its address, and an unnamed funct3 none. */
  lemma StoreLocality(funct3: bv8, mem: seq<bv8>, addr: bv32, v: bv32)
    requires StoreDefined(funct3, |mem|, addr)
    ensures StoreWidth(funct3) == 0 ==> StoreResult(funct3, mem, addr, v) == mem
    ensures StoreWidth(funct3) != 0 ==> SameOutside(mem, StoreResult(funct3, mem, addr, v), Offset(addr), StoreWidth(funct3))
  {
    if funct3 == 0 {
      Store8Local(mem, addr, Narrow8(v));
    } else if funct3 == 1 {
      Store16Local(mem, addr, Narrow16(v));
    } else if funct3 == 2 {
      Store32Local(mem, addr, v);
    }
  }

  lemma HalfStore(mem: seq<bv8>, addr: bv32, v: bv32)
    requires InBounds(|mem|, addr, 2)
    ensures StoreResult(1, mem, addr, v) == Store16(mem, addr, Narrow16(v))
  {
  }

  /** SW then LW at the same address reads back the stored word. */
  lemma StoreWordThenLoad(mem: seq<bv8>, addr: bv32, v: bv32)
    requires InBounds(|mem|, addr, 4)
    ensures LoadResult(2, StoreResult(2, mem, addr, v), addr) == Some(v)
  {
    var r := StoreResult(2, mem, addr, v);
    assert r == Store32(mem, addr, v);
    assert LoadResult(2, r, addr) == Some(Load32(r, addr));
    Store32Load32(mem, addr, v);
  }

  /** SH then LHU at the same address reads back the low half of the stored word. */
  lemma StoreHalfThenLoad(mem: seq<bv8>, addr: bv32, v: bv32)
    requires InBounds(|mem|, addr, 2)
    ensures LoadResult(5, StoreResult(1, mem, addr, v), addr) == Some(v & 0xFFFF)
  {
    var r := StoreResult(1, mem, addr, v);
    HalfStore(mem, addr, v);
    HalfLoads(r, addr);
    Store16Load16(mem, addr, Narrow16(v));
  }

  /** SB then LBU at the same address reads back the low byte of the stored word. */
  lemma StoreByteThenLoad(mem: seq<bv8>, addr: bv32, v: bv32)
    requires InBounds(|mem|, addr, 1)
    ensures LoadResult(4, StoreResult(0, mem, addr, v), addr) == Some(v & 0xFF)
  {
    var r := StoreResult(0, mem, addr, v);
    assert r == Store8(mem, addr, Narrow8(v));
    assert LoadResult(4, r, addr) == Some(Load8(r, addr) as bv32);
    Store8Load8(mem, addr, Narrow8(v));
  }

  // Register-immediate operations

  /**
   * The value `tinyriscv_i_type` writes to `x[rd]` from `a = x[rs1]`, or `None`
   * for funct3 above 7. The immediate is sign-extended for every operation,
   * SLTIU included; funct3 5 is SRAI for any nonzero funct7. C leaves a shift
   * by 32 or more undefined, so the shifts require `shamt < 32`.
   */
  function IResult(funct3: bv8, funct7: bv8, a: bv32, imm: bv16, shamt: bv8): (r: Option<bv32>)
    requires (funct3 == 1 || funct3 == 5) ==> shamt < 32
  {
    var i := Sext16(imm);
    if funct3 == 0 then Some(a + i)
    else if funct3 == 1 then Some(Sll(a, shamt as bv32))
    else if funct3 == 2 then Some(if LessSigned(a, i) then 1 else 0)
    else if funct3 == 3 then Some(if a < i then 1 else 0)
    else if funct3 == 4 then Some(a ^ i)
    else if funct3 == 5 then Some(if funct7 != 0 then Sra(a, shamt as bv32) else Srl(a, shamt as bv32))
    else if funct3 == 6 then Some(a | i)
    else if funct3 == 7 then Some(a & i)
    else None
  }

  /** `tinyriscv_i_type`: computes from `x[rs1]` and the immediate and writes `x[rd]`. */
  method IType(funct3: bv8, funct7: bv8, x: array<bv32>, rd: bv8, rs1: bv8, imm: bv16, shamt: bv8)
    requires rd as int < x.Length && rs1 as int < x.Length
    requires (funct3 == 1 || funct3 == 5) ==> shamt < 32
    modifies x
    ensures x[..] == WriteBack(old(x[..]), rd, IResult(funct3, funct7, old(x[rs1]), imm, shamt))
  {
    var v := IResult(funct3, funct7, x[rs1], imm, shamt);
    if v.Some? {
      x[rd] := v.value;
    }
  }

  // Register-register operations

  /** The `switch` key of `tinyriscv_R_type`: funct7 shifted left past the three funct3 bits, or-ed with funct3. */
  function RKey(funct3: bv8, funct7: bv8): (r: bv16)
  {
    (funct7 as bv16 << 3) | funct3 as bv16
  }

  /**
   * The value `tinyriscv_R_type` writes to `x[rd]` from `a = x[rs1]` and
   * `b = x[rs2]`, or `None` when the key names no operation. Shifts use the
   * low five bits of `b`.
   */
  function RResult(funct3: bv8, funct7: bv8, a: bv32, b: bv32): (r: Option<bv32>)
  {
    var key := RKey(funct3, funct7);
    if key == 0x000 then Some(a + b)
    else if key == 0x100 then Some(a - b)
    else if key == 0x001 then Some(Sll(a, b & 0x1f))
    else if key == 0x002 then Some(if LessSigned(a, b) then 1 else 0)
    else if key == 0x003 then Some(if a < b then 1 else 0)
    else if key == 0x004 then Some(a ^ b)
    else if key == 0x005 then Some(Srl(a, b & 0x1f))
    else if key == 0x105 then Some(Sra(a, b & 0x1f))
    else if key == 0x006 then Some(a | b)
    else if key == 0x007 then Some(a & b)
    else None
  }

  /** `tinyriscv_R_type`: computes from `x[rs1]` and `x[rs2]` and writes `x[rd]`. */
  method RType(funct3: bv8, funct7: bv8, x: array<bv32>, rd: bv8, rs1: bv8, rs2: bv8)
    requires rd as int < x.Length && rs1 as int < x.Length && rs2 as int < x.Length
    modifies x
    ensures x[..] == WriteBack(old(x[..]), rd, RResult(funct3, funct7, old(x[rs1]), old(x[rs2])))
  {
    var v := RResult(funct3, funct7, x[rs1], x[rs2]);
    if v.Some? {
      x[rd] := v.value;
    }
  }

  /** `tinyriscv_i_type` writes `x[rd]` for every funct3 that fits in three bits. */
  lemma IWritesExactly(funct3: bv8, funct7: bv8, a: bv32, imm: bv16, shamt: bv8)
    requires (funct3 == 1 || funct3 == 5) ==> shamt < 32
    ensures IResult(funct3, funct7, a, imm, shamt).Some? <==> funct3 < 8
  {
  }

  /**
   * `tinyriscv_R_type` writes `x[rd]` exactly for the ten RV32I operations:
   * funct7 0 with any three-bit funct3, and funct7 0x20 with funct3 0 (SUB)
   * or 5 (SRA).
   */
  lemma RWritesExactly(funct3: bv8, funct7: bv8, a: bv32, b: bv32)
    ensures RResult(funct3, funct7, a, b).Some? <==>
      (funct7 == 0 && funct3 < 8) || (funct7 == 0x20 && (funct3 == 0 || funct3 == 5))
  {
    var key := RKey(funct3, funct7);
    assert RResult(funct3, funct7, a, b).Some? <==> key < 8 || key == 0x100 || key == 0x105;
    RKeyFields(funct3, funct7);
  }

  /** The key packs funct7 above funct3, so a key below 8 or at 0x100..0x107 pins both fields. */
  lemma RKeyFields(funct3: bv8, funct7: bv8)
    ensures RKey(funct3, funct7) < 8 <==> funct7 == 0 && funct3 < 8
    ensures RKey(funct3, funct7) == 0x100 <==> funct7 == 0x20 && funct3 == 0
    ensures RKey(funct3, funct7) == 0x105 <==> funct7 == 0x20 && funct3 == 5
  {
  }

  /** SLT and SLTU write a truth value, 1 exactly when BLT and BLTU on the same operands would branch. */
  lemma SetLessThanMatchesBranch(a: bv32, b: bv32)
    ensures RResult(2, 0, a, b) == Some(if BranchTaken(4, a, b) then 1 else 0)
    ensures RResult(3, 0, a, b) == Some(if BranchTaken(6, a, b) then 1 else 0)
  {
  }

  /** Register shifts read only the low five bits of `x[rs2]`. */
  lemma ShiftAmountMasked(funct3: bv8, funct7: bv8, a: bv32, b: bv32)
    requires funct3 == 1 || funct3 == 5
    ensures RResult(funct3, funct7, a, b) == RResult(funct3, funct7, a, b & 0x1f)
  {
  }

  /** SUB undoes ADD. */
  lemma SubUndoesAdd(a: bv32, b: bv32)
    ensures RResult(0, 0x20, RResult(0, 0, a, b).value, b) == Some(a)
  {
    RKeys();
    assert RResult(0, 0, a, b) == Some(a + b);
    assert RResult(0, 0x20, a + b, b) == Some(a + b - b);
  }

  /** XOR with the same operand twice gives the operand back. */
  lemma XorUndoesXor(a: bv32, b: bv32)
    ensures RResult(4, 0, RResult(4, 0, a, b).value, b) == Some(a)
  {
    RKeys();
    assert RResult(4, 0, a, b) == Some(a ^ b);
    assert RResult(4, 0, a ^ b, b) == Some(a ^ b ^ b);
  }

  /** The keys of the ten named operations. */
  lemma RKeys()
    ensures RKey(0, 0) == 0x000 && RKey(0, 0x20) == 0x100 && RKey(1, 0) == 0x001
    ensures RKey(2, 0) == 0x002 && RKey(3, 0) == 0x003 && RKey(4, 0) == 0x004
    ensures RKey(5, 0) == 0x005 && RKey(5, 0x20) == 0x105 && RKey(6, 0) == 0x006 && RKey(7, 0) == 0x007
  {
  }

  /**
   * Each register-immediate operation other than a shift computes what its
   * register-register counterpart computes with `x[rs2]` replaced by the
   * sign-extended immediate.
   */
  lemma ImmediateMatchesRegister(funct3: bv8, funct7: bv8, a: bv32, imm: bv16, shamt: bv8)
    requires funct3 < 8 && funct3 != 1 && funct3 != 5
    ensures IResult(funct3, funct7, a, imm, shamt) == RResult(funct3, 0, a, Sext16(imm))
  {
  }

  /** SLLI computes what SLL computes with `x[rs2]` replaced by `shamt`. */
  lemma SlliMatchesSll(funct7: bv8, a: bv32, imm: bv16, shamt: bv8)
    requires shamt < 32
    ensures IResult(1, funct7, a, imm, shamt) == RResult(1, 0, a, shamt as bv32)
  {
    RKeys();
    var s := shamt as bv32;
    assert s & 0x1f == s;
  }

  /** SRLI (funct7 0) computes what SRL computes with `x[rs2]` replaced by `shamt`. */
  lemma SrliMatchesSrl(a: bv32, imm: bv16, shamt: bv8)
    requires shamt < 32
    ensures IResult(5, 0, a, imm, shamt) == RResult(5, 0, a, shamt as bv32)
  {
    RKeys();
    var s := shamt as bv32;
    assert s & 0x1f == s;
  }

  /** Any nonzero funct7 makes funct3 5 SRAI, which computes what SRA computes with `shamt`. */
  lemma SraiMatchesSra(funct7: bv8, a: bv32, imm: bv16, shamt: bv8)
    requires shamt < 32 && funct7 != 0
    ensures IResult(5, funct7, a, imm, shamt) == RResult(5, 0x20, a, shamt as bv32)
  {
    RKeys();
    var s := shamt as bv32;
    assert s & 0x1f == s;
  }

  /**
   * The assembler idioms built on register-immediate operations: MV is
   * ADDI 0, NOT is XORI -1, SEQZ is SLTIU 1; and SLTIU -1 is "not all ones"
   * because the immediate is sign-extended before the unsigned compare.
   */
  lemma ImmediateIdioms(funct7: bv8, a: bv32, shamt: bv8)
    ensures IResult(0, funct7, a, 0, shamt) == Some(a)
    ensures IResult(4, funct7, a, 0xFFFF, shamt) == Some(!a)
    ensures IResult(3, funct7, a, 1, shamt) == Some(if a == 0 then 1 else 0)
    ensures IResult(3, funct7, a, 0xFFFF, shamt) == Some(if a == 0xFFFF_FFFF then 0 else 1)
  {
  }

  /** The register idioms: NEG is SUB from x0, SNEZ is SLTU from x0. */
  lemma RegisterIdioms(b: bv32)
    ensures RResult(0, 0x20, 0, b) == Some(-b)
    ensures RResult(3, 0, 0, b) == Some(if b != 0 then 1 else 0)
  {
  }
}
