/**
 * The earlier interpreter in the repository's root `main.c`: a `Cpu` with
 * 32 registers, a pc and a byte buffer at `MEM_OFFSET`, the same little-endian
 * `load8`/`load16`/`load32` as `Memory.Load8`/`Load16`/`Load32`, and a
 * `step` that handles loads (opcode 0x03) and register-register operations
 * (opcode 0x33) only. Its `R_type` accepts ADD/SUB and SRL/SRA only for a
 * funct7 of exactly 0x00 or 0x20 and ignores funct7 elsewhere; its LBU and
 * LHU read memory and discard the value. Memory is `const` to both units,
 * so a step never writes it.
 */
module Draft {
  import opened Wrappers
  import opened Bits
  import opened Memory
  import opened Decode
  import Units
  import TinyRiscv

  /**
   * The value `R_type` writes to `regs[rd]` from `a = regs[rs1]` and
   * `b = regs[rs2]`, or `None` when it writes nothing.
   */
  function RResult(funct3: bv8, funct7: bv8, a: bv32, b: bv32): (r: Option<bv32>)
  {
    if funct3 == 0 then
      (if funct7 == 0x00 then Some(a + b) else if funct7 == 0x20 then Some(a - b) else None)
    else if funct3 == 1 then Some(Sll(a, b & 0x1f))
    else if funct3 == 2 then Some(if LessSigned(a, b) then 1 else 0)
    else if funct3 == 3 then Some(if a < b then 1 else 0)
    else if funct3 == 4 then Some(a ^ b)
    else if funct3 == 5 then
      (if funct7 == 0x00 then Some(Srl(a, b & 0x1f)) else if funct7 == 0x20 then Some(Sra(a, b & 0x1f)) else None)
    else if funct3 == 6 then Some(a | b)
    else if funct3 == 7 then Some(a & b)
    else None
  }

  /** `R_type`: computes from `regs[rs1]` and `regs[rs2]` and writes `regs[rd]`. */
  method RType(funct3: bv8, funct7: bv8, regs: array<bv32>, rd: bv8, rs1: bv8, rs2: bv8)
    requires rd as int < regs.Length && rs1 as int < regs.Length && rs2 as int < regs.Length
    modifies regs
    ensures regs[..] == Units.WriteBack(old(regs[..]), rd, RResult(funct3, funct7, old(regs[rs1]), old(regs[rs2])))
  {
    var v := RResult(funct3, funct7, regs[rs1], regs[rs2]);
    if v.Some? {
      regs[rd] := v.value;
    }
  }

  /**
   * The value `L_type` writes to `regs[rd]`: LB and LH sign-extend, LW takes
   * the word; LBU and LHU read (so the read must be defined) but write nothing.
   */
  function LoadResult(funct3: bv8, mem: seq<bv8>, addr: bv32): (r: Option<bv32>)
    requires Units.LoadDefined(funct3, |mem|, addr)
  {
    if funct3 == 0 then Some(Sext8(Load8(mem, addr)))
    else if funct3 == 1 then Some(Sext16(Load16(mem, addr)))
    else if funct3 == 2 then Some(Load32(mem, addr))
    else None
  }

  /** `L_type`: reads memory at `regs[rs1] + (i32)imm` and writes `regs[rd]` for LB, LH and LW. */
  method LType(funct3: bv8, regs: array<bv32>, rd: bv8, mem: array<bv8>, rs1: bv8, imm: bv16)
    requires rd as int < regs.Length && rs1 as int < regs.Length
    requires Units.LoadDefined(funct3, mem.Length, Units.Address(regs[rs1], imm))
    modifies regs
    ensures regs[..] == Units.WriteBack(old(regs[..]), rd, LoadResult(funct3, mem[..], Units.Address(old(regs[rs1]), imm)))
  {
    var addr := Units.Address(regs[rs1], imm);
    if funct3 == 0 {
      regs[rd] := Sext8(Load8(mem[..], addr));
    } else if funct3 == 1 {
      regs[rd] := Sext16(Load16(mem[..], addr));
    } else if funct3 == 2 {
      regs[rd] := Load32(mem[..], addr);
    } else if funct3 == 4 {
      var discarded := Load8(mem[..], addr);
    } else if funct3 == 5 {
      var discarded := Load16(mem[..], addr);
    }
  }

  /** The value of a `Cpu`. */
  datatype CpuState = CpuState(regs: seq<bv32>, pc: bv32, mem: seq<bv8>)

  /** A load reads only bytes of the buffer. */
  predicate AccessDefined(inst: bv32, regs: seq<bv32>, size: int)
    requires |regs| == 32
  {
    Opcode(inst) == 0x03 ==> Units.LoadDefined(Narrow8(Funct3(inst)), size, TinyRiscv.LoadAddress(inst, regs))
  }

  /** `step` is defined on `s`: the fetch and the load stay inside the buffer. */
  predicate CanStep(s: CpuState)
  {
    |s.regs| == 32 && InBounds(|s.mem|, s.pc, 4) && AccessDefined(Load32(s.mem, s.pc), s.regs[0 := 0], |s.mem|)
  }

  /** The registers after the `switch` of `step`, from the registers after `regs[0]` was zeroed. */
  function Execute(inst: bv32, regs: seq<bv32>, mem: seq<bv8>): (r: seq<bv32>)
    requires |regs| == 32 && AccessDefined(inst, regs, |mem|)
    ensures |r| == 32
  {
    var funct3, funct7 := Narrow8(Funct3(inst)), Narrow8(Funct7(inst));
    var rd, rs1, rs2 := TinyRiscv.Reg(Rd(inst)), TinyRiscv.Reg(Rs1(inst)), TinyRiscv.Reg(Rs2(inst));
    if Opcode(inst) == 0x03 then
      Units.WriteBack(regs, rd, LoadResult(funct3, mem, TinyRiscv.LoadAddress(inst, regs)))
    else if Opcode(inst) == 0x33 then
      Units.WriteBack(regs, rd, RResult(funct3, funct7, regs[rs1], regs[rs2]))
    else
      regs
  }

  /** `step`: fetch at the pc, advance the pc by 4, zero `regs[0]`, execute. */
  function Next(s: CpuState): (r: CpuState)
    requires CanStep(s)
  {
    var inst := Load32(s.mem, s.pc);
    CpuState(Execute(inst, s.regs[0 := 0], s.mem), s.pc + 4, s.mem)
  }

  /** The `Cpu` struct; its buffer is owned by the caller. */
  class Cpu {
    var regs: array<bv32>
    var pc: bv32
    var mem: array<bv8>

    predicate Valid()
      reads this
    {
      regs.Length == 32
    }

    function State(): (r: CpuState)
      reads this, regs, mem
    {
      CpuState(regs[..], pc, mem[..])
    }

    /** `step`. */
    method Step()
      requires Valid() && CanStep(State())
      modifies this, regs
      ensures Valid() && regs == old(regs) && mem == old(mem)
      ensures State() == Next(old(State()))
    {
      ghost var s0 := State();
      var inst := Load32(mem[..], pc);
      pc := pc + 4;
      regs[0] := 0;
      assert regs[..] == s0.regs[0 := 0];
      Dispatch(inst);
    }

    /** The `switch` of `step` on the opcode of `inst`. */
    method Dispatch(inst: bv32)
      requires Valid() && AccessDefined(inst, regs[..], mem.Length)
      modifies regs
      ensures regs[..] == Execute(inst, old(regs[..]), mem[..])
    {
      var opcode := Opcode(inst);
      if opcode == 0x03 {
        ExecuteLoad(inst, regs[..], mem[..]);
        LType(Narrow8(Funct3(inst)), regs, TinyRiscv.Reg(Rd(inst)), mem, TinyRiscv.Reg(Rs1(inst)), Narrow16(ImmI(inst)));
      } else if opcode == 0x33 {
        ExecuteRegister(inst, regs[..], mem[..]);
        RType(Narrow8(Funct3(inst)), Narrow8(Funct7(inst)), regs, TinyRiscv.Reg(Rd(inst)), TinyRiscv.Reg(Rs1(inst)), TinyRiscv.Reg(Rs2(inst)));
      }
    }
  }

  lemma ExecuteLoad(inst: bv32, regs: seq<bv32>, mem: seq<bv8>)
    requires |regs| == 32 && AccessDefined(inst, regs, |mem|) && Opcode(inst) == 0x03
    ensures Execute(inst, regs, mem) ==
      Units.WriteBack(regs, TinyRiscv.Reg(Rd(inst)), LoadResult(Narrow8(Funct3(inst)), mem, Units.Address(regs[TinyRiscv.Reg(Rs1(inst))], Narrow16(ImmI(inst)))))
  {
  }

  lemma ExecuteRegister(inst: bv32, regs: seq<bv32>, mem: seq<bv8>)
    requires |regs| == 32 && AccessDefined(inst, regs, |mem|) && Opcode(inst) == 0x33
    ensures Execute(inst, regs, mem) ==
      Units.WriteBack(regs, TinyRiscv.Reg(Rd(inst)), RResult(Narrow8(Funct3(inst)), Narrow8(Funct7(inst)), regs[TinyRiscv.Reg(Rs1(inst))], regs[TinyRiscv.Reg(Rs2(inst))]))
  {
  }
}

module DraftProperties {
  import opened Wrappers
  import opened Bits
  import opened Memory
  import opened Decode
  import Units
  import TinyRiscv
  import opened Draft

  /**
   * For funct3 0 (ADD/SUB) and 5 (SRL/SRA) the draft's nested test on funct7
   * and the header's combined key select the same operation for every funct7:
   * 0x00 and 0x20 only, nothing for any other value.
   */
  lemma RResultAgreesOnAddAndShiftRight(funct3: bv8, funct7: bv8, a: bv32, b: bv32)
    requires funct3 == 0 || funct3 == 5
    ensures RResult(funct3, funct7, a, b) == Units.RResult(funct3, funct7, a, b)
    ensures RResult(funct3, funct7, a, b).Some? <==> funct7 == 0x00 || funct7 == 0x20
  {
    Units.RKeyFields(funct3, funct7);
  }

  /**
   * Every other funct3 ignores funct7 in the draft, and agrees with the
   * header's operation for funct7 0; the header writes nothing for any
   * nonzero funct7 there.
   */
  lemma RResultIgnoresFunct7(funct3: bv8, funct7: bv8, a: bv32, b: bv32)
    requires funct3 < 8 && funct3 != 0 && funct3 != 5
    ensures RResult(funct3, funct7, a, b) == RResult(funct3, 0, a, b) == Units.RResult(funct3, 0, a, b)
    ensures RResult(funct3, funct7, a, b).Some?
    ensures funct7 != 0 ==> Units.RResult(funct3, funct7, a, b).None?
  {
    Units.RKeyFields(funct3, funct7);
    Units.RKeys();
  }

  /**
   * LB, LH and LW load what the header's unit loads; LBU and LHU read the
   * same bytes but write nothing, where the header zero-extends them.
   */
  lemma LoadResultAgainstHeader(funct3: bv8, mem: seq<bv8>, addr: bv32)
    requires Units.LoadDefined(funct3, |mem|, addr)
    ensures funct3 < 3 ==> LoadResult(funct3, mem, addr) == Units.LoadResult(funct3, mem, addr)
    ensures funct3 >= 3 ==> LoadResult(funct3, mem, addr).None?
    ensures funct3 == 4 || funct3 == 5 ==> Units.LoadResult(funct3, mem, addr).Some?
  {
  }

  /** A step advances the pc by 4 and never writes memory. */
  lemma NextAdvancesAndKeepsMemory(s: CpuState)
    requires CanStep(s)
    ensures Next(s).pc == s.pc + 4 && Next(s).mem == s.mem && |Next(s).regs| == 32
  {
  }

  /** Only loads and register-register operations write registers; any other opcode only zeroes `regs[0]`. */
  lemma NextOnlyLoadsAndOps(s: CpuState)
    requires CanStep(s)
    requires Opcode(Load32(s.mem, s.pc)) != 0x03 && Opcode(Load32(s.mem, s.pc)) != 0x33
    ensures Next(s).regs == s.regs[0 := 0]
  {
  }

  /** A step writes at most `regs[rd]`: every other register ends as the zeroed registers hold it. */
  lemma NextWritesOnlyRd(s: CpuState, i: int)
    requires CanStep(s) && 0 <= i < 32 && i != TinyRiscv.Reg(Rd(Load32(s.mem, s.pc))) as int
    ensures Next(s).regs[i] == s.regs[0 := 0][i]
  {
    var inst := Load32(s.mem, s.pc);
    var regs := s.regs[0 := 0];
    if Opcode(inst) == 0x03 {
      ExecuteLoad(inst, regs, s.mem);
    } else if Opcode(inst) == 0x33 {
      ExecuteRegister(inst, regs, s.mem);
    }
  }

  /**
   * A register-register instruction whose funct3 is 0 or 5, or whose funct7
   * is 0, does to the registers in the draft what the header's `switch` does.
   */
  lemma RegisterOpMatchesHeader(inst: bv32, regs: seq<bv32>, pc: bv32, memSize: bv32, mem: seq<bv8>)
    requires |regs| == 32 && Opcode(inst) == 0x33
    requires Funct3(inst) == 0 || Funct3(inst) == 5 || Funct7(inst) == 0
    ensures AccessDefined(inst, regs, |mem|) && TinyRiscv.AccessDefined(inst, regs, |mem|)
    ensures TinyRiscv.Execute(inst, regs, pc, memSize, mem) == TinyRiscv.HartState(Execute(inst, regs, mem), pc, memSize, mem)
  {
    var funct3, funct7 := Narrow8(Funct3(inst)), Narrow8(Funct7(inst));
    var a, b := regs[TinyRiscv.Reg(Rs1(inst))], regs[TinyRiscv.Reg(Rs2(inst))];
    TinyRiscv.ExecuteRegister(inst, regs, pc, memSize, mem);
    ExecuteRegister(inst, regs, mem);
    if funct3 == 0 || funct3 == 5 {
      RResultAgreesOnAddAndShiftRight(funct3, funct7, a, b);
    } else {
      RResultIgnoresFunct7(funct3, funct7, a, b);
    }
  }

  /** LB, LH and LW in the draft do to the registers what the header's `switch` does. */
  lemma SignedLoadMatchesHeader(inst: bv32, regs: seq<bv32>, pc: bv32, memSize: bv32, mem: seq<bv8>)
    requires |regs| == 32 && Opcode(inst) == 0x03 && Funct3(inst) < 3
    requires TinyRiscv.AccessDefined(inst, regs, |mem|)
    ensures AccessDefined(inst, regs, |mem|)
    ensures TinyRiscv.Execute(inst, regs, pc, memSize, mem) == TinyRiscv.HartState(Execute(inst, regs, mem), pc, memSize, mem)
  {
    TinyRiscv.ExecuteLoad(inst, regs, pc, memSize, mem);
    ExecuteLoad(inst, regs, mem);
    LoadResultAgainstHeader(Narrow8(Funct3(inst)), mem, TinyRiscv.LoadAddress(inst, regs));
  }
}
