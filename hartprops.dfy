/**
 * What one `tinyriscv_step` does to the hart, stated against the state
 * before the step: the pc of the instruction itself, not the pc already
 * advanced past it, and the immediates as the instruction format defines
 * them, not as narrowed to the `i16` parameters of the units.
 */
module HartProperties {
  import opened Wrappers
  import opened Bits
  import opened Memory
  import opened Decode
  import opened Units
  import opened TinyRiscv

  /** The registers the `switch` starts from: `x[0]` zeroed, every other register as before. */
  function Zeroed(s: HartState): (r: seq<bv32>)
    requires WellFormed(s)
  {
    s.x[0 := 0]
  }

  /** The I immediate fits the `i16` parameter of the units: narrowing and widening again loses nothing. */
  lemma ImmIFits(inst: bv32)
    ensures Sext16(Narrow16(ImmI(inst))) == ImmI(inst)
  {
    SignExtendedFrom11(ImmI(inst));
    NarrowSext16(ImmI(inst));
  }

  /** So does the S immediate. */
  lemma ImmSFits(inst: bv32)
    ensures Sext16(Narrow16(ImmS(inst))) == ImmS(inst)
  {
    SignExtendedFrom11(ImmS(inst));
    NarrowSext16(ImmS(inst));
  }

  /** And the B immediate. */
  lemma ImmBFits(inst: bv32)
    ensures Sext16(Narrow16(ImmB(inst))) == ImmB(inst)
  {
    SignExtendedFrom12(ImmB(inst));
    NarrowSext16(ImmB(inst));
  }

  /** A load addresses `x[rs1]` plus the I immediate as the format defines it. */
  lemma LoadAddressUsesImmI(inst: bv32, x: seq<bv32>)
    requires |x| == 32
    ensures LoadAddress(inst, x) == x[Reg(Rs1(inst))] + ImmI(inst)
  {
    ImmIFits(inst);
  }

  /** A store addresses `x[rs1]` plus the S immediate as the format defines it. */
  lemma StoreAddressUsesImmS(inst: bv32, x: seq<bv32>)
    requires |x| == 32
    ensures StoreAddress(inst, x) == x[Reg(Rs1(inst))] + ImmS(inst)
  {
    ImmSFits(inst);
  }

  /** With the pc already 4 past the instruction at `pc`, AUIPC adds the upper immediate to `pc`. */
  lemma UpperPcFromInstruction(pc: bv32, inst: bv32)
    ensures UpperPc(pc + 4, inst) == pc + ImmU(inst)
  {
    assert UpperPc(pc + 4, inst) == pc + 4 - 4 + ImmU(inst);
    PlusFourMinusFour(pc, ImmU(inst));
  }

  /** With the pc already 4 past the instruction at `pc`, JAL lands `imm_j` from `pc`. */
  lemma JumpTargetFromInstruction(pc: bv32, inst: bv32)
    ensures JumpTarget(pc + 4, inst) == pc + ImmJ(inst)
  {
    assert JumpTarget(pc + 4, inst) == pc + 4 + (ImmJ(inst) - 4);
    PlusFourMinusFour(pc, ImmJ(inst));
  }

  /** JALR's target: `base + imm_i` with bit 0 cleared, so always even. */
  lemma JumpRegisterTargetEven(base: bv32, inst: bv32)
    ensures JumpRegisterTarget(base, inst) == (base + ImmI(inst)) & 0xFFFF_FFFE
    ensures JumpRegisterTarget(base, inst) & 1 == 0
  {
  }

  /**
   * With the pc already 4 past the branch at `pc` and `imm_b` narrowed to
   * `i16`, a taken branch lands `imm_b` from `pc` and an untaken one at `pc + 4`.
   */
  lemma BranchFromInstruction(funct3: bv8, a: bv32, b: bv32, pc: bv32, inst: bv32)
    ensures BranchPc(funct3, a, b, pc + 4, Narrow16(ImmB(inst))) ==
      if BranchTaken(funct3, a, b) then pc + ImmB(inst) else pc + 4
  {
    var imm := Narrow16(ImmB(inst));
    assert BranchPc(funct3, a, b, pc + 4, imm) == if BranchTaken(funct3, a, b) then pc + 4 + (Sext16(imm) - 4) else pc + 4;
    ImmBFits(inst);
    PlusFourMinusFour(pc, ImmB(inst));
  }

  /** Whatever the opcode, the `switch` keeps the buffer's size, and only opcode 0x23 changes its contents. */
  lemma ExecuteKeepsMemory(inst: bv32, x: seq<bv32>, pc: bv32, memSize: bv32, mem: seq<bv8>)
    requires |x| == 32 && AccessDefined(inst, x, |mem|)
    ensures var t := Execute(inst, x, pc, memSize, mem);
      |t.x| == 32 && |t.mem| == |mem| && t.memSize == memSize
    ensures Opcode(inst) != 0x23 ==> Execute(inst, x, pc, memSize, mem).mem == mem
  {
    var o := Opcode(inst);
    if o == 0x37 {
      ExecuteUpper(inst, x, pc, memSize, mem);
    } else if o == 0x17 {
      ExecuteUpperPc(inst, x, pc, memSize, mem);
    } else if o == 0x6f {
      ExecuteJump(inst, x, pc, memSize, mem);
    } else if o == 0x67 {
      ExecuteJumpRegister(inst, x, pc, memSize, mem);
    } else if o == 0x63 {
      ExecuteBranch(inst, x, pc, memSize, mem);
    } else if o == 0x03 {
      ExecuteLoad(inst, x, pc, memSize, mem);
    } else if o == 0x23 {
      ExecuteStore(inst, x, pc, memSize, mem);
    } else if o == 0x13 {
      ExecuteImmediate(inst, x, pc, memSize, mem);
    } else if o == 0x33 {
      ExecuteRegister(inst, x, pc, memSize, mem);
    } else {
      ExecuteOther(inst, x, pc, memSize, mem);
    }
  }

  /** The `switch` writes at most `x[rd]`. */
  lemma ExecuteWritesOnlyRd(inst: bv32, x: seq<bv32>, pc: bv32, memSize: bv32, mem: seq<bv8>, i: int)
    requires |x| == 32 && AccessDefined(inst, x, |mem|)
    requires 0 <= i < 32 && i != Reg(Rd(inst)) as int
    ensures Execute(inst, x, pc, memSize, mem).x[i] == x[i]
  {
    var o := Opcode(inst);
    if o == 0x37 {
      ExecuteUpper(inst, x, pc, memSize, mem);
    } else if o == 0x17 {
      ExecuteUpperPc(inst, x, pc, memSize, mem);
    } else if o == 0x6f {
      ExecuteJump(inst, x, pc, memSize, mem);
    } else if o == 0x67 {
      ExecuteJumpRegister(inst, x, pc, memSize, mem);
    } else if o == 0x63 {
      ExecuteBranch(inst, x, pc, memSize, mem);
    } else if o == 0x03 {
      ExecuteLoad(inst, x, pc, memSize, mem);
    } else if o == 0x23 {
      ExecuteStore(inst, x, pc, memSize, mem);
    } else if o == 0x13 {
      ExecuteImmediate(inst, x, pc, memSize, mem);
    } else if o == 0x33 {
      ExecuteRegister(inst, x, pc, memSize, mem);
    } else {
      ExecuteOther(inst, x, pc, memSize, mem);
    }
  }

  /** The register `x[0]` holds before a step is never read: the step ends the same whatever it held. */
  lemma StepIgnoresX0(s: HartState, v: bv32)
    requires CanStep(s)
    ensures CanStep(s.(x := s.x[0 := v]))
    ensures Next(s.(x := s.x[0 := v])) == Next(s)
  {
    assert s.x[0 := v][0 := 0] == s.x[0 := 0];
  }

  /** The buffer keeps its size, and only a store (opcode 0x23) changes its contents. */
  lemma StepKeepsMemory(s: HartState)
    requires CanStep(s)
    ensures WellFormed(Next(s)) && Next(s).memSize == s.memSize
    ensures Opcode(Fetch(s)) != 0x23 ==> Next(s).mem == s.mem
  {
    ExecuteKeepsMemory(Fetch(s), Zeroed(s), s.pc + 4, s.memSize, s.mem);
  }

  /** A step writes at most `x[rd]`: every other register ends as the zeroed registers hold it. */
  lemma StepWritesOnlyRd(s: HartState, i: int)
    requires CanStep(s) && 0 <= i < 32 && i != Reg(Rd(Fetch(s))) as int
    ensures Next(s).x[i] == Zeroed(s)[i]
  {
    ExecuteWritesOnlyRd(Fetch(s), Zeroed(s), s.pc + 4, s.memSize, s.mem, i);
  }

  /**
   * An opcode the `switch` does not name (FENCE and SYSTEM among them) only
   * advances the pc and zeroes `x[0]`.
   */
  lemma UnknownOpcodeSkips(s: HartState)
    requires CanStep(s)
    requires Opcode(Fetch(s)) !in [0x37, 0x17, 0x6f, 0x67, 0x63, 0x03, 0x23, 0x13, 0x33]
    ensures Next(s) == s.(x := Zeroed(s), pc := s.pc + 4)
  {
    ExecuteOther(Fetch(s), Zeroed(s), s.pc + 4, s.memSize, s.mem);
  }

  /** LUI writes the instruction's upper 20 bits, low 12 bits clear, and moves on. */
  lemma LuiStep(s: HartState)
    requires CanStep(s) && Opcode(Fetch(s)) == 0x37
    ensures Next(s) == s.(x := Zeroed(s)[Reg(Rd(Fetch(s))) := ImmU(Fetch(s))], pc := s.pc + 4)
  {
    ExecuteUpper(Fetch(s), Zeroed(s), s.pc + 4, s.memSize, s.mem);
  }

  /** AUIPC adds the upper immediate to the address of the AUIPC itself. */
  lemma AuipcStep(s: HartState)
    requires CanStep(s) && Opcode(Fetch(s)) == 0x17
    ensures Next(s) == s.(x := Zeroed(s)[Reg(Rd(Fetch(s))) := s.pc + ImmU(Fetch(s))], pc := s.pc + 4)
  {
    ExecuteUpperPc(Fetch(s), Zeroed(s), s.pc + 4, s.memSize, s.mem);
    UpperPcFromInstruction(s.pc, Fetch(s));
  }

  /** JAL links the address of the next instruction and jumps `imm_j` from its own address. */
  lemma JalStep(s: HartState)
    requires CanStep(s) && Opcode(Fetch(s)) == 0x6f
    ensures Next(s) == s.(x := Zeroed(s)[Reg(Rd(Fetch(s))) := s.pc + 4], pc := s.pc + ImmJ(Fetch(s)))
  {
    ExecuteJump(Fetch(s), Zeroed(s), s.pc + 4, s.memSize, s.mem);
    JumpTargetFromInstruction(s.pc, Fetch(s));
  }

  /**
   * JALR jumps to `x[rs1] + imm_i` with bit 0 cleared, reading `x[rs1]` before
   * it links, so `rd == rs1` still jumps through the old value.
   */
  lemma JalrStep(s: HartState)
    requires CanStep(s) && Opcode(Fetch(s)) == 0x67
    ensures Next(s) == s.(x := Zeroed(s)[Reg(Rd(Fetch(s))) := s.pc + 4],
                          pc := JumpRegisterTarget(Zeroed(s)[Reg(Rs1(Fetch(s)))], Fetch(s)))
  {
    ExecuteJumpRegister(Fetch(s), Zeroed(s), s.pc + 4, s.memSize, s.mem);
  }

  /** JALR always lands on an even address. */
  lemma JalrLandsEven(s: HartState)
    requires CanStep(s) && Opcode(Fetch(s)) == 0x67
    ensures Next(s).pc & 1 == 0
  {
    ExecuteJumpRegister(Fetch(s), Zeroed(s), s.pc + 4, s.memSize, s.mem);
    JumpRegisterTargetEven(Zeroed(s)[Reg(Rs1(Fetch(s)))], Fetch(s));
  }

  /*
   * Branches, loads and stores are stated for the `switch` itself, on the
   * instruction `inst` fetched at `pc`, the registers `x` it starts from and
   * the pc already advanced to `pc + 4`: the step runs exactly that `switch`
   * on `Fetch(s)`, `Zeroed(s)` and `s.pc + 4`.
   */

  /**
   * A conditional branch writes no register and no memory; taken, it moves
   * `imm_b` from its own address, otherwise to the next instruction.
   */
  lemma BranchExecutes(inst: bv32, x: seq<bv32>, pc: bv32, memSize: bv32, mem: seq<bv8>)
    requires |x| == 32 && AccessDefined(inst, x, |mem|) && Opcode(inst) == 0x63
    ensures Execute(inst, x, pc + 4, memSize, mem) ==
      HartState(x, if BranchTaken(Narrow8(Funct3(inst)), x[Reg(Rs1(inst))], x[Reg(Rs2(inst))]) then pc + ImmB(inst) else pc + 4, memSize, mem)
  {
    ExecuteBranch(inst, x, pc + 4, memSize, mem);
    BranchFromInstruction(Narrow8(Funct3(inst)), x[Reg(Rs1(inst))], x[Reg(Rs2(inst))], pc, inst);
  }

  /** A load reads at `x[rs1] + imm_i`, writes at most `x[rd]` and leaves memory alone. */
  lemma LoadExecutes(inst: bv32, x: seq<bv32>, pc: bv32, memSize: bv32, mem: seq<bv8>)
    requires |x| == 32 && AccessDefined(inst, x, |mem|) && Opcode(inst) == 0x03
    ensures LoadDefined(Narrow8(Funct3(inst)), |mem|, x[Reg(Rs1(inst))] + ImmI(inst))
    ensures Execute(inst, x, pc, memSize, mem) ==
      HartState(WriteBack(x, Reg(Rd(inst)), LoadResult(Narrow8(Funct3(inst)), mem, x[Reg(Rs1(inst))] + ImmI(inst))), pc, memSize, mem)
  {
    ExecuteLoad(inst, x, pc, memSize, mem);
    LoadAddressUsesImmI(inst, x);
  }

  /** A store writes `x[rs2]` at `x[rs1] + imm_s` and no register. */
  lemma StoreExecutes(inst: bv32, x: seq<bv32>, pc: bv32, memSize: bv32, mem: seq<bv8>)
    requires |x| == 32 && AccessDefined(inst, x, |mem|) && Opcode(inst) == 0x23
    ensures StoreDefined(Narrow8(Funct3(inst)), |mem|, x[Reg(Rs1(inst))] + ImmS(inst))
    ensures Execute(inst, x, pc, memSize, mem) ==
      HartState(x, pc, memSize, StoreResult(Narrow8(Funct3(inst)), mem, x[Reg(Rs1(inst))] + ImmS(inst), x[Reg(Rs2(inst))]))
  {
    ExecuteStore(inst, x, pc, memSize, mem);
    StoreAddressUsesImmS(inst, x);
  }

  /** A register-immediate operation: `IResult` with the sign-extended `imm_i` and the rs2 field as shift amount. */
  lemma OpImmStep(s: HartState)
    requires CanStep(s) && Opcode(Fetch(s)) == 0x13
    ensures var inst, x := Fetch(s), Zeroed(s);
      Next(s) == s.(x := WriteBack(x, Reg(Rd(inst)), IResult(Narrow8(Funct3(inst)), Narrow8(Funct7(inst)), x[Reg(Rs1(inst))], Narrow16(ImmI(inst)), Reg(Rs2(inst)))), pc := s.pc + 4)
  {
    ExecuteImmediate(Fetch(s), Zeroed(s), s.pc + 4, s.memSize, s.mem);
  }

  /** A register-register operation: `RResult` of `x[rs1]` and `x[rs2]`. */
  lemma OpStep(s: HartState)
    requires CanStep(s) && Opcode(Fetch(s)) == 0x33
    ensures var inst, x := Fetch(s), Zeroed(s);
      Next(s) == s.(x := WriteBack(x, Reg(Rd(inst)), RResult(Narrow8(Funct3(inst)), Narrow8(Funct7(inst)), x[Reg(Rs1(inst))], x[Reg(Rs2(inst))])), pc := s.pc + 4)
  {
    ExecuteRegister(Fetch(s), Zeroed(s), s.pc + 4, s.memSize, s.mem);
  }
}
