/**
 * Small programs in the buffer: what one or two `tinyriscv_step`s do with
 * particular instruction words, read from memory little-endian and decoded
 * by the field macros.
 */
module Programs {
  import opened Wrappers
  import opened Bits
  import opened Memory
  import opened Decode
  import opened Units
  import opened TinyRiscv
  import opened HartProperties

  /** Any word with opcode 0x13 and funct3 0 is an ADDI: `x[rd] := x[rs1] + imm_i`, with nothing else changed. */
  lemma AddiByFields(inst: bv32, x: seq<bv32>, pc: bv32, memSize: bv32, mem: seq<bv8>)
    requires Opcode(inst) == 0x13 && Funct3(inst) == 0 && |x| == 32
    ensures AccessDefined(inst, x, |mem|)
    ensures Execute(inst, x, pc, memSize, mem) == HartState(x[Reg(Rd(inst)) := x[Reg(Rs1(inst))] + ImmI(inst)], pc, memSize, mem)
  {
    ExecuteImmediate(inst, x, pc, memSize, mem);
    ImmIFits(inst);
  }

  /**
   * `addi x1, x0, 5` (the word 0x00500093, bytes 93 00 50 00) at the first
   * address of the buffer: whatever `x[0]` held, `x[1]` becomes 5 and the pc
   * moves to the next word.
   */
  lemma AddiAtBase(s: HartState)
    requires WellFormed(s) && s.pc == Base && |s.mem| >= 4
    requires s.mem[0] == 0x93 && s.mem[1] == 0x00 && s.mem[2] == 0x50 && s.mem[3] == 0x00
    ensures CanStep(s) && Fetch(s) == 0x0050_0093
    ensures Next(s).x[1] == 5 && Next(s).pc == Base + 4
  {
    assert Offset(Base) == 0;
    assert Fetch(s) == Word(0x93, 0x00, 0x50, 0x00);
    AddiByFields(Fetch(s), Zeroed(s), s.pc + 4, s.memSize, s.mem);
  }

  /**
   * `addi x0, x0, 5` (the word 0x00500013): `x[0]` is zeroed before the
   * `switch` but not after it, so the step leaves 5 in `x[0]`.
   */
  lemma AddiWritesX0(s: HartState)
    requires WellFormed(s) && s.pc == Base && |s.mem| >= 4
    requires s.mem[0] == 0x13 && s.mem[1] == 0x00 && s.mem[2] == 0x50 && s.mem[3] == 0x00
    ensures CanStep(s) && Fetch(s) == 0x0050_0013
    ensures Next(s).x[0] == 5
  {
    assert Offset(Base) == 0;
    assert Fetch(s) == Word(0x13, 0x00, 0x50, 0x00);
    AddiByFields(Fetch(s), Zeroed(s), s.pc + 4, s.memSize, s.mem);
  }

  /**
   * An SW followed by an LW of the same address, with the registers the
   * store leaves: the load reads back the stored register.
   */
  lemma StoreThenLoadWord(st: bv32, ld: bv32, x: seq<bv32>, pc: bv32, memSize: bv32, mem: seq<bv8>)
    requires |x| == 32 && Opcode(st) == 0x23 && Funct3(st) == 2 && Opcode(ld) == 0x03 && Funct3(ld) == 2
    requires x[Reg(Rs1(ld))] + ImmI(ld) == x[Reg(Rs1(st))] + ImmS(st)
    requires InBounds(|mem|, x[Reg(Rs1(st))] + ImmS(st), 4)
    ensures AccessDefined(st, x, |mem|)
    ensures var t := Execute(st, x, pc, memSize, mem);
      |t.x| == 32 && AccessDefined(ld, t.x, |t.mem|) &&
      Execute(ld, t.x, t.pc, t.memSize, t.mem).x[Reg(Rd(ld))] == x[Reg(Rs2(st))]
  {
    var addr := x[Reg(Rs1(st))] + ImmS(st);
    StoreAddressUsesImmS(st, x);
    StoreExecutes(st, x, pc, memSize, mem);
    var m := StoreResult(2, mem, addr, x[Reg(Rs2(st))]);
    LoadAddressUsesImmI(ld, x);
    LoadExecutes(ld, x, pc, memSize, m);
    StoreWordThenLoad(mem, addr, x[Reg(Rs2(st))]);
  }
}
