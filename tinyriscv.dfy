/**
 * The hart of `src/tinyriscv.h`: 32 registers, a pc and a byte buffer of
 * `memSize` bytes mapped at `Base`. `tinyriscv_init` points the pc at the
 * first byte and `x[2]` (sp) one past the last, `tinyriscv_valid_step`
 * says whether the driver should go on, and `tinyriscv_step` fetches,
 * decodes and executes one instruction.
 *
 * `HartState` is the value of the struct and `Next` the pure meaning of one
 * step; the class `Hart` holds the struct's fields and its `Step` updates
 * them in place, proved to reach `Next` of the state before.
 */
module TinyRiscv {
  import opened Wrappers
  import opened Bits
  import opened Memory
  import opened Decode
  import opened Units

  /** The value of a `tinyriscv_hart`. */
  datatype HartState = HartState(x: seq<bv32>, pc: bv32, memSize: bv32, mem: seq<bv8>)

  /** 32 registers, and a buffer of exactly `memSize` bytes. */
  predicate WellFormed(s: HartState)
  {
    |s.x| == 32 && |s.mem| == Unsigned(s.memSize)
  }

  /** The instruction word at the pc, read little-endian like every other word. */
  function Fetch(s: HartState): (r: bv32)
    requires InBounds(|s.mem|, s.pc, 4)
  {
    Load32(s.mem, s.pc)
  }

  /** A register field as the `u8` the units take. */
  function Reg(field: bv32): (r: bv8)
    requires field < 32
    ensures r < 32 && r as int < 32
  {
    Narrow8(field)
  }

  /** The address a load computes from `x[rs1]` and `imm_i`, after the C narrowing to `i16`. */
  function LoadAddress(inst: bv32, x: seq<bv32>): (r: bv32)
    requires |x| == 32
  {
    Address(x[Reg(Rs1(inst))], Narrow16(ImmI(inst)))
  }

  /** The address a store computes from `x[rs1]` and `imm_s`. */
  function StoreAddress(inst: bv32, x: seq<bv32>): (r: bv32)
    requires |x| == 32
  {
    Address(x[Reg(Rs1(inst))], Narrow16(ImmS(inst)))
  }

  /** Loads and stores touch only the buffer; C leaves every other access undefined. */
  predicate AccessDefined(inst: bv32, x: seq<bv32>, size: int)
    requires |x| == 32
  {
    (Opcode(inst) == 0x03 ==> LoadDefined(Narrow8(Funct3(inst)), size, LoadAddress(inst, x))) &&
    (Opcode(inst) == 0x23 ==> StoreDefined(Narrow8(Funct3(inst)), size, StoreAddress(inst, x)))
  }

  /** `tinyriscv_step` is defined on `s`: the fetch and the data access stay inside the buffer. */
  predicate CanStep(s: HartState)
  {
    WellFormed(s) && InBounds(|s.mem|, s.pc, 4) && AccessDefined(Fetch(s), s.x[0 := 0], |s.mem|)
  }

  /** AUIPC's result: the address of the instruction (`pc` is already past it) plus the upper immediate. */
  function UpperPc(pc: bv32, inst: bv32): (r: bv32)
  {
    pc - 4 + ImmU(inst)
  }

  /** JAL's target: `imm_j` from the address of the instruction. */
  function JumpTarget(pc: bv32, inst: bv32): (r: bv32)
  {
    pc + (ImmJ(inst) - 4)
  }

  /** JALR's target: `x[rs1] + imm_i` with bit 0 cleared. */
  function JumpRegisterTarget(base: bv32, inst: bv32): (r: bv32)
  {
    (base + ImmI(inst)) & 0xFFFF_FFFE
  }

  /**
   * What the `switch` of `tinyriscv_step` does with `inst`, given the
   * registers after `x[0]` was zeroed and the pc already advanced past the
   * instruction. Opcodes it does not name, FENCE and SYSTEM among them,
   * change nothing.
   */
  function Execute(inst: bv32, x: seq<bv32>, pc: bv32, memSize: bv32, mem: seq<bv8>): (r: HartState)
    requires |x| == 32 && AccessDefined(inst, x, |mem|)
  {
    var opcode := Opcode(inst);
    var funct3, funct7 := Narrow8(Funct3(inst)), Narrow8(Funct7(inst));
    var rd, rs1, rs2 := Reg(Rd(inst)), Reg(Rs1(inst)), Reg(Rs2(inst));
    if opcode == 0x37 then
      HartState(x[rd := ImmU(inst)], pc, memSize, mem)
    else if opcode == 0x17 then
      HartState(x[rd := UpperPc(pc, inst)], pc, memSize, mem)
    else if opcode == 0x6f then
      HartState(x[rd := pc], JumpTarget(pc, inst), memSize, mem)
    else if opcode == 0x67 then
      HartState(x[rd := pc], JumpRegisterTarget(x[rs1], inst), memSize, mem)
    else if opcode == 0x63 then
      HartState(x, BranchPc(funct3, x[rs1], x[rs2], pc, Narrow16(ImmB(inst))), memSize, mem)
    else if opcode == 0x03 then
      HartState(WriteBack(x, rd, LoadResult(funct3, mem, LoadAddress(inst, x))), pc, memSize, mem)
    else if opcode == 0x23 then
      HartState(x, pc, memSize, StoreResult(funct3, mem, StoreAddress(inst, x), x[rs2]))
    else if opcode == 0x13 then
      HartState(WriteBack(x, rd, IResult(funct3, funct7, x[rs1], Narrow16(ImmI(inst)), rs2)), pc, memSize, mem)
    else if opcode == 0x33 then
      HartState(WriteBack(x, rd, RResult(funct3, funct7, x[rs1], x[rs2])), pc, memSize, mem)
    else
      HartState(x, pc, memSize, mem)
  }

  /** `tinyriscv_step`: fetch at the pc, advance the pc by 4, zero `x[0]`, execute. */
  function Next(s: HartState): (r: HartState)
    requires CanStep(s)
  {
    Execute(Fetch(s), s.x[0 := 0], s.pc + 4, s.memSize, s.mem)
  }

  /** `tinyriscv_valid_step` with the bound test first: the word at the pc lies in the buffer and is not zero. */
  predicate Runnable(s: HartState)
  {
    InBounds(|s.mem|, s.pc, 4) && Fetch(s) != 0
  }

  /** The hart struct; the driver owns the buffer and sets `mem` and `memSize`. */
  class Hart {
    var x: array<bv32>
    var pc: bv32
    var memSize: bv32
    var mem: array<bv8>

    /** 32 registers, and a buffer of `memSize` bytes. */
    predicate Valid()
      reads this
    {
      x.Length == 32 && mem.Length == Unsigned(memSize)
    }

    /** The value of the struct. */
    function State(): (r: HartState)
      reads this, x, mem
    {
      HartState(x[..], pc, memSize, mem[..])
    }

    /** The driver's zero-filled struct, with its buffer attached. */
    constructor (buffer: array<bv8>, size: bv32)
      requires buffer.Length == Unsigned(size)
      ensures Valid() && fresh(x)
      ensures State() == HartState(seq(32, _ => 0), 0, size, buffer[..])
    {
      x := new bv32[32](_ => 0);
      pc := 0;
      memSize := size;
      mem := buffer;
    }

    /** `tinyriscv_init`: the pc at the first byte of memory, `x[2]` (sp) one past the last. */
    method Init()
      requires Valid()
      modifies this, x
      ensures Valid() && x == old(x) && mem == old(mem)
      ensures State() == old(State()).(x := old(x[..])[2 := Base + memSize], pc := Base)
    {
      x[2] := Base + memSize;
      pc := Base;
    }

    /** `tinyriscv_valid_step`, with the bound test before the fetch. */
    method ValidStep() returns (ok: bool)
      requires Valid()
      ensures ok == Runnable(State())
    {
      if !InBounds(mem.Length, pc, 4) {
        return false;
      }
      ok := Load32(mem[..], pc) != 0;
    }

    /** `tinyriscv_step`: fetch, advance the pc, zero `x[0]`, then the `switch`. */
    method Step()
      requires Valid() && CanStep(State())
      modifies this, x, mem
      ensures Valid() && x == old(x) && mem == old(mem)
      ensures State() == Next(old(State()))
    {
      ghost var s0 := State();
      var inst := Load32(mem[..], pc);
      pc := pc + 4;
      x[0] := 0;
      assert x[..] == s0.x[0 := 0];
      assert Next(s0) == Execute(inst, x[..], pc, memSize, mem[..]);
      Dispatch(inst);
    }

    /** The `switch` of `tinyriscv_step` on the opcode of `inst`. */
    method Dispatch(inst: bv32)
      requires Valid() && AccessDefined(inst, x[..], mem.Length)
      modifies this, x, mem
      ensures Valid() && x == old(x) && mem == old(mem)
      ensures State() == Execute(inst, old(x[..]), old(pc), old(memSize), old(mem[..]))
    {
      var opcode := Opcode(inst);
      if opcode == 0x37 {
        ExecuteUpper(inst, x[..], pc, memSize, mem[..]);
        Lui(inst);
      } else if opcode == 0x17 {
        ExecuteUpperPc(inst, x[..], pc, memSize, mem[..]);
        Auipc(inst);
      } else if opcode == 0x6f {
        ExecuteJump(inst, x[..], pc, memSize, mem[..]);
        Jal(inst);
      } else if opcode == 0x67 {
        ExecuteJumpRegister(inst, x[..], pc, memSize, mem[..]);
        Jalr(inst);
      } else if opcode == 0x63 {
        ExecuteBranch(inst, x[..], pc, memSize, mem[..]);
        Branch(inst);
      } else if opcode == 0x03 {
        ExecuteLoad(inst, x[..], pc, memSize, mem[..]);
        Load(inst);
      } else if opcode == 0x23 {
        ExecuteStore(inst, x[..], pc, memSize, mem[..]);
        Store(inst);
      } else if opcode == 0x13 {
        ExecuteImmediate(inst, x[..], pc, memSize, mem[..]);
        OpImm(inst);
      } else if opcode == 0x33 {
        ExecuteRegister(inst, x[..], pc, memSize, mem[..]);
        Op(inst);
      } else {
        ExecuteOther(inst, x[..], pc, memSize, mem[..]);
      }
    }

    /** LUI: `x[rd]` gets the upper immediate. */
    method Lui(inst: bv32)
      requires Valid() && AccessDefined(inst, x[..], mem.Length) && Opcode(inst) == 0x37
      modifies this, x, mem
      ensures Valid() && x == old(x) && mem == old(mem)
      ensures State() == HartState(old(x[..])[Reg(Rd(inst)) := ImmU(inst)], old(pc), old(memSize), old(mem[..]))
    {
      x[Reg(Rd(inst))] := ImmU(inst);
    }

    /** AUIPC: `x[rd]` gets the address of the instruction plus the upper immediate. */
    method Auipc(inst: bv32)
      requires Valid() && AccessDefined(inst, x[..], mem.Length) && Opcode(inst) == 0x17
      modifies this, x, mem
      ensures Valid() && x == old(x) && mem == old(mem)
      ensures State() == HartState(old(x[..])[Reg(Rd(inst)) := UpperPc(old(pc), inst)], old(pc), old(memSize), old(mem[..]))
    {
      x[Reg(Rd(inst))] := UpperPc(pc, inst);
    }

    /** JAL: `x[rd]` gets the return address and the pc moves by `imm_j` from the instruction. */
    method Jal(inst: bv32)
      requires Valid() && AccessDefined(inst, x[..], mem.Length) && Opcode(inst) == 0x6f
      modifies this, x, mem
      ensures Valid() && x == old(x) && mem == old(mem)
      ensures State() == HartState(old(x[..])[Reg(Rd(inst)) := old(pc)], JumpTarget(old(pc), inst), old(memSize), old(mem[..]))
    {
      var ret := pc;
      pc := JumpTarget(pc, inst);
      x[Reg(Rd(inst))] := ret;
    }

    /** JALR: the target is computed from `x[rs1]` before `x[rd]` gets the return address. */
    method Jalr(inst: bv32)
      requires Valid() && AccessDefined(inst, x[..], mem.Length) && Opcode(inst) == 0x67
      modifies this, x, mem
      ensures Valid() && x == old(x) && mem == old(mem)
      ensures State() == HartState(old(x[..])[Reg(Rd(inst)) := old(pc)], JumpRegisterTarget(old(x[..])[Reg(Rs1(inst))], inst), old(memSize), old(mem[..]))
    {
      var ret := pc;
      pc := JumpRegisterTarget(x[Reg(Rs1(inst))], inst);
      x[Reg(Rd(inst))] := ret;
    }

    /** Opcode 0x63: `tinyriscv_B_type` with `imm_b` narrowed to `i16`. */
    method Branch(inst: bv32)
      requires Valid() && AccessDefined(inst, x[..], mem.Length) && Opcode(inst) == 0x63
      modifies this, x, mem
      ensures Valid() && x == old(x) && mem == old(mem)
      ensures State() == HartState(old(x[..]), BranchPc(Narrow8(Funct3(inst)), old(x[..])[Reg(Rs1(inst))], old(x[..])[Reg(Rs2(inst))], old(pc), Narrow16(ImmB(inst))), old(memSize), old(mem[..]))
    {
      pc := BType(Narrow8(Funct3(inst)), x, pc, Reg(Rs1(inst)), Reg(Rs2(inst)), Narrow16(ImmB(inst)));
    }

    /** Opcode 0x03: `tinyriscv_L_type` with `imm_i` narrowed to `i16`. */
    method Load(inst: bv32)
      requires Valid() && AccessDefined(inst, x[..], mem.Length) && Opcode(inst) == 0x03
      modifies this, x, mem
      ensures Valid() && x == old(x) && mem == old(mem)
      ensures State() == HartState(WriteBack(old(x[..]), Reg(Rd(inst)), LoadResult(Narrow8(Funct3(inst)), old(mem[..]), LoadAddress(inst, old(x[..])))), old(pc), old(memSize), old(mem[..]))
    {
      LType(Narrow8(Funct3(inst)), x, mem, Reg(Rd(inst)), Reg(Rs1(inst)), Narrow16(ImmI(inst)));
    }

    /** Opcode 0x23: `tinyriscv_S_type` with `imm_s` narrowed to `i16`. */
    method Store(inst: bv32)
      requires Valid() && AccessDefined(inst, x[..], mem.Length) && Opcode(inst) == 0x23
      modifies this, x, mem
      ensures Valid() && x == old(x) && mem == old(mem)
      ensures State() == HartState(old(x[..]), old(pc), old(memSize), StoreResult(Narrow8(Funct3(inst)), old(mem[..]), StoreAddress(inst, old(x[..])), old(x[..])[Reg(Rs2(inst))]))
    {
      SType(Narrow8(Funct3(inst)), x, mem, Reg(Rs1(inst)), Reg(Rs2(inst)), Narrow16(ImmS(inst)));
    }

    /** Opcode 0x13: `tinyriscv_i_type`, with the rs2 field as `shamt`. */
    method OpImm(inst: bv32)
      requires Valid() && AccessDefined(inst, x[..], mem.Length) && Opcode(inst) == 0x13
      modifies this, x, mem
      ensures Valid() && x == old(x) && mem == old(mem)
      ensures State() == HartState(WriteBack(old(x[..]), Reg(Rd(inst)), IResult(Narrow8(Funct3(inst)), Narrow8(Funct7(inst)), old(x[..])[Reg(Rs1(inst))], Narrow16(ImmI(inst)), Reg(Rs2(inst)))), old(pc), old(memSize), old(mem[..]))
    {
      IType(Narrow8(Funct3(inst)), Narrow8(Funct7(inst)), x, Reg(Rd(inst)), Reg(Rs1(inst)), Narrow16(ImmI(inst)), Reg(Rs2(inst)));
    }

    /** Opcode 0x33: `tinyriscv_R_type`. */
    method Op(inst: bv32)
      requires Valid() && AccessDefined(inst, x[..], mem.Length) && Opcode(inst) == 0x33
      modifies this, x, mem
      ensures Valid() && x == old(x) && mem == old(mem)
      ensures State() == HartState(WriteBack(old(x[..]), Reg(Rd(inst)), RResult(Narrow8(Funct3(inst)), Narrow8(Funct7(inst)), old(x[..])[Reg(Rs1(inst))], old(x[..])[Reg(Rs2(inst))])), old(pc), old(memSize), old(mem[..]))
    {
      RType(Narrow8(Funct3(inst)), Narrow8(Funct7(inst)), x, Reg(Rd(inst)), Reg(Rs1(inst)), Reg(Rs2(inst)));
    }
  }

  // One lemma per opcode: what `Execute` does for it.

  lemma ExecuteUpper(inst: bv32, x: seq<bv32>, pc: bv32, memSize: bv32, mem: seq<bv8>)
    requires |x| == 32 && AccessDefined(inst, x, |mem|) && Opcode(inst) == 0x37
    ensures Execute(inst, x, pc, memSize, mem) == HartState(x[Reg(Rd(inst)) := ImmU(inst)], pc, memSize, mem)
  {
  }

  lemma ExecuteUpperPc(inst: bv32, x: seq<bv32>, pc: bv32, memSize: bv32, mem: seq<bv8>)
    requires |x| == 32 && AccessDefined(inst, x, |mem|) && Opcode(inst) == 0x17
    ensures Execute(inst, x, pc, memSize, mem) == HartState(x[Reg(Rd(inst)) := UpperPc(pc, inst)], pc, memSize, mem)
  {
  }

  lemma ExecuteJump(inst: bv32, x: seq<bv32>, pc: bv32, memSize: bv32, mem: seq<bv8>)
    requires |x| == 32 && AccessDefined(inst, x, |mem|) && Opcode(inst) == 0x6f
    ensures Execute(inst, x, pc, memSize, mem) == HartState(x[Reg(Rd(inst)) := pc], JumpTarget(pc, inst), memSize, mem)
  {
  }

  lemma ExecuteJumpRegister(inst: bv32, x: seq<bv32>, pc: bv32, memSize: bv32, mem: seq<bv8>)
    requires |x| == 32 && AccessDefined(inst, x, |mem|) && Opcode(inst) == 0x67
    ensures Execute(inst, x, pc, memSize, mem) ==
      HartState(x[Reg(Rd(inst)) := pc], JumpRegisterTarget(x[Reg(Rs1(inst))], inst), memSize, mem)
  {
  }

  lemma ExecuteBranch(inst: bv32, x: seq<bv32>, pc: bv32, memSize: bv32, mem: seq<bv8>)
    requires |x| == 32 && AccessDefined(inst, x, |mem|) && Opcode(inst) == 0x63
    ensures Execute(inst, x, pc, memSize, mem) ==
      HartState(x, BranchPc(Narrow8(Funct3(inst)), x[Reg(Rs1(inst))], x[Reg(Rs2(inst))], pc, Narrow16(ImmB(inst))), memSize, mem)
  {
  }

  lemma ExecuteLoad(inst: bv32, x: seq<bv32>, pc: bv32, memSize: bv32, mem: seq<bv8>)
    requires |x| == 32 && AccessDefined(inst, x, |mem|) && Opcode(inst) == 0x03
    ensures Execute(inst, x, pc, memSize, mem) ==
      HartState(WriteBack(x, Reg(Rd(inst)), LoadResult(Narrow8(Funct3(inst)), mem, LoadAddress(inst, x))), pc, memSize, mem)
  {
  }

  lemma ExecuteStore(inst: bv32, x: seq<bv32>, pc: bv32, memSize: bv32, mem: seq<bv8>)
    requires |x| == 32 && AccessDefined(inst, x, |mem|) && Opcode(inst) == 0x23
    ensures Execute(inst, x, pc, memSize, mem) ==
      HartState(x, pc, memSize, StoreResult(Narrow8(Funct3(inst)), mem, StoreAddress(inst, x), x[Reg(Rs2(inst))]))
  {
  }

  lemma ExecuteImmediate(inst: bv32, x: seq<bv32>, pc: bv32, memSize: bv32, mem: seq<bv8>)
    requires |x| == 32 && AccessDefined(inst, x, |mem|) && Opcode(inst) == 0x13
    ensures Execute(inst, x, pc, memSize, mem) ==
      HartState(WriteBack(x, Reg(Rd(inst)), IResult(Narrow8(Funct3(inst)), Narrow8(Funct7(inst)), x[Reg(Rs1(inst))], Narrow16(ImmI(inst)), Reg(Rs2(inst)))), pc, memSize, mem)
  {
  }

  lemma ExecuteRegister(inst: bv32, x: seq<bv32>, pc: bv32, memSize: bv32, mem: seq<bv8>)
    requires |x| == 32 && AccessDefined(inst, x, |mem|) && Opcode(inst) == 0x33
    ensures Execute(inst, x, pc, memSize, mem) ==
      HartState(WriteBack(x, Reg(Rd(inst)), RResult(Narrow8(Funct3(inst)), Narrow8(Funct7(inst)), x[Reg(Rs1(inst))], x[Reg(Rs2(inst))])), pc, memSize, mem)
  {
  }

  lemma ExecuteOther(inst: bv32, x: seq<bv32>, pc: bv32, memSize: bv32, mem: seq<bv8>)
    requires |x| == 32 && AccessDefined(inst, x, |mem|)
    requires Opcode(inst) !in [0x37, 0x17, 0x6f, 0x67, 0x63, 0x03, 0x23, 0x13, 0x33]
    ensures Execute(inst, x, pc, memSize, mem) == HartState(x, pc, memSize, mem)
  {
  }
}
