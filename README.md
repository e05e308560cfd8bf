# tinyriscv: a verified model of the RV32I hart

tinyriscv is a small RV32I interpreter in one C header. A `tinyriscv_hart`
holds 32 general registers `x`, a program counter `pc`, and a byte buffer
`mem` of `mem_size` bytes. The buffer is mapped at the guest address
`0x8000_0000`. The step function does four things:

- it fetches the little-endian word at `pc`;
- it advances `pc` by 4;
- it clears `x[0]`;
- it switches on the opcode.

LUI, AUIPC, JAL and JALR are handled inline. Branches, loads, stores,
register-immediate and register-register operations go to one "unit"
function per instruction format. A separate draft (`main.c` at the root)
holds an earlier version of the same machine that has only loads and
register-register operations.

This project models both files in Dafny:

- `Bits`: two's-complement helpers, i.e. signed order, sign extension,
  narrowing casts and shifts.
- `Memory`: the `MEM` accessor and the draft's `load8`/`load16`/`load32`.
  These are little-endian reads and writes of the buffer, at an offset
  from `0x8000_0000`.
- `Decode`: the field and immediate macros of `tinyriscv_step`, with
  encoders for each RV32I format (section 2.3 of the RISC-V unprivileged
  ISA). Each encoder has a decode-after-encode round trip.
- `Units`: the five unit functions as methods over the register array
  (and the memory array), proved against specification functions:
  - `BranchPc`, `LoadResult`, `StoreResult`, `IResult`, `RResult`;
  - `WriteBack`, which is the "only `x[rd]` changes" write.
- `TinyRiscv`: the hart as a class (`Hart`) with `Init`, `ValidStep`, `Step`
  and one method per opcode case. It also holds the value-level state
  `HartState`, with `Execute` (the switch) and `Next` (a whole step).
- `HartProperties`: what one step does, opcode by opcode, and what it never
  does (touch memory outside stores, write registers other than `rd`).
- `Runs`: any number of steps taken while the corrected guard `Runnable`
  agrees, and what such a run preserves.
- `Programs`: concrete instruction words in the buffer and what a step does
  with them.
- `StepGuard`: `tinyriscv_valid_step` as written, against the guard the
  model uses (see Findings).
- `Draft`, `DraftProperties`: the draft `step`, `R_type` and `L_type`, and
  how they differ from the header's.

Where the code and its description disagree, the model follows the code:

- `x[0]` is cleared before the switch, not after it. An instruction with
  `rd == 0` therefore leaves its result in `x[0]` until the next step
  (`Programs.AddiWritesX0`).
- Register-immediate funct3 5 is SRAI whenever funct7 is nonzero, not only
  when bit 5 of funct7 is set.
- Register-register operations other than ADD/SUB and SRL/SRA require funct7
  0 in the header. The draft ignores funct7 for them.
- The pc is advanced by 4 before the switch, and JAL and taken branches add
  `imm - 4`. JALR sets the absolute target `(x[rs1] + imm_i) & ~1`.
- There is no M extension.

In one place the model does not follow the code. `tinyriscv_valid_step`
reads the word before it tests the bound, and its bound is a wrapping 32-bit
sum. `TinyRiscv.Hart.ValidStep` instead computes the corrected guard
`Runnable`, which tests the bound first and compares offsets (see Findings).
The code's order and wrap are modelled only in
`StepGuard.BoundTestAsWritten` and `StepGuard.ValidStepAsWritten`.

The header's switch calls lower-case unit names (`tinyriscv_b_type`, ...)
with argument orders different from the definitions. It also calls a
`load32` that the header does not define. The model gives each call the
meaning evidently intended:

- the unit of that format, with the arguments matched by name;
- a little-endian word read through `MEM(32, ...)`.

## Model

| member | source | states |
|---|---|---|
| Bits.NegativeBelowNonNegative | src/tinyriscv.h:27-28 | under the `(i32)` casts, a word with the sign bit set is below every word without it, and not the other way round |
| Bits.SameSignOrder | src/tinyriscv.h:27-30 | for words of equal sign, the signed order of BLT/BGE agrees with the unsigned order of BLTU/BGEU |
| Bits.NegativeIffSignBit | src/tinyriscv.h:27 | `(i32)v < 0` exactly when bit 31 of `v` is set |
| Bits.Sext8 | src/tinyriscv.h:42 | `(i32)(i8)b` keeps the byte as its low 8 bits and copies bit 7 into all higher bits |
| Bits.Sext16 | src/tinyriscv.h:43 | `(i32)(i16)h` keeps the half as its low 16 bits and copies bit 15 into all higher bits |
| Bits.Narrow8 | src/tinyriscv.h:159-163 | passing a `u32` field to a `u8` parameter keeps its low 8 bits |
| Bits.Narrow16 | src/tinyriscv.h:159-162 | passing an immediate to an `i16` parameter keeps its low 16 bits |
| Bits.NarrowSext16 | src/tinyriscv.h:159-162 | a word already sign-extended from bit 15 survives the `i16` parameter and the `(i32)` widening unchanged |
| Bits.SrlBackClearsLowBits | src/tinyriscv.h:76 | shifting right logically and back left clears exactly the low `s` bits |
| Bits.SraKeepsSign | src/tinyriscv.h:77 | an arithmetic right shift keeps the sign bit |
| Bits.SraBy31IsSignMask | src/tinyriscv.h:77 | an arithmetic right shift by 31 gives 0 for a non-negative word and all ones for a negative one |
| Memory.Store8 | src/tinyriscv.h:17 | a byte store through `MEM` keeps the buffer's length |
| Memory.Store16 | src/tinyriscv.h:17 | a half store through `MEM` keeps the buffer's length |
| Memory.Store32 | src/tinyriscv.h:17 | a word store through `MEM` keeps the buffer's length |
| Memory.PutHalf | src/tinyriscv.h:17 | writing a half in place leaves the array equal to the value-level half store |
| Memory.PutWord | src/tinyriscv.h:17 | writing a word in place leaves the array equal to the value-level word store |
| Memory.WordFromBytes | src/tinyriscv.h:17 | the four little-endian bytes of a word reassemble to that word |
| Memory.HalfRoundTrip | src/tinyriscv.h:17 | a half written at an offset reads back unchanged |
| Memory.WordRoundTrip | src/tinyriscv.h:17 | a word written at an offset reads back unchanged |
| Memory.WordDisjoint | src/tinyriscv.h:17 | a word written at one offset does not change the word read at a non-overlapping offset |
| Memory.NarrowAt | src/tinyriscv.h:17 | the half and the byte at an offset are the low 16 and low 8 bits of the word there (little-endian) |
| Memory.Store8Load8 | src/tinyriscv.h:17 | a byte stored at an address reads back unchanged |
| Memory.Store16Load16 | src/tinyriscv.h:17 | a half stored at an address reads back unchanged |
| Memory.Store32Load32 | src/tinyriscv.h:17 | a word stored at an address reads back unchanged |
| Memory.Store8Local | src/tinyriscv.h:17 | a byte store changes only the byte at its offset |
| Memory.Store16Local | src/tinyriscv.h:17 | a half store changes only the two bytes at its offset |
| Memory.Store32Local | src/tinyriscv.h:17 | a word store changes only the four bytes at its offset |
| Memory.Load8 | main.c:10-12 | `load8` and the `MEM(8, …)` rvalue; no contract of its own, Memory.ByteAtBasePlus states what it reads |
| Memory.Load16 | main.c:14-16 | `load16` and the `MEM(16, …)` rvalue; no contract of its own, Memory.HalfLoadIsLittleEndian states what it reads |
| Memory.Load32 | main.c:18-20 | `load32` and the `MEM(32, …)` rvalue; no contract of its own, Memory.WordLoadIsLittleEndian states what it reads |
| Memory.ByteAtBasePlus | main.c:10-12 | byte `k` of the buffer is in bounds at address `0x8000_0000 + k` for every `k` below the buffer's length and 2^31, and `load8` there reads that byte |
| Memory.HalfLoadIsLittleEndian | main.c:14-16 | `load16` reads the two bytes from the address's offset, the first as the low byte |
| Memory.WordLoadIsLittleEndian | main.c:18-20 | `load32` reads the four bytes from the address's offset, least significant first |
| Memory.NarrowLoadsAreLowParts | main.c:10-20 | `load16` and `load8` at an address give the low 16 and low 8 bits of `load32` there |
| Memory.LoadAfterDisjointStore | src/tinyriscv.h:17 | a word load is unaffected by a word store that does not overlap it |
| Decode.Opcode | src/tinyriscv.h:131 | the opcode field is below 0x80 |
| Decode.Funct3 | src/tinyriscv.h:132 | the funct3 field is below 8 |
| Decode.Funct7 | src/tinyriscv.h:133 | the funct7 field is below 0x80 |
| Decode.Rd | src/tinyriscv.h:134 | the rd field is below 32 |
| Decode.Rs1 | src/tinyriscv.h:135 | the rs1 field is below 32 |
| Decode.Rs2 | src/tinyriscv.h:136 | the rs2 field is below 32 |
| Decode.ImmI | src/tinyriscv.h:137 | imm_i is sign-extended from bit 11 and keeps the instruction's sign bit; that its low 12 bits are bits 31..20 is proved by Decode.DecodeI |
| Decode.ImmS | src/tinyriscv.h:138 | imm_s is sign-extended from bit 11 and keeps the instruction's sign bit; that it joins bits 31..25 and 11..7 is proved by Decode.DecodeS |
| Decode.ImmB | src/tinyriscv.h:140-141 | imm_b is even and sign-extended from bit 12 |
| Decode.ImmJ | src/tinyriscv.h:143-144 | imm_j is even and sign-extended from bit 20 |
| Decode.ImmU | src/tinyriscv.h:150-151 | the upper immediate has its low 12 bits clear |
| Decode.DecodeR | src/tinyriscv.h:131-136 | the field macros recover opcode, rd, funct3, rs1, rs2 and funct7 from an R-type word |
| Decode.EncodeDecodeR | src/tinyriscv.h:131-136 | decoding an encoded R-type word and re-encoding its fields gives the word back |
| Decode.DecodeI | src/tinyriscv.h:131-137 | the macros recover the fields and the 12-bit signed immediate of an I-type word |
| Decode.EncodeDecodeI | src/tinyriscv.h:131-137 | re-encoding the decoded fields of an I-type word gives the word back |
| Decode.DecodeS | src/tinyriscv.h:138 | imm_s recovers the 12-bit signed immediate of an S-type word |
| Decode.EncodeDecodeS | src/tinyriscv.h:138 | re-encoding the decoded fields of an S-type word gives the word back |
| Decode.DecodeB | src/tinyriscv.h:140-141 | imm_b recovers the 13-bit even signed offset of a B-type word |
| Decode.EncodeDecodeB | src/tinyriscv.h:140-141 | re-encoding the decoded fields of a B-type word gives the word back |
| Decode.DecodeU | src/tinyriscv.h:150 | the upper immediate recovers the 20-bit field of a U-type word |
| Decode.EncodeDecodeU | src/tinyriscv.h:150 | re-encoding a decoded U-type word gives the word back |
| Decode.DecodeJ | src/tinyriscv.h:143-144 | imm_j recovers the 21-bit even signed offset of a J-type word |
| Decode.EncodeDecodeJ | src/tinyriscv.h:143-144 | re-encoding the decoded fields of a J-type word gives the word back |
| Units.BranchPc | src/tinyriscv.h:24-31 | the branch switch as a function; no contract of its own, Units.BranchPairsComplement, Units.UndefinedBranchesFallThrough, Units.SignedAndUnsignedBranches and HartProperties.BranchFromInstruction state what it does |
| Units.BType | src/tinyriscv.h:21-32 | the new pc is `BranchPc`: `pc + imm - 4` when the condition selected by funct3 holds, the old pc otherwise |
| Units.BranchPairsComplement | src/tinyriscv.h:25-30 | BEQ/BNE, BLT/BGE and BLTU/BGEU are complementary: exactly one of each pair is taken |
| Units.UndefinedBranchesFallThrough | src/tinyriscv.h:24-31 | funct3 2, 3 and values above 7 never move the pc |
| Units.SignedAndUnsignedBranches | src/tinyriscv.h:27-29 | BLT and BLTU agree when the operands have equal signs and disagree when they differ |
| Units.LoadResult | src/tinyriscv.h:41-47 | a load writes a value exactly when funct3 names LB, LH, LW, LBU or LHU |
| Units.WriteBack | src/tinyriscv.h:42-46 | a unit's write changes `x[rd]` to its value and no other register, and nothing at all when the case writes nothing |
| Units.LType | src/tinyriscv.h:36-48 | the registers afterwards are the write-back of `LoadResult` at `x[rs1] + (i32)imm` |
| Units.ByteLoadsExtend | src/tinyriscv.h:42-45 | LB sign-extends and LBU zero-extends the same byte |
| Units.HalfLoadsExtend | src/tinyriscv.h:43-46 | LHU has its high half clear, LH is sign-extended from bit 15, and both share the low half |
| Units.StoreResult | src/tinyriscv.h:57-61 | a store keeps the buffer's length |
| Units.SType | src/tinyriscv.h:52-62 | the buffer afterwards is `StoreResult` of `x[rs2]` at `x[rs1] + (i32)imm` |
| Units.StoreLocality | src/tinyriscv.h:57-61 | an undefined funct3 leaves memory unchanged, and a defined one changes only the bytes it stores |
| Units.StoreWordThenLoad | src/tinyriscv.h:44-60 | LW after SW at the same address reads back the stored register |
| Units.StoreHalfThenLoad | src/tinyriscv.h:46-59 | LHU after SH at the same address reads back the low half of the stored register |
| Units.StoreByteThenLoad | src/tinyriscv.h:45-58 | LBU after SB at the same address reads back the low byte of the stored register |
| Units.IResult | src/tinyriscv.h:69-85 | the register-immediate switch as a function; no contract of its own, Units.IWritesExactly, Units.ImmediateMatchesRegister, Units.SlliMatchesSll, Units.SrliMatchesSrl, Units.SraiMatchesSra and Units.ImmediateIdioms state what it does |
| Units.RResult | src/tinyriscv.h:93-104 | the register-register switch as a function; no contract of its own, Units.RWritesExactly, Units.RKeys, Units.SetLessThanMatchesBranch, Units.ShiftAmountMasked, Units.SubUndoesAdd and Units.XorUndoesXor state what it does |
| Units.IType | src/tinyriscv.h:66-86 | the registers afterwards are the write-back of `IResult` on `x[rs1]`, the immediate and shamt |
| Units.RType | src/tinyriscv.h:90-105 | the registers afterwards are the write-back of `RResult` on `x[rs1]` and `x[rs2]` |
| Units.IWritesExactly | src/tinyriscv.h:79-85 | a register-immediate operation writes `x[rd]` exactly when funct3 is below 8, whatever funct7 is |
| Units.RWritesExactly | src/tinyriscv.h:93-104 | a register-register operation writes exactly for the ten listed funct7/funct3 pairs |
| Units.RKeyFields | src/tinyriscv.h:93 | the key `funct7 << 3 \| funct3` is a base case exactly when funct7 is 0, and 0x100/0x105 exactly for SUB/SRA |
| Units.SetLessThanMatchesBranch | src/tinyriscv.h:97-98 | SLT and SLTU give 1 exactly when BLT and BLTU would branch |
| Units.ShiftAmountMasked | src/tinyriscv.h:96-101 | register shifts use only the low five bits of `x[rs2]` |
| Units.SubUndoesAdd | src/tinyriscv.h:94-95 | SUB of the same operand undoes ADD |
| Units.XorUndoesXor | src/tinyriscv.h:99 | XOR with the same operand twice gives the original |
| Units.RKeys | src/tinyriscv.h:93-103 | the case labels are the keys of their funct7/funct3 pairs |
| Units.ImmediateMatchesRegister | src/tinyriscv.h:69-74 | ADDI, SLTI, SLTIU, XORI, ORI and ANDI compute their register counterparts with `x[rs2]` replaced by the sign-extended immediate |
| Units.SlliMatchesSll | src/tinyriscv.h:75 | SLLI computes SLL with the shift amount taken from shamt |
| Units.SrliMatchesSrl | src/tinyriscv.h:76-83 | SRLI (funct7 0) computes SRL with the shift amount taken from shamt |
| Units.SraiMatchesSra | src/tinyriscv.h:77-83 | any nonzero funct7 makes funct3 5 an SRAI, which computes SRA with the shift amount taken from shamt |
| Units.ImmediateIdioms | src/tinyriscv.h:69-74 | MV, NOT and SEQZ behave as their names say, and SLTIU -1 tests "not all ones" because the immediate is sign-extended first |
| Units.RegisterIdioms | src/tinyriscv.h:95-98 | NEG is SUB from zero and SNEZ is SLTU from zero |
| TinyRiscv.Reg | src/tinyriscv.h:134-136 | every register field indexes one of the 32 registers |
| TinyRiscv.Hart.constructor | src/tinyriscv.h:10-13 | a fresh hart has zeroed registers, pc 0, the given buffer and its size |
| TinyRiscv.Hart.Init | src/tinyriscv.h:109-112 | init sets `x[2]` to the end of the buffer and the pc to its start, and changes nothing else |
| TinyRiscv.Hart.ValidStep | src/tinyriscv.h:116-121 | the answer is `Runnable`: the word at the pc lies inside the buffer and is nonzero |
| TinyRiscv.Hart.Step | src/tinyriscv.h:125-165 | the hart afterwards is `Next` of the hart before |
| TinyRiscv.Execute | src/tinyriscv.h:149-164 | the switch as a function; no contract of its own, the HartProperties.Execute* lemmas and HartProperties.BranchExecutes, LoadExecutes and StoreExecutes state what it does |
| TinyRiscv.Next | src/tinyriscv.h:125-165 | one step as a function; no contract of its own, the HartProperties.*Step lemmas state what it does, and TinyRiscv.Hart.Step is proved to reach it |
| TinyRiscv.Hart.Dispatch | src/tinyriscv.h:149-164 | the switch leaves the hart in `Execute` of the fetched word |
| TinyRiscv.Hart.Lui | src/tinyriscv.h:150 | LUI writes the upper immediate to `x[rd]` and changes nothing else |
| TinyRiscv.Hart.Auipc | src/tinyriscv.h:151 | AUIPC writes the instruction's address plus the upper immediate to `x[rd]` |
| TinyRiscv.Hart.Jal | src/tinyriscv.h:152 | JAL writes the return address to `x[rd]` and moves the pc to the instruction's address plus imm_j |
| TinyRiscv.Hart.Jalr | src/tinyriscv.h:153-157 | JALR computes its target from `x[rs1]` before writing the return address, and clears bit 0 of the target |
| TinyRiscv.Hart.Branch | src/tinyriscv.h:159 | a branch changes only the pc, as `BranchPc` says |
| TinyRiscv.Hart.Load | src/tinyriscv.h:160 | a load changes only registers, as `LoadResult` and `WriteBack` say |
| TinyRiscv.Hart.Store | src/tinyriscv.h:161 | a store changes only memory, as `StoreResult` says |
| TinyRiscv.Hart.OpImm | src/tinyriscv.h:162 | a register-immediate operation changes only registers, as `IResult` says |
| TinyRiscv.Hart.Op | src/tinyriscv.h:163 | a register-register operation changes only registers, as `RResult` says |
| HartProperties.ImmIFits | src/tinyriscv.h:160-162 | imm_i survives the `i16` parameter of the load and register-immediate units |
| HartProperties.ImmSFits | src/tinyriscv.h:161 | imm_s survives the `i16` parameter of the store unit |
| HartProperties.ImmBFits | src/tinyriscv.h:159 | imm_b survives the `i16` parameter of the branch unit |
| HartProperties.LoadAddressUsesImmI | src/tinyriscv.h:160 | a load reads at `x[rs1] + imm_i` |
| HartProperties.StoreAddressUsesImmS | src/tinyriscv.h:161 | a store writes at `x[rs1] + imm_s` |
| HartProperties.UpperPcFromInstruction | src/tinyriscv.h:151 | AUIPC's value is the instruction's address plus the upper immediate |
| HartProperties.JumpTargetFromInstruction | src/tinyriscv.h:152 | JAL's target is the instruction's address plus imm_j |
| HartProperties.JumpRegisterTargetEven | src/tinyriscv.h:155 | JALR's target is `x[rs1] + imm_i` with bit 0 cleared |
| HartProperties.BranchFromInstruction | src/tinyriscv.h:25-30 | a taken branch lands at the instruction's address plus imm_b, and one not taken at the next instruction |
| HartProperties.ExecuteKeepsMemory | src/tinyriscv.h:149-164 | only opcode 0x23 changes memory |
| HartProperties.ExecuteWritesOnlyRd | src/tinyriscv.h:149-164 | no opcode changes a register other than `rd` |
| HartProperties.StepIgnoresX0 | src/tinyriscv.h:147 | the step is the same whatever `x[0]` held before it |
| HartProperties.StepKeepsMemory | src/tinyriscv.h:125-165 | a step that is not a store leaves memory unchanged |
| HartProperties.StepWritesOnlyRd | src/tinyriscv.h:125-165 | a step changes no register other than `x[0]` (which it clears) and `x[rd]` |
| HartProperties.UnknownOpcodeSkips | src/tinyriscv.h:149-164 | an opcode outside the switch only clears `x[0]` and moves the pc to the next word |
| HartProperties.LuiStep | src/tinyriscv.h:150 | a whole LUI step, in terms of the hart before it |
| HartProperties.AuipcStep | src/tinyriscv.h:151 | a whole AUIPC step, in terms of the hart before it |
| HartProperties.JalStep | src/tinyriscv.h:152 | a whole JAL step: the return address is pc + 4 and the pc becomes pc + imm_j |
| HartProperties.JalrStep | src/tinyriscv.h:153-157 | a whole JALR step: the return address is pc + 4 and the target is read from the zeroed registers |
| HartProperties.JalrLandsEven | src/tinyriscv.h:155 | after JALR the pc is even |
| HartProperties.BranchExecutes | src/tinyriscv.h:159 | after a branch the pc is pc + imm_b when the condition holds and the next word otherwise, and nothing else changes |
| HartProperties.LoadExecutes | src/tinyriscv.h:160 | a load is `WriteBack` of `LoadResult` at `x[rs1] + imm_i`, which lies in the buffer |
| HartProperties.StoreExecutes | src/tinyriscv.h:161 | a store is `StoreResult` of `x[rs2]` at `x[rs1] + imm_s`, which lies in the buffer |
| HartProperties.OpImmStep | src/tinyriscv.h:162 | a whole register-immediate step in terms of `IResult` on the fields |
| HartProperties.OpStep | src/tinyriscv.h:163 | a whole register-register step in terms of `RResult` on the fields |
| Runs.Run | src/tinyriscv.h:116-165 | a run of guarded steps keeps the buffer's size and length, and keeps a well-formed hart well-formed |
| Runs.OneMore | src/tinyriscv.h:116-165 | a run of n + 1 steps is a run of n steps followed by one step taken exactly when the guard agrees |
| Runs.StoreFreeRunKeepsMemory | src/tinyriscv.h:125-165 | a run in which no step is a store leaves the buffer exactly as it was |
| Programs.AddiByFields | src/tinyriscv.h:162 | any word with opcode 0x13 and funct3 0 sets `x[rd]` to `x[rs1] + imm_i` and changes nothing else |
| Programs.AddiAtBase | src/tinyriscv.h:125-162 | `addi x1, x0, 5` at the start of the buffer is fetched as 0x00500093, sets `x[1]` to 5 and moves the pc by 4 |
| Programs.AddiWritesX0 | src/tinyriscv.h:147-162 | `addi x0, x0, 5` leaves 5 in `x[0]`, because `x[0]` is cleared before the switch only |
| Programs.StoreThenLoadWord | src/tinyriscv.h:160-161 | an SW then an LW at the same address reads back the stored register |
| StepGuard.BoundTestAsWritten | src/tinyriscv.h:118 | the bound test as written, on the wrapping sum `mem_size + 0x8000_0000`; no contract of its own, the three StepGuard lemmas below state where it goes wrong |
| StepGuard.ValidStepAsWritten | src/tinyriscv.h:116-121 | `tinyriscv_valid_step` as written, defined only where the fetch it starts with lies in the buffer; no contract of its own, StepGuard.FetchPrecedesBoundTest, BoundTestTooWeak and BoundTestWraps state how it differs from `Runnable` |
| StepGuard.FetchPrecedesBoundTest | src/tinyriscv.h:117-118 | at the pc one past an 8-byte buffer, the bound test would refuse, but the fetch before it reads outside the buffer |
| StepGuard.BoundTestTooWeak | src/tinyriscv.h:118 | the bound test passes a word straddling the end of the buffer and an address below it |
| StepGuard.BoundTestWraps | src/tinyriscv.h:118 | with `mem_size` 2^31 the bound test fails at every pc, although the hart can step |
| StepGuard.RunnableRejectsOutside | src/tinyriscv.h:116-121 | the guard the model uses refuses the inputs that the bound test lets through |
| StepGuard.RunnableFalseAtEnd | src/tinyriscv.h:116-121 | for every buffer size, the guard the model uses refuses the pc one past the end of the buffer |
| Draft.RResult | main.c:25-45 | the draft's register-register switch as a function; no contract of its own, DraftProperties.RResultAgreesOnAddAndShiftRight and RResultIgnoresFunct7 state what it does |
| Draft.LoadResult | main.c:51-63 | the draft's load switch as a function; no contract of its own, DraftProperties.LoadResultAgainstHeader states what it does |
| Draft.Next | main.c:66-87 | the draft's step as a function; no contract of its own, DraftProperties.NextAdvancesAndKeepsMemory, NextOnlyLoadsAndOps and NextWritesOnlyRd state what it does |
| Draft.RType | main.c:22-46 | the registers afterwards are the write-back of the draft's `RResult` |
| Draft.LType | main.c:48-64 | the registers afterwards are the write-back of the draft's `LoadResult`; LBU and LHU read but write nothing |
| Draft.Execute | main.c:83-86 | the draft's switch keeps 32 registers |
| Draft.Cpu.Step | main.c:66-87 | the CPU afterwards is the draft's `Next` of the CPU before |
| Draft.Cpu.Dispatch | main.c:83-86 | the draft's switch leaves the registers in `Execute` of the fetched word |
| DraftProperties.RResultAgreesOnAddAndShiftRight | main.c:26-41 | for funct3 0 and 5 the draft agrees with the header, and writes exactly when funct7 is 0 or 0x20 |
| DraftProperties.RResultIgnoresFunct7 | main.c:31-44 | for the other funct3 values the draft ignores funct7, where the header writes nothing for a nonzero funct7 |
| DraftProperties.LoadResultAgainstHeader | main.c:51-63 | LB, LH and LW agree with the header; LBU and LHU write nothing, where the header writes |
| DraftProperties.NextAdvancesAndKeepsMemory | main.c:66-86 | a draft step moves the pc by 4 and never changes memory |
| DraftProperties.NextOnlyLoadsAndOps | main.c:83-86 | an opcode other than 0x03 and 0x33 only clears `regs[0]` |
| DraftProperties.NextWritesOnlyRd | main.c:81-86 | a draft step changes no register other than `regs[0]` and `regs[rd]` |
| DraftProperties.RegisterOpMatchesHeader | main.c:22-46 | on ADD, SUB, SRL, SRA and funct7-0 register operations, the draft's switch does what the header's does |
| DraftProperties.SignedLoadMatchesHeader | main.c:52-60 | on LB, LH and LW, the draft's switch does what the header's does |

## Left out

- `dump_registers` and `main` in `src/main.c`, the empty `main` of the root `main.c`, and the root `tinyriscv.h` fragment: they are host I/O, a driver, or a superseded copy of the header.
- The driver loop that alternates `tinyriscv_valid_step` and `tinyriscv_step` lives in the host, outside the header: it is not modelled as code. `Runs` states only what any number of guarded steps preserves.
- Runs.Run: a run is defined only while every step stays inside the buffer (`Runs.Defined`); what C does after an access outside it is not modelled.
- Memory access outside the buffer: in C it is undefined behaviour. In the model it is a precondition (`AccessDefined`, `CanStep`) and is never given a meaning.
- Host endianness and unaligned casts in `MEM` and the draft loads: the model reads and writes bytes little-endian, which is what the guest expects on the hosts the code targets.
- Three conversions are implementation-defined in C, and the model takes two's complement for each. The first is `(i32)x >> s` on a negative value, modelled as the arithmetic shift every common compiler performs. The second is the conversion of an out-of-range `u32` to `i32` (`(i32)inst` and `(i32)(inst & 0x80000000)`, src/tinyriscv.h:137-144), modelled as reinterpreting the bits. The third is narrowing a negative immediate to the `i16` unit parameters, modelled as keeping the low 16 bits (Bits.Narrow16).
- The M extension and any instruction outside RV32I's base set: the code has none.
- TinyRiscv.Hart.constructor: it stands for the caller's zero-initialised `tinyriscv_hart`; allocation and the buffer are the host's.
- HartProperties.BranchExecutes, HartProperties.LoadExecutes, HartProperties.StoreExecutes: stated for the switch on the fetched word (registers with `x[0]` cleared, pc already advanced), which is what `Next` runs, not restated on a whole `HartState`.
- Programs.AddiByFields: stated for any word with the ADDI opcode and funct3, not composed with the encoders; the encoders are tied to the decoders by the `Decode` round trips instead.
- StepGuard: the as-written and intended guards are compared on concrete inputs only; no lemma states over all inputs where they agree.
- Bits.SrlBackClearsLowBits: there is no matching back-shift lemma for SRA.

## Findings

| source | as written | input that shows it | evidently intended | confidence | as-written member | corrected member |
|---|---|---|---|---|---|---|
| src/tinyriscv.h:117-118 | `load32` at the pc runs before the bound test | `mem_size` 8 and pc `0x8000_0008`: the fetch reads bytes 8-11 of an 8-byte buffer before the test would refuse | test the bound before reading the word | not executed | StepGuard.FetchPrecedesBoundTest | TinyRiscv.Hart.ValidStep |
| src/tinyriscv.h:118 | the bound test checks only `pc < mem_size + base` | `mem_size` 8 and pc `0x8000_0006` (a word straddling the end), or pc 0 (below the buffer), pass | require `base <= pc` and `pc + 4 <= base + mem_size` | not executed | StepGuard.BoundTestTooWeak | StepGuard.RunnableRejectsOutside |
| src/tinyriscv.h:118 | `mem_size + base` is a `u32` sum | `mem_size` `0x8000_0000`: the sum wraps to 0 and every pc fails the test | compare the offset `pc - base` with `mem_size` | not executed | StepGuard.BoundTestWraps | TinyRiscv.Hart.ValidStep |
