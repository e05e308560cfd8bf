/**
 * Instruction decoding: the `opcode`, `funct3`, `funct7`, `rd`, `rs1`, `rs2`,
 * `imm_i`, `imm_s`, `imm_b` and `imm_j` macros of `tinyriscv_step`, each a
 * total function of the 32-bit instruction word.
 *
 * As a reference to check them against, the encoders below place the fields
 * exactly where the base formats of section 2.2 and the immediate variants of
 * section 2.3 of the RISC-V Unprivileged ISA Specification put them; the
 * lemmas show that decoding inverts encoding and that every word is the
 * encoding of its own decoded fields.
 */
module Decode {
  import opened Bits

  function Opcode(inst: bv32): (r: bv32)
    ensures r < 0x80
  {
    inst & 0x7f
  }

  function Funct3(inst: bv32): (r: bv32)
    ensures r < 8
  {
    (inst >> 12) & 0x7
  }

  function Funct7(inst: bv32): (r: bv32)
    ensures r < 0x80
  {
    (inst >> 25) & 0x7f
  }

  function Rd(inst: bv32): (r: bv32)
    ensures r < 32
  {
    (inst >> 7) & 0x1f
  }

  function Rs1(inst: bv32): (r: bv32)
    ensures r < 32
  {
    (inst >> 15) & 0x1f
  }

  function Rs2(inst: bv32): (r: bv32)
    ensures r < 32
  {
    (inst >> 20) & 0x1f
  }

  /** `imm_i`: bits 20 to 31, arithmetically shifted down, so bits 11 to 31 copy bit 31. */
  function ImmI(inst: bv32): (r: bv32)
    ensures SignExtended(r, 0xFFFF_F800)
    ensures r & 0x8000_0000 == inst & 0x8000_0000
  {
    Sra(inst, 20)
  }

  /** `imm_s`: `imm_i` with its low five bits taken from the `rd` field instead. */
  function ImmS(inst: bv32): (r: bv32)
    ensures SignExtended(r, 0xFFFF_F800)
    ensures r & 0x8000_0000 == inst & 0x8000_0000
  {
    (ImmI(inst) & 0xFFFF_FFE0) | Rd(inst)
  }

  /** `imm_b`: an even offset whose bits 12 to 31 copy instruction bit 31. */
  function ImmB(inst: bv32): (r: bv32)
    ensures r & 1 == 0
    ensures SignExtended(r, 0xFFFF_F000)
    ensures r & 0x8000_0000 == inst & 0x8000_0000
  {
    Sra(inst & 0x8000_0000, 19) | ((inst & 0x80) << 4) | ((inst >> 20) & 0x7e0) | ((inst >> 7) & 0x1e)
  }

  /** `imm_j`: an even offset whose bits 20 to 31 copy instruction bit 31. */
  function ImmJ(inst: bv32): (r: bv32)
    ensures r & 1 == 0
    ensures SignExtended(r, 0xFFF0_0000)
    ensures r & 0x8000_0000 == inst & 0x8000_0000
  {
    Sra(inst & 0x8000_0000, 11) | (inst & 0xff000) | ((inst >> 9) & 0x800) | ((inst >> 20) & 0x7fe)
  }

  /** `inst & 0xfffff000`, the operand of LUI and AUIPC: bits 12 to 31 in place, low 12 bits zero. */
  function ImmU(inst: bv32): (r: bv32)
    ensures r & 0xfff == 0
    ensures r | (inst & 0xfff) == inst
  {
    inst & 0xFFFF_F000
  }

  // Encoders following the instruction formats of the ISA specification.

  /** R-type: funct7 | rs2 | rs1 | funct3 | rd | opcode. */
  function EncodeR(funct7: bv32, rs2: bv32, rs1: bv32, funct3: bv32, rd: bv32, opcode: bv32): (r: bv32)
    requires funct7 < 0x80 && rs2 < 32 && rs1 < 32 && funct3 < 8 && rd < 32 && opcode < 0x80
  {
    (funct7 << 25) | (rs2 << 20) | (rs1 << 15) | (funct3 << 12) | (rd << 7) | opcode
  }

  /** I-type: imm[11:0] | rs1 | funct3 | rd | opcode. */
  function EncodeI(imm: bv32, rs1: bv32, funct3: bv32, rd: bv32, opcode: bv32): (r: bv32)
    requires SignExtended(imm, 0xFFFF_F800)
    requires rs1 < 32 && funct3 < 8 && rd < 32 && opcode < 0x80
  {
    ((imm & 0xfff) << 20) | (rs1 << 15) | (funct3 << 12) | (rd << 7) | opcode
  }

  /** S-type: imm[11:5] | rs2 | rs1 | funct3 | imm[4:0] | opcode. */
  function EncodeS(imm: bv32, rs2: bv32, rs1: bv32, funct3: bv32, opcode: bv32): (r: bv32)
    requires SignExtended(imm, 0xFFFF_F800)
    requires rs2 < 32 && rs1 < 32 && funct3 < 8 && opcode < 0x80
  {
    (((imm >> 5) & 0x7f) << 25) | (rs2 << 20) | (rs1 << 15) | (funct3 << 12) | ((imm & 0x1f) << 7) | opcode
  }

  /** B-type: imm[12] | imm[10:5] | rs2 | rs1 | funct3 | imm[4:1] | imm[11] | opcode. */
  function EncodeB(imm: bv32, rs2: bv32, rs1: bv32, funct3: bv32, opcode: bv32): (r: bv32)
    requires SignExtended(imm, 0xFFFF_F000) && imm & 1 == 0
    requires rs2 < 32 && rs1 < 32 && funct3 < 8 && opcode < 0x80
  {
    (((imm >> 12) & 1) << 31) | (((imm >> 5) & 0x3f) << 25) | (rs2 << 20) | (rs1 << 15) | (funct3 << 12)
      | (((imm >> 1) & 0xf) << 8) | (((imm >> 11) & 1) << 7) | opcode
  }

  /** U-type: imm[31:12] | rd | opcode. */
  function EncodeU(imm: bv32, rd: bv32, opcode: bv32): (r: bv32)
    requires imm & 0xfff == 0
    requires rd < 32 && opcode < 0x80
  {
    imm | (rd << 7) | opcode
  }

  /** J-type: imm[20] | imm[10:1] | imm[11] | imm[19:12] | rd | opcode. */
  function EncodeJ(imm: bv32, rd: bv32, opcode: bv32): (r: bv32)
    requires SignExtended(imm, 0xFFF0_0000) && imm & 1 == 0
    requires rd < 32 && opcode < 0x80
  {
    (((imm >> 20) & 1) << 31) | (((imm >> 1) & 0x3ff) << 21) | (((imm >> 11) & 1) << 20)
      | (((imm >> 12) & 0xff) << 12) | (rd << 7) | opcode
  }

  // Decoding inverts encoding, and every word is the encoding of its own
  // decoded fields in each format. The immediate formats split on the sign.

  /** Decoding an R-type encoding gives back all six fields. */
  lemma DecodeR(funct7: bv32, rs2: bv32, rs1: bv32, funct3: bv32, rd: bv32, opcode: bv32)
    requires funct7 < 0x80 && rs2 < 32 && rs1 < 32 && funct3 < 8 && rd < 32 && opcode < 0x80
    ensures var inst := EncodeR(funct7, rs2, rs1, funct3, rd, opcode);
      Funct7(inst) == funct7 && Rs2(inst) == rs2 && Rs1(inst) == rs1
      && Funct3(inst) == funct3 && Rd(inst) == rd && Opcode(inst) == opcode
  {
  }

  /** Every word is the R-type encoding of its decoded fields. */
  lemma EncodeDecodeR(inst: bv32)
    ensures EncodeR(Funct7(inst), Rs2(inst), Rs1(inst), Funct3(inst), Rd(inst), Opcode(inst)) == inst
  {
  }

  /** `imm_i` and the register and function fields recover what an I-type encoding holds. */
  lemma DecodeI(imm: bv32, rs1: bv32, funct3: bv32, rd: bv32, opcode: bv32)
    requires SignExtended(imm, 0xFFFF_F800)
    requires rs1 < 32 && funct3 < 8 && rd < 32 && opcode < 0x80
    ensures var inst := EncodeI(imm, rs1, funct3, rd, opcode);
      ImmI(inst) == imm && Rs1(inst) == rs1 && Funct3(inst) == funct3 && Rd(inst) == rd && Opcode(inst) == opcode
  {
    if imm & 0xFFFF_F800 == 0 {
      DecodeINonNegative(imm, rs1, funct3, rd, opcode);
    } else {
      DecodeINegative(imm, rs1, funct3, rd, opcode);
    }
  }

  lemma DecodeINonNegative(imm: bv32, rs1: bv32, funct3: bv32, rd: bv32, opcode: bv32)
    requires imm & 0xFFFF_F800 == 0
    requires rs1 < 32 && funct3 < 8 && rd < 32 && opcode < 0x80
    ensures var inst := EncodeI(imm, rs1, funct3, rd, opcode);
      ImmI(inst) == imm && Rs1(inst) == rs1 && Funct3(inst) == funct3 && Rd(inst) == rd && Opcode(inst) == opcode
  {
  }

  lemma DecodeINegative(imm: bv32, rs1: bv32, funct3: bv32, rd: bv32, opcode: bv32)
    requires imm & 0xFFFF_F800 == 0xFFFF_F800
    requires rs1 < 32 && funct3 < 8 && rd < 32 && opcode < 0x80
    ensures var inst := EncodeI(imm, rs1, funct3, rd, opcode);
      ImmI(inst) == imm && Rs1(inst) == rs1 && Funct3(inst) == funct3 && Rd(inst) == rd && Opcode(inst) == opcode
  {
  }

  /** Every word is the I-type encoding of its decoded fields. */
  lemma EncodeDecodeI(inst: bv32)
    ensures EncodeI(ImmI(inst), Rs1(inst), Funct3(inst), Rd(inst), Opcode(inst)) == inst
  {
    if inst & 0x8000_0000 == 0 {
      EncodeDecodeINonNegative(inst);
    } else {
      EncodeDecodeINegative(inst);
    }
  }

  lemma EncodeDecodeINonNegative(inst: bv32)
    requires inst & 0x8000_0000 == 0
    ensures EncodeI(ImmI(inst), Rs1(inst), Funct3(inst), Rd(inst), Opcode(inst)) == inst
  {
  }

  lemma EncodeDecodeINegative(inst: bv32)
    requires inst & 0x8000_0000 != 0
    ensures EncodeI(ImmI(inst), Rs1(inst), Funct3(inst), Rd(inst), Opcode(inst)) == inst
  {
  }

  /** `imm_s`, split across two fields, is reassembled from an S-type encoding. */
  lemma DecodeS(imm: bv32, rs2: bv32, rs1: bv32, funct3: bv32, opcode: bv32)
    requires SignExtended(imm, 0xFFFF_F800)
    requires rs2 < 32 && rs1 < 32 && funct3 < 8 && opcode < 0x80
    ensures var inst := EncodeS(imm, rs2, rs1, funct3, opcode);
      ImmS(inst) == imm && Rs2(inst) == rs2 && Rs1(inst) == rs1 && Funct3(inst) == funct3 && Opcode(inst) == opcode
  {
    if imm & 0xFFFF_F800 == 0 {
      DecodeSNonNegative(imm, rs2, rs1, funct3, opcode);
    } else {
      DecodeSNegative(imm, rs2, rs1, funct3, opcode);
    }
  }

  lemma DecodeSNonNegative(imm: bv32, rs2: bv32, rs1: bv32, funct3: bv32, opcode: bv32)
    requires imm & 0xFFFF_F800 == 0
    requires rs2 < 32 && rs1 < 32 && funct3 < 8 && opcode < 0x80
    ensures var inst := EncodeS(imm, rs2, rs1, funct3, opcode);
      ImmS(inst) == imm && Rs2(inst) == rs2 && Rs1(inst) == rs1 && Funct3(inst) == funct3 && Opcode(inst) == opcode
  {
  }

  lemma DecodeSNegative(imm: bv32, rs2: bv32, rs1: bv32, funct3: bv32, opcode: bv32)
    requires imm & 0xFFFF_F800 == 0xFFFF_F800
    requires rs2 < 32 && rs1 < 32 && funct3 < 8 && opcode < 0x80
    ensures var inst := EncodeS(imm, rs2, rs1, funct3, opcode);
      ImmS(inst) == imm && Rs2(inst) == rs2 && Rs1(inst) == rs1 && Funct3(inst) == funct3 && Opcode(inst) == opcode
  {
  }

  /** Every word is the S-type encoding of its decoded fields. */
  lemma EncodeDecodeS(inst: bv32)
    ensures EncodeS(ImmS(inst), Rs2(inst), Rs1(inst), Funct3(inst), Opcode(inst)) == inst
  {
    if inst & 0x8000_0000 == 0 {
      EncodeDecodeSNonNegative(inst);
    } else {
      EncodeDecodeSNegative(inst);
    }
  }

  lemma EncodeDecodeSNonNegative(inst: bv32)
    requires inst & 0x8000_0000 == 0
    ensures EncodeS(ImmS(inst), Rs2(inst), Rs1(inst), Funct3(inst), Opcode(inst)) == inst
  {
  }

  lemma EncodeDecodeSNegative(inst: bv32)
    requires inst & 0x8000_0000 != 0
    ensures EncodeS(ImmS(inst), Rs2(inst), Rs1(inst), Funct3(inst), Opcode(inst)) == inst
  {
  }

  /** `imm_b` puts the scattered bits of a B-type encoding back in order. */
  lemma DecodeB(imm: bv32, rs2: bv32, rs1: bv32, funct3: bv32, opcode: bv32)
    requires SignExtended(imm, 0xFFFF_F000) && imm & 1 == 0
    requires rs2 < 32 && rs1 < 32 && funct3 < 8 && opcode < 0x80
    ensures var inst := EncodeB(imm, rs2, rs1, funct3, opcode);
      ImmB(inst) == imm && Rs2(inst) == rs2 && Rs1(inst) == rs1 && Funct3(inst) == funct3 && Opcode(inst) == opcode
  {
    if imm & 0xFFFF_F000 == 0 {
      DecodeBNonNegative(imm, rs2, rs1, funct3, opcode);
    } else {
      DecodeBNegative(imm, rs2, rs1, funct3, opcode);
    }
  }

  lemma DecodeBNonNegative(imm: bv32, rs2: bv32, rs1: bv32, funct3: bv32, opcode: bv32)
    requires imm & 0xFFFF_F000 == 0 && imm & 1 == 0
    requires rs2 < 32 && rs1 < 32 && funct3 < 8 && opcode < 0x80
    ensures var inst := EncodeB(imm, rs2, rs1, funct3, opcode);
      ImmB(inst) == imm && Rs2(inst) == rs2 && Rs1(inst) == rs1 && Funct3(inst) == funct3 && Opcode(inst) == opcode
  {
  }

  lemma DecodeBNegative(imm: bv32, rs2: bv32, rs1: bv32, funct3: bv32, opcode: bv32)
    requires imm & 0xFFFF_F000 == 0xFFFF_F000 && imm & 1 == 0
    requires rs2 < 32 && rs1 < 32 && funct3 < 8 && opcode < 0x80
    ensures var inst := EncodeB(imm, rs2, rs1, funct3, opcode);
      ImmB(inst) == imm && Rs2(inst) == rs2 && Rs1(inst) == rs1 && Funct3(inst) == funct3 && Opcode(inst) == opcode
  {
  }

  /** Every word is the B-type encoding of its decoded fields. */
  lemma EncodeDecodeB(inst: bv32)
    ensures EncodeB(ImmB(inst), Rs2(inst), Rs1(inst), Funct3(inst), Opcode(inst)) == inst
  {
    if inst & 0x8000_0000 == 0 {
      EncodeDecodeBNonNegative(inst);
    } else {
      EncodeDecodeBNegative(inst);
    }
  }

  lemma EncodeDecodeBNonNegative(inst: bv32)
    requires inst & 0x8000_0000 == 0
    ensures EncodeB(ImmB(inst), Rs2(inst), Rs1(inst), Funct3(inst), Opcode(inst)) == inst
  {
  }

  lemma EncodeDecodeBNegative(inst: bv32)
    requires inst & 0x8000_0000 != 0
    ensures EncodeB(ImmB(inst), Rs2(inst), Rs1(inst), Funct3(inst), Opcode(inst)) == inst
  {
  }

  /** `inst & 0xfffff000` and the `rd` field recover what a U-type encoding holds. */
  lemma DecodeU(imm: bv32, rd: bv32, opcode: bv32)
    requires imm & 0xfff == 0
    requires rd < 32 && opcode < 0x80
    ensures var inst := EncodeU(imm, rd, opcode);
      ImmU(inst) == imm && Rd(inst) == rd && Opcode(inst) == opcode
  {
  }

  /** Every word is the U-type encoding of its decoded fields. */
  lemma EncodeDecodeU(inst: bv32)
    ensures EncodeU(ImmU(inst), Rd(inst), Opcode(inst)) == inst
  {
  }

  /** `imm_j` puts the scattered bits of a J-type encoding back in order. */
  lemma DecodeJ(imm: bv32, rd: bv32, opcode: bv32)
    requires SignExtended(imm, 0xFFF0_0000) && imm & 1 == 0
    requires rd < 32 && opcode < 0x80
    ensures var inst := EncodeJ(imm, rd, opcode);
      ImmJ(inst) == imm && Rd(inst) == rd && Opcode(inst) == opcode
  {
    if imm & 0xFFF0_0000 == 0 {
      DecodeJNonNegative(imm, rd, opcode);
    } else {
      DecodeJNegative(imm, rd, opcode);
    }
  }

  lemma DecodeJNonNegative(imm: bv32, rd: bv32, opcode: bv32)
    requires imm & 0xFFF0_0000 == 0 && imm & 1 == 0
    requires rd < 32 && opcode < 0x80
    ensures var inst := EncodeJ(imm, rd, opcode);
      ImmJ(inst) == imm && Rd(inst) == rd && Opcode(inst) == opcode
  {
  }

  lemma DecodeJNegative(imm: bv32, rd: bv32, opcode: bv32)
    requires imm & 0xFFF0_0000 == 0xFFF0_0000 && imm & 1 == 0
    requires rd < 32 && opcode < 0x80
    ensures var inst := EncodeJ(imm, rd, opcode);
      ImmJ(inst) == imm && Rd(inst) == rd && Opcode(inst) == opcode
  {
  }

  /** Every word is the J-type encoding of its decoded fields. */
  lemma EncodeDecodeJ(inst: bv32)
    ensures EncodeJ(ImmJ(inst), Rd(inst), Opcode(inst)) == inst
  {
    if inst & 0x8000_0000 == 0 {
      EncodeDecodeJNonNegative(inst);
    } else {
      EncodeDecodeJNegative(inst);
    }
  }

  lemma EncodeDecodeJNonNegative(inst: bv32)
    requires inst & 0x8000_0000 == 0
    ensures EncodeJ(ImmJ(inst), Rd(inst), Opcode(inst)) == inst
  {
  }

  lemma EncodeDecodeJNegative(inst: bv32)
    requires inst & 0x8000_0000 != 0
    ensures EncodeJ(ImmJ(inst), Rd(inst), Opcode(inst)) == inst
  {
  }
}
