/**
 The instruction formats of the assembler (m65f32asm.c) and of the disassembler (m65f32dis.c).
 A C int in an encoder argument is its 32-bit two's complement word.
 */
module AsmEncoding {
  import opened Isa

  // ------------------------------------------------------------------ the assembler's encoders

  function EncR3(op: Word, rd: Word, rs1: Word, rs2: Word, func7: Word, f: Word): (w: Word)
    ensures Opcode(w) == op & 0x3F && RdField(w) == rd & 0x3F && Rs1Field(w) == rs1 & 0x3F
    ensures Rs2Field(w) == rs2 & 0x3F && Func7Field(w) == func7 & 0x7F && FBit(w) == f & 1
  {
    ((op & 0x3F) << 26) | ((rd & 0x3F) << 20) | ((rs1 & 0x3F) << 14) | ((rs2 & 0x3F) << 8)
    | ((func7 & 0x7F) << 1) | (f & 1)
  }

  function EncI13F(op: Word, rd: Word, rs1: Word, imm13: Word, f: Word): (w: Word)
    ensures Opcode(w) == op & 0x3F && RdField(w) == rd & 0x3F && Rs1Field(w) == rs1 & 0x3F
    ensures Imm13Field(w) == imm13 & 0x1FFF && FBit(w) == f & 1
  {
    ((op & 0x3F) << 26) | ((rd & 0x3F) << 20) | ((rs1 & 0x3F) << 14) | ((imm13 & 0x1FFF) << 1) | (f & 1)
  }

  function EncM14(op: Word, rt: Word, base: Word, off14: Word): (w: Word)
    ensures Opcode(w) == op & 0x3F && RdField(w) == rt & 0x3F && Rs1Field(w) == base & 0x3F
    ensures Off14Field(w) == off14 & 0x3FFF
  {
    ((op & 0x3F) << 26) | ((rt & 0x3F) << 20) | ((base & 0x3F) << 14) | (off14 & 0x3FFF)
  }

  function EncU20(op: Word, rd: Word, imm20: Word): (w: Word)
    ensures Opcode(w) == op & 0x3F && RdField(w) == rd & 0x3F && Imm20Field(w) == imm20 & 0xFFFFF
  {
    ((op & 0x3F) << 26) | ((rd & 0x3F) << 20) | (imm20 & 0xFFFFF)
  }

  function EncB21(cond: Word, link: Word, off21: Word): (w: Word)
    ensures Opcode(w) == OP_BR && CondField(w) == cond & 0xF && LinkField(w) == link & 1
    ensures Off21Field(w) == off21 & 0x1FFFFF
  {
    ((OP_BR & 0x3F) << 26) | ((cond & 0xF) << 22) | ((link & 1) << 21) | (off21 & 0x1FFFFF)
  }

  function EncJ26(op: Word, target26: Word): (w: Word)
    ensures Opcode(w) == op & 0x3F && Target26Field(w) == target26 & 0x3FFFFFF
  {
    ((op & 0x3F) << 26) | (target26 & 0x3FFFFFF)
  }

  // ------------------------------------------------------------------ the disassembler's decoder

  datatype Insn = Insn(
    raw: Word, op: Word, rd: Word, rs1: Word, rs2: Word, func7: Word, f: Word,
    imm13: Word, off14: Word, imm20: Word, target26: Word, cond: Word, link: Word, off21: Word)

  /** (int32_t)(field << k) >> k, for fields of 32 - k bits: the sign bit fills the bits above. */
  function SignedImm13(w: Word): Word
  {
    var x := Imm13Field(w) << 19;
    (x >> 19) | ((0 - (x >> 31)) << 13)
  }

  function SignedOff14(w: Word): Word
  {
    var x := Off14Field(w) << 18;
    (x >> 18) | ((0 - (x >> 31)) << 14)
  }

  function SignedOff21(w: Word): Word
  {
    var x := Off21Field(w) << 11;
    (x >> 11) | ((0 - (x >> 31)) << 21)
  }

  function DecodeInsn(w: Word): Insn
  {
    Insn(
      w, Opcode(w), RdField(w), Rs1Field(w), Rs2Field(w), Func7Field(w), FBit(w),
      SignedImm13(w), SignedOff14(w), Imm20Field(w), Target26Field(w), CondField(w), LinkField(w), SignedOff21(w))
  }

  // ------------------------------------------------------------------ they are inverse

  // The disassembler sign-extends the fields as the hardware does.

  lemma SignedImm13Value(w: Word)
    ensures SignedImm13(w) == SignExtend13(Imm13Field(w))
  {
  }

  lemma SignedOff14Value(w: Word)
    ensures SignedOff14(w) == SignExtend14(Off14Field(w))
  {
  }

  lemma SignedOff21Value(w: Word)
    ensures SignedOff21(w) == SignExtend21(Off21Field(w))
  {
  }

  lemma DecodeR3(op: Word, rd: Word, rs1: Word, rs2: Word, func7: Word, f: Word)
    ensures var i := DecodeInsn(EncR3(op, rd, rs1, rs2, func7, f));
            && i.op == op & 0x3F && i.rd == rd & 0x3F && i.rs1 == rs1 & 0x3F && i.rs2 == rs2 & 0x3F
            && i.func7 == func7 & 0x7F && i.f == f & 1
  {
  }

  lemma DecodeI13F(op: Word, rd: Word, rs1: Word, imm13: Word, f: Word)
    ensures var i := DecodeInsn(EncI13F(op, rd, rs1, imm13, f));
            && i.op == op & 0x3F && i.rd == rd & 0x3F && i.rs1 == rs1 & 0x3F
            && i.imm13 == SignExtend13(imm13 & 0x1FFF) && i.f == f & 1
  {
    SignedImm13Value(EncI13F(op, rd, rs1, imm13, f));
  }

  lemma DecodeM14(op: Word, rt: Word, base: Word, off14: Word)
    ensures var i := DecodeInsn(EncM14(op, rt, base, off14));
            i.op == op & 0x3F && i.rd == rt & 0x3F && i.rs1 == base & 0x3F && i.off14 == SignExtend14(off14 & 0x3FFF)
  {
    SignedOff14Value(EncM14(op, rt, base, off14));
  }

  lemma DecodeU20J26(op: Word, rd: Word, imm20: Word, target26: Word)
    ensures var i := DecodeInsn(EncU20(op, rd, imm20));
            i.op == op & 0x3F && i.rd == rd & 0x3F && i.imm20 == imm20 & 0xFFFFF
    ensures var i := DecodeInsn(EncJ26(op, target26)); i.op == op & 0x3F && i.target26 == target26 & 0x3FFFFFF
  {
  }

  lemma DecodeB21(cond: Word, link: Word, off21: Word)
    ensures var i := DecodeInsn(EncB21(cond, link, off21));
            && i.op == OP_BR && i.cond == cond & 0xF && i.link == link & 1
            && i.off21 == SignExtend21(off21 & 0x1FFFFF)
  {
    SignedOff21Value(EncB21(cond, link, off21));
  }

  // Re-encoding the fields of a word gives the word back, in every format that it can have.

  lemma EncodeDecodedR3(w: Word)
    ensures var i := DecodeInsn(w); EncR3(i.op, i.rd, i.rs1, i.rs2, i.func7, i.f) == w
  {
  }

  lemma EncodeDecodedI13F(w: Word)
    ensures var i := DecodeInsn(w); EncI13F(i.op, i.rd, i.rs1, i.imm13, i.f) == w
  {
  }

  lemma EncodeDecodedM14(w: Word)
    ensures var i := DecodeInsn(w); EncM14(i.op, i.rd, i.rs1, i.off14) == w
  {
  }

  lemma EncodeDecodedU20J26(w: Word)
    ensures var i := DecodeInsn(w); EncU20(i.op, i.rd, i.imm20) == w && EncJ26(i.op, i.target26) == w
  {
  }

  lemma EncodeDecodedB21(w: Word)
    requires Opcode(w) == OP_BR
    ensures var i := DecodeInsn(w); EncB21(i.cond, i.link, i.off21) == w
  {
  }
}
