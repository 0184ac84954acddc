/**
 What a fixed32 instruction word means: the fields and micro-ops of Decoder.sv, the immediates of the
 register-read stage, word loads and stores, and execution over an ALU and a memory port that are
 parameters. Core is the machine of the source.
 */
module Isa {
  import opened Common
  import opened IntAlu

  type Word = bv32
  type Byte = bv8
  type Memory = Word -> Byte

  // Opcodes that the model executes; their numbers are those of OpFormat.sv.
  const OP_ADD: Word := 0x00
  const OP_ADDI: Word := 0x01
  const OP_SUB: Word := 0x02
  const OP_SUBI: Word := 0x03
  const OP_AND: Word := 0x04
  const OP_ANDI: Word := 0x05
  const OP_OR: Word := 0x06
  const OP_ORI: Word := 0x07
  const OP_XOR: Word := 0x08
  const OP_XORI: Word := 0x09
  const OP_SLT: Word := 0x0A
  const OP_SLTI: Word := 0x0B
  const OP_SLTU: Word := 0x0C
  const OP_SLTUI: Word := 0x0D
  const OP_CMP: Word := 0x0E
  const OP_CMPI: Word := 0x0F
  const OP_XFER: Word := 0x12
  const OP_LD: Word := 0x1C
  const OP_ST: Word := 0x1D
  const OP_LUI: Word := 0x1E
  const OP_BR: Word := 0x25
  const OP_JMP_ABS: Word := 0x26
  const OP_JSR_ABS: Word := 0x28

  // ------------------------------------------------------------------ fields

  function Opcode(w: Word): Word { w >> 26 }
  function RdField(w: Word): Word { (w >> 20) & 0x3F }
  function Rs1Field(w: Word): Word { (w >> 14) & 0x3F }
  function Rs2Field(w: Word): Word { (w >> 8) & 0x3F }
  function Func7Field(w: Word): Word { (w >> 1) & 0x7F }
  function FBit(w: Word): Word { w & 1 }
  function Imm13Field(w: Word): Word { (w >> 1) & 0x1FFF }
  function Off14Field(w: Word): Word { w & 0x3FFF }
  function Imm20Field(w: Word): Word { w & 0xFFFFF }
  function CondField(w: Word): Word { (w >> 22) & 0xF }
  function LinkField(w: Word): Word { (w >> 21) & 1 }
  function Off21Field(w: Word): Word { w & 0x1FFFFF }
  function Target26Field(w: Word): Word { w & 0x3FFFFFF }

  /** Sign extension of fields of 13, 14 and 21 bits: 0 - sign is all zeros or all ones. */
  function SignExtend13(x: Word): Word { x | ((0 - ((x >> 12) & 1)) << 13) }
  function SignExtend14(x: Word): Word { x | ((0 - ((x >> 13) & 1)) << 14) }
  function SignExtend21(x: Word): Word { x | ((0 - ((x >> 20) & 1)) << 21) }

  // ------------------------------------------------------------------ micro-ops

  datatype Operand = Reg(number: Word) | Imm(value: Word)

  /** What one word decodes to; Other stands for every opcode that the model does not execute. */
  datatype MicroOp =
    | AluOp(code: AluCode, dst: Word, a: Word, b: Operand, setFlags: bool)
    | LoadOp(dst: Word, base: Word, offset: Word)
    | StoreOp(src: Word, base: Word, offset: Word)
    | Other

  /** Register-register operation: the result register and the flag bit are those of the word. */
  function RegReg(code: AluCode, w: Word): MicroOp
  {
    AluOp(code, RdField(w), Rs1Field(w), Reg(Rs2Field(w)), FBit(w) == 1)
  }

  function SignedImm(code: AluCode, w: Word): MicroOp
  {
    AluOp(code, RdField(w), Rs1Field(w), Imm(SignExtend13(Imm13Field(w))), FBit(w) == 1)
  }

  function UnsignedImm(code: AluCode, w: Word): MicroOp
  {
    AluOp(code, RdField(w), Rs1Field(w), Imm(Imm13Field(w)), FBit(w) == 1)
  }

  /** A 20-bit immediate of LUI goes into the upper bits. */
  function UpperImm(imm20: Word): Word { imm20 << 12 }

  function Decode(w: Word): MicroOp { DecodeAs(Opcode(w), w) }

  /** The micro-op of a word with this opcode. */
  function DecodeAs(op: Word, w: Word): MicroOp
  {
    if op == OP_ADD then RegReg(AcAdd, w)
    else if op == OP_ADDI then SignedImm(AcAdd, w)
    else if op == OP_SUB then RegReg(AcSub, w)
    else if op == OP_SUBI then SignedImm(AcSub, w)
    else if op == OP_AND then RegReg(AcAnd, w)
    else if op == OP_ANDI then UnsignedImm(AcAnd, w)
    else if op == OP_OR then RegReg(AcOrr, w)
    else if op == OP_ORI then UnsignedImm(AcOrr, w)
    else if op == OP_XOR then RegReg(AcEor, w)
    else if op == OP_XORI then UnsignedImm(AcEor, w)
    else if op == OP_SLT then RegReg(AcSlt, w)
    else if op == OP_SLTI then SignedImm(AcSlt, w)
    else if op == OP_SLTU then RegReg(AcSltu, w)
    else if op == OP_SLTUI then UnsignedImm(AcSltu, w)
    else if op == OP_CMP then AluOp(AcSub, 0, Rs1Field(w), Reg(Rs2Field(w)), true)
    else if op == OP_CMPI then AluOp(AcSub, 0, Rs1Field(w), Imm(SignExtend13(Imm13Field(w))), true)
    else if op == OP_XFER then AluOp(AcAdd, RdField(w), Rs1Field(w), Reg(0), false)
    else if op == OP_LD then LoadOp(RdField(w), Rs1Field(w), SignExtend14(Off14Field(w)))
    else if op == OP_ST then StoreOp(RdField(w), Rs1Field(w), SignExtend14(Off14Field(w)))
    else if op == OP_LUI then AluOp(AcAdd, RdField(w), 0, Imm(UpperImm(Imm20Field(w))), false)
    else Other
  }

  // ------------------------------------------------------------------ execution

  /** The ALU's result and flags, and how memory reads and writes a word. */
  datatype Machine = Machine(
    data: (AluCode, Word, Word) -> Word,
    flags: (AluCode, Word, Word) -> Flags,
    load: (Memory, Word) -> Word,
    store: (Memory, Word, Word) -> Memory)

  /** 64 registers by number, memory, flags. */
  datatype Cpu = Cpu(regs: Word -> Word, mem: Memory, flags: Flags)

  /** Register 0 always reads as zero. */
  function Read(s: Cpu, r: Word): Word { if r == 0 then 0 else s.regs(r) }

  /** A write to register 0 is dropped. */
  function Write(s: Cpu, r: Word, v: Word): Cpu
  {
    if r == 0 then s else s.(regs := (q: Word) => if q == r then v else s.regs(q))
  }

  function OperandValue(s: Cpu, b: Operand): Word
  {
    match b
    case Reg(r) => Read(s, r)
    case Imm(v) => v
  }

  /** Addresses and register sums come from the same adder. */
  function Plus(m: Machine, a: Word, b: Word): Word { m.data(AcAdd, a, b) }

  function Execute(m: Machine, s: Cpu, op: MicroOp): Option<Cpu>
  {
    match op
    case AluOp(code, dst, a, b, setFlags) =>
      var x, y := Read(s, a), OperandValue(s, b);
      Some(Write(if setFlags then s.(flags := m.flags(code, x, y)) else s, dst, m.data(code, x, y)))
    case LoadOp(dst, base, offset) => Some(Write(s, dst, m.load(s.mem, Plus(m, Read(s, base), offset))))
    case StoreOp(src, base, offset) => Some(s.(mem := m.store(s.mem, Plus(m, Read(s, base), offset), Read(s, src))))
    case Other => None
  }

  /** Runs a sequence of micro-ops from the first to the last. */
  function RunOps(m: Machine, s: Cpu, ops: seq<MicroOp>): Option<Cpu>
    decreases |ops|
  {
    if ops == [] then Some(s)
    else
      match Execute(m, s, ops[0])
      case None => None
      case Some(t) => RunOps(m, t, ops[1..])
  }

  function DecodeAll(words: seq<Word>): (ops: seq<MicroOp>)
    ensures |ops| == |words| && forall i :: 0 <= i < |ops| ==> ops[i] == Decode(words[i])
  {
    if words == [] then [] else [Decode(words[0])] + DecodeAll(words[1..])
  }

  /** One word is one micro-op. */
  function Run(m: Machine, s: Cpu, words: seq<Word>): Option<Cpu> { RunOps(m, s, DecodeAll(words)) }

  lemma DecodeConcat(first: seq<Word>, second: seq<Word>)
    ensures DecodeAll(first + second) == DecodeAll(first) + DecodeAll(second)
  {
  }

  /** A sequence runs as its first part followed by its second. */
  lemma {:induction false} RunOpsConcat(m: Machine, s: Cpu, first: seq<MicroOp>, second: seq<MicroOp>)
    ensures RunOps(m, s, first + second) ==
            (match RunOps(m, s, first) case None => None case Some(t) => RunOps(m, t, second))
    decreases |first|
  {
    if first == [] { assert first + second == second; }
    else {
      assert (first + second)[1..] == first[1..] + second;
      match Execute(m, s, first[0]) {
        case None =>
        case Some(t) => RunOpsConcat(m, t, first[1..], second);
      }
    }
  }
}
