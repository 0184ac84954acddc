/**
 How m65f32asm.c lowers constants, addressing modes and two-operand arithmetic to fixed32 words, and
 the proof that the words mean what the operand means.
 */
module AsmLowering {
  import opened Common
  import opened IntAlu
  import opened Isa
  import opened AsmEncoding

  type RegNum = r: Word | r < 64

  const REG_ZERO: RegNum := 0
  const REG_X: RegNum := 57
  const REG_Y: RegNum := 58
  const REG_D: RegNum := 60
  const REG_B: RegNum := 61
  const REG_T: RegNum := 63

  /** An operand value: the assembler computes with 64 bits. */
  type Wide = bv64

  /** The 32 bits that a cast keeps. */
  function Low(x: Wide): Word { (x & 0xFFFF_FFFF) as Word }

  /** -4096 <= x <= 4095, read as a signed word. */
  predicate Fits13(x: Word) { x <= 0xFFF || x >= 0xFFFF_F000 }

  /** -8192 <= x <= 8191, read as a signed word. */
  predicate Fits14(x: Word) { x <= 0x1FFF || x >= 0xFFFF_E000 }

  // ------------------------------------------------------------------ what is emitted

  function LoadConst(rd: RegNum, val: Word): seq<Word>
  {
    if Fits13(val) then [EncI13F(OP_ADDI, rd, REG_ZERO, val, 0)]
    else if val & 0xFFF != 0 then [EncU20(OP_LUI, rd, val >> 12), EncI13F(OP_ORI, rd, rd, val & 0xFFF, 0)]
    else [EncU20(OP_LUI, rd, val >> 12)]
  }

  datatype AddrMode = AmDp | AmDpx | AmDpy | AmAbs | AmAbsx | AmAbsy | AmInd | AmIndx | AmIndy | AmImm | AmOther

  /** An aligned direct-page address 0 .. 252 names a register of the window. */
  function DpToReg(dp: Wide): Option<RegNum>
  {
    if dp <= 252 && dp & 3 == 0 then Some((dp >> 2) as Word) else None
  }

  /** Register n of the window is at direct-page address 4 * n, and no other operand value names it. */
  lemma WindowOfRegister(imm: Wide, n: RegNum)
    ensures DpToReg(imm) == Some(n) <==> imm == 4 * (n as Wide)
  {
  }

  /** The words that put an address into a base register, and the base and offset of the access itself. */
  datatype Address = Address(setup: seq<Word>, base: RegNum, offset: Word)

  function AddInsn(rd: RegNum, a: RegNum, b: RegNum): Word { EncR3(OP_ADD, rd, a, b, 0, 0) }

  function LdInsn(rt: RegNum, base: RegNum, off: Word): Word { EncM14(OP_LD, rt, base, off) }

  function Indexed(index: RegNum, imm: Word): Address
  {
    if Fits14(imm) then Address([AddInsn(REG_T, REG_B, index)], REG_T, imm & 0x3FFF)
    else Address([AddInsn(REG_T, REG_B, index)] + LoadConst(REG_T, imm)
                 + [AddInsn(REG_T, REG_T, index), AddInsn(REG_T, REG_B, REG_T)], REG_T, 0)
  }

  function Absolute(x: Word): Address
  {
    if Fits14(x) then Address([], REG_B, x & 0x3FFF)
    else Address(LoadConst(REG_T, x) + [AddInsn(REG_T, REG_B, REG_T)], REG_T, 0)
  }

  function Direct(index: RegNum, x: Word): Address { Address([AddInsn(REG_T, REG_D, index)], REG_T, x & 0x3FFF) }

  function Indirect(window: Option<RegNum>, x: Word): Address
  {
    if window.Some? then Address([], window.value, 0) else Address([LdInsn(REG_T, REG_D, x & 0x3FFF)], REG_T, 0)
  }

  function IndirectX(window: Option<RegNum>, x: Word): Address
  {
    if window.Some? then Address([AddInsn(REG_T, window.value, REG_X)], REG_T, 0)
    else Address([AddInsn(REG_T, REG_D, REG_X), LdInsn(REG_T, REG_T, x & 0x3FFF)], REG_T, 0)
  }

  function IndirectY(window: Option<RegNum>, x: Word): Address
  {
    if window.Some? then Address([AddInsn(REG_T, window.value, REG_Y)], REG_T, 0)
    else Address([LdInsn(REG_T, REG_D, x & 0x3FFF), AddInsn(REG_T, REG_T, REG_Y)], REG_T, 0)
  }

  /** The address of a memory operand: its 32 bits, and the window register that it names, if any. */
  function AddressAt(am: AddrMode, x: Word, window: Option<RegNum>): Address
    requires InMemory(am)
  {
    match am
    case AmDp => Address([], REG_D, x & 0x3FFF)
    case AmDpx => Direct(REG_X, x)
    case AmDpy => Direct(REG_Y, x)
    case AmAbs => Absolute(x)
    case AmAbsx => Indexed(REG_X, x)
    case AmAbsy => Indexed(REG_Y, x)
    case AmInd => Indirect(window, x)
    case AmIndx => IndirectX(window, x)
    case AmIndy => IndirectY(window, x)
  }

  /** The modes that loads and stores support. */
  predicate InMemory(am: AddrMode) { !am.AmImm? && !am.AmOther? }

  /** A load or a store; a direct-page register operand is a register move. */
  function MemAccess(op: Word, data: RegNum, am: AddrMode, imm: Wide): Option<seq<Word>>
  {
    if am == AmDp && DpToReg(imm).Some? then
      var rn := DpToReg(imm).value;
      Some([if op == OP_LD then EncR3(OP_XFER, data, rn, 0, 0, 0) else EncR3(OP_XFER, rn, data, 0, 0, 0)])
    else if !InMemory(am) then None
    else
      var a := AddressAt(am, Low(imm), DpToReg(imm));
      Some(a.setup + [EncM14(op, data, a.base, a.offset)])
  }

  function AluMem(rr: Word, ri: Word, dst: RegNum, src1: RegNum, am: AddrMode, imm: Wide): Option<seq<Word>>
  {
    if am == AmImm then
      if Fits13(Low(imm)) then Some([EncI13F(ri, dst, src1, Low(imm) & 0x1FFF, 1)])
      else Some(LoadConst(REG_T, Low(imm)) + [EncR3(rr, dst, src1, REG_T, 0, 1)])
    else if am == AmDp && DpToReg(imm).Some? then Some([EncR3(rr, dst, src1, DpToReg(imm).value, 0, 1)])
    else
      match MemAccess(OP_LD, REG_T, am, imm)
      case None => None
      case Some(words) => Some(words + [EncR3(rr, dst, src1, REG_T, 0, 1)])
  }

  // ------------------------------------------------------------------ what the words decode to

  /** The offset that the hardware adds for a 14-bit field. */
  function OffsetValue(off: Word): Word { SignExtend14(off & 0x3FFF) }

  function AddOp(rd: RegNum, a: RegNum, b: RegNum): MicroOp { AluOp(AcAdd, rd, a, Reg(b), false) }

  function LdOp(rt: RegNum, base: RegNum, off: Word): MicroOp { LoadOp(rt, base, OffsetValue(off)) }

  /** What LUI loads: the upper 20 bits. */
  function Upper(val: Word): Word { UpperImm((val >> 12) & 0xFFFFF) }

  function ConstOps(rd: RegNum, val: Word): seq<MicroOp>
  {
    if Fits13(val) then [AluOp(AcAdd, rd, 0, Imm(val), false)]
    else if val & 0xFFF != 0 then
      [AluOp(AcAdd, rd, 0, Imm(Upper(val)), false), AluOp(AcOrr, rd, rd, Imm(val & 0xFFF), false)]
    else [AluOp(AcAdd, rd, 0, Imm(Upper(val)), false)]
  }

  lemma DecodeAdd(rd: RegNum, a: RegNum, b: RegNum)
    ensures Decode(AddInsn(rd, a, b)) == AddOp(rd, a, b)
  {
  }

  lemma DecodeMove(rd: RegNum, a: RegNum)
    ensures Decode(EncR3(OP_XFER, rd, a, 0, 0, 0)) == AluOp(AcAdd, rd, a, Reg(0), false)
  {
  }

  lemma DecodeLoad(rt: RegNum, base: RegNum, off: Word)
    ensures Decode(LdInsn(rt, base, off)) == LdOp(rt, base, off)
  {
  }

  lemma DecodeStore(rt: RegNum, base: RegNum, off: Word)
    ensures Decode(EncM14(OP_ST, rt, base, off)) == StoreOp(rt, base, OffsetValue(off))
  {
  }

  lemma DecodeAddImm(rd: RegNum, val: Word)
    requires Fits13(val)
    ensures Decode(EncI13F(OP_ADDI, rd, REG_ZERO, val, 0)) == AluOp(AcAdd, rd, 0, Imm(val), false)
  {
    ShortImmediate(val);
  }

  lemma DecodeUpper(rd: RegNum, val: Word)
    ensures Decode(EncU20(OP_LUI, rd, val >> 12)) == AluOp(AcAdd, rd, 0, Imm(Upper(val)), false)
  {
  }

  lemma DecodeOrLow(rd: RegNum, val: Word)
    ensures Decode(EncI13F(OP_ORI, rd, rd, val & 0xFFF, 0)) == AluOp(AcOrr, rd, rd, Imm(val & 0xFFF), false)
  {
  }

  /** A short immediate survives the cut to 13 bits and the hardware's sign extension. */
  lemma ShortImmediate(x: Word)
    requires Fits13(x)
    ensures SignExtend13(x & 0x1FFF) == x
  {
  }

  /** A short offset survives the cut to 14 bits and the hardware's sign extension. */
  lemma ShortOffset(x: Word)
    requires Fits14(x)
    ensures OffsetValue(x & 0x3FFF) == x
  {
  }

  lemma ZeroOffset()
    ensures OffsetValue(0) == 0
  {
  }

  lemma DecodeConst(rd: RegNum, val: Word)
    ensures DecodeAll(LoadConst(rd, val)) == ConstOps(rd, val)
  {
    if Fits13(val) { DecodeAddImm(rd, val); }
    else {
      DecodeUpper(rd, val);
      DecodeOrLow(rd, val);
    }
  }

  // ------------------------------------------------------------------ what the operands mean

  /** Where an operand lives: in a window register or in memory. */
  datatype Location = Window(number: RegNum) | Memory(address: Word)

  /** The effective address of a memory mode in state s, from the mode alone. */
  function EffectiveAddress(m: Machine, s: Cpu, am: AddrMode, x: Word, window: Option<RegNum>): Word
    requires InMemory(am)
  {
    var d, b := Read(s, REG_D), Read(s, REG_B);
    match am
    case AmDp => Plus(m, d, x)
    case AmDpx => Plus(m, Plus(m, d, Read(s, REG_X)), x)
    case AmDpy => Plus(m, Plus(m, d, Read(s, REG_Y)), x)
    case AmAbs => Plus(m, b, x)
    case AmAbsx => Plus(m, Plus(m, b, Read(s, REG_X)), x)
    case AmAbsy => Plus(m, Plus(m, b, Read(s, REG_Y)), x)
    case AmInd => Pointer(m, s, window, x)
    case AmIndx => PointerX(m, s, window, x)
    case AmIndy => Plus(m, Pointer(m, s, window, x), Read(s, REG_Y))
  }

  /** The pointer of an indirect mode: a window register, or a word of the direct page. */
  function Pointer(m: Machine, s: Cpu, window: Option<RegNum>, x: Word): Word
  {
    if window.Some? then Read(s, window.value) else m.load(s.mem, Plus(m, Read(s, REG_D), x))
  }

  /** Indexed indirect: X is added to a window register, or before the word of the direct page is read. */
  function PointerX(m: Machine, s: Cpu, window: Option<RegNum>, x: Word): Word
  {
    if window.Some? then Plus(m, Read(s, window.value), Read(s, REG_X))
    else m.load(s.mem, Plus(m, Plus(m, Read(s, REG_D), Read(s, REG_X)), x))
  }

  /** A direct-page operand that names a window register. */
  predicate IsWindow(am: AddrMode, imm: Wide) { am.AmDp? && DpToReg(imm).Some? }

  /** The effective location of an operand. */
  function Effective(m: Machine, s: Cpu, am: AddrMode, imm: Wide): Location
    requires InMemory(am)
  {
    if IsWindow(am, imm) then Window(DpToReg(imm).value)
    else Memory(EffectiveAddress(m, s, am, Low(imm), DpToReg(imm)))
  }

  function Contents(m: Machine, s: Cpu, l: Location): Word
  {
    match l
    case Window(n) => Read(s, n)
    case Memory(a) => m.load(s.mem, a)
  }

  /** Direct-page offsets are cut to 14 bits; the absolute modes take any 32-bit offset. */
  predicate OffsetOk(am: AddrMode, x: Word)
  {
    am.AmAbs? || am.AmAbsx? || am.AmAbsy? || Fits14(x)
  }

  // What the lowering needs of the ALU: addition has the neutral element 0 and its terms may be
  // regrouped, and or joins the two parts of a constant.

  predicate ZeroLaw(m: Machine, a: Word) { Plus(m, a, 0) == a && Plus(m, 0, a) == a }

  predicate SwapLaw(m: Machine, a: Word, b: Word, c: Word) { Plus(m, a, Plus(m, c, b)) == Plus(m, Plus(m, a, b), c) }

  predicate JoinLaw(m: Machine, val: Word) { m.data(AcOrr, Upper(val), val & 0xFFF) == val }

  ghost predicate Lawful(m: Machine)
  {
    && (forall a: Word :: ZeroLaw(m, a))
    && (forall a: Word, b: Word, c: Word :: SwapLaw(m, a, b, c))
    && (forall val: Word :: JoinLaw(m, val))
  }

  // ------------------------------------------------------------------ steps

  /** Register rd gets v; everything else is as before. */
  ghost predicate Sets(s: Cpu, t: Cpu, rd: RegNum, v: Word)
  {
    t.mem == s.mem && t.flags == s.flags && Read(t, rd) == v && forall r: Word :: r != rd ==> Read(t, r) == Read(s, r)
  }

  lemma WriteSets(s: Cpu, rd: RegNum, v: Word)
    requires rd != 0
    ensures Sets(s, Write(s, rd, v), rd, v)
  {
  }

  lemma RunWrite(m: Machine, s: Cpu, op: MicroOp, rd: RegNum, v: Word) returns (t: Cpu)
    requires rd != 0 && Execute(m, s, op) == Some(Write(s, rd, v))
    ensures RunOps(m, s, [op]) == Some(t) && Sets(s, t, rd, v)
  {
    assert [op][1..] == [];
    WriteSets(s, rd, v);
    t := Write(s, rd, v);
  }

  lemma Chain(m: Machine, s: Cpu, first: seq<MicroOp>, t: Cpu, second: seq<MicroOp>, u: Cpu)
    requires RunOps(m, s, first) == Some(t) && RunOps(m, t, second) == Some(u)
    ensures RunOps(m, s, first + second) == Some(u)
  {
    RunOpsConcat(m, s, first, second);
  }

  lemma OneImm(m: Machine, s: Cpu, rd: RegNum, val: Word) returns (t: Cpu)
    requires Lawful(m) && rd != 0
    ensures RunOps(m, s, [AluOp(AcAdd, rd, 0, Imm(val), false)]) == Some(t) && Sets(s, t, rd, val)
  {
    assert ZeroLaw(m, val);
    t := RunWrite(m, s, AluOp(AcAdd, rd, 0, Imm(val), false), rd, val);
  }

  lemma OneOr(m: Machine, s: Cpu, rd: RegNum, val: Word) returns (t: Cpu)
    requires rd != 0
    ensures RunOps(m, s, [AluOp(AcOrr, rd, rd, Imm(val), false)]) == Some(t)
    ensures Sets(s, t, rd, m.data(AcOrr, Read(s, rd), val))
  {
    t := RunWrite(m, s, AluOp(AcOrr, rd, rd, Imm(val), false), rd, m.data(AcOrr, Read(s, rd), val));
  }

  lemma OneAdd(m: Machine, s: Cpu, rd: RegNum, a: RegNum, b: RegNum) returns (t: Cpu)
    requires rd != 0
    ensures RunOps(m, s, [AddOp(rd, a, b)]) == Some(t) && Sets(s, t, rd, Plus(m, Read(s, a), Read(s, b)))
  {
    t := RunWrite(m, s, AddOp(rd, a, b), rd, Plus(m, Read(s, a), Read(s, b)));
  }

  lemma OneLoad(m: Machine, s: Cpu, rt: RegNum, base: RegNum, off: Word) returns (t: Cpu)
    requires rt != 0
    ensures RunOps(m, s, [LdOp(rt, base, off)]) == Some(t)
    ensures Sets(s, t, rt, m.load(s.mem, Plus(m, Read(s, base), OffsetValue(off))))
  {
    t := RunWrite(m, s, LdOp(rt, base, off), rt, m.load(s.mem, Plus(m, Read(s, base), OffsetValue(off))));
  }

  // ------------------------------------------------------------------ constants

  lemma UpperOnly(val: Word)
    requires val & 0xFFF == 0
    ensures Upper(val) == val
  {
  }

  lemma ConstOpsLoad(m: Machine, s: Cpu, rd: RegNum, val: Word) returns (t: Cpu)
    requires Lawful(m) && rd != 0
    ensures RunOps(m, s, ConstOps(rd, val)) == Some(t) && Sets(s, t, rd, val)
  {
    if Fits13(val) { t := OneImm(m, s, rd, val); }
    else {
      var u := OneImm(m, s, rd, Upper(val));
      if val & 0xFFF != 0 {
        t := OneOr(m, u, rd, val & 0xFFF);
        Chain(m, s, [AluOp(AcAdd, rd, 0, Imm(Upper(val)), false)], u,
              [AluOp(AcOrr, rd, rd, Imm(val & 0xFFF), false)], t);
        assert JoinLaw(m, val);
      } else {
        UpperOnly(val);
        t := u;
      }
    }
  }

  /** emit_load_const leaves exactly the constant in any register but 0, and changes nothing else. */
  lemma LoadConstExact(m: Machine, s: Cpu, rd: RegNum, val: Word) returns (t: Cpu)
    requires Lawful(m) && rd != 0
    ensures Run(m, s, LoadConst(rd, val)) == Some(t) && Sets(s, t, rd, val)
  {
    DecodeConst(rd, val);
    t := ConstOpsLoad(m, s, rd, val);
  }

  // ------------------------------------------------------------------ addresses

  function IndexedOps(index: RegNum, x: Word): seq<MicroOp>
  {
    if Fits14(x) then [AddOp(REG_T, REG_B, index)]
    else
      [AddOp(REG_T, REG_B, index)] + ConstOps(REG_T, x) + ([AddOp(REG_T, REG_T, index)] + [AddOp(REG_T, REG_B, REG_T)])
  }

  function AbsoluteOps(x: Word): seq<MicroOp>
  {
    if Fits14(x) then [] else ConstOps(REG_T, x) + [AddOp(REG_T, REG_B, REG_T)]
  }

  function IndirectOps(window: Option<RegNum>, x: Word): seq<MicroOp>
  {
    if window.Some? then [] else [LdOp(REG_T, REG_D, x & 0x3FFF)]
  }

  function IndirectXOps(window: Option<RegNum>, x: Word): seq<MicroOp>
  {
    if window.Some? then [AddOp(REG_T, window.value, REG_X)]
    else [AddOp(REG_T, REG_D, REG_X)] + [LdOp(REG_T, REG_T, x & 0x3FFF)]
  }

  function IndirectYOps(window: Option<RegNum>, x: Word): seq<MicroOp>
  {
    if window.Some? then [AddOp(REG_T, window.value, REG_Y)]
    else [LdOp(REG_T, REG_D, x & 0x3FFF)] + [AddOp(REG_T, REG_T, REG_Y)]
  }

  lemma DecodeIndexed(index: RegNum, x: Word)
    ensures DecodeAll(Indexed(index, x).setup) == IndexedOps(index, x)
  {
    DecodeAdd(REG_T, REG_B, index);
    if !Fits14(x) {
      DecodeConst(REG_T, x);
      DecodeAdd(REG_T, REG_T, index);
      DecodeAdd(REG_T, REG_B, REG_T);
      DecodeConcat([AddInsn(REG_T, REG_B, index)] + LoadConst(REG_T, x),
                   [AddInsn(REG_T, REG_T, index), AddInsn(REG_T, REG_B, REG_T)]);
      DecodeConcat([AddInsn(REG_T, REG_B, index)], LoadConst(REG_T, x));
    }
  }

  lemma DecodeIndirectX(window: Option<RegNum>, x: Word)
    ensures DecodeAll(IndirectX(window, x).setup) == IndirectXOps(window, x)
  {
    if window.Some? { DecodeAdd(REG_T, window.value, REG_X); }
    else {
      DecodeAdd(REG_T, REG_D, REG_X);
      DecodeLoad(REG_T, REG_T, x & 0x3FFF);
    }
  }

  lemma DecodeIndirectY(window: Option<RegNum>, x: Word)
    ensures DecodeAll(IndirectY(window, x).setup) == IndirectYOps(window, x)
  {
    if window.Some? { DecodeAdd(REG_T, window.value, REG_Y); }
    else {
      DecodeLoad(REG_T, REG_D, x & 0x3FFF);
      DecodeAdd(REG_T, REG_T, REG_Y);
    }
  }

  lemma DecodeIndirect(window: Option<RegNum>, x: Word)
    ensures DecodeAll(Indirect(window, x).setup) == IndirectOps(window, x)
  {
    if window.None? { DecodeLoad(REG_T, REG_D, x & 0x3FFF); }
  }

  lemma DecodeAbsolute(x: Word)
    ensures DecodeAll(Absolute(x).setup) == AbsoluteOps(x)
  {
    if !Fits14(x) {
      DecodeConst(REG_T, x);
      DecodeAdd(REG_T, REG_B, REG_T);
      DecodeConcat(LoadConst(REG_T, x), [AddInsn(REG_T, REG_B, REG_T)]);
    }
  }

  lemma DecodeDirect(index: RegNum, x: Word)
    ensures DecodeAll(Direct(index, x).setup) == [AddOp(REG_T, REG_D, index)]
  {
    DecodeAdd(REG_T, REG_D, index);
  }

  /** A set-up changes only T, and base register plus offset is then the target address. */
  ghost predicate Addresses(m: Machine, s: Cpu, t: Cpu, base: RegNum, offset: Word, target: Word)
  {
    && t.mem == s.mem && t.flags == s.flags
    && (forall r: Word :: r != REG_T || base != REG_T ==> Read(t, r) == Read(s, r))
    && Plus(m, Read(t, base), OffsetValue(offset)) == target
  }

  lemma ShortOffsetAddresses(m: Machine, s: Cpu, t: Cpu, sum: Word, x: Word)
    requires Sets(s, t, REG_T, sum) && Fits14(x)
    ensures Addresses(m, s, t, REG_T, x & 0x3FFF, Plus(m, sum, x))
  {
    ShortOffset(x);
  }

  lemma NoOffsetAddresses(m: Machine, s: Cpu, t: Cpu, target: Word)
    requires Lawful(m) && Sets(s, t, REG_T, target)
    ensures Addresses(m, s, t, REG_T, 0, target)
  {
    ZeroOffset();
    assert ZeroLaw(m, target);
  }

  lemma SetsTwice(s: Cpu, t: Cpu, u: Cpu, rd: RegNum, v: Word, w: Word)
    requires Sets(s, t, rd, v) && Sets(t, u, rd, w)
    ensures Sets(s, u, rd, w)
  {
  }

  /** With a far offset T first holds base plus index, then the offset, and the sum is formed anew. */
  lemma FarIndexed(m: Machine, s: Cpu, index: RegNum, x: Word) returns (t: Cpu)
    requires Lawful(m) && index != REG_T && !Fits14(x)
    ensures RunOps(m, s, IndexedOps(index, x)) == Some(t)
    ensures Sets(s, t, REG_T, Plus(m, Plus(m, Read(s, REG_B), Read(s, index)), x))
  {
    var a := OneAdd(m, s, REG_T, REG_B, index);
    var b := ConstOpsLoad(m, a, REG_T, x);
    var c := OneAdd(m, b, REG_T, REG_T, index);
    t := OneAdd(m, c, REG_T, REG_B, REG_T);
    Chain(m, s, [AddOp(REG_T, REG_B, index)], a, ConstOps(REG_T, x), b);
    Chain(m, b, [AddOp(REG_T, REG_T, index)], c, [AddOp(REG_T, REG_B, REG_T)], t);
    Chain(m, s, [AddOp(REG_T, REG_B, index)] + ConstOps(REG_T, x), b,
          [AddOp(REG_T, REG_T, index)] + [AddOp(REG_T, REG_B, REG_T)], t);
    assert SwapLaw(m, Read(s, REG_B), Read(s, index), x);
    assert Read(b, index) == Read(s, index) && Read(c, REG_B) == Read(s, REG_B);
  }

  lemma IndexedComputes(m: Machine, s: Cpu, index: RegNum, x: Word) returns (t: Cpu)
    requires Lawful(m) && index != REG_T
    ensures RunOps(m, s, IndexedOps(index, x)) == Some(t)
    ensures Addresses(m, s, t, REG_T, Indexed(index, x).offset, Plus(m, Plus(m, Read(s, REG_B), Read(s, index)), x))
  {
    if Fits14(x) {
      t := OneAdd(m, s, REG_T, REG_B, index);
      ShortOffsetAddresses(m, s, t, Plus(m, Read(s, REG_B), Read(s, index)), x);
    } else {
      t := FarIndexed(m, s, index, x);
      NoOffsetAddresses(m, s, t, Plus(m, Plus(m, Read(s, REG_B), Read(s, index)), x));
    }
  }

  /** The words of an address run to a state in which it addresses the target. */
  ghost predicate Computes(m: Machine, s: Cpu, t: Cpu, a: Address, target: Word)
  {
    Run(m, s, a.setup) == Some(t) && Addresses(m, s, t, a.base, a.offset, target)
  }

  lemma IndexedAddress(m: Machine, s: Cpu, index: RegNum, x: Word) returns (t: Cpu)
    requires Lawful(m) && index != REG_T
    ensures Computes(m, s, t, Indexed(index, x), Plus(m, Plus(m, Read(s, REG_B), Read(s, index)), x))
  {
    DecodeIndexed(index, x);
    t := IndexedComputes(m, s, index, x);
  }

  lemma AbsoluteFar(m: Machine, s: Cpu, x: Word) returns (t: Cpu)
    requires Lawful(m) && !Fits14(x)
    ensures RunOps(m, s, AbsoluteOps(x)) == Some(t) && Sets(s, t, REG_T, Plus(m, Read(s, REG_B), x))
  {
    var u := ConstOpsLoad(m, s, REG_T, x);
    t := OneAdd(m, u, REG_T, REG_B, REG_T);
    Chain(m, s, ConstOps(REG_T, x), u, [AddOp(REG_T, REG_B, REG_T)], t);
    SetsTwice(s, u, t, REG_T, x, Plus(m, Read(s, REG_B), x));
  }

  lemma AbsoluteAddress(m: Machine, s: Cpu, x: Word) returns (t: Cpu)
    requires Lawful(m)
    ensures Computes(m, s, t, Absolute(x), Plus(m, Read(s, REG_B), x))
  {
    DecodeAbsolute(x);
    if Fits14(x) {
      t := s;
      ShortOffset(x);
    } else {
      t := AbsoluteFar(m, s, x);
      NoOffsetAddresses(m, s, t, Plus(m, Read(s, REG_B), x));
    }
  }

  lemma DirectAddress(m: Machine, s: Cpu, index: RegNum, x: Word) returns (t: Cpu)
    requires Fits14(x)
    ensures Computes(m, s, t, Direct(index, x), Plus(m, Plus(m, Read(s, REG_D), Read(s, index)), x))
  {
    DecodeDirect(index, x);
    t := OneAdd(m, s, REG_T, REG_D, index);
    ShortOffsetAddresses(m, s, t, Plus(m, Read(s, REG_D), Read(s, index)), x);
  }

  /** T gets the word of the direct page at offset x. */
  lemma PointerLoaded(m: Machine, s: Cpu, x: Word) returns (t: Cpu)
    requires Fits14(x)
    ensures RunOps(m, s, [LdOp(REG_T, REG_D, x & 0x3FFF)]) == Some(t)
    ensures Sets(s, t, REG_T, m.load(s.mem, Plus(m, Read(s, REG_D), x)))
  {
    t := OneLoad(m, s, REG_T, REG_D, x & 0x3FFF);
    ShortOffset(x);
  }

  lemma IndirectAddress(m: Machine, s: Cpu, window: Option<RegNum>, x: Word) returns (t: Cpu)
    requires Lawful(m) && Fits14(x)
    ensures Computes(m, s, t, Indirect(window, x), Pointer(m, s, window, x))
  {
    DecodeIndirect(window, x);
    if window.Some? {
      t := s;
      ZeroOffset();
      assert ZeroLaw(m, Read(s, window.value));
    } else {
      t := PointerLoaded(m, s, x);
      NoOffsetAddresses(m, s, t, Pointer(m, s, window, x));
    }
  }

  lemma IndirectXComputes(m: Machine, s: Cpu, window: Option<RegNum>, x: Word) returns (t: Cpu)
    requires Lawful(m) && Fits14(x)
    ensures RunOps(m, s, IndirectXOps(window, x)) == Some(t) && Sets(s, t, REG_T, PointerX(m, s, window, x))
  {
    if window.Some? { t := OneAdd(m, s, REG_T, window.value, REG_X); }
    else {
      var u := OneAdd(m, s, REG_T, REG_D, REG_X);
      t := OneLoad(m, u, REG_T, REG_T, x & 0x3FFF);
      ShortOffset(x);
      Chain(m, s, [AddOp(REG_T, REG_D, REG_X)], u, [LdOp(REG_T, REG_T, x & 0x3FFF)], t);
    }
  }

  lemma IndirectYComputes(m: Machine, s: Cpu, window: Option<RegNum>, x: Word) returns (t: Cpu)
    requires Lawful(m) && Fits14(x)
    ensures RunOps(m, s, IndirectYOps(window, x)) == Some(t)
    ensures Sets(s, t, REG_T, Plus(m, Pointer(m, s, window, x), Read(s, REG_Y)))
  {
    if window.Some? { t := OneAdd(m, s, REG_T, window.value, REG_Y); }
    else {
      var u := PointerLoaded(m, s, x);
      t := OneAdd(m, u, REG_T, REG_T, REG_Y);
      Chain(m, s, [LdOp(REG_T, REG_D, x & 0x3FFF)], u, [AddOp(REG_T, REG_T, REG_Y)], t);
    }
  }

  lemma IndirectXAddress(m: Machine, s: Cpu, window: Option<RegNum>, x: Word) returns (t: Cpu)
    requires Lawful(m) && Fits14(x)
    ensures Computes(m, s, t, IndirectX(window, x), PointerX(m, s, window, x))
  {
    DecodeIndirectX(window, x);
    t := IndirectXComputes(m, s, window, x);
    NoOffsetAddresses(m, s, t, PointerX(m, s, window, x));
  }

  lemma IndirectYAddress(m: Machine, s: Cpu, window: Option<RegNum>, x: Word) returns (t: Cpu)
    requires Lawful(m) && Fits14(x)
    ensures Computes(m, s, t, IndirectY(window, x), Plus(m, Pointer(m, s, window, x), Read(s, REG_Y)))
  {
    DecodeIndirectY(window, x);
    t := IndirectYComputes(m, s, window, x);
    NoOffsetAddresses(m, s, t, Plus(m, Pointer(m, s, window, x), Read(s, REG_Y)));
  }

  /** For every memory mode the set-up computes exactly the effective address. */
  lemma SetupComputes(m: Machine, s: Cpu, am: AddrMode, x: Word, window: Option<RegNum>) returns (t: Cpu)
    requires Lawful(m) && InMemory(am) && OffsetOk(am, x)
    ensures Computes(m, s, t, AddressAt(am, x, window), EffectiveAddress(m, s, am, x, window))
  {
    match am {
      case AmDp =>
        t := s;
        ShortOffset(x);
      case AmDpx => t := DirectAddress(m, s, REG_X, x);
      case AmDpy => t := DirectAddress(m, s, REG_Y, x);
      case AmAbs => t := AbsoluteAddress(m, s, x);
      case AmAbsx => t := IndexedAddress(m, s, REG_X, x);
      case AmAbsy => t := IndexedAddress(m, s, REG_Y, x);
      case AmInd => t := IndirectAddress(m, s, window, x);
      case AmIndx => t := IndirectXAddress(m, s, window, x);
      case AmIndy => t := IndirectYAddress(m, s, window, x);
    }
  }
}
