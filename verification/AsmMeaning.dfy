/** Lowering preserves meaning: what the words of a load, a store or an arithmetic operand do to the machine. */
module AsmMeaning {
  import opened Common
  import opened IntAlu
  import opened Isa
  import opened AsmEncoding
  import opened AsmLowering
  import Core

  // ------------------------------------------------------------------ the machine of the source is lawful

  lemma CoreZero(a: Word)
    ensures ZeroLaw(Core.Processor(), a)
  {
    assert a + 0 == a && 0 + a == a;
  }

  lemma AddRegroup(a: Word, b: Word, c: Word)
    ensures a + (c + b) == a + b + c
  {
  }

  lemma CoreSwap(a: Word, b: Word, c: Word)
    ensures SwapLaw(Core.Processor(), a, b, c)
  {
    CorePlus(c, b);
    CorePlus(a, c + b);
    CorePlus(a, b);
    CorePlus(a + b, c);
    AddRegroup(a, b, c);
  }

  lemma CorePlus(a: Word, b: Word)
    ensures Plus(Core.Processor(), a, b) == a + b
  {
  }

  lemma JoinHalves(val: Word)
    ensures Upper(val) | (val & 0xFFF) == val
  {
  }

  lemma CoreJoin(val: Word)
    ensures JoinLaw(Core.Processor(), val)
  {
    JoinHalves(val);
  }

  lemma CoreLawful()
    ensures Lawful(Core.Processor())
  {
    forall a: Word ensures ZeroLaw(Core.Processor(), a) { CoreZero(a); }
    forall a: Word, b: Word, c: Word ensures SwapLaw(Core.Processor(), a, b, c) { CoreSwap(a, b, c); }
    forall val: Word ensures JoinLaw(Core.Processor(), val) { CoreJoin(val); }
  }

  // ------------------------------------------------------------------ loads and stores

  /** The destination has the operand's contents; memory, flags and every register but T are as before. */
  ghost predicate Loaded(m: Machine, s: Cpu, t: Cpu, data: RegNum, v: Word)
  {
    && t.mem == s.mem && t.flags == s.flags
    && (data != 0 ==> Read(t, data) == v)
    && forall r: Word :: r != data && r != REG_T ==> Read(t, r) == Read(s, r)
  }

  /** Like Sets, for any destination register. */
  lemma RunWriteAny(m: Machine, s: Cpu, op: MicroOp, rd: RegNum, v: Word) returns (t: Cpu)
    requires Execute(m, s, op) == Some(Write(s, rd, v))
    ensures RunOps(m, s, [op]) == Some(t) && Loaded(m, s, t, rd, v)
    ensures forall r: Word :: r != rd ==> Read(t, r) == Read(s, r)
  {
    assert [op][1..] == [];
    t := Write(s, rd, v);
  }

  lemma RunConcat(m: Machine, s: Cpu, first: seq<Word>, t: Cpu, second: seq<Word>)
    requires Run(m, s, first) == Some(t)
    ensures Run(m, s, first + second) == Run(m, t, second)
  {
    DecodeConcat(first, second);
    RunOpsConcat(m, s, DecodeAll(first), DecodeAll(second));
  }

  lemma FinalLoad(m: Machine, s: Cpu, u: Cpu, a: Address, target: Word, data: RegNum) returns (t: Cpu)
    requires Computes(m, s, u, a, target)
    ensures Run(m, s, a.setup + [EncM14(OP_LD, data, a.base, a.offset)]) == Some(t)
    ensures Loaded(m, s, t, data, m.load(s.mem, target))
  {
    RunConcat(m, s, a.setup, u, [EncM14(OP_LD, data, a.base, a.offset)]);
    DecodeLoad(data, a.base, a.offset);
    t := RunWriteAny(m, u, LdOp(data, a.base, a.offset), data, m.load(u.mem, target));
  }

  lemma WindowMove(m: Machine, s: Cpu, rd: RegNum, rs: RegNum) returns (t: Cpu)
    requires Lawful(m)
    ensures Run(m, s, [EncR3(OP_XFER, rd, rs, 0, 0, 0)]) == Some(t) && Loaded(m, s, t, rd, Read(s, rs))
    ensures forall r: Word :: r != rd ==> Read(t, r) == Read(s, r)
  {
    DecodeMove(rd, rs);
    assert ZeroLaw(m, Read(s, rs));
    t := RunWriteAny(m, s, AluOp(AcAdd, rd, rs, Reg(0), false), rd, Read(s, rs));
  }

  /**
   A lowered load reads exactly the operand's effective location, sets no flags and changes no register
   but T and its destination.
   */
  lemma LoadMeans(m: Machine, s: Cpu, data: RegNum, am: AddrMode, imm: Wide) returns (t: Cpu)
    requires Lawful(m) && InMemory(am) && OffsetOk(am, Low(imm))
    ensures Run(m, s, MemAccess(OP_LD, data, am, imm).value) == Some(t)
    ensures Loaded(m, s, t, data, Contents(m, s, Effective(m, s, am, imm)))
  {
    if IsWindow(am, imm) { t := WindowMove(m, s, data, DpToReg(imm).value); }
    else {
      var u := SetupComputes(m, s, am, Low(imm), DpToReg(imm));
      t := FinalLoad(m, s, u, AddressAt(am, Low(imm), DpToReg(imm)),
                     EffectiveAddress(m, s, am, Low(imm), DpToReg(imm)), data);
    }
  }

  /** The mode computes its address in T. */
  predicate UsesScratch(am: AddrMode, imm: Wide)
    requires InMemory(am)
  {
    !IsWindow(am, imm) && Scratch(AddressAt(am, Low(imm), DpToReg(imm)))
  }

  predicate Scratch(a: Address) { a.setup != [] }

  /** Memory at the effective address holds v; flags and every register but T are as before. */
  ghost predicate Stored(m: Machine, s: Cpu, t: Cpu, address: Word, v: Word)
  {
    && t.mem == m.store(s.mem, address, v) && t.flags == s.flags
    && forall r: Word :: r != REG_T ==> Read(t, r) == Read(s, r)
  }

  lemma RunStore(m: Machine, s: Cpu, op: MicroOp, address: Word, v: Word) returns (t: Cpu)
    requires Execute(m, s, op) == Some(s.(mem := m.store(s.mem, address, v)))
    ensures RunOps(m, s, [op]) == Some(t) && t == s.(mem := m.store(s.mem, address, v))
  {
    assert [op][1..] == [];
    t := s.(mem := m.store(s.mem, address, v));
  }

  lemma FinalStore(m: Machine, s: Cpu, u: Cpu, a: Address, target: Word, data: RegNum) returns (t: Cpu)
    requires Computes(m, s, u, a, target)
    ensures Run(m, s, a.setup + [EncM14(OP_ST, data, a.base, a.offset)]) == Some(t)
    ensures Stored(m, s, t, target, Read(u, data))
  {
    RunConcat(m, s, a.setup, u, [EncM14(OP_ST, data, a.base, a.offset)]);
    DecodeStore(data, a.base, a.offset);
    t := RunStore(m, u, StoreOp(data, a.base, OffsetValue(a.offset)), target, Read(u, data));
  }

  lemma StoreAt(m: Machine, s: Cpu, u: Cpu, a: Address, target: Word, data: RegNum) returns (t: Cpu)
    requires Computes(m, s, u, a, target) && (data != REG_T || !Scratch(a))
    ensures Run(m, s, a.setup + [EncM14(OP_ST, data, a.base, a.offset)]) == Some(t)
    ensures Stored(m, s, t, target, Read(s, data))
  {
    assert !Scratch(a) ==> u == s;
    t := FinalStore(m, s, u, a, target, data);
  }

  /**
   A lowered store to memory writes the data register to the effective address and nothing else, unless
   the data register is T and the mode computes its address there.
   */
  lemma StoreMeans(m: Machine, s: Cpu, data: RegNum, am: AddrMode, imm: Wide) returns (t: Cpu)
    requires Lawful(m) && InMemory(am) && OffsetOk(am, Low(imm)) && !IsWindow(am, imm)
    requires data != REG_T || !UsesScratch(am, imm)
    ensures Run(m, s, MemAccess(OP_ST, data, am, imm).value) == Some(t)
    ensures Stored(m, s, t, Effective(m, s, am, imm).address, Read(s, data))
  {
    var x, window := Low(imm), DpToReg(imm);
    var u := SetupComputes(m, s, am, x, window);
    t := StoreAt(m, s, u, AddressAt(am, x, window), EffectiveAddress(m, s, am, x, window), data);
  }

  /** In the excluded case the word stored is the base of the address: it plus the offset is the address. */
  lemma StoreOfScratch(m: Machine, s: Cpu, am: AddrMode, imm: Wide) returns (t: Cpu, base: Word)
    requires Lawful(m) && InMemory(am) && OffsetOk(am, Low(imm)) && UsesScratch(am, imm)
    ensures Run(m, s, MemAccess(OP_ST, REG_T, am, imm).value) == Some(t)
    ensures Stored(m, s, t, Effective(m, s, am, imm).address, base)
    ensures Plus(m, base, OffsetValue(AddressAt(am, Low(imm), DpToReg(imm)).offset)) == Effective(m, s, am, imm).address
  {
    var x, window := Low(imm), DpToReg(imm);
    ScratchIsT(am, x, window);
    var u := SetupComputes(m, s, am, x, window);
    t := FinalStore(m, s, u, AddressAt(am, x, window), EffectiveAddress(m, s, am, x, window), REG_T);
    base := Read(u, REG_T);
  }

  lemma ScratchIsT(am: AddrMode, x: Word, window: Option<RegNum>)
    requires InMemory(am) && Scratch(AddressAt(am, x, window))
    ensures AddressAt(am, x, window).base == REG_T
  {
  }

  /** T holds v, the index registers hold 1, and everything else is 0. */
  function ScratchState(v: Word): Cpu
  {
    Cpu((r: Word) => if r == REG_T then v else if r == REG_X || r == REG_Y then 1 else 0, (a: Word) => 0,
        Flags(false, false, false, false))
  }

  /** The base register of the access, with the offset, does not reach the address when it holds the old T. */
  predicate OldScratchMisses(m: Machine, am: AddrMode, x: Word, window: Option<RegNum>, v: Word)
    requires InMemory(am)
  {
    Plus(m, v, OffsetValue(AddressAt(am, x, window).offset)) != EffectiveAddress(m, ScratchState(v), am, x, window)
  }

  /** The address is formed from T itself, by adding an index register. */
  predicate IndexesScratch(am: AddrMode, window: Option<RegNum>)
  {
    window == Some(REG_T) && (am.AmIndx? || am.AmIndy?)
  }

  lemma IndexedScratch(m: Machine, am: AddrMode, x: Word, window: Option<RegNum>, v: Word)
    requires InMemory(am) && IndexesScratch(am, window)
    ensures EffectiveAddress(m, ScratchState(v), am, x, window) == Plus(m, v, 1)
    ensures AddressAt(am, x, window).offset == 0
  {
  }

  lemma OtherwiseFixed(m: Machine, am: AddrMode, x: Word, window: Option<RegNum>, v: Word, w: Word)
    requires InMemory(am) && Scratch(AddressAt(am, x, window)) && !IndexesScratch(am, window)
    ensures EffectiveAddress(m, ScratchState(v), am, x, window) == EffectiveAddress(m, ScratchState(w), am, x, window)
  {
  }

  lemma DifferentSums(off: Word)
    ensures Plus(Core.Processor(), 0, off) != Plus(Core.Processor(), 1, off)
    ensures Plus(Core.Processor(), 0, 0) != Plus(Core.Processor(), 0, 1)
  {
    CorePlus(0, off);
    CorePlus(1, off);
    CorePlus(0, 0);
    CorePlus(0, 1);
  }

  lemma SomeScratchMisses(m: Machine, am: AddrMode, x: Word, window: Option<RegNum>, off: Word) returns (v: Word)
    requires InMemory(am) && Scratch(AddressAt(am, x, window)) && off == OffsetValue(AddressAt(am, x, window).offset)
    requires Plus(m, 0, off) != Plus(m, 1, off) && Plus(m, 0, 0) != Plus(m, 0, 1)
    ensures OldScratchMisses(m, am, x, window, v)
  {
    if IndexesScratch(am, window) {
      ZeroOffset();
      IndexedScratch(m, am, x, window, 0);
      v := 0;
    } else {
      OtherwiseFixed(m, am, x, window, 0, 1);
      v := if OldScratchMisses(m, am, x, window, 0) then 0 else 1;
    }
  }

  /** For every mode that needs T there is a state in which a store of T stores something else. */
  lemma StoreOfScratchWrong(am: AddrMode, imm: Wide) returns (s: Cpu, t: Cpu, base: Word)
    requires InMemory(am) && OffsetOk(am, Low(imm)) && UsesScratch(am, imm)
    ensures var m := Core.Processor();
            && Run(m, s, MemAccess(OP_ST, REG_T, am, imm).value) == Some(t)
            && Stored(m, s, t, Effective(m, s, am, imm).address, base) && base != Read(s, REG_T)
  {
    CoreLawful();
    var off := OffsetValue(AddressAt(am, Low(imm), DpToReg(imm)).offset);
    DifferentSums(off);
    var v := SomeScratchMisses(Core.Processor(), am, Low(imm), DpToReg(imm), off);
    s := ScratchState(v);
    t, base := StoreOfScratch(Core.Processor(), s, am, imm);
  }

  // ------------------------------------------------------------------ a store, then a load

  /** The address does not depend on memory or on T. */
  predicate FixedAddress(am: AddrMode, imm: Wide)
  {
    InMemory(am) && !IsWindow(am, imm)
    && (am.AmInd? || am.AmIndx? || am.AmIndy? ==> DpToReg(imm).Some? && DpToReg(imm).value != REG_T)
  }

  lemma SameAddress(m: Machine, s: Cpu, t: Cpu, am: AddrMode, imm: Wide)
    requires FixedAddress(am, imm) && forall r: Word :: r != REG_T ==> Read(t, r) == Read(s, r)
    ensures Effective(m, t, am, imm) == Effective(m, s, am, imm)
  {
  }

  /** What is stored through a mode is loaded through it again, on any machine that reads back stored words. */
  lemma LoadOfStored(m: Machine, s: Cpu, data: RegNum, dst: RegNum, am: AddrMode, imm: Wide) returns (u: Cpu, t: Cpu)
    requires Lawful(m) && forall mem: Memory, a: Word, v: Word :: m.load(m.store(mem, a, v), a) == v
    requires InMemory(am) && OffsetOk(am, Low(imm)) && FixedAddress(am, imm)
    requires (data != REG_T || !UsesScratch(am, imm)) && dst != 0
    ensures Run(m, s, MemAccess(OP_ST, data, am, imm).value) == Some(u)
    ensures Run(m, u, MemAccess(OP_LD, dst, am, imm).value) == Some(t) && Read(t, dst) == Read(s, data)
  {
    u := StoreMeans(m, s, data, am, imm);
    SameAddress(m, s, u, am, imm);
    t := LoadMeans(m, u, dst, am, imm);
  }

  /** The machine of the source does. */
  lemma CoreReadsBack(mem: Memory, a: Word, v: Word)
    ensures Core.Processor().load(Core.Processor().store(mem, a, v), a) == v
  {
    Core.LoadAfterStore(mem, a, v);
  }

  /** So it is on the machine of the source. */
  lemma CoreLoadOfStored(s: Cpu, data: RegNum, dst: RegNum, am: AddrMode, imm: Wide) returns (u: Cpu, t: Cpu)
    requires InMemory(am) && OffsetOk(am, Low(imm)) && FixedAddress(am, imm)
    requires (data != REG_T || !UsesScratch(am, imm)) && dst != 0
    ensures var m := Core.Processor();
            && Run(m, s, MemAccess(OP_ST, data, am, imm).value) == Some(u)
            && Run(m, u, MemAccess(OP_LD, dst, am, imm).value) == Some(t) && Read(t, dst) == Read(s, data)
  {
    CoreLawful();
    forall mem: Memory, a: Word, v: Word ensures Core.Processor().load(Core.Processor().store(mem, a, v), a) == v
    {
      CoreReadsBack(mem, a, v);
    }
    u, t := LoadOfStored(Core.Processor(), s, data, dst, am, imm);
  }

  /** A lowered store to a window register is a register move. */
  lemma WindowStoreMeans(m: Machine, s: Cpu, data: RegNum, imm: Wide) returns (t: Cpu)
    requires Lawful(m) && DpToReg(imm).Some?
    ensures Run(m, s, MemAccess(OP_ST, data, AmDp, imm).value) == Some(t)
    ensures var n := DpToReg(imm).value;
            && t.mem == s.mem && t.flags == s.flags
            && (n != 0 ==> Read(t, n) == Read(s, data))
            && forall r: Word :: r != n ==> Read(t, r) == Read(s, r)
  {
    t := WindowMove(m, s, DpToReg(imm).value, data);
  }

  // ------------------------------------------------------------------ arithmetic

  datatype AluName = NameAdd | NameSub | NameAnd | NameOr | NameXor | NameSlt | NameSltu | NameCmp
  {
    /** The register opcode; the immediate opcode follows it. */
    function RegOpcode(): Word
    {
      match this
      case NameAdd => OP_ADD
      case NameSub => OP_SUB
      case NameAnd => OP_AND
      case NameOr => OP_OR
      case NameXor => OP_XOR
      case NameSlt => OP_SLT
      case NameSltu => OP_SLTU
      case NameCmp => OP_CMP
    }

    function ImmOpcode(): Word
    {
      match this
      case NameAdd => OP_ADDI
      case NameSub => OP_SUBI
      case NameAnd => OP_ANDI
      case NameOr => OP_ORI
      case NameXor => OP_XORI
      case NameSlt => OP_SLTI
      case NameSltu => OP_SLTUI
      case NameCmp => OP_CMPI
    }

    function Code(): AluCode
    {
      match this
      case NameAdd => AcAdd
      case NameSub => AcSub
      case NameAnd => AcAnd
      case NameOr => AcOrr
      case NameXor => AcEor
      case NameSlt => AcSlt
      case NameSltu => AcSltu
      case NameCmp => AcSub
    }

    /** The hardware sign-extends the immediates of these operations and zero-extends the others. */
    predicate SignedImmediate() { NameAdd? || NameSub? || NameSlt? || NameCmp? }

    /** A comparison discards its result. */
    function Target(dst: RegNum): RegNum { if NameCmp? then 0 else dst }
  }

  /** The immediate that reaches the ALU for a 13-bit field holding x. */
  function Extended(name: AluName, x: Word): Word
  {
    if name.SignedImmediate() then SignExtend13(x & 0x1FFF) else x & 0x1FFF
  }

  lemma DecodeRegOp(name: AluName, dst: RegNum, a: RegNum, b: RegNum)
    ensures Decode(EncR3(name.RegOpcode(), dst, a, b, 0, 1)) == AluOp(name.Code(), name.Target(dst), a, Reg(b), true)
  {
    var w := EncR3(name.RegOpcode(), dst, a, b, 0, 1);
    RegFields(name.RegOpcode(), dst, a, b);
    RegOpMeaning(name, w);
  }

  lemma RegFields(op: Word, dst: RegNum, a: RegNum, b: RegNum)
    ensures var w := EncR3(op, dst, a, b, 0, 1);
            Opcode(w) == op & 0x3F && RdField(w) == dst && Rs1Field(w) == a && Rs2Field(w) == b && FBit(w) == 1
  {
  }

  lemma RegOpMeaning(name: AluName, w: Word)
    ensures name.RegOpcode() & 0x3F == name.RegOpcode()
    ensures DecodeAs(name.RegOpcode(), w) ==
            if name.NameCmp? then AluOp(AcSub, 0, Rs1Field(w), Reg(Rs2Field(w)), true) else RegReg(name.Code(), w)
  {
  }

  lemma DecodeImmOp(name: AluName, dst: RegNum, a: RegNum, x: Word)
    ensures Decode(EncI13F(name.ImmOpcode(), dst, a, x & 0x1FFF, 1)) ==
            AluOp(name.Code(), name.Target(dst), a, Imm(Extended(name, x)), true)
  {
    var w := EncI13F(name.ImmOpcode(), dst, a, x & 0x1FFF, 1);
    ImmFields(name.ImmOpcode(), dst, a, x);
    ImmOpMeaning(name, w);
  }

  lemma ImmFields(op: Word, dst: RegNum, a: RegNum, x: Word)
    ensures var w := EncI13F(op, dst, a, x & 0x1FFF, 1);
            Opcode(w) == op & 0x3F && RdField(w) == dst && Rs1Field(w) == a
            && Imm13Field(w) == x & 0x1FFF && FBit(w) == 1
  {
  }

  lemma ImmOpMeaning(name: AluName, w: Word)
    ensures name.ImmOpcode() & 0x3F == name.ImmOpcode()
    ensures DecodeAs(name.ImmOpcode(), w) ==
            if name.NameCmp? then AluOp(AcSub, 0, Rs1Field(w), Imm(SignExtend13(Imm13Field(w))), true)
            else if name.SignedImmediate() then SignedImm(name.Code(), w) else UnsignedImm(name.Code(), w)
  {
  }

  /** The result, the flags, and everything else as before but for T. */
  ghost predicate Computed(m: Machine, s: Cpu, t: Cpu, name: AluName, dst: RegNum, a: Word, b: Word)
  {
    var rd := name.Target(dst);
    && t.mem == s.mem && t.flags == m.flags(name.Code(), a, b)
    && (rd != 0 ==> Read(t, rd) == m.data(name.Code(), a, b))
    && forall r: Word :: r != rd && r != REG_T ==> Read(t, r) == Read(s, r)
  }

  lemma RunAlu(m: Machine, s: Cpu, name: AluName, dst: RegNum, a: RegNum, b: Operand) returns (t: Cpu)
    ensures RunOps(m, s, [AluOp(name.Code(), name.Target(dst), a, b, true)]) == Some(t)
    ensures Computed(m, s, t, name, dst, Read(s, a), OperandValue(s, b))
  {
    var op := AluOp(name.Code(), name.Target(dst), a, b, true);
    assert [op][1..] == [];
    var x, y := Read(s, a), OperandValue(s, b);
    t := Write(s.(flags := m.flags(name.Code(), x, y)), name.Target(dst), m.data(name.Code(), x, y));
  }

  lemma FinalRegOp(m: Machine, s: Cpu, u: Cpu, setup: seq<Word>, name: AluName, dst: RegNum, src1: RegNum, v: Word)
    returns (t: Cpu)
    requires Run(m, s, setup) == Some(u) && Loaded(m, s, u, REG_T, v) && src1 != REG_T
    ensures Run(m, s, setup + [EncR3(name.RegOpcode(), dst, src1, REG_T, 0, 1)]) == Some(t)
    ensures Computed(m, s, t, name, dst, Read(s, src1), v)
  {
    RunConcat(m, s, setup, u, [EncR3(name.RegOpcode(), dst, src1, REG_T, 0, 1)]);
    DecodeRegOp(name, dst, src1, REG_T);
    t := RunAlu(m, u, name, dst, src1, Reg(REG_T));
  }

  /** The immediate reaches the ALU unchanged: sign-extended, or not negative, or loaded as a constant. */
  predicate ImmediateOk(name: AluName, x: Word) { name.SignedImmediate() || x <= 0xFFF || !Fits13(x) }

  lemma ExtendedImmediate(name: AluName, x: Word)
    requires Fits13(x)
    ensures Extended(name, x) == x <==> ImmediateOk(name, x)
  {
    ShortImmediate(x);
    ZeroExtension(x);
  }

  lemma ZeroExtension(x: Word)
    requires Fits13(x)
    ensures x & 0x1FFF == x <==> x <= 0xFFF
  {
  }

  lemma ShortImmediateMeans(m: Machine, s: Cpu, name: AluName, dst: RegNum, src1: RegNum, imm: Wide) returns (t: Cpu)
    requires Fits13(Low(imm))
    ensures Run(m, s, AluMem(name.RegOpcode(), name.ImmOpcode(), dst, src1, AmImm, imm).value) == Some(t)
    ensures Computed(m, s, t, name, dst, Read(s, src1), Extended(name, Low(imm)))
  {
    DecodeImmOp(name, dst, src1, Low(imm));
    t := RunAlu(m, s, name, dst, src1, Imm(Extended(name, Low(imm))));
  }

  /** dst := src1 OP immediate with the ALU's flags, for every immediate that reaches the ALU unchanged. */
  lemma ImmediateMeans(m: Machine, s: Cpu, name: AluName, dst: RegNum, src1: RegNum, imm: Wide) returns (t: Cpu)
    requires Lawful(m) && src1 != REG_T && ImmediateOk(name, Low(imm))
    ensures Run(m, s, AluMem(name.RegOpcode(), name.ImmOpcode(), dst, src1, AmImm, imm).value) == Some(t)
    ensures Computed(m, s, t, name, dst, Read(s, src1), Low(imm))
  {
    if Fits13(Low(imm)) {
      ExtendedImmediate(name, Low(imm));
      t := ShortImmediateMeans(m, s, name, dst, src1, imm);
    } else {
      var u := LoadConstExact(m, s, REG_T, Low(imm));
      t := FinalRegOp(m, s, u, LoadConst(REG_T, Low(imm)), name, dst, src1, Low(imm));
    }
  }

  /**
   For every other immediate - short, negative and zero-extended - some value of src1 gives a wrong result
   on the processor, so the condition of ImmediateMeans is exact.
   */
  lemma ImmediateWrong(name: AluName, x: Word) returns (a: Word)
    requires !ImmediateOk(name, x)
    ensures Core.AluData(name.Code(), a, Extended(name, x)) != Core.AluData(name.Code(), a, x)
  {
    ZeroExtension(x);
    match name {
      case NameAnd =>
        a := 0xFFFF_FFFF;
        AndOnes(x);
        AndOnes(x & 0x1FFF);
      case NameOr =>
        a := 0;
        OrZero(x);
        OrZero(x & 0x1FFF);
      case NameXor =>
        a := 0;
        XorZero(x);
        XorZero(x & 0x1FFF);
      case NameSltu =>
        a := x & 0x1FFF;
        CutIsLess(x);
    }
  }

  lemma AndOnes(x: Word)
    ensures Core.AluData(AcAnd, 0xFFFF_FFFF, x) == x
  {
  }

  lemma OrZero(x: Word)
    ensures Core.AluData(AcOrr, 0, x) == x
  {
  }

  lemma XorZero(x: Word)
    ensures Core.AluData(AcEor, 0, x) == x
  {
  }

  lemma CutIsLess(x: Word)
    requires x >= 0xFFFF_F000
    ensures Core.AluData(AcSltu, x & 0x1FFF, x) == 1 && Core.AluData(AcSltu, x & 0x1FFF, x & 0x1FFF) == 0
  {
  }

  /** dst := src1 OP memory or window operand, with the ALU's flags. */
  lemma OperandMeans(m: Machine, s: Cpu, name: AluName, dst: RegNum, src1: RegNum, am: AddrMode, imm: Wide)
    returns (t: Cpu)
    requires Lawful(m) && src1 != REG_T && InMemory(am) && OffsetOk(am, Low(imm))
    ensures Run(m, s, AluMem(name.RegOpcode(), name.ImmOpcode(), dst, src1, am, imm).value) == Some(t)
    ensures Computed(m, s, t, name, dst, Read(s, src1), Contents(m, s, Effective(m, s, am, imm)))
  {
    if IsWindow(am, imm) {
      DecodeRegOp(name, dst, src1, DpToReg(imm).value);
      t := RunAlu(m, s, name, dst, src1, Reg(DpToReg(imm).value));
    } else {
      var u := LoadMeans(m, s, REG_T, am, imm);
      t := FinalRegOp(m, s, u, MemAccess(OP_LD, REG_T, am, imm).value, name, dst, src1,
                      Contents(m, s, Effective(m, s, am, imm)));
    }
  }
}
