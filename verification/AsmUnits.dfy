/**
 The assembler's code buffer, label table and fixups as m65f32asm.c keeps them: updated in place, one
 emitted word at a time. An error ends the run; what the buffer then holds does not matter.
 */
module AsmUnits {
  import opened Common
  import opened Isa
  import opened AsmEncoding
  import opened AsmLowering
  import BP = Backpatch

  /** The words of an expansion, emitted one after the other. */
  function EmitAll(fmt: BP.Format, a: BP.Asm, words: seq<Word>): BP.Result<BP.Asm>
    decreases |words|
  {
    if words == [] then BP.Ok(a)
    else
      match EmitAll(fmt, a, words[..|words| - 1])
      case Err(e) => BP.Err(e)
      case Ok(b) => BP.Emit(fmt, b, words[|words| - 1])
  }

  lemma {:induction false} EmitAllConcat(fmt: BP.Format, a: BP.Asm, first: seq<Word>, second: seq<Word>)
    ensures EmitAll(fmt, a, first + second) ==
            (match EmitAll(fmt, a, first) case Err(e) => BP.Err(e) case Ok(b) => EmitAll(fmt, b, second))
    decreases |second|
  {
    if second == [] { assert first + second == first; }
    else {
      EmitAllConcat(fmt, a, first, second[..|second| - 1]);
      assert (first + second)[..|first + second| - 1] == first + second[..|second| - 1];
    }
  }

  class Assembler {
    const fmt: BP.Format
    const code: array<Byte>
    var curPc: Word
    var maxPhy: nat
    var labels: map<BP.LabelName, Word>
    var names: set<BP.LabelName>
    var fixups: seq<BP.Fixup>

    constructor (fmt: BP.Format)
      ensures Valid() && fresh(code) && this.fmt == fmt
      ensures State() == BP.Asm(seq(BP.MAX_CODE_BYTES, _ => 0xCD), 0x1000, 0, map[], {}, [])
    {
      this.fmt := fmt;
      code := new Byte[BP.MAX_CODE_BYTES](_ => 0xCD);
      curPc, maxPhy, labels, names, fixups := 0x1000, 0, map[], {}, [];
      new;
      assert code[..] == seq(BP.MAX_CODE_BYTES, _ => 0xCD);
    }

    predicate Valid() { code.Length == BP.MAX_CODE_BYTES }

    ghost function State(): BP.Asm
      requires Valid()
      reads this, code
    {
      BP.Asm(code[..], curPc, maxPhy, labels, names, fixups)
    }

    /** The outcome of a step that should lead from a to the given result. */
    ghost predicate Outcome(result: BP.Result<BP.Asm>, error: Option<BP.AsmError>)
      requires Valid()
      reads this, code
    {
      match result
      case Ok(b) => error == None && State() == b
      case Err(e) => error == Some(e)
    }

    method WriteWord(p: nat, q: BP.Quad)
      requires Valid() && p + 4 <= BP.MAX_CODE_BYTES
      modifies code
      ensures code[..] == BP.WriteBytes(old(code[..]), p, q)
    {
      code[p] := q[0];
      code[p + 1] := q[1];
      code[p + 2] := q[2];
      code[p + 3] := q[3];
    }

    method Emit32(w: Word) returns (error: Option<BP.AsmError>)
      requires Valid()
      modifies this, code
      ensures Outcome(BP.Emit(fmt, old(State()), w), error)
    {
      var p := fmt.position(curPc);
      if p + 3 >= BP.MAX_CODE_BYTES { return Some(BP.CodeOverflow); }
      WriteWord(p, fmt.bytes(w));
      if p + 4 > maxPhy { maxPhy := p + 4; }
      curPc := fmt.next(curPc);
      return None;
    }

    method EmitWords(words: seq<Word>) returns (error: Option<BP.AsmError>)
      requires Valid()
      modifies this, code
      ensures Outcome(EmitAll(fmt, old(State()), words), error)
    {
      ghost var start := State();
      for i := 0 to |words|
        invariant EmitAll(fmt, start, words[..i]) == BP.Ok(State())
      {
        assert words[..i + 1][..i] == words[..i];
        error := Emit32(words[i]);
        if error.Some? {
          EmitAllConcat(fmt, start, words[..i + 1], words[i + 1..]);
          assert words[..i + 1] + words[i + 1..] == words;
          return;
        }
      }
      assert words[..|words|] == words;
      error := None;
    }

    // ---------------------------------------------------------------- labels

    method AddLabel(l: BP.LabelName) returns (error: Option<BP.AsmError>)
      requires Valid()
      modifies this
      ensures Outcome(BP.AddName(old(State()), l), error)
    {
      if l !in names {
        if |names| >= BP.MAX_LABELS { return Some(BP.TooManyLabels); }
        names := names + {l};
      }
      return None;
    }

    method DefineLabel(l: BP.LabelName) returns (error: Option<BP.AsmError>)
      requires Valid()
      modifies this
      ensures Outcome(BP.Step(fmt, old(State()), BP.Label(l)), error)
    {
      if l in labels { return Some(BP.DuplicateLabel); }
      error := AddLabel(l);
      if error.None? { labels := labels[l := curPc]; }
    }

    method SetOrigin(address: Word)
      requires Valid()
      modifies this`curPc
      ensures Outcome(BP.Step(fmt, old(State()), BP.Org(address)), None)
    {
      curPc := address;
    }

    /** A branch or a jump to a label: encoded at once when the label is defined, else 0 and a fixup. */
    method EmitReference(kind: BP.RefKind, l: BP.LabelName) returns (error: Option<BP.AsmError>)
      requires Valid()
      modifies this, code
      ensures Outcome(BP.Step(fmt, old(State()), BP.Ref(kind, l)), error)
    {
      if l in labels {
        var word := fmt.refWord(kind, curPc, labels[l]);
        if word.None? { return Some(BP.Misaligned); }
        error := Emit32(word.value);
      } else {
        error := AddLabel(l);
        if error.Some? { return; }
        if |fixups| >= BP.MAX_FIXUPS { return Some(BP.TooManyFixups); }
        fixups := fixups + [BP.Fixup(fmt.position(curPc), curPc, l, kind)];
        error := Emit32(0);
      }
    }

    method ResolveFixups() returns (error: Option<BP.AsmError>)
      requires Valid() && BP.FixupsFit(fixups)
      modifies code
      ensures match BP.Resolve(fmt, old(code[..]), fixups, labels)
              case Ok(image) => error == None && code[..] == image
              case Err(_) => error.Some?
    {
      ghost var start := code[..];
      for i := 0 to |fixups|
        invariant BP.Resolve(fmt, start, fixups[..i], labels).Ok?
        invariant BP.Resolve(fmt, start, fixups[..i], labels).value == code[..]
      {
        var f := fixups[i];
        ghost var image := code[..];
        assert fixups[..i + 1][..i] == fixups[..i];
        if f.target !in labels {
          Refused(start, i);
          return Some(BP.UndefinedLabel);
        }
        var word := fmt.refWord(f.kind, f.pc, labels[f.target]);
        if word.None? {
          Refused(start, i);
          return Some(BP.Misaligned);
        }
        WriteWord(f.pos, fmt.bytes(word.value));
      }
      assert fixups[..|fixups|] == fixups;
      error := None;
    }

    /** One bad fixup spoils the whole resolution. */
    lemma Refused(start: BP.Image, i: nat)
      requires BP.FixupsFit(fixups) && i < |fixups|
      requires fixups[i].target !in labels || fmt.refWord(fixups[i].kind, fixups[i].pc, labels[fixups[i].target]).None?
      ensures BP.Resolve(fmt, start, fixups, labels).Err?
    {
      BP.ResolveSucceeds(fmt, start, fixups, labels);
    }

    // ---------------------------------------------------------------- expansions

    method EmitLoadConst(rd: RegNum, val: Word) returns (error: Option<BP.AsmError>)
      requires Valid()
      modifies this, code
      ensures Outcome(EmitAll(fmt, old(State()), LoadConst(rd, val)), error)
    {
      if Fits13(val) {
        error := EmitWords([EncI13F(OP_ADDI, rd, REG_ZERO, val, 0)]);
      } else if val & 0xFFF != 0 {
        error := EmitWords([EncU20(OP_LUI, rd, val >> 12), EncI13F(OP_ORI, rd, rd, val & 0xFFF, 0)]);
      } else {
        error := EmitWords([EncU20(OP_LUI, rd, val >> 12)]);
      }
    }

    /** Whatever follows an expansion, emitted after it. */
    method EmitAfter(ghost start: BP.Asm, ghost first: seq<Word>, second: seq<Word>)
      returns (error: Option<BP.AsmError>)
      requires Valid() && EmitAll(fmt, start, first) == BP.Ok(State())
      modifies this, code
      ensures Outcome(EmitAll(fmt, start, first + second), error)
    {
      EmitAllConcat(fmt, start, first, second);
      error := EmitWords(second);
    }

    /** B + index, and for a far offset the constant and two more additions. */
    method EmitIndexed(op: Word, data: RegNum, index: RegNum, x: Word) returns (error: Option<BP.AsmError>)
      requires Valid()
      modifies this, code
      ensures var a := Indexed(index, x);
              Outcome(EmitAll(fmt, old(State()), a.setup + [EncM14(op, data, a.base, a.offset)]), error)
    {
      ghost var start := State();
      if Fits14(x) {
        error := EmitWords([AddInsn(REG_T, REG_B, index)] + [EncM14(op, data, REG_T, x & 0x3FFF)]);
      } else {
        ghost var first := [AddInsn(REG_T, REG_B, index)];
        ghost var all := first + LoadConst(REG_T, x)
          + [AddInsn(REG_T, REG_T, index), AddInsn(REG_T, REG_B, REG_T), EncM14(op, data, REG_T, 0)];
        assert all == Indexed(index, x).setup + [EncM14(op, data, REG_T, 0)];
        ghost var rest := [AddInsn(REG_T, REG_T, index), AddInsn(REG_T, REG_B, REG_T), EncM14(op, data, REG_T, 0)];
        EmitAllConcat(fmt, start, first + LoadConst(REG_T, x), rest);
        EmitAllConcat(fmt, start, first, LoadConst(REG_T, x));
        error := EmitWords([AddInsn(REG_T, REG_B, index)]);
        if error.Some? { return; }
        error := EmitLoadConst(REG_T, x);
        if error.Some? { return; }
        error := EmitAfter(start, first + LoadConst(REG_T, x),
                           [AddInsn(REG_T, REG_T, index), AddInsn(REG_T, REG_B, REG_T), EncM14(op, data, REG_T, 0)]);
      }
    }

    /** The direct and indirect modes of a load or store, whose expansions are short. */
    method EmitDirect(op: Word, data: RegNum, am: AddrMode, x: Word, window: Option<RegNum>)
      returns (error: Option<BP.AsmError>)
      requires Valid() && (am.AmDp? || am.AmDpx? || am.AmDpy? || am.AmInd? || am.AmIndx? || am.AmIndy?)
      modifies this, code
      ensures var a := AddressAt(am, x, window);
              Outcome(EmitAll(fmt, old(State()), a.setup + [EncM14(op, data, a.base, a.offset)]), error)
    {
      if am.AmDp? {
        error := EmitWords([] + [EncM14(op, data, REG_D, x & 0x3FFF)]);
      } else if am.AmDpx? {
        error := EmitWords([AddInsn(REG_T, REG_D, REG_X)] + [EncM14(op, data, REG_T, x & 0x3FFF)]);
      } else if am.AmDpy? {
        error := EmitWords([AddInsn(REG_T, REG_D, REG_Y)] + [EncM14(op, data, REG_T, x & 0x3FFF)]);
      } else if am.AmInd? {
        if window.Some? { error := EmitWords([] + [EncM14(op, data, window.value, 0)]); }
        else { error := EmitWords([LdInsn(REG_T, REG_D, x & 0x3FFF)] + [EncM14(op, data, REG_T, 0)]); }
      } else if am.AmIndx? {
        if window.Some? { error := EmitWords([AddInsn(REG_T, window.value, REG_X)] + [EncM14(op, data, REG_T, 0)]); }
        else {
          error := EmitWords([AddInsn(REG_T, REG_D, REG_X), LdInsn(REG_T, REG_T, x & 0x3FFF)]
                             + [EncM14(op, data, REG_T, 0)]);
        }
      } else {
        if window.Some? { error := EmitWords([AddInsn(REG_T, window.value, REG_Y)] + [EncM14(op, data, REG_T, 0)]); }
        else {
          error := EmitWords([LdInsn(REG_T, REG_D, x & 0x3FFF), AddInsn(REG_T, REG_T, REG_Y)]
                             + [EncM14(op, data, REG_T, 0)]);
        }
      }
    }

    method EmitAbsolute(op: Word, data: RegNum, x: Word) returns (error: Option<BP.AsmError>)
      requires Valid()
      modifies this, code
      ensures var a := Absolute(x);
              Outcome(EmitAll(fmt, old(State()), a.setup + [EncM14(op, data, a.base, a.offset)]), error)
    {
      ghost var start := State();
      if Fits14(x) {
        error := EmitWords([] + [EncM14(op, data, REG_B, x & 0x3FFF)]);
      } else {
        ghost var rest := [AddInsn(REG_T, REG_B, REG_T), EncM14(op, data, REG_T, 0)];
        assert LoadConst(REG_T, x) + rest == Absolute(x).setup + [EncM14(op, data, REG_T, 0)];
        EmitAllConcat(fmt, start, LoadConst(REG_T, x), rest);
        error := EmitLoadConst(REG_T, x);
        if error.Some? { return; }
        error := EmitAfter(start, LoadConst(REG_T, x), [AddInsn(REG_T, REG_B, REG_T), EncM14(op, data, REG_T, 0)]);
      }
    }

    /** A load or a store through any addressing mode. */
    method EmitMemAccess(op: Word, data: RegNum, am: AddrMode, imm: Wide) returns (error: Option<BP.AsmError>)
      requires Valid()
      modifies this, code
      ensures match MemAccess(op, data, am, imm)
              case None => error == Some(BP.UnsupportedMode) && State() == old(State())
              case Some(words) => Outcome(EmitAll(fmt, old(State()), words), error)
    {
      var x, window := Low(imm), DpToReg(imm);
      if am.AmImm? || am.AmOther? {
        error := Some(BP.UnsupportedMode);
      } else if am.AmDp? && window.Some? {
        if op == OP_LD { error := EmitWords([EncR3(OP_XFER, data, window.value, 0, 0, 0)]); }
        else { error := EmitWords([EncR3(OP_XFER, window.value, data, 0, 0, 0)]); }
      } else if am.AmAbs? {
        error := EmitAbsolute(op, data, x);
      } else if am.AmAbsx? {
        error := EmitIndexed(op, data, REG_X, x);
      } else if am.AmAbsy? {
        error := EmitIndexed(op, data, REG_Y, x);
      } else {
        error := EmitDirect(op, data, am, x, window);
      }
    }

    /** The words that bring an operand into T. */
    static function OperandIntoT(am: AddrMode, imm: Wide): Option<seq<Word>>
    {
      if am.AmImm? then Some(LoadConst(REG_T, Low(imm))) else MemAccess(OP_LD, REG_T, am, imm)
    }

    /** These words are emitted, or the mode that has none is refused. */
    ghost predicate Emits(start: BP.Asm, words: Option<seq<Word>>, error: Option<BP.AsmError>)
      requires Valid()
      reads this, code
    {
      match words
      case None => error == Some(BP.UnsupportedMode) && State() == start
      case Some(ws) => Outcome(EmitAll(fmt, start, ws), error)
    }

    method EmitOperand(am: AddrMode, imm: Wide) returns (error: Option<BP.AsmError>)
      requires Valid()
      modifies this, code
      ensures Emits(old(State()), OperandIntoT(am, imm), error)
    {
      if am.AmImm? { error := EmitLoadConst(REG_T, Low(imm)); }
      else { error := EmitMemAccess(OP_LD, REG_T, am, imm); }
    }

    static function Then(words: Option<seq<Word>>, last: Word): Option<seq<Word>>
    {
      if words.Some? then Some(words.value + [last]) else None
    }

    /** dst = src1 OP operand, by way of T. */
    method EmitThroughT(last: Word, am: AddrMode, imm: Wide) returns (error: Option<BP.AsmError>)
      requires Valid()
      modifies this, code
      ensures Emits(old(State()), Then(OperandIntoT(am, imm), last), error)
    {
      ghost var start := State();
      ghost var first := OperandIntoT(am, imm);
      if first.Some? { EmitAllConcat(fmt, start, first.value, [last]); }
      error := EmitOperand(am, imm);
      if error.Some? { return; }
      error := EmitAfter(start, first.value, [last]);
    }

    static lemma AluMemCases(rr: Word, ri: Word, dst: RegNum, src1: RegNum, am: AddrMode, imm: Wide)
      ensures AluMem(rr, ri, dst, src1, am, imm) ==
              if am.AmImm? && Fits13(Low(imm)) then Some([EncI13F(ri, dst, src1, Low(imm) & 0x1FFF, 1)])
              else if am.AmDp? && DpToReg(imm).Some? then Some([EncR3(rr, dst, src1, DpToReg(imm).value, 0, 1)])
              else Then(OperandIntoT(am, imm), EncR3(rr, dst, src1, REG_T, 0, 1))
    {
    }

    /** dst = src1 OP operand. */
    method EmitAluMem(rr: Word, ri: Word, dst: RegNum, src1: RegNum, am: AddrMode, imm: Wide)
      returns (error: Option<BP.AsmError>)
      requires Valid()
      modifies this, code
      ensures Emits(old(State()), AluMem(rr, ri, dst, src1, am, imm), error)
    {
      AluMemCases(rr, ri, dst, src1, am, imm);
      if am.AmImm? && Fits13(Low(imm)) {
        error := EmitWords([EncI13F(ri, dst, src1, Low(imm) & 0x1FFF, 1)]);
      } else if am.AmDp? && DpToReg(imm).Some? {
        error := EmitWords([EncR3(rr, dst, src1, DpToReg(imm).value, 0, 1)]);
      } else {
        error := EmitThroughT(EncR3(rr, dst, src1, REG_T, 0, 1), am, imm);
      }
    }
  }
}
