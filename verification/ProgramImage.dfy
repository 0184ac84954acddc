/** From source references to branch targets, and from the image to the hex file: the whole chain. */
module ProgramImage {
  import opened Common
  import opened Isa
  import opened Backpatch
  import AsmEncoding
  import AsmTargets
  import BR = BranchResolver
  import HexCodec
  import HexFile

  /** A program that assembles without overlapping words, and whose references can be patched. */
  ghost predicate Patchable(a: Asm, items: seq<Item>)
  {
    && a.fixups == [] && Assemble(AsmTargets.Assembler(), a, items).Ok?
    && NoOverlap(Positions(AsmTargets.Assembler(), a.pc, items))
    && Resolvable(AsmTargets.Assembler(), Assemble(AsmTargets.Assembler(), a, items).value.fixups,
                  Assemble(AsmTargets.Assembler(), a, items).value.labels)
  }

  lemma PatchableResolves(a: Asm, items: seq<Item>)
    requires Patchable(a, items)
    ensures var b := Assemble(AsmTargets.Assembler(), a, items).value;
            FixupsFit(b.fixups) && Resolve(AsmTargets.Assembler(), b.image, b.fixups, b.labels).Ok?
  {
    BackpatchTransparent(AsmTargets.Assembler(), a, items);
  }

  /** The image after the fixups. */
  ghost function Patched(a: Asm, items: seq<Item>): Image
    requires Patchable(a, items)
  {
    PatchableResolves(a, items);
    var b := Assemble(AsmTargets.Assembler(), a, items).value;
    Resolve(AsmTargets.Assembler(), b.image, b.fixups, b.labels).value
  }

  // ------------------------------------------------------------------ from labels to targets

  /** The instruction word at a position of the image. */
  function FetchWord(img: Image, p: nat): Option<Word>
  {
    if p + 4 <= MAX_CODE_BYTES then Some(HexCodec.WordOf(img[p..p + 4])) else None
  }

  /** What a reference can reach: 21 signed words of displacement, or the 256 MB region of its address. */
  predicate Reaches(kind: RefKind, pc: Word, address: Word)
  {
    match kind
    case Branch(_, _) => AsmTargets.Fits21Words(AsmTargets.Displacement(pc, address))
    case Jump(_) => address & 3 == 0 && address & 0xF000_0000 == pc & 0xF000_0000
  }

  /** The jumps that the assembler emits. */
  predicate IsReference(kind: RefKind) { kind.Jump? ==> kind.op == OP_JMP_ABS || kind.op == OP_JSR_ABS }

  lemma BranchLane(i: BR.Fetched, address: Word, cond: Word, link: Word)
    requires i.word == AsmEncoding.EncB21(cond, link, AsmTargets.Quarter(AsmTargets.Displacement(i.pc, address)))
    ensures BR.LaneOf(i).target == address <==> AsmTargets.Fits21Words(AsmTargets.Displacement(i.pc, address))
    ensures !BR.LaneOf(i).kind.Unresolved?
  {
    AsmTargets.BranchReaches(i.pc, address, cond, link);
  }

  lemma SmallOpcode(op: Word)
    requires op == OP_JMP_ABS || op == OP_JSR_ABS
    ensures op & 0x3F == op && op != OP_BR
  {
  }

  lemma JumpOpcode(op: Word, target: Word)
    requires op == OP_JMP_ABS || op == OP_JSR_ABS
    ensures Opcode(AsmEncoding.EncJ26(op, target)) == op
  {
    SmallOpcode(op);
  }

  lemma LaneOfJump(i: BR.Fetched, op: Word)
    requires Opcode(i.word) == op && (op == OP_JMP_ABS || op == OP_JSR_ABS)
    ensures BR.LaneOf(i).target == AsmTargets.JumpTarget(i.pc, i.word) && BR.LaneOf(i).kind.Always?
  {
    SmallOpcode(op);
  }

  lemma JumpLane(i: BR.Fetched, address: Word, op: Word)
    requires op == OP_JMP_ABS || op == OP_JSR_ABS
    requires i.word == AsmEncoding.EncJ26(op, (address >> 2) & 0x3FFFFFF)
    ensures BR.LaneOf(i).target == address <==> address & 3 == 0 && address & 0xF000_0000 == i.pc & 0xF000_0000
    ensures !BR.LaneOf(i).kind.Unresolved?
  {
    JumpOpcode(op, (address >> 2) & 0x3FFFFFF);
    LaneOfJump(i, op);
    AsmTargets.JumpReaches(i.pc, address, op);
  }

  /** The resolver's target for an assembled reference is the label if and only if the reference reaches it. */
  lemma ReferenceLane(i: BR.Fetched, kind: RefKind, address: Word)
    requires IsReference(kind) && AsmTargets.RefWord(kind, i.pc, address) == Some(i.word)
    ensures BR.LaneOf(i).target == address <==> Reaches(kind, i.pc, address)
    ensures !BR.LaneOf(i).kind.Unresolved?
  {
    if kind.Branch? { BranchLane(i, address, kind.cond, kind.link); } else { JumpLane(i, address, kind.op); }
  }

  lemma FetchedIs(img: Image, p: nat, w: Option<Word>)
    requires HoldsWord(AsmTargets.Assembler(), img, p, w)
    ensures FetchWord(img, p) == w
  {
    HexCodec.WordOfBytes(w.value);
  }

  /** The lane fetches, at its pc, the word that the i-th item of the program has in the patched image. */
  ghost predicate Fetches(a: Asm, items: seq<Item>, i: nat, lane: BR.Fetched)
    requires Patchable(a, items) && i < |items|
  {
    var fmt := AsmTargets.Assembler();
    lane.pc == PcAfter(fmt, a.pc, items[..i]) && FetchWord(Patched(a, items), fmt.position(lane.pc)) == Some(lane.word)
  }

  lemma PatchedHolds(a: Asm, items: seq<Item>, i: nat, pc: Word)
    requires Patchable(a, items) && i < |items| && items[i].Ref?
             && pc == PcAfter(AsmTargets.Assembler(), a.pc, items[..i])
    ensures var fmt := AsmTargets.Assembler();
            var labels := Assemble(fmt, a, items).value.labels;
            items[i].target in labels
            && HoldsWord(fmt, Patched(a, items), fmt.position(pc),
                         fmt.refWord(items[i].kind, pc, labels[items[i].target]))
  {
    PatchedReference(AsmTargets.Assembler(), a, items, i);
  }

  lemma FetchesReference(a: Asm, items: seq<Item>, i: nat, lane: BR.Fetched)
    requires Patchable(a, items) && i < |items| && items[i].Ref? && Fetches(a, items, i, lane)
    ensures var labels := Assemble(AsmTargets.Assembler(), a, items).value.labels;
            && items[i].target in labels
            && AsmTargets.RefWord(items[i].kind, lane.pc, labels[items[i].target]) == Some(lane.word)
  {
    var fmt := AsmTargets.Assembler();
    PatchedHolds(a, items, i, lane.pc);
    var labels := Assemble(fmt, a, items).value.labels;
    FetchedIs(Patched(a, items), fmt.position(lane.pc), fmt.refWord(items[i].kind, lane.pc, labels[items[i].target]));
  }

  /**
   A branch or a jump to a label, assembled, patched, fetched and resolved: its lane's target is the
   label's address if and only if the reference reaches it, and when that lane triggers the flush the
   front end recovers to the label.
   */
  lemma ReferenceRecovered(a: Asm, items: seq<Item>, i: nat, ins: seq<BR.Fetched>, f: nat,
                           outs: seq<BR.LaneOut>, triggered: bool, recovered: Word)
    requires Patchable(a, items) && i < |items| && items[i].Ref? && IsReference(items[i].kind)
    requires f < |ins| && Fetches(a, items, i, ins[f])
    requires BR.Resolved(BR.Lanes(ins), outs, triggered, recovered)
    ensures var labels := Assemble(AsmTargets.Assembler(), a, items).value.labels;
            && items[i].target in labels
            && (BR.LaneOf(ins[f]).target == labels[items[i].target]
                <==> Reaches(items[i].kind, ins[f].pc, labels[items[i].target]))
            && (BR.FlushLane(BR.Lanes(ins)) == f ==>
                  triggered
                  && (recovered == labels[items[i].target]
                      <==> Reaches(items[i].kind, ins[f].pc, labels[items[i].target])))
  {
    FetchesReference(a, items, i, ins[f]);
    ReferenceLane(ins[f], items[i].kind, Assemble(AsmTargets.Assembler(), a, items).value.labels[items[i].target]);
  }

  /** The label that a patched reference recovers to is the address of the item behind the label. */
  lemma ReferenceLandsOnLabel(a: Asm, items: seq<Item>, i: nat, k: nat, ins: seq<BR.Fetched>, f: nat,
                              outs: seq<BR.LaneOut>, triggered: bool, recovered: Word)
    requires Patchable(a, items) && a.labels == map[] && i < |items| && items[i].Ref? && IsReference(items[i].kind)
    requires k < |items| && items[k] == Label(items[i].target)
    requires f < |ins| && Fetches(a, items, i, ins[f])
    requires BR.Resolved(BR.Lanes(ins), outs, triggered, recovered) && BR.FlushLane(BR.Lanes(ins)) == f
    ensures var address := PcAfter(AsmTargets.Assembler(), a.pc, items[..k]);
            recovered == address <==> Reaches(items[i].kind, ins[f].pc, address)
  {
    ReferenceRecovered(a, items, i, ins, f, outs, triggered, recovered);
    LabelAddress(AsmTargets.Assembler(), a, items, items[i].target, k);
  }

  // ------------------------------------------------------------------ from the image to the file and back

  /** The assembler before the first line: an image of padding. */
  ghost predicate Fresh(a: Asm) { a.maxPhy == 0 && a.fixups == [] && a.image == HexFile.Blank() }

  lemma PatchedPadded(a: Asm, items: seq<Item>)
    requires Fresh(a) && Patchable(a, items)
    ensures Assemble(AsmTargets.Assembler(), a, items).value.maxPhy <= MAX_CODE_BYTES
    ensures PaddedAbove(Patched(a, items), Assemble(AsmTargets.Assembler(), a, items).value.maxPhy, HexFile.PADDING)
  {
    PatchableResolves(a, items);
    ProgramPadded(AsmTargets.Assembler(), a, items, HexFile.PADDING);
  }

  /** The image of a program, written to the hex file and read back, is the same image. */
  lemma ProgramRoundTrip(a: Asm, items: seq<Item>) returns (e: nat)
    requires Fresh(a) && Patchable(a, items)
    ensures var c, b := HexCodec.Hexadecimal(), Assemble(AsmTargets.Assembler(), a, items).value;
            && b.maxPhy <= MAX_CODE_BYTES
            && HexFile.ReadFile(c, HexFile.FileLines(c, Patched(a, items), HexFile.FileEnd(b.maxPhy) / 16))
               == HexFile.Loaded(Patched(a, items), 4 * e)
  {
    var b := Assemble(AsmTargets.Assembler(), a, items).value;
    HexCodec.HexadecimalLawful();
    PatchedPadded(a, items);
    e := HexFile.HexRoundTrip(HexCodec.Hexadecimal(), Patched(a, items), b.maxPhy);
  }
}
