/** The assembler's code layout and reference encoding, and where the hardware's branch resolver goes. */
module AsmTargets {
  import opened Common
  import opened Isa
  import opened AsmEncoding
  import Backpatch

  // ------------------------------------------------------------------ the assembler's format

  /** RAM at 0x80000000 is mapped to 0x10000 in the image; other addresses are themselves. */
  function LogToPhy(la: Word): Word
  {
    if 0x8000_0000 <= la < 0x8004_0000 then 0x0001_0000 + (la - 0x8000_0000) else la
  }

  predicate InRam(la: Word) { 0x8000_0000 <= la < 0x8004_0000 }

  /** Two addresses share a byte of the image exactly when one is in RAM and the other is its place in the image. */
  lemma ImageShared(la: Word, lb: Word)
    ensures LogToPhy(la) == LogToPhy(lb) && la != lb <==>
              || (InRam(la) && !InRam(lb) && lb == la - 0x7FFF_0000)
              || (InRam(lb) && !InRam(la) && la == lb - 0x7FFF_0000)
  {
  }

  /** So the ROM below 0x10000 and the RAM do not overlap, in themselves or with each other. */
  lemma ImageInjective(la: Word, lb: Word)
    requires la < 0x0001_0000 || InRam(la)
    requires lb < 0x0001_0000 || InRam(lb)
    ensures LogToPhy(la) == LogToPhy(lb) <==> la == lb
  {
    ImageShared(la, lb);
  }

  function Bytes(w: Word): Backpatch.Quad
  {
    [(w & 0xFF) as Byte, ((w >> 8) & 0xFF) as Byte, ((w >> 16) & 0xFF) as Byte, ((w >> 24) & 0xFF) as Byte]
  }

  function Displacement(pc: Word, address: Word): Word { address - pc - 4 }

  /** Arithmetic shift right by two. */
  function Quarter(d: Word): Word { (d >> 2) | ((0 - (d >> 31)) << 30) }

  /** A branch to a misaligned address is an error. */
  function RefWord(kind: Backpatch.RefKind, pc: Word, address: Word): Option<Word>
  {
    match kind
    case Branch(cond, link) =>
      if Displacement(pc, address) & 3 != 0 then None
      else Some(EncB21(cond, link, Quarter(Displacement(pc, address))))
    case Jump(op) => Some(EncJ26(op, (address >> 2) & 0x3FFFFFF))
  }

  function Assembler(): Backpatch.Format
  {
    Backpatch.Format((pc: Word) => LogToPhy(pc) as nat, (pc: Word) => pc + 4, Bytes, RefWord)
  }

  // ------------------------------------------------------------------ where the hardware goes

  /** Four times the sign-extended field. */
  function Scaled(off21: Word): Word { SignExtend21(off21) << 2 }

  function AddTarget(pc: Word, x: Word): Word { pc + 4 + x }

  /** B21 target of the branch resolver. */
  function BranchTarget(pc: Word, w: Word): Word { AddTarget(pc, Scaled(Off21Field(w))) }

  /** J26 target: the field in words, in the 256 MB region of the pc. */
  function JumpTarget(pc: Word, w: Word): Word { (pc & 0xF000_0000) | (Target26Field(w) << 2) }

  /** A displacement of at most 21 signed words. */
  predicate Fits21Words(d: Word) { d & 3 == 0 && (d < 0x40_0000 || d >= 0xFFC0_0000) }

  /** The displacement that the hardware adds for the assembler's field. */
  function Taken(d: Word): Word { Scaled(Quarter(d) & 0x1FFFFF) }

  lemma ShortForward(d: Word)
    requires d & 3 == 0 && d < 0x40_0000
    ensures Taken(d) == d
  {
  }

  lemma ShortBackward(d: Word)
    requires d & 3 == 0 && d >= 0xFFC0_0000
    ensures Taken(d) == d
  {
  }

  lemma LongTaken(d: Word)
    requires Taken(d) == d
    ensures Fits21Words(d)
  {
  }

  lemma AddBack(pc: Word, address: Word)
    ensures AddTarget(pc, address - pc - 4) == address
  {
  }

  lemma TakeAway(pc: Word, x: Word)
    ensures Displacement(pc, pc + 4 + x) == x
  {
  }

  lemma AddDisplacement(pc: Word, address: Word)
    ensures AddTarget(pc, Displacement(pc, address)) == address
  {
    var d := Displacement(pc, address);
    assert d == address - pc - 4;
    AddBack(pc, address);
    assert AddTarget(pc, d) == AddTarget(pc, address - pc - 4);
  }

  lemma DisplacementOfTarget(pc: Word, x: Word)
    ensures Displacement(pc, AddTarget(pc, x)) == x
  {
    var t := AddTarget(pc, x);
    assert t == pc + 4 + x;
    TakeAway(pc, x);
    assert Displacement(pc, t) == Displacement(pc, pc + 4 + x);
  }

  lemma TargetField(pc: Word, d: Word, cond: Word, link: Word)
    ensures BranchTarget(pc, EncB21(cond, link, Quarter(d))) == AddTarget(pc, Taken(d))
  {
  }

  lemma TakenIsDisplacement(pc: Word, address: Word, taken: Word)
    ensures AddTarget(pc, taken) == address <==> taken == Displacement(pc, address)
  {
    AddDisplacement(pc, address);
    DisplacementOfTarget(pc, taken);
  }

  lemma FitsIffTaken(d: Word)
    ensures Taken(d) == d <==> Fits21Words(d)
  {
    if Taken(d) == d { LongTaken(d); }
    else if Fits21Words(d) {
      if d < 0x40_0000 { ShortForward(d); } else { ShortBackward(d); }
    }
  }

  /** A branch reaches its label if and only if the displacement is aligned and fits 21 signed words. */
  lemma BranchReaches(pc: Word, address: Word, cond: Word, link: Word)
    ensures BranchTarget(pc, EncB21(cond, link, Quarter(Displacement(pc, address)))) == address
            <==> Fits21Words(Displacement(pc, address))
  {
    var d := Displacement(pc, address);
    TargetField(pc, d, cond, link);
    TakenIsDisplacement(pc, address, Taken(d));
    FitsIffTaken(d);
  }

  lemma JumpBits(pc: Word, address: Word)
    ensures (pc & 0xF000_0000) | (((address >> 2) & 0x3FFFFFF) << 2) == address
            <==> address & 3 == 0 && address & 0xF000_0000 == pc & 0xF000_0000
  {
  }

  /** A jump reaches its label if and only if the label is aligned and in the same 256 MB region. */
  lemma JumpReaches(pc: Word, address: Word, op: Word)
    ensures JumpTarget(pc, EncJ26(op, (address >> 2) & 0x3FFFFFF)) == address
            <==> address & 3 == 0 && address & 0xF000_0000 == pc & 0xF000_0000
  {
    JumpBits(pc, address);
  }
}
