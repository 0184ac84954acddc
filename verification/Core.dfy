/** The machine of the source: the 32-bit ALU of IntALU.sv and little-endian words in byte memory. */
module Core {
  import opened IntAlu
  import opened Isa

  /** Half the number of words: the sign bit at 32 bits. */
  const HALF: Half := 0x8000_0000

  predicate SignBit(x: Word) { x >> 31 == 1 }

  predicate SignedLess(a: Word, b: Word) { a ^ 0x8000_0000 < b ^ 0x8000_0000 }

  /** The result of an operation; the adder subtracts by adding the complement with a carry in. */
  function AluData(code: AluCode, a: Word, b: Word): Word
  {
    match code
    case AcAdd => a + b
    case AcSub => a + !b + 1
    case AcAnd => a & b
    case AcOrr => a | b
    case AcEor => a ^ b
    case AcSlt => if SignedLess(a, b) then 1 else 0
    case AcSltu => if a < b then 1 else 0
  }

  /**
   The flags of an arithmetic operation are those of the ALU on the numbers that the words stand for; in
   the logic operations the adder idles, and N and Z come from the result.
   */
  function AluFlags(code: AluCode, a: Word, b: Word): Flags
  {
    if Arithmetic(code) then Alu(HALF, code, a as nat, b as nat).flags
    else Flags(SignBit(AluData(code, a, b)), AluData(code, a, b) == 0, false, false)
  }

  predicate Bit(x: Word, i: Word)
    requires i < 32
  {
    (x >> i) & 1 == 1
  }

  // The logic operations work on every bit by itself.

  lemma AndBits(a: Word, b: Word, i: Word)
    requires i < 32
    ensures Bit(AluData(AcAnd, a, b), i) <==> Bit(a, i) && Bit(b, i)
  {
  }

  lemma OrBits(a: Word, b: Word, i: Word)
    requires i < 32
    ensures Bit(AluData(AcOrr, a, b), i) <==> Bit(a, i) || Bit(b, i)
  {
  }

  lemma EorBits(a: Word, b: Word, i: Word)
    requires i < 32
    ensures Bit(AluData(AcEor, a, b), i) <==> Bit(a, i) != Bit(b, i)
  {
  }

  /** The logic operations set neither carry nor overflow; Z and N are those of the result. */
  lemma LogicSetsFlags(code: AluCode, a: Word, b: Word)
    requires !Arithmetic(code)
    ensures var f, d := AluFlags(code, a, b), AluData(code, a, b);
            !f.c && !f.v && (f.z <==> d == 0) && (f.n <==> Bit(d, 31))
  {
    TopBit(AluData(code, a, b));
  }

  lemma TopBit(x: Word)
    ensures SignBit(x) <==> Bit(x, 31)
  {
  }

  lemma NumberFlags(a: Word, b: Word, x: nat, y: nat)
    requires x == a as nat && y == b as nat
    ensures AluFlags(AcSub, a, b) == Alu(HALF, AcSub, x, y).flags
  {
  }

  /** The difference is zero exactly for equal words. */
  lemma SubtractZero(a: Word, b: Word)
    ensures AluData(AcSub, a, b) == 0 <==> a == b
  {
  }

  /** What the machine's flags mean after a subtraction of two words. */
  lemma SubtractSetsFlags(a: Word, b: Word)
    ensures OfDifference(HALF, AluFlags(AcSub, a, b), a as nat, b as nat)
  {
    var x, y := a as nat, b as nat;
    NumberFlags(a, b, x, y);
    SubtractFlags(HALF, x, y);
  }

  function NumberOf(a: Word): nat { a as nat }

  function WordOfNumber(x: nat): Word
    requires x < 0x1_0000_0000
  {
    x as Word
  }

  lemma NumberRestores(a: Word)
    ensures NumberOf(a) < 0x1_0000_0000 && WordOfNumber(NumberOf(a)) == a
  {
  }

  /** Different words are different numbers. */
  lemma SameNumber(a: Word, b: Word)
    requires NumberOf(a) == NumberOf(b)
    ensures a == b
  {
    NumberRestores(a);
    NumberRestores(b);
  }

  lemma ZeroOfDifference(f: Flags, a: Word, b: Word)
    requires OfDifference(HALF, f, NumberOf(a), NumberOf(b))
    ensures f.z <==> a == b
  {
    if NumberOf(a) == NumberOf(b) { SameNumber(a, b); }
  }

  /** Z is set exactly by the difference of equal words. */
  lemma SubtractSetsZ(a: Word, b: Word)
    ensures AluFlags(AcSub, a, b).z <==> a == b
  {
    SubtractSetsFlags(a, b);
    ZeroOfDifference(AluFlags(AcSub, a, b), a, b);
  }

  /** Z is that of the result that the subtraction delivers. */
  lemma ZeroResultSetsZ(a: Word, b: Word)
    ensures AluFlags(AcSub, a, b).z <==> AluData(AcSub, a, b) == 0
  {
    SubtractSetsZ(a, b);
    SubtractZero(a, b);
  }

  function LoadWord(mem: Memory, a: Word): Word
  {
    (mem(a) as Word) | ((mem(a + 1) as Word) << 8) | ((mem(a + 2) as Word) << 16) | ((mem(a + 3) as Word) << 24)
  }

  function ByteOf(v: Word, shift: bv6): Byte
    requires shift <= 24
  {
    ((v >> shift) & 0xFF) as Byte
  }

  function StoreWord(mem: Memory, a: Word, v: Word): Memory
  {
    (x: Word) => if x == a then ByteOf(v, 0)
                 else if x == a + 1 then ByteOf(v, 8)
                 else if x == a + 2 then ByteOf(v, 16)
                 else if x == a + 3 then ByteOf(v, 24)
                 else mem(x)
  }

  lemma BytesOfWord(v: Word)
    ensures (ByteOf(v, 0) as Word) | ((ByteOf(v, 8) as Word) << 8)
            | ((ByteOf(v, 16) as Word) << 16) | ((ByteOf(v, 24) as Word) << 24) == v
  {
  }

  /** A stored word is read back. */
  lemma LoadAfterStore(mem: Memory, a: Word, v: Word)
    ensures LoadWord(StoreWord(mem, a, v), a) == v
  {
    BytesOfWord(v);
  }

  function Processor(): Machine
  {
    Machine(AluData, AluFlags, LoadWord, StoreWord)
  }
}
