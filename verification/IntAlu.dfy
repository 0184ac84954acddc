/**
 The adder and the comparisons of IntALU.sv for words of any width: half is half the number of
 words (2^31 for 32 bits), so the sign bit of x is x >= half.
 */
module IntAlu {
  import opened Common

  type Half = h: nat | h > 0 witness 1

  predicate IsWord(half: Half, x: nat) { x < 2 * half }

  predicate Negative(half: Half, x: nat) { x >= half }

  /** The word read as a two's complement number. */
  function Signed(half: Half, x: nat): int { if x >= half then x - 2 * half else x }

  /** Bitwise complement of a word. */
  function Inv(half: Half, x: nat, inv: bool): (r: nat)
    requires IsWord(half, x)
    ensures IsWord(half, r)
  {
    if inv then 2 * half - 1 - x else x
  }

  /** NZVC */
  datatype Flags = Flags(n: bool, z: bool, v: bool, c: bool)
  datatype AluResult = AluResult(data: nat, flags: Flags)

  /** The sum has one bit more than a word: its top bit is the carry. */
  function Add(half: Half, a: nat, b: nat, invB: bool, carryIn: nat): AluResult
    requires IsWord(half, a) && IsWord(half, b) && carryIn <= 1
  {
    var sum := a + Inv(half, b, invB) + carryIn;
    var data := if sum >= 2 * half then sum - 2 * half else sum;
    var overflow := Negative(half, data) != Negative(half, a)
      && Negative(half, data) != Negative(half, Inv(half, b, invB));
    AluResult(data, Flags(Negative(half, data), data == 0, overflow, sum >= 2 * half))
  }

  datatype AluCode = AcAdd | AcSub | AcAnd | AcOrr | AcEor | AcSlt | AcSltu

  /** A result that does not come from the adder: the adder idles on zeros, so no overflow and no carry. */
  function Logic(half: Half, data: nat): AluResult
  {
    AluResult(data, Flags(Negative(half, data), data == 0, false, false))
  }

  /** The codes whose result is arithmetic on numbers. */
  predicate Arithmetic(code: AluCode) { code.AcAdd? || code.AcSub? || code.AcSlt? || code.AcSltu? }

  function Alu(half: Half, code: AluCode, a: nat, b: nat): AluResult
    requires IsWord(half, a) && IsWord(half, b) && Arithmetic(code)
  {
    match code
    case AcAdd => Add(half, a, b, false, 0)
    case AcSub => Add(half, a, b, true, 1)
    case AcSlt => Logic(half, if Signed(half, a) < Signed(half, b) then 1 else 0)
    case AcSltu => Logic(half, if a < b then 1 else 0)
  }

  /** Branch conditions on the flags. */
  datatype Cond = Eq | Ne | Cs | Cc | Mi | Pl | Vs | Vc | Al

  predicate Holds(cond: Cond, f: Flags)
  {
    match cond
    case Eq => f.z
    case Ne => !f.z
    case Cs => f.c
    case Cc => !f.c
    case Mi => f.n
    case Pl => !f.n
    case Vs => f.v
    case Vc => !f.v
    case Al => true
  }

  /** The signed range of a word. */
  predicate InRange(half: Half, x: int) { -(half as int) <= x < half }

  /** The flags f of a - b: C is unsigned at-least, Z equality, V signed overflow, N against V the signed order. */
  predicate OfDifference(half: Half, f: Flags, a: nat, b: nat)
  {
    && (f.c <==> a >= b)
    && (f.z <==> a == b)
    && (f.v <==> !InRange(half, Signed(half, a) - Signed(half, b)))
    && (f.n != f.v <==> Signed(half, a) < Signed(half, b))
  }

  /** What the flags mean after a subtraction of any two words of any width. */
  lemma SubtractFlags(half: Half, a: nat, b: nat)
    requires IsWord(half, a) && IsWord(half, b)
    ensures OfDifference(half, Alu(half, AcSub, a, b).flags, a, b)
  {
  }

  /**
   What every branch condition means after a subtraction: equality, unsigned order, overflow of the signed
   difference, and its sign as far as it did not overflow.
   */
  lemma ConditionsAfterSubtract(half: Half, a: nat, b: nat)
    requires IsWord(half, a) && IsWord(half, b)
    ensures var f, d := Alu(half, AcSub, a, b).flags, Signed(half, a) - Signed(half, b);
            && (Holds(Eq, f) <==> a == b) && (Holds(Ne, f) <==> a != b)
            && (Holds(Cs, f) <==> a >= b) && (Holds(Cc, f) <==> a < b)
            && (Holds(Vs, f) <==> !InRange(half, d)) && (Holds(Vc, f) <==> InRange(half, d))
            && (Holds(Mi, f) <==> (d < 0) == InRange(half, d)) && (Holds(Pl, f) <==> (d < 0) != InRange(half, d))
            && Holds(Al, f)
  {
    SubtractFlags(half, a, b);
  }

  /** Addition and subtraction are exact modulo the number of words, and undo each other. */
  lemma AddSubtract(half: Half, a: nat, b: nat)
    requires IsWord(half, a) && IsWord(half, b)
    ensures var sum := Alu(half, AcAdd, a, b);
            && IsWord(half, sum.data) && Alu(half, AcSub, sum.data, b).data == a
            && (sum.flags.c <==> a + b >= 2 * half)
            && (sum.flags.v <==> !InRange(half, Signed(half, a) + Signed(half, b)))
            && (!sum.flags.v ==> Signed(half, sum.data) == Signed(half, a) + Signed(half, b))
  {
  }

  /** A comparison sets Z exactly when it fails, and no other flag. */
  lemma ComparisonFlags(half: Half, code: AluCode, a: nat, b: nat)
    requires IsWord(half, a) && IsWord(half, b) && half > 1 && (code.AcSlt? || code.AcSltu?)
    ensures var less := if code.AcSlt? then Signed(half, a) < Signed(half, b) else a < b;
            Alu(half, code, a, b).flags == Flags(false, !less, false, false)
  {
  }

  /** The comparisons agree with the flags of a subtraction and with the branch conditions on them. */
  lemma CompareAgreesWithSubtract(half: Half, a: nat, b: nat)
    requires IsWord(half, a) && IsWord(half, b)
    ensures var f := Alu(half, AcSub, a, b).flags;
            && (Alu(half, AcSlt, a, b).data == 1 <==> f.n != f.v)
            && (Alu(half, AcSltu, a, b).data == 1 <==> Holds(Cc, f))
            && (Holds(Cs, f) <==> a >= b) && (Holds(Eq, f) <==> a == b)
  {
    SubtractFlags(half, a, b);
  }
}
