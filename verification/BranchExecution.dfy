/** The branch resolver against the execution of branches: which predictions it must, and does, correct. */
module BranchExecution {
  import opened Common
  import opened IntAlu
  import opened Isa
  import opened AsmTargets
  import opened BranchResolver

  /** The condition codes of a branch word. */
  function CondOf(code: Word): Cond
  {
    if code == 0 then Eq
    else if code == 1 then Ne
    else if code == 2 then Cs
    else if code == 3 then Cc
    else if code == 4 then Mi
    else if code == 5 then Pl
    else if code == 6 then Vs
    else if code == 7 then Vc
    else Al
  }

  predicate IsBranch(w: Word) { Opcode(w) == OP_BR }

  /** The codes above Al: the decoder makes them unconditional too. */
  predicate Reserved(w: Word) { IsBranch(w) && CondField(w) > 8 }

  /** Executed with these flags, the branch or jump goes where the prediction says. */
  predicate RightFor(i: Fetched, p: Prediction, f: Flags)
  {
    if IsBranch(i.word) then
      p.taken == Holds(CondOf(CondField(i.word)), f) && (p.taken ==> p.address == BranchTarget(i.pc, i.word))
    else IsAbsoluteJump(i.word) ==> p == Prediction(true, JumpTarget(i.pc, i.word))
  }

  ghost predicate CanBeRight(i: Fetched, p: Prediction) { exists f: Flags :: RightFor(i, p, f) }

  ghost predicate AlwaysRight(i: Fetched, p: Prediction) { forall f: Flags :: RightFor(i, p, f) }

  ghost predicate Unconditional(w: Word) { forall f: Flags :: Holds(CondOf(CondField(w)), f) }

  /** A branch of a reserved code that is predicted not taken: the resolver takes it for conditional. */
  predicate Overlooked(i: Fetched) { Reserved(i.word) && !i.prediction.taken }

  /** Every condition but Al holds for some flags and fails for others. */
  lemma CondVaries(c: Cond) returns (yes: Flags, no: Flags)
    ensures Holds(c, yes) && (c != Al ==> !Holds(c, no))
  {
    var low, high := Flags(false, false, false, false), Flags(true, true, true, true);
    if c.Ne? || c.Cc? || c.Pl? || c.Vc? { yes, no := low, high; } else { yes, no := high, low; }
  }

  lemma UnconditionalCodes(w: Word)
    ensures Unconditional(w) <==> CondField(w) >= 8
  {
    var c := CondOf(CondField(w));
    var yes, no := CondVaries(c);
    if CondField(w) < 8 { assert c != Al && !Holds(c, no); }
  }

  lemma BranchCanBeRight(i: Fetched, p: Prediction)
    requires IsBranch(i.word)
    ensures CanBeRight(i, p) <==>
              if p.taken then p.address == BranchTarget(i.pc, i.word) else CondField(i.word) < 8
  {
    var c := CondOf(CondField(i.word));
    var yes, no := CondVaries(c);
    if p.taken && p.address == BranchTarget(i.pc, i.word) { assert RightFor(i, p, yes); }
    if !p.taken && CondField(i.word) < 8 { assert RightFor(i, p, no); }
  }

  lemma OtherCanBeRight(i: Fetched, p: Prediction)
    requires !IsBranch(i.word)
    ensures CanBeRight(i, p) <==> (IsAbsoluteJump(i.word) ==> p == Prediction(true, JumpTarget(i.pc, i.word)))
    ensures CanBeRight(i, p) <==> AlwaysRight(i, p)
  {
    var f := Flags(false, false, false, false);
    assert RightFor(i, p, f) <==> (IsAbsoluteJump(i.word) ==> p == Prediction(true, JumpTarget(i.pc, i.word)));
  }

  /** A lane is found wrong exactly when no flags make its prediction right, unless it is overlooked. */
  lemma WrongIffNeverRight(i: Fetched)
    ensures Mispredicted(LaneOf(i)) <==> !CanBeRight(i, i.prediction) && !Overlooked(i)
  {
    if IsBranch(i.word) { BranchCanBeRight(i, i.prediction); } else { OtherCanBeRight(i, i.prediction); }
  }

  /** So the resolver finds exactly the wrong predictions if and only if the branch is not overlooked. */
  lemma ExactUnlessOverlooked(i: Fetched)
    ensures (Mispredicted(LaneOf(i)) <==> !CanBeRight(i, i.prediction)) <==> !Overlooked(i)
  {
    WrongIffNeverRight(i);
    if Overlooked(i) { BranchCanBeRight(i, i.prediction); }
  }

  /** The word of a branch with a condition code. */
  function BranchWord(code: Word): Word { (OP_BR << 26) | ((code & 0xF) << 22) }

  lemma ReservedWord()
    ensures Reserved(BranchWord(9))
  {
  }

  /** A branch with code 9 that is predicted not taken is always taken, and the resolver lets it pass. */
  lemma ReservedBranchPasses() returns (i: Fetched)
    ensures i.valid && !CanBeRight(i, i.prediction) && !Mispredicted(LaneOf(i))
  {
    ReservedWord();
    i := Fetched(true, BranchWord(9), 0, Prediction(false, 0));
    BranchCanBeRight(i, i.prediction);
    WrongIffNeverRight(i);
  }

  /** A kept prediction can be right, and always is when the condition always holds. */
  lemma KeptCanBeRight(i: Fetched, p: Prediction)
    requires Plausible(LaneOf(i), p) && (Reserved(i.word) ==> p.taken)
    ensures CanBeRight(i, p)
    ensures IsBranch(i.word) && Unconditional(i.word) ==> AlwaysRight(i, p)
    ensures !IsBranch(i.word) ==> AlwaysRight(i, p)
  {
    UnconditionalCodes(i.word);
    if IsBranch(i.word) { BranchCanBeRight(i, p); } else { OtherCanBeRight(i, p); }
  }

  lemma LaneTriggering(ins: seq<Fetched>, k: nat)
    requires k < |ins|
    ensures k <= FlushLane(Lanes(ins)) <==> forall j: nat :: j < k && ins[j].valid ==> !Mispredicted(LaneOf(ins[j]))
    ensures FlushLane(Lanes(ins)) == k <==>
              && ins[k].valid && Mispredicted(LaneOf(ins[k]))
              && forall j: nat :: j < k && ins[j].valid ==> !Mispredicted(LaneOf(ins[j]))
  {
    var lanes := Lanes(ins);
    forall j: nat | j < |ins| ensures Triggers(lanes)(j) <==> ins[j].valid && Mispredicted(LaneOf(ins[j])) { }
    var f := FlushLane(lanes);
    if f < k { assert Triggers(lanes)(f); }
    if k < f { assert !Triggers(lanes)(k); }
  }

  /** The lanes before k are not found wrong: none is valid and never right, unless it is overlooked. */
  ghost predicate NoneWrongBefore(ins: seq<Fetched>, k: nat)
    requires k <= |ins|
  {
    forall j: nat :: j < k && ins[j].valid ==> CanBeRight(ins[j], ins[j].prediction) || Overlooked(ins[j])
  }

  /**
   The resolver in terms of words, predictions and flags. A valid lane triggers the flush exactly when no
   flags make its prediction right, and no lane before it did so, except that a branch with a reserved
   code predicted not taken passes. Execution can agree with every prediction that is kept, and always
   agrees with that of an unconditional branch, of a jump and of any other instruction.
   */
  lemma ResolvedAgainstExecution(ins: seq<Fetched>, outs: seq<LaneOut>, triggered: bool, recovered: Word, k: nat)
    requires Resolved(Lanes(ins), outs, triggered, recovered) && k < |ins|
    ensures |outs| == |ins|
    ensures outs[k].triggering <==>
              && ins[k].valid && !CanBeRight(ins[k], ins[k].prediction) && !Overlooked(ins[k])
              && NoneWrongBefore(ins, k)
    ensures outs[k].valid && !Overlooked(ins[k]) ==>
              && CanBeRight(ins[k], outs[k].prediction)
              && (!IsBranch(ins[k].word) || Unconditional(ins[k].word) ==> AlwaysRight(ins[k], outs[k].prediction))
    ensures outs[k].valid <==> ins[k].valid && NoneWrongBefore(ins, k)
    ensures outs[k].triggering ==>
              triggered && recovered == if IsBranch(ins[k].word) then BranchTarget(ins[k].pc, ins[k].word)
                                        else JumpTarget(ins[k].pc, ins[k].word)
  {
    var f := FlushLane(Lanes(ins));
    assert LaneResolved(Lanes(ins)[k], outs[k], k, f);
    forall j: nat | j <= k
      ensures Mispredicted(LaneOf(ins[j])) <==> !CanBeRight(ins[j], ins[j].prediction) && !Overlooked(ins[j])
    {
      WrongIffNeverRight(ins[j]);
    }
    LaneTriggering(ins, k);
    if outs[k].valid && !Overlooked(ins[k]) { KeptCanBeRight(ins[k], outs[k].prediction); }
  }
}
