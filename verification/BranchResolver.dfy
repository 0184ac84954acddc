/** The decode-time branch resolver of DecodedBranchResolver.sv: targets, and the lane-by-lane flush decision. */
module BranchResolver {
  import opened Common
  import opened Isa
  import opened AsmTargets

  datatype Prediction = Prediction(taken: bool, address: Word)

  /** What the resolver can tell of a lane's instruction. */
  datatype LaneKind = Always | Conditional | Unresolved

  /** What arrives at a lane. */
  datatype Fetched = Fetched(valid: bool, word: Word, pc: Word, prediction: Prediction)

  datatype Lane = Lane(valid: bool, kind: LaneKind, prediction: Prediction, target: Word)

  /** What a lane becomes. */
  datatype LaneOut = LaneOut(valid: bool, flushed: bool, triggering: bool, prediction: Prediction)

  predicate IsAbsoluteJump(w: Word) { Opcode(w) == OP_JMP_ABS || Opcode(w) == OP_JSR_ABS }

  /** The decoder marks a word as a branch by its opcode; register-indirect jumps cannot be resolved here. */
  function LaneOf(i: Fetched): Lane
  {
    if Opcode(i.word) == OP_BR then
      Lane(i.valid, if CondField(i.word) == 8 then Always else Conditional, i.prediction, BranchTarget(i.pc, i.word))
    else if IsAbsoluteJump(i.word) then Lane(i.valid, Always, i.prediction, JumpTarget(i.pc, i.word))
    else Lane(i.valid, Unresolved, i.prediction, 0)
  }

  function Lanes(ins: seq<Fetched>): (lanes: seq<Lane>)
    ensures |lanes| == |ins| && forall i: nat :: i < |ins| ==> lanes[i] == LaneOf(ins[i])
  {
    seq(|ins|, i requires 0 <= i < |ins| => LaneOf(ins[i]))
  }

  /** The prediction cannot be right whatever the flags are. */
  predicate Mispredicted(l: Lane)
  {
    match l.kind
    case Always => !l.prediction.taken || l.target != l.prediction.address
    case Conditional => l.prediction.taken && l.target != l.prediction.address
    case Unresolved => false
  }

  /** The prediction may still be right: what execution has yet to decide is only whether a branch is taken. */
  predicate Plausible(l: Lane, p: Prediction)
  {
    match l.kind
    case Always => p == Prediction(true, l.target)
    case Conditional => p.taken ==> p.address == l.target
    case Unresolved => p == l.prediction
  }

  function Triggers(lanes: seq<Lane>): nat -> bool
  {
    (i: nat) => i < |lanes| && lanes[i].valid && Mispredicted(lanes[i])
  }

  /** The first valid lane whose prediction must be wrong; the number of lanes when there is none. */
  function FlushLane(lanes: seq<Lane>): (f: nat)
    ensures f <= |lanes|
  {
    FirstIndex(Triggers(lanes), |lanes|)
  }

  /**
   The outcome: lanes before the first misprediction stay, that lane triggers the flush, and every lane
   after it is flushed; every lane that stays has a prediction that may still be right.
   */
  ghost predicate Resolved(lanes: seq<Lane>, outs: seq<LaneOut>, triggered: bool, recovered: Word)
  {
    var f := FlushLane(lanes);
    && |outs| == |lanes|
    && triggered == (f < |lanes|)
    && recovered == (if f < |lanes| then lanes[f].target else 0)
    && forall i: nat :: i < |lanes| ==> LaneResolved(lanes[i], outs[i], i, f)
  }

  /** One valid lane before any flush: what the prediction becomes, and where to recover to. */
  method ResolveLane(i: Fetched, brTarget: Word, jmpTarget: Word)
    returns (flushDetected: bool, prediction: Prediction, recovered: Word)
    requires brTarget == BranchTarget(i.pc, i.word) && jmpTarget == JumpTarget(i.pc, i.word)
    ensures flushDetected == Mispredicted(LaneOf(i)) && (flushDetected ==> recovered == LaneOf(i).target)
    ensures Plausible(LaneOf(i), prediction)
    ensures LaneOf(i).kind.Conditional? ==> prediction.taken == i.prediction.taken
    ensures !flushDetected && !LaneOf(i).kind.Always? ==> prediction == i.prediction
  {
    flushDetected, prediction, recovered := false, i.prediction, 0;
    if Opcode(i.word) == OP_BR {
      if CondField(i.word) == 8 {
        if !i.prediction.taken || brTarget != i.prediction.address {
          flushDetected, recovered := true, brTarget;
        }
        prediction := Prediction(true, brTarget);
      } else if i.prediction.taken && brTarget != i.prediction.address {
        flushDetected, recovered := true, brTarget;
        prediction := Prediction(i.prediction.taken, brTarget);
      }
    } else if Opcode(i.word) == OP_JMP_ABS || Opcode(i.word) == OP_JSR_ABS {
      if !i.prediction.taken || jmpTarget != i.prediction.address {
        flushDetected, recovered := true, jmpTarget;
      }
      prediction := Prediction(true, jmpTarget);
    }
  }

  /** Lane i of the outcome, when f is the lane that triggers. */
  predicate LaneResolved(l: Lane, out: LaneOut, i: nat, f: nat)
  {
    && out.valid == (l.valid && i <= f)
    && out.flushed == (i > f)
    && out.triggering == (i == f)
    && (out.valid ==> Plausible(l, out.prediction))
    && (out.valid && l.kind.Conditional? ==> out.prediction.taken == l.prediction.taken)
    && (!out.valid || (i < f && !l.kind.Always?) ==> out.prediction == l.prediction)
  }

  method Resolve(ins: seq<Fetched>) returns (outs: seq<LaneOut>, flushTriggered: bool, recoveredPC: Word)
    ensures Resolved(Lanes(ins), outs, flushTriggered, recoveredPC)
  {
    var brTarget := seq(|ins|, i requires 0 <= i < |ins| => BranchTarget(ins[i].pc, ins[i].word));
    var jmpTarget := seq(|ins|, i requires 0 <= i < |ins| => JumpTarget(ins[i].pc, ins[i].word));
    ghost var lanes := Lanes(ins);
    ghost var f := FlushLane(lanes);
    flushTriggered, recoveredPC, outs := false, 0, [];
    for i := 0 to |ins|
      invariant |outs| == i && flushTriggered == (f < i)
      invariant recoveredPC == if f < i then lanes[f].target else 0
      invariant forall j: nat :: j < i ==> LaneResolved(lanes[j], outs[j], j, f)
    {
      var flushDetected, p := false, ins[i].prediction;
      LaneTriggers(lanes, i);
      if ins[i].valid && !flushTriggered {
        var recovered;
        flushDetected, p, recovered := ResolveLane(ins[i], brTarget[i], jmpTarget[i]);
        if flushDetected {
          recoveredPC := recovered;
        }
      }
      if flushDetected {
        flushTriggered := true;
      }
      var flushed := flushTriggered && !flushDetected;
      outs := outs + [LaneOut(ins[i].valid && !flushed, flushed, flushDetected, p)];
    }
  }

  /** A lane that none before it has flushed triggers exactly when it is valid and mispredicted. */
  lemma LaneTriggers(lanes: seq<Lane>, i: nat)
    requires i < |lanes|
    ensures i <= FlushLane(lanes) ==> (FlushLane(lanes) == i <==> lanes[i].valid && Mispredicted(lanes[i]))
  {
    assert Triggers(lanes)(i) <==> lanes[i].valid && Mispredicted(lanes[i]);
  }

  /** No flush is triggered if and only if every valid lane's prediction may still be right as it came in. */
  lemma FlushIffMispredicted(lanes: seq<Lane>)
    ensures FlushLane(lanes) == |lanes| <==>
            forall i: nat :: i < |lanes| && lanes[i].valid ==> Plausible(lanes[i], lanes[i].prediction)
  {
    if FlushLane(lanes) == |lanes| {
      forall i: nat | i < |lanes| && lanes[i].valid ensures Plausible(lanes[i], lanes[i].prediction)
      {
        assert !Triggers(lanes)(i);
      }
    } else {
      assert Triggers(lanes)(FlushLane(lanes));
    }
  }
}
