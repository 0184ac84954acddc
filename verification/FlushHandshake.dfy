/** The flush manager wired to the instruction cache and to the controller of the data cache. */
module FlushHandshake {
  import opened Common
  import IC = ICacheModel
  import DT = CacheTypes
  import DC = DCacheModel

  datatype CacheFlushPhase = Free | SendRequest | Processing | Waiting

  datatype Manager = Manager(phase: CacheFlushPhase, icComplete: bool, dcComplete: bool)

  /** What the manager sees in one cycle. */
  datatype Wires = Wires(cacheFlushReq: bool, icAck: bool, dcAck: bool, icComplete: bool, dcComplete: bool)

  /** Both caches are asked to flush in this cycle. */
  predicate Sends(m: Manager, w: Wires) { m.phase.SendRequest? && w.icAck && w.dcAck }

  /** The completion that the manager announces, to the caches and to the replayed fence. */
  predicate Announces(m: Manager) { m.phase.Waiting? }

  function NextPhase(m: Manager, w: Wires): CacheFlushPhase
  {
    match m.phase
    case Free => if w.cacheFlushReq then SendRequest else Free
    case SendRequest => if w.icAck && w.dcAck then Processing else SendRequest
    case Processing => if (m.icComplete || w.icComplete) && (m.dcComplete || w.dcComplete) then Waiting else Processing
    case Waiting => if w.cacheFlushReq then Free else Waiting
  }

  function Next(m: Manager, w: Wires): Manager
  {
    Manager(
      NextPhase(m, w),
      !Sends(m, w) && (m.icComplete || (m.phase.Processing? && w.icComplete)),
      !Sends(m, w) && (m.dcComplete || (m.phase.Processing? && w.dcComplete)))
  }

  /** The unit in its clocked form. */
  class CacheFlushManager {
    var regPhase: CacheFlushPhase
    var regIcFlushComplete: bool
    var regDcFlushComplete: bool

    function State(): Manager
      reads this
    {
      Manager(regPhase, regIcFlushComplete, regDcFlushComplete)
    }

    method Clock(w: Wires) returns (icFlushReq: bool, dcFlushReq: bool, cacheFlushComplete: bool)
      modifies this
      ensures State() == Next(old(State()), w)
      ensures icFlushReq == dcFlushReq == Sends(old(State()), w)
      ensures cacheFlushComplete == Announces(old(State()))
    {
      icFlushReq, dcFlushReq, cacheFlushComplete := false, false, false;
      match regPhase {
        case Free =>
          if w.cacheFlushReq { regPhase := SendRequest; }
        case SendRequest =>
          if w.icAck && w.dcAck {
            icFlushReq, dcFlushReq := true, true;
            regIcFlushComplete, regDcFlushComplete := false, false;
            regPhase := Processing;
          }
        case Processing =>
          if w.icComplete { regIcFlushComplete := true; }
          if w.dcComplete { regDcFlushComplete := true; }
          if regIcFlushComplete && regDcFlushComplete { regPhase := Waiting; }
        case Waiting =>
          cacheFlushComplete := true;
          if w.cacheFlushReq { regPhase := Free; }
      }
    }
  }

  // ------------------------------------------------------------------ the three parties together

  datatype Joint = Joint(m: Manager, ic: IC.ICacheState, dc: DT.DCacheState)

  /** Everything else that reaches the three parties. */
  datatype JointInput = JointInput(cacheFlushReq: bool, ic: IC.ICacheInput, dc: DT.Input)

  function WiresOf(j: Joint, inp: JointInput): Wires
  {
    Wires(inp.cacheFlushReq, j.ic.flushReqAck, DC.FlushAck(j.dc), j.ic.phase.FlushComplete?,
          j.dc.phase == DT.FlushComplete)
  }

  predicate Accept(j: Joint, inp: JointInput) { Sends(j.m, WiresOf(j, inp)) }

  function IcInput(j: Joint, inp: JointInput): IC.ICacheInput
  {
    inp.ic.(flushReq := Accept(j, inp), flushComplete := Announces(j.m))
  }

  function DcInput(j: Joint, inp: JointInput): DT.Input
  {
    inp.dc.(flushReq := Accept(j, inp), flushDone := Announces(j.m))
  }

  function NextJoint(j: Joint, inp: JointInput): Joint
  {
    Joint(Next(j.m, WiresOf(j, inp)), IC.Next(j.ic, IcInput(j, inp)), DC.Next(j.dc, DcInput(j, inp)))
  }

  ghost predicate InitJoint(j: Joint)
  {
    j.m == Manager(Free, false, false) && IC.Reset(j.ic) && DC.IsReset(j.dc)
  }

  ghost predicate StepAt(js: seq<Joint>, inputs: seq<JointInput>, k: nat)
    requires |js| == |inputs| + 1 && k < |inputs|
  {
    js[k + 1] == NextJoint(js[k], inputs[k])
  }

  ghost predicate Run(js: seq<Joint>, inputs: seq<JointInput>)
  {
    |js| == |inputs| + 1 && InitJoint(js[0]) && forall k: nat :: k < |inputs| ==> StepAt(js, inputs, k)
  }

  // ------------------------------------------------------------------ the invariant

  predicate BothNormal(j: Joint) { !j.ic.phase.Flushing() && j.dc.phase == DT.Normal }

  predicate BothComplete(j: Joint) { j.ic.phase.FlushComplete? && j.dc.phase == DT.FlushComplete }

  predicate BothFlushing(j: Joint) { j.ic.phase.Flushing() && j.dc.phase != DT.Normal }

  predicate Coordinated(j: Joint)
  {
    && j.ic.flushReqAck == j.ic.phase.ReadCache?
    && match j.m.phase
       case Free => BothNormal(j)
       case SendRequest => BothNormal(j)
       case Processing =>
         && BothFlushing(j)
         && (j.m.icComplete ==> j.ic.phase.FlushComplete?)
         && (j.m.dcComplete ==> j.dc.phase == DT.FlushComplete)
       case Waiting => BothComplete(j) || BothNormal(j)
  }

  /** The phases of the three parties move together; the rest of their registers does not matter. */
  lemma PhasesStep(j: Joint, inp: JointInput)
    ensures var n := NextJoint(j, inp);
            && n.m == Next(j.m, WiresOf(j, inp))
            && n.ic.phase == IC.NextPhase(j.ic, IcInput(j, inp))
            && n.ic.flushReqAck == IC.NextReqAck(j.ic, IcInput(j, inp))
            && n.dc.phase == DC.NextPhase(j.dc, DcInput(j, inp))
            && IcInput(j, inp).flushReq == DcInput(j, inp).flushReq == Accept(j, inp)
            && IcInput(j, inp).flushComplete == DcInput(j, inp).flushDone == Announces(j.m)
  {
  }

  lemma CoordinatedStep(j: Joint, inp: JointInput)
    requires Coordinated(j)
    ensures Coordinated(NextJoint(j, inp))
  {
    PhasesStep(j, inp);
  }

  lemma {:induction false} RunCoordinated(js: seq<Joint>, inputs: seq<JointInput>, k: nat)
    requires Run(js, inputs) && k < |js|
    ensures Coordinated(js[k])
  {
    if k > 0 {
      RunCoordinated(js, inputs, k - 1);
      assert StepAt(js, inputs, k - 1);
      CoordinatedStep(js[k - 1], inputs[k - 1]);
    }
  }

  // ------------------------------------------------------------------ main results

  /** Both caches enter their flush in the same cycle, the one in which the manager sends the request. */
  lemma FlushStartsTogether(js: seq<Joint>, inputs: seq<JointInput>, k: nat)
    requires Run(js, inputs) && k < |inputs|
    ensures Accept(js[k], inputs[k]) <==> !js[k].ic.phase.Flushing() && js[k + 1].ic.phase.Flushing()
    ensures Accept(js[k], inputs[k]) <==> js[k].dc.phase == DT.Normal && js[k + 1].dc.phase != DT.Normal
    ensures Accept(js[k], inputs[k]) ==>
              js[k + 1].ic.phase.FlushPrepare? && js[k + 1].dc.phase == DT.FlushProcessing
              && js[k + 1].m == Manager(Processing, false, false)
  {
    RunCoordinated(js, inputs, k);
    assert StepAt(js, inputs, k);
    PhasesStep(js[k], inputs[k]);
  }

  /** Neither cache leaves its flush before both have completed it, and then both leave in one cycle. */
  lemma FlushEndsTogether(js: seq<Joint>, inputs: seq<JointInput>, k: nat)
    requires Run(js, inputs) && k < |inputs|
    requires (js[k].ic.phase.Flushing() && !js[k + 1].ic.phase.Flushing())
             || (js[k].dc.phase != DT.Normal && js[k + 1].dc.phase == DT.Normal)
    ensures BothComplete(js[k]) && BothNormal(js[k + 1]) && js[k].m.phase.Waiting?
    ensures js[k + 1].ic.phase.ReadCache?
  {
    RunCoordinated(js, inputs, k);
    assert StepAt(js, inputs, k);
    PhasesStep(js[k], inputs[k]);
  }

  /** The completions that the manager has counted since its request of cycle j. */
  ghost predicate CompletedSince(js: seq<Joint>, j: nat, k: nat, ic: bool)
    requires j < k < |js|
  {
    exists t: nat :: j < t < k && if ic then js[t].ic.phase.FlushComplete? else js[t].dc.phase == DT.FlushComplete
  }

  lemma ManagerStep(js: seq<Joint>, inputs: seq<JointInput>, k: nat)
    requires Run(js, inputs) && k < |inputs| && js[k].m.phase.Processing?
    ensures js[k + 1].m.icComplete == (js[k].m.icComplete || js[k].ic.phase.FlushComplete?)
    ensures js[k + 1].m.dcComplete == (js[k].m.dcComplete || js[k].dc.phase == DT.FlushComplete)
    ensures js[k + 1].m.phase.Waiting? <==> js[k + 1].m.icComplete && js[k + 1].m.dcComplete
  {
    assert StepAt(js, inputs, k);
  }

  /** No completion from an earlier flush is counted: a recorded completion was seen after this request. */
  lemma {:induction false} NoStaleCompletion(js: seq<Joint>, inputs: seq<JointInput>, j: nat, k: nat)
    requires Run(js, inputs) && j < k < |js| && Accept(js[j], inputs[j])
    requires forall t: nat :: j < t < k ==> js[t].m.phase.Processing?
    ensures js[k].m.icComplete <==> CompletedSince(js, j, k, true)
    ensures js[k].m.dcComplete <==> CompletedSince(js, j, k, false)
    decreases k
  {
    if k == j + 1 { FlushStartsTogether(js, inputs, j); }
    else {
      NoStaleCompletion(js, inputs, j, k - 1);
      ManagerStep(js, inputs, k - 1);
    }
  }

  /** When the manager starts to announce completion, both caches are complete and stay so for that cycle. */
  lemma AnnouncedWhenComplete(js: seq<Joint>, inputs: seq<JointInput>, k: nat)
    requires Run(js, inputs) && k < |inputs| && js[k].m.phase.Processing? && js[k + 1].m.phase.Waiting?
    ensures BothComplete(js[k]) && BothComplete(js[k + 1])
    ensures k + 1 < |inputs| ==> BothNormal(js[k + 2])
  {
    RunCoordinated(js, inputs, k);
    assert StepAt(js, inputs, k);
    PhasesStep(js[k], inputs[k]);
    if k + 1 < |inputs| {
      assert StepAt(js, inputs, k + 1);
      PhasesStep(js[k + 1], inputs[k + 1]);
    }
  }

  /**
   A request goes out: once asked, the manager waits exactly until both caches are ready, the instruction
   cache in its reading phase and the data cache with no miss register in use; and it announces completion
   in exactly the cycle after both are complete, until it is asked again.
   */
  lemma HandshakeAdvances(js: seq<Joint>, inputs: seq<JointInput>, k: nat)
    requires Run(js, inputs) && k < |inputs|
    ensures js[k].m.phase.Free? ==> (js[k + 1].m.phase.SendRequest? <==> inputs[k].cacheFlushReq)
    ensures js[k].m.phase.SendRequest? ==>
              (js[k + 1].m.phase.Processing? <==> js[k].ic.phase.ReadCache? && Idle(js[k].dc))
    ensures js[k].m.phase.Processing? ==> (js[k + 1].m.phase.Waiting? <==> BothComplete(js[k]))
    ensures js[k].m.phase.Waiting? ==> (js[k + 1].m.phase.Free? <==> inputs[k].cacheFlushReq)
    ensures js[k + 1].m.phase == js[k].m.phase || Follows(js[k].m.phase, js[k + 1].m.phase)
  {
    RunCoordinated(js, inputs, k);
    assert StepAt(js, inputs, k);
    PhasesStep(js[k], inputs[k]);
    IdleAcks(js[k].dc);
  }

  /** The data cache runs normally and all its miss registers are free. */
  ghost predicate Idle(s: DT.DCacheState)
  {
    s.phase == DT.Normal && forall m: DT.MshrId :: s.mshr(m).phase == DT.Invalid
  }

  predicate Follows(p: CacheFlushPhase, q: CacheFlushPhase)
  {
    (p.Free? && q.SendRequest?) || (p.SendRequest? && q.Processing?) || (p.Processing? && q.Waiting?)
    || (p.Waiting? && q.Free?)
  }

  lemma IdleAcks(s: DT.DCacheState)
    ensures DC.FlushAck(s) <==> Idle(s)
  {
    if DC.FlushAck(s) {
      forall m: DT.MshrId ensures s.mshr(m).phase == DT.Invalid { assert !DC.Occupied(s)(m); }
    }
  }
}
