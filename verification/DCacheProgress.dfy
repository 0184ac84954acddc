/** How a miss advances: what it may wait for, how many cycles it takes, and when it is freed. */
module DCacheProgress {
  import opened Common
  import opened CacheTypes
  import opened DCacheModel
  import opened DCacheSystem
  import opened DCacheInvariant
  import opened DCacheCycle
  import opened DCacheTheorems

  // ------------------------------------------------------------------ one step

  predicate Missing(e: Mshr) { e.phase != Invalid && !e.phase.Flushing() }

  function MissRank(p: MshrPhase): nat
  {
    match p
    case VictimRequest => 10
    case VictimReceiveTag => 9
    case VictimReceiveData => 8
    case VictimWriteToMem => 7
    case VictimWriteComplete => 6
    case MissReadMemRequest => 5
    case MissReadMemReceive => 4
    case MissMergeStoreData => 3
    case UncachableWriteToMem => 2
    case UncachableWriteComplete => 1
    case MissWriteCacheRequest => 1
    case _ => 0
  }

  /** The array ports are taken by lower-numbered requesters. */
  predicate WaitsForPort(e: Mshr, v: MshrView)
  {
    (e.phase.VictimRequest? || e.phase.MissWriteCacheRequest?) && !v.grant && !e.isAllocatorLoadFlushed
  }

  /** Memory has not accepted the transaction. */
  predicate WaitsForAck(e: Mshr, v: MshrView) { MemReq(e) && !v.accepted }

  /** Memory has not returned the line. */
  predicate WaitsForLine(e: Mshr, v: MshrView) { e.phase.MissReadMemReceive? && !Received(e, v) }

  /** Memory has not acknowledged the write. */
  predicate WaitsForResponse(e: Mshr, v: MshrView)
  {
    (e.phase.VictimWriteComplete? || e.phase.UncachableWriteComplete?) && !Answered(v.response, e.memWSerial)
  }

  /** The load that allocated the entry has neither taken its data nor been flushed. */
  predicate WaitsForRelease(e: Mshr)
  {
    e.phase.MissHandlingComplete? && !e.canBeInvalid && !e.isAllocatedByStore
  }

  predicate MissWaits(e: Mshr, v: MshrView)
  {
    WaitsForPort(e, v) || WaitsForAck(e, v) || WaitsForLine(e, v) || WaitsForResponse(e, v) || WaitsForRelease(e)
  }

  /** A miss register stays in its phase exactly when it waits; otherwise it is freed or its rank drops. */
  lemma MissRankStep(e: Mshr, v: MshrView)
    requires EntryOk(e) && Missing(e)
    ensures MissWaits(e, v) <==> NextMshr(e, v).phase == e.phase
    ensures !MissWaits(e, v) ==>
              NextMshr(e, v).phase == Invalid || MissRank(NextMshr(e, v).phase) < MissRank(e.phase)
    ensures NextMshr(e, v).phase == Invalid || Missing(NextMshr(e, v))
    ensures NextMshr(e, v).phase == Invalid <==> e.phase == MissHandlingComplete && !MissWaits(e, v)
  {
  }

  // ------------------------------------------------------------------ whole misses

  predicate MissingAt(ys: seq<Sys>, m: MshrId, t: nat)
    requires t < |ys|
  {
    Missing(ys[t].s.mshr(m))
  }

  function MissRankAt(ys: seq<Sys>, m: MshrId, t: nat): nat
  {
    if t < |ys| then MissRank(ys[t].s.mshr(m).phase) else 0
  }

  function MissRanks(ys: seq<Sys>, m: MshrId): nat -> nat { (t: nat) => MissRankAt(ys, m, t) }

  /** The cycles in which miss register m waits. */
  function WaitCycles(ys: seq<Sys>, inputs: seq<Input>, m: MshrId): nat -> bool
    requires |ys| == |inputs| + 1
  {
    (t: nat) => t < |inputs| && MissWaits(ys[t].s.mshr(m), ViewOf(ys[t].s, inputs[t], m))
  }

  lemma EntryRun(ys: seq<Sys>, inputs: seq<Input>, m: MshrId, k: nat)
    requires Run(ys, inputs) && k < |inputs|
    ensures ys[k + 1].s.mshr(m) == NextMshr(ys[k].s.mshr(m), ViewOf(ys[k].s, inputs[k], m))
    ensures EntryOk(ys[k].s.mshr(m))
  {
    RunInv(ys, inputs, k);
    RunStepped(ys, inputs, k);
  }

  lemma MissDrops(ys: seq<Sys>, inputs: seq<Input>, m: MshrId, k: nat)
    requires Run(ys, inputs) && k < |inputs| && MissingAt(ys, m, k) && MissingAt(ys, m, k + 1)
    ensures Drops(MissRanks(ys, m), WaitCycles(ys, inputs, m), k)
  {
    EntryRun(ys, inputs, m, k);
    MissRankStep(ys[k].s.mshr(m), ViewOf(ys[k].s, inputs[k], m));
  }

  lemma RankAtMostTen(ys: seq<Sys>, m: MshrId, t: nat)
    ensures MissRanks(ys, m)(t) <= 10
  {
  }

  /** Apart from the cycles it waits, a miss takes at most ten steps. */
  lemma MissBounded(ys: seq<Sys>, inputs: seq<Input>, m: MshrId, j: nat, k: nat)
    requires Run(ys, inputs) && j <= k < |ys| && forall t: nat :: j <= t <= k ==> MissingAt(ys, m, t)
    ensures k - j <= 10 + Count(WaitCycles(ys, inputs, m), j, k)
  {
    var rank, waits := MissRanks(ys, m), WaitCycles(ys, inputs, m);
    forall t: nat | j <= t < k ensures Drops(rank, waits, t)
    {
      assert MissingAt(ys, m, t) && MissingAt(ys, m, t + 1);
      MissDrops(ys, inputs, m, t);
    }
    RankBound(rank, waits, j, k);
    RankAtMostTen(ys, m, j);
  }

  // ------------------------------------------------------------------ release

  /** In cycle t the load of this entry takes its data or is flushed. */
  predicate LetGo(inp: Input, m: MshrId, ptr: ListPtr) { inp.canBeInvalid(m) || inp.flushed(ptr) }

  predicate LetGoIn(inputs: seq<Input>, m: MshrId, ptr: ListPtr, j: nat, k: nat)
    requires j <= k <= |inputs|
  {
    exists t: nat :: j <= t < k && LetGo(inputs[t], m, ptr)
  }

  lemma ReleaseStep(e: Mshr, v: MshrView)
    requires EntryOk(e) && Missing(e)
    ensures var n := NextMshr(e, v);
            && (Missing(n) ==> n.listPtr == e.listPtr && n.isAllocatedByStore == e.isAllocatedByStore)
            && (Missing(n) && n.canBeInvalid ==> e.canBeInvalid || v.canBeInvalid || v.flushed)
            && (!Missing(n) ==> e.canBeInvalid || e.isAllocatedByStore)
  {
  }

  lemma ReleaseRun(ys: seq<Sys>, inputs: seq<Input>, m: MshrId, k: nat)
    requires Run(ys, inputs) && k < |inputs| && MissingAt(ys, m, k)
    ensures var e, n := ys[k].s.mshr(m), ys[k + 1].s.mshr(m);
            && (Missing(n) ==> n.listPtr == e.listPtr && n.isAllocatedByStore == e.isAllocatedByStore)
            && (Missing(n) && n.canBeInvalid ==> e.canBeInvalid || LetGo(inputs[k], m, e.listPtr))
            && (!Missing(n) ==> e.canBeInvalid || e.isAllocatedByStore)
  {
    EntryRun(ys, inputs, m, k);
    ReleaseStep(ys[k].s.mshr(m), ViewOf(ys[k].s, inputs[k], m));
  }

  /** A releasable entry that was not so at cycle j was let go in between. */
  lemma {:induction false} ReleasableSince(ys: seq<Sys>, inputs: seq<Input>, m: MshrId, j: nat, k: nat)
    requires Run(ys, inputs) && j <= k < |ys| && forall t: nat :: j <= t <= k ==> MissingAt(ys, m, t)
    requires !ys[j].s.mshr(m).canBeInvalid
    ensures ys[k].s.mshr(m).listPtr == ys[j].s.mshr(m).listPtr
    ensures ys[k].s.mshr(m).isAllocatedByStore == ys[j].s.mshr(m).isAllocatedByStore
    ensures ys[k].s.mshr(m).canBeInvalid ==> LetGoIn(inputs, m, ys[j].s.mshr(m).listPtr, j, k)
    decreases k
  {
    assert MissingAt(ys, m, k);
    if j < k {
      assert MissingAt(ys, m, k - 1);
      ReleasableSince(ys, inputs, m, j, k - 1);
      ReleaseRun(ys, inputs, m, k - 1);
    }
  }

  /**
   The entry of a load that missed is freed only after the load took its data or was flushed: if it is
   allocated in cycle j and freed in cycle k, one of the two happened in between.
   */
  lemma LoadEntryKept(ys: seq<Sys>, inputs: seq<Input>, m: MshrId, j: nat, k: nat)
    requires Run(ys, inputs) && j < k < |inputs|
    requires m == LoadSlot(ys[j].s) && MissingAt(ys, m, j + 1)
    requires (forall t: nat :: j < t <= k ==> MissingAt(ys, m, t)) && !MissingAt(ys, m, k + 1)
    ensures LetGoIn(inputs, m, ys[j].s.load.listPtr, j + 1, k)
  {
    AllocatedByLoad(ys, inputs, m, j);
    ReleasableSince(ys, inputs, m, j + 1, k);
    assert MissingAt(ys, m, k);
    ReleaseRun(ys, inputs, m, k);
  }

  lemma AllocatedByLoad(ys: seq<Sys>, inputs: seq<Input>, m: MshrId, j: nat)
    requires Run(ys, inputs) && j < |inputs| && m == LoadSlot(ys[j].s) && MissingAt(ys, m, j + 1)
    ensures var n := ys[j + 1].s.mshr(m);
            !n.canBeInvalid && !n.isAllocatedByStore && n.listPtr == ys[j].s.load.listPtr
  {
    EntryRun(ys, inputs, m, j);
    assert FreeMshr(ys[j].s)(m);
    assert InitMshr(ys[j].s, m).Some?;
  }
}
