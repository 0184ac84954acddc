/** What a whole flush of a one-way cache achieves. */
module DCacheFlushTheorems {
  import opened Common
  import opened CacheTypes
  import opened PortArbiter
  import opened DCacheModel
  import opened DCacheSystem
  import opened DCacheInvariant
  import opened DCacheCycle
  import opened DCacheHardware
  import opened DCacheCoherence
  import opened DCachePreserve
  import opened DCacheMiss
  import opened DCacheFlush
  import opened DCacheSweep
  import opened DCacheTheorems

  // ------------------------------------------------------------------ the result

  /** Main memory holds exactly these lines. */
  ghost predicate MemoryIs(y: Sys, lines: LineAddr -> Line) { forall a: LineAddr :: y.mem(a) == lines(a) }

  lemma FlushedState(y: Sys)
    requires Inv(y) && y.s.phase == FlushComplete && FlushedBelow(y.s, INDEX_NUM) && !MshrBusy(y.s)
    ensures AllInvalid(y.s) && MemoryIs(y, y.flat)
  {
    forall a: LineAddr ensures y.mem(a) == y.flat(a)
    {
      forall m: MshrId ensures !StoreOwes(y.s, m, a) { assert !Occupied(y.s)(m); }
      assert !Occupied(y.s)(0);
      assert LineOk(y, a);
    }
  }

  /** The cycle in which the sweep completes frees the last miss register. */
  lemma SweepFreesAll(y: Sys, inp: Input, y2: Sys, view: MshrId -> MshrView, m: MshrId)
    requires Inv(y) && SysStepped(y, inp, y2, view)
    requires y.s.phase == FlushProcessing && y2.s.phase == FlushComplete
    ensures y2.s.mshr(m).phase == Invalid
  {
    ModeEntry(y.s, inp, y2.s, view, m);
    assert y2.s.mshr(m) == NextMshr(y.s.mshr(m), view(m));
    NoAllocation(y.s, m);
    FlushEntryStep(y.s.mshr(m), view(m));
  }

  /** In every run, when a flush completes no tag is valid and memory equals the flat memory. */
  lemma FlushEndsClean(ys: seq<Sys>, inputs: seq<Input>, k: nat)
    requires Run(ys, inputs) && k < |inputs|
    requires ys[k].s.phase == FlushProcessing && ys[k + 1].s.phase == FlushComplete
    ensures AllInvalid(ys[k + 1].s) && MemoryIs(ys[k + 1], ys[k + 1].flat)
  {
    RunInv(ys, inputs, k);
    RunInv(ys, inputs, k + 1);
    RunStepped(ys, inputs, k);
    var y, y2, view := ys[k], ys[k + 1], Views(ys[k].s, inputs[k]);
    assert FlushOk(y);
    FlushedBelowStep(y, inputs[k], y2, view, INDEX_NUM);
    forall m: MshrId ensures y2.s.mshr(m).phase == Invalid { SweepFreesAll(y, inputs[k], y2, view, m); }
    assert !MshrBusy(y2.s);
    FlushedState(y2);
  }

  /** No store is in flight, and none is merged, while a flush is accepted or under way. */
  lemma NothingStored(y: Sys, inp: Input, y2: Sys, a: LineAddr)
    requires Inv(y) && EnvOk(y, inp) && y2 == NextSys(y, inp)
    requires y.s.phase == FlushProcessing || (y.s.phase == Normal && y2.s.phase == FlushProcessing)
    ensures y2.flat(a) == y.flat(a)
  {
    if y.s.phase == Normal {
      forall m: MshrId ensures !MergesAt(y, m, a) { assert !Occupied(y.s)(m); }
    }
    FlatKept(y, a);
  }

  lemma FlatKeptInFlush(ys: seq<Sys>, inputs: seq<Input>, k: nat, a: LineAddr)
    requires Run(ys, inputs) && k < |inputs|
    requires ys[k].s.phase == FlushProcessing || (ys[k].s.phase == Normal && ys[k + 1].s.phase == FlushProcessing)
    ensures ys[k + 1].flat(a) == ys[k].flat(a)
  {
    RunInv(ys, inputs, k);
    assert CycleOk(ys, inputs, k);
    NothingStored(ys[k], inputs[k], ys[k + 1], a);
  }

  /** A flush accepted in cycle j that is still running in cycle k has left the flat memory as it was. */
  lemma {:induction false} FlushKeepsFlat(ys: seq<Sys>, inputs: seq<Input>, j: nat, k: nat, a: LineAddr)
    requires Run(ys, inputs) && j < k < |ys|
    requires ys[j].s.phase == Normal && forall t :: j < t < k ==> ys[t].s.phase == FlushProcessing
    requires ys[j + 1].s.phase == FlushProcessing
    ensures ys[k].flat(a) == ys[j].flat(a)
    decreases k
  {
    FlatKeptInFlush(ys, inputs, k - 1, a);
    if j + 1 < k { FlushKeepsFlat(ys, inputs, j, k - 1, a); }
  }

  /** A complete flush writes the logical memory of its start back to main memory. */
  lemma FlushWritesBack(ys: seq<Sys>, inputs: seq<Input>, j: nat, k: nat)
    requires Run(ys, inputs) && j + 1 < k < |ys|
    requires ys[j].s.phase == Normal && (forall t :: j < t < k ==> ys[t].s.phase == FlushProcessing)
    requires ys[k].s.phase == FlushComplete
    ensures AllInvalid(ys[k].s) && MemoryIs(ys[k], ys[j].flat)
  {
    FlushEndsClean(ys, inputs, k - 1);
    forall a: LineAddr ensures ys[k].mem(a) == ys[j].flat(a) { FlushKeepsFlat(ys, inputs, j, k, a); }
  }
}
