/** A run in which the entry that the cache reports as allocated for a store is not created. */
module DCacheLostStore {
  import opened Common
  import opened CacheTypes
  import opened PortArbiter
  import opened DCacheModel
  import opened DCacheSystem
  import opened DCacheTheorems
  import opened DCacheStaleBypass

  /** A store; then, while it misses, a pipeline flush that covers position 0 of the active list. */
  function StoreCycle(k: nat): Input
  {
    if k == 0 then IdleInput().(storeReq := true, storeMask := AllBytes())
    else IdleInput().(flushed := (p: ListPtr) => p == 0)
  }

  function Steps(): (ys: seq<Sys>)
    ensures |ys| == 3
  {
    var y1 := NextSys(Start(), StoreCycle(0));
    [Start(), y1, NextSys(y1, StoreCycle(1))]
  }

  function Signals(): seq<Input> { [StoreCycle(0), StoreCycle(1)] }

  lemma StoreGranted(s: DCacheState)
    requires s.phase == Normal && (forall m: MshrId :: s.mshr(m).phase == Invalid)
    ensures var t := Next(s, StoreCycle(0));
            t.storeGranted && !t.loadGranted && t.outTag(STORE) == 0 && t.store == StoreRegs(true, Address(), false)
  {
    var q := Requests(s, StoreCycle(0));
    assert q[0] == ReqOf(s, StoreCycle(0), LOAD) && q[1] == ReqOf(s, StoreCycle(0), STORE);
    assert Before(q, 0) == 0 && Before(q, 1) == 0;
  }

  lemma EntriesIdle(s: DCacheState, inp: Input)
    requires s.phase == Normal && !s.loadGranted && !s.storeGranted
    requires forall m: MshrId :: !s.mshr(m).valid && s.mshr(m).phase == Invalid
    ensures forall m: MshrId :: !Next(s, inp).mshr(m).valid && Next(s, inp).mshr(m).phase == Invalid
  {
    forall m: MshrId ensures !Next(s, inp).mshr(m).valid && Next(s, inp).mshr(m).phase == Invalid
    {
      assert InitMshr(s, m).None? && Next(s, inp).mshr(m) == NextMshr(s.mshr(m), ViewOf(s, inp, m));
    }
  }

  lemma StoreTakesEntry(s: DCacheState)
    requires StoreMiss(s) && !s.loadGranted && (forall m: MshrId :: !s.mshr(m).valid)
    ensures StoreSlot(s) < MSHR_NUM
  {
    assert FreeMshr(s)(0);
  }

  lemma NoTransactions(y: Sys, inp: Input)
    requires y.pendingReads == map[] && y.pendingWrites == map[] && !inp.flushReq
    requires forall m: MshrId :: y.s.mshr(m).phase == Invalid
    ensures EnvOk(y, inp) && NextSys(y, inp).pendingReads == map[] && NextSys(y, inp).pendingWrites == map[]
  {
    forall m: MshrId ensures !MemReq(y.s.mshr(m)) { }
    assert !MemValid(y.s);
  }

  lemma StoreMisses()
    ensures var y := Steps()[1];
            && StoreSlot(y.s) < MSHR_NUM && y.pendingReads == map[] && y.pendingWrites == map[]
            && forall m: MshrId :: y.s.mshr(m).phase == Invalid
  {
    var s := Start().s;
    var t := Next(s, StoreCycle(0));
    StoreGranted(s);
    EntriesIdle(s, StoreCycle(0));
    NoTransactions(Start(), StoreCycle(0));
    NothingHeld(t, t.port(0).req.addr.index);
    NothingCached(s, StoreCycle(0), 0);
    StoreTakesEntry(t);
  }

  lemma StartIsReset()
    ensures InitSys(Start())
  {
  }

  lemma TwoCycles(y0: Sys, y1: Sys, y2: Sys, i0: Input, i1: Input)
    requires InitSys(y0) && EnvOk(y0, i0) && EnvOk(y1, i1) && y1 == NextSys(y0, i0) && y2 == NextSys(y1, i1)
    ensures Run([y0, y1, y2], [i0, i1])
  {
    var ys, inputs := [y0, y1, y2], [i0, i1];
    assert CycleOk(ys, inputs, 0) && CycleOk(ys, inputs, 1);
  }

  lemma IsRunOfSteps()
    ensures Run(Steps(), Signals())
  {
    var y1 := NextSys(Start(), StoreCycle(0));
    StoreMisses();
    StartIsReset();
    NoTransactions(Start(), StoreCycle(0));
    NoTransactions(y1, StoreCycle(1));
    TwoCycles(Start(), y1, NextSys(y1, StoreCycle(1)), StoreCycle(0), StoreCycle(1));
  }

  /** The store's miss is given an entry, and in the next cycle that entry is not in use. */
  lemma LostStore()
    ensures Run(Steps(), Signals())
    ensures StoreSlot(Steps()[1].s) < MSHR_NUM && !Steps()[2].s.mshr(StoreSlot(Steps()[1].s)).valid
  {
    IsRunOfSteps();
    StoreMisses();
    StoreAllocationLost(Steps(), Signals(), 1);
  }
}
