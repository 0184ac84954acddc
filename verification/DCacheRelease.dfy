/** When the entry of a missed load is freed, and what becomes of a load or store in its TAG stage. */
module DCacheRelease {
  import opened Common
  import opened CacheTypes
  import opened DCacheModel
  import opened DCacheSystem
  import opened DCacheInvariant
  import opened DCacheCycle
  import opened DCacheHardware
  import opened DCacheCoherence
  import opened DCacheMiss
  import opened DCacheTheorems
  import opened DCacheProgress
  import opened DCachePorts
  import opened DCacheReplacement

  // ------------------------------------------------------------------ release

  lemma LetGoStep(e: Mshr, v: MshrView)
    requires EntryOk(e) && Missing(e) && !e.isAllocatedByStore
    ensures var n := NextMshr(e, v);
            && (e.canBeInvalid || v.canBeInvalid || v.flushed ==> !Missing(n) || n.canBeInvalid)
            && (n.valid <==> !(e.phase.MissHandlingComplete? && e.canBeInvalid))
            && (Missing(n) <==> n.valid)
  {
  }

  lemma LetGoRun(ys: seq<Sys>, inputs: seq<Input>, m: MshrId, k: nat)
    requires Run(ys, inputs) && k < |inputs| && MissingAt(ys, m, k) && !ys[k].s.mshr(m).isAllocatedByStore
    ensures var e, n := ys[k].s.mshr(m), ys[k + 1].s.mshr(m);
            && (e.canBeInvalid || LetGo(inputs[k], m, e.listPtr) ==> !Missing(n) || n.canBeInvalid)
            && (n.valid <==> !(e.phase.MissHandlingComplete? && e.canBeInvalid))
            && (Missing(n) <==> n.valid)
  {
    EntryRun(ys, inputs, m, k);
    LetGoStep(ys[k].s.mshr(m), ViewOf(ys[k].s, inputs[k], m));
  }

  /** An entry is releasable exactly when its load has let go since the entry was allocated. */
  lemma {:induction false} ReleasableIffLetGo(ys: seq<Sys>, inputs: seq<Input>, m: MshrId, j: nat, k: nat)
    requires Run(ys, inputs) && j <= k < |ys| && forall t: nat :: j <= t <= k ==> MissingAt(ys, m, t)
    requires !ys[j].s.mshr(m).canBeInvalid && !ys[j].s.mshr(m).isAllocatedByStore
    ensures !ys[k].s.mshr(m).isAllocatedByStore && ys[k].s.mshr(m).listPtr == ys[j].s.mshr(m).listPtr
    ensures ys[k].s.mshr(m).canBeInvalid <==> LetGoIn(inputs, m, ys[j].s.mshr(m).listPtr, j, k)
    decreases k
  {
    ReleasableSince(ys, inputs, m, j, k);
    if j < k {
      assert MissingAt(ys, m, k) && MissingAt(ys, m, k - 1);
      ReleasableIffLetGo(ys, inputs, m, j, k - 1);
      LetGoRun(ys, inputs, m, k - 1);
    }
  }

  lemma IssuedLoad(ys: seq<Sys>, inputs: seq<Input>, k: nat)
    requires Run(ys, inputs) && k < |ys| && ys[k].s.loadGranted
    ensures k > 0 && inputs[k - 1].loadReq && ys[k].s.load.req
    ensures ys[k].s.load.addr == inputs[k - 1].loadAddr && ys[k].s.load.listPtr == inputs[k - 1].loadPtr
    ensures ys[k].s.load.uncachable == inputs[k - 1].loadUncachable
  {
    LoadInTagStage(ys, inputs, k);
    RunStepped(ys, inputs, k - 1);
  }

  /**
   In every run, the entry that a load's miss was given in cycle j is freed after cycle k, if and only if
   the miss is complete in cycle k and the load has let go before: it took its data, or it was flushed.
   The load is the one issued in cycle j - 1.
   */
  lemma FreedIffLetGo(ys: seq<Sys>, inputs: seq<Input>, m: MshrId, j: nat, k: nat)
    requires Run(ys, inputs) && j < k < |inputs| && m == LoadSlot(ys[j].s)
    requires forall t: nat :: j < t <= k ==> MissingAt(ys, m, t)
    ensures j > 0
    ensures !ys[k + 1].s.mshr(m).valid <==>
              ys[k].s.mshr(m).phase.MissHandlingComplete? && LetGoIn(inputs, m, inputs[j - 1].loadPtr, j + 1, k)
    ensures ys[k + 1].s.mshr(m).valid <==> MissingAt(ys, m, k + 1)
  {
    assert MissingAt(ys, m, j + 1) && MissingAt(ys, m, k);
    IssuedLoad(ys, inputs, j);
    AllocatedByLoad(ys, inputs, m, j);
    ReleasableIffLetGo(ys, inputs, m, j + 1, k);
    LetGoRun(ys, inputs, m, k);
  }

  lemma StoreFreedStep(e: Mshr, v: MshrView)
    requires EntryOk(e) && Missing(e) && e.isAllocatedByStore
    ensures NextMshr(e, v).valid <==> !e.phase.MissHandlingComplete?
  {
  }

  /** The entry of a store is freed as soon as its miss is complete. */
  lemma StoreFreed(ys: seq<Sys>, inputs: seq<Input>, m: MshrId, k: nat)
    requires Run(ys, inputs) && k < |inputs| && MissingAt(ys, m, k) && ys[k].s.mshr(m).isAllocatedByStore
    ensures !ys[k + 1].s.mshr(m).valid <==> ys[k].s.mshr(m).phase.MissHandlingComplete?
  {
    EntryRun(ys, inputs, m, k);
    StoreFreedStep(ys[k].s.mshr(m), ViewOf(ys[k].s, inputs[k], m));
  }

  // ------------------------------------------------------------------ a miss whose load is flushed

  ghost predicate FlushedIn(inputs: seq<Input>, ptr: ListPtr, j: nat, k: nat)
    requires j <= k <= |inputs|
  {
    exists t: nat :: j <= t < k && inputs[t].flushed(ptr)
  }

  lemma LostStep(e: Mshr, v: MshrView)
    requires Missing(e) && !e.isAllocatedByStore
    ensures NextMshr(e, v).isAllocatorLoadFlushed <==> e.isAllocatorLoadFlushed || v.flushed
  {
  }

  lemma LostRun(ys: seq<Sys>, inputs: seq<Input>, m: MshrId, k: nat)
    requires Run(ys, inputs) && k < |inputs| && MissingAt(ys, m, k) && !ys[k].s.mshr(m).isAllocatedByStore
    ensures ys[k + 1].s.mshr(m).isAllocatorLoadFlushed <==>
              ys[k].s.mshr(m).isAllocatorLoadFlushed || inputs[k].flushed(ys[k].s.mshr(m).listPtr)
  {
    EntryRun(ys, inputs, m, k);
    LostStep(ys[k].s.mshr(m), ViewOf(ys[k].s, inputs[k], m));
  }

  lemma AllocatedUnflushed(e: Mshr, v: MshrView)
    requires EntryOk(e) && !Missing(e) && Missing(NextMshr(e, v))
    ensures !NextMshr(e, v).isAllocatorLoadFlushed && !NextMshr(e, v).canBeInvalid
  {
  }

  lemma {:induction false} LostIffFlushed(ys: seq<Sys>, inputs: seq<Input>, m: MshrId, j: nat, k: nat)
    requires Run(ys, inputs) && j <= k < |ys| && forall t: nat :: j <= t <= k ==> MissingAt(ys, m, t)
    requires !ys[j].s.mshr(m).isAllocatorLoadFlushed && !ys[j].s.mshr(m).canBeInvalid
    requires !ys[j].s.mshr(m).isAllocatedByStore
    ensures ys[k].s.mshr(m).isAllocatorLoadFlushed <==> FlushedIn(inputs, ys[j].s.mshr(m).listPtr, j, k)
    decreases k
  {
    if j < k {
      assert MissingAt(ys, m, k - 1);
      LostIffFlushed(ys, inputs, m, j, k - 1);
      ReleasableIffLetGo(ys, inputs, m, j, k - 1);
      LostRun(ys, inputs, m, k - 1);
    }
  }

  lemma FreshEntry(ys: seq<Sys>, inputs: seq<Input>, m: MshrId, j: nat)
    requires Run(ys, inputs) && j < |inputs| && m == LoadSlot(ys[j].s) && MissingAt(ys, m, j + 1)
    ensures !ys[j + 1].s.mshr(m).isAllocatorLoadFlushed
  {
    EntryRun(ys, inputs, m, j);
    assert FreeMshr(ys[j].s)(m);
    AllocatedUnflushed(ys[j].s.mshr(m), ViewOf(ys[j].s, inputs[j], m));
  }

  lemma VictimStep(e: Mshr, v: MshrView)
    requires e.phase.VictimRequest?
    ensures NextMshr(e, v).phase ==
            if v.grant then VictimReceiveTag
            else if e.isAllocatorLoadFlushed then MissHandlingComplete else VictimRequest
  {
  }

  /**
   In every run, a load's miss that asks for its victim is given up exactly when two requesters below it
   ask for the arrays and its load was flushed since the allocation.
   */
  lemma GivenUpIffFlushed(ys: seq<Sys>, inputs: seq<Input>, m: MshrId, j: nat, k: nat)
    requires Run(ys, inputs) && j < k < |inputs| && m == LoadSlot(ys[j].s) && ys[k].s.mshr(m).phase.VictimRequest?
    requires forall t: nat :: j < t <= k ==> MissingAt(ys, m, t)
    ensures j > 0
    ensures ys[k + 1].s.mshr(m).phase ==
            if !TwoAskBelow(ys[k].s, inputs[k], MshrReqId(m)) then VictimReceiveTag
            else if FlushedIn(inputs, inputs[j - 1].loadPtr, j + 1, k) then MissHandlingComplete else VictimRequest
  {
    assert MissingAt(ys, m, j + 1);
    IssuedLoad(ys, inputs, j);
    AllocatedByLoad(ys, inputs, m, j);
    FreshEntry(ys, inputs, m, j);
    LostIffFlushed(ys, inputs, m, j + 1, k);
    EntryRun(ys, inputs, m, k);
    ServedUnlessTwoBelow(ys[k].s, inputs[k], MshrReqId(m));
    VictimStep(ys[k].s.mshr(m), ViewOf(ys[k].s, inputs[k], m));
  }

  // ------------------------------------------------------------------ loads and stores in their TAG stage

  /** Some way of its set holds this line, and no miss register is at work there. */
  ghost predicate Available(s: DCacheState, a: LineAddr) { !NotCached(s, a) && Unheld(s, a.index) }

  ghost predicate AbsentUnheld(s: DCacheState, a: LineAddr) { NotCached(s, a) && Unheld(s, a.index) }

  lemma HitIffAvailable(s: DCacheState, r: ReqId)
    requires HwOk(s) && !Flushing(s) && OwnsPort(s, r) && (r == LOAD || r == STORE)
    ensures RepHit(s, s.outTag(r)) <==> Available(s, s.port(s.outTag(r)).req.addr)
    ensures MshrConflict(s, s.port(s.outTag(r)).req.addr.index) <==> !Unheld(s, s.port(s.outTag(r)).req.addr.index)
  {
    var p := s.outTag(r);
    var a := s.port(p).req.addr;
    UnheldIsFree(s, a.index);
    if RepHit(s, p) { assert TagMatch(s, p)(RepWay(s, p)); }
    if !MshrConflict(s, a.index) {
      NoRewriteIfFree(s, a.index);
      assert TagFresh(s, p);
      if RepHit(s, p) { assert CachedIn(s, a, RepWay(s, p)); }
      if !NotCached(s, a) {
        var w: Way :| CachedIn(s, a, w);
        assert TagMatch(s, p)(w);
      }
    }
  }

  /** Some miss register is free. */
  ghost predicate SomeFree(s: DCacheState) { exists m: MshrId :: !s.mshr(m).valid }

  lemma SlotIffFree(s: DCacheState)
    ensures LoadSlot(s) < MSHR_NUM <==> LoadMiss(s) && SomeFree(s)
  {
    if LoadMiss(s) && SomeFree(s) {
      var m: MshrId :| !s.mshr(m).valid;
      assert FreeMshr(s)(m);
    }
    if LoadSlot(s) < MSHR_NUM {
      assert FreeMshr(s)(LoadSlot(s));
      var m: MshrId := LoadSlot(s);
      assert !s.mshr(m).valid;
    }
  }

  lemma LoadOutcomeNow(s: DCacheState)
    requires HwOk(s) && s.loadGranted && s.load.req
    ensures LoadHit(s) <==> Available(s, s.load.addr)
    ensures LoadMiss(s) <==> AbsentUnheld(s, s.load.addr)
    ensures LoadSlot(s) < MSHR_NUM <==> AbsentUnheld(s, s.load.addr) && SomeFree(s)
  {
    GrantedAddr(s);
    HitIffAvailable(s, LOAD);
    SlotIffFree(s);
  }

  /**
   In every run, a load that was granted the arrays hits exactly when its line is in its set and no miss
   register is at work there; it is given a miss register exactly when the line is not there, no miss
   register is at work there and some register is free.
   */
  lemma LoadOutcome(ys: seq<Sys>, inputs: seq<Input>, k: nat)
    requires Run(ys, inputs) && k < |ys| && ys[k].s.loadGranted
    ensures k > 0
    ensures LoadHit(ys[k].s) <==> Available(ys[k].s, inputs[k - 1].loadAddr)
    ensures LoadSlot(ys[k].s) < MSHR_NUM <==>
              AbsentUnheld(ys[k].s, inputs[k - 1].loadAddr) && SomeFree(ys[k].s)
  {
    IssuedLoad(ys, inputs, k);
    RunInv(ys, inputs, k);
    LoadOutcomeNow(ys[k].s);
  }

  lemma LoadInit(s: DCacheState)
    requires LoadSlot(s) < MSHR_NUM
    ensures InitMshr(s, LoadSlot(s)) == Some(Allocation(s.load.addr, s.load.listPtr, false, s.load.uncachable))
    ensures !s.mshr(LoadSlot(s)).valid
  {
    var m: MshrId := LoadSlot(s);
    assert FreeMshr(s)(m);
    assert StoreSlot(s) < MSHR_NUM ==> FreeMshrBut(s, m)(StoreSlot(s));
  }

  lemma AllocationTaken(e: Mshr, v: MshrView)
    requires EntryOk(e) && !e.valid && v.alloc.Some?
    ensures var n, a := NextMshr(e, v), v.alloc.value;
            && n.valid && n.newAddr == a.addr && n.listPtr == a.listPtr && n.isAllocatedByStore == a.byStore
            && n.isUncachable == a.uncachable && !n.canBeInvalid && !n.newValid
            && n.phase == if a.uncachable then MissReadMemRequest else VictimRequest
  {
  }

  /** In every run, the register given to a load handles its miss from the next cycle on, unless the load is flushed. */
  lemma LoadAllocated(ys: seq<Sys>, inputs: seq<Input>, k: nat)
    requires Run(ys, inputs) && k < |inputs| && LoadSlot(ys[k].s) < MSHR_NUM
    ensures k > 0
    ensures !inputs[k].flushed(inputs[k - 1].loadPtr) ==>
              var n := ys[k + 1].s.mshr(LoadSlot(ys[k].s));
              && n.valid && n.newAddr == inputs[k - 1].loadAddr && n.listPtr == inputs[k - 1].loadPtr
              && !n.isAllocatedByStore && n.isUncachable == inputs[k - 1].loadUncachable && !n.canBeInvalid
              && n.phase == if inputs[k - 1].loadUncachable then MissReadMemRequest else VictimRequest
  {
    IssuedLoad(ys, inputs, k);
    var m: MshrId := LoadSlot(ys[k].s);
    EntryRun(ys, inputs, m, k);
    LoadInit(ys[k].s);
    if !inputs[k].flushed(inputs[k - 1].loadPtr) {
      AllocationTaken(ys[k].s.mshr(m), ViewOf(ys[k].s, inputs[k], m));
    }
  }

  lemma StoreOutcomeNow(s: DCacheState)
    requires HwOk(s) && s.storeGranted && s.store.req
    ensures StoreHit(s) <==> Available(s, s.store.addr)
    ensures StoreMiss(s) <==> AbsentUnheld(s, s.store.addr)
  {
    GrantedAddr(s);
    HitIffAvailable(s, STORE);
  }

  /** Some register is free besides the one that the load takes. */
  ghost predicate SpareFree(s: DCacheState) { exists m: MshrId :: m != LoadSlot(s) && !s.mshr(m).valid }

  lemma StoreSlotIffFree(s: DCacheState)
    ensures StoreSlot(s) < MSHR_NUM <==> StoreMiss(s) && !StoreYields(s) && SpareFree(s)
  {
    if StoreMiss(s) && !StoreYields(s) && SpareFree(s) {
      var m: MshrId :| m != LoadSlot(s) && !s.mshr(m).valid;
      assert FreeMshrBut(s, LoadSlot(s))(m);
    }
    if StoreSlot(s) < MSHR_NUM {
      assert FreeMshrBut(s, LoadSlot(s))(StoreSlot(s));
      var m: MshrId := StoreSlot(s);
      assert m != LoadSlot(s) && !s.mshr(m).valid;
    }
  }

  lemma IssuedStore(ys: seq<Sys>, inputs: seq<Input>, k: nat)
    requires Run(ys, inputs) && k < |ys| && ys[k].s.storeGranted
    ensures k > 0 && inputs[k - 1].storeReq && ys[k].s.store.req && ys[k].s.store.addr == inputs[k - 1].storeAddr
    ensures ys[k].s.store.uncachable == inputs[k - 1].storeUncachable
  {
    StoreInTagStage(ys, inputs, k);
    RunStepped(ys, inputs, k - 1);
  }

  /** Likewise for a store; a load that misses at the same index in the same cycle goes first. */
  lemma StoreOutcome(ys: seq<Sys>, inputs: seq<Input>, k: nat)
    requires Run(ys, inputs) && k < |ys| && ys[k].s.storeGranted
    ensures k > 0
    ensures StoreHit(ys[k].s) <==> Available(ys[k].s, inputs[k - 1].storeAddr)
    ensures StoreSlot(ys[k].s) < MSHR_NUM <==>
              && AbsentUnheld(ys[k].s, inputs[k - 1].storeAddr) && SpareFree(ys[k].s)
              && !(ys[k].s.loadGranted && AbsentUnheld(ys[k].s, inputs[k - 1].loadAddr)
                   && inputs[k - 1].loadAddr.index == inputs[k - 1].storeAddr.index)
  {
    IssuedStore(ys, inputs, k);
    RunInv(ys, inputs, k);
    StoreOutcomeNow(ys[k].s);
    StoreSlotIffFree(ys[k].s);
    if ys[k].s.loadGranted {
      IssuedLoad(ys, inputs, k);
      LoadOutcomeNow(ys[k].s);
    }
  }

  /** An uncachable access neither reads a victim nor fills a way. */
  lemma UncachableBypasses(ys: seq<Sys>, inputs: seq<Input>, k: nat, m: MshrId)
    requires Run(ys, inputs) && k < |ys| && MissingAt(ys, m, k) && ys[k].s.mshr(m).isUncachable
    ensures !MshrCacheReq(ys[k].s.mshr(m)) && !Evicting(ys[k].s.mshr(m))
    ensures forall p: PortId :: ys[k].s.port(p).req.tagWE ==> ys[k].s.port(p).owner != MshrReqId(m)
  {
    RunInv(ys, inputs, k);
    assert EntryOk(ys[k].s.mshr(m));
    forall p: PortId | ys[k].s.port(p).req.tagWE ensures ys[k].s.port(p).owner != MshrReqId(m)
    {
      assert PortOk(ys[k].s, p);
    }
  }
}
