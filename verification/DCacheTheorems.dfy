/** The main results about the data cache. */
module DCacheTheorems {
  import opened Common
  import opened CacheTypes
  import opened DCacheModel
  import opened DCacheSystem
  import opened DCacheInvariant
  import opened DCacheCycle
  import opened DCacheHardware
  import opened DCacheCoherence
  import opened DCachePreserve
  import opened DCacheMiss
  import opened DCacheFlush

  lemma InitInv(y: Sys)
    requires InitSys(y)
    ensures Inv(y)
  {
  }

  /** The invariant is kept by every cycle whose environment behaves. */
  lemma InvStep(y: Sys, inp: Input)
    requires Inv(y) && EnvOk(y, inp)
    ensures Inv(NextSys(y, inp))
  {
    var y2, view := NextSys(y, inp), Views(y.s, inp);
    SteppedNext(y.s, inp);
    assert SysStepped(y, inp, y2, view);
    HwStepped(y, inp, y2.s, view);
    forall i: Index ensures DistinctTags(y2.s, i) { TagsStep(y, inp, y2, view, i); }
    forall i: Index, w: Way ensures WayOk(y2, i, w) { WaysStep(y, inp, y2, view, i, w); }
    forall a: LineAddr ensures LineOk(y2, a) { LinesStep(y, inp, y2, view, a); }
    forall m: MshrId ensures MissOk(y2, m) { MissStep(y, inp, y2, view, m); }
    FlushStep(y, inp, y2, view);
    OwnersStep(y, inp, y2, view);
  }

  lemma CycleInv(ys: seq<Sys>, inputs: seq<Input>, k: nat)
    requires Run(ys, inputs) && k < |inputs| && Inv(ys[k])
    ensures Inv(ys[k + 1])
  {
    assert CycleOk(ys, inputs, k);
    InvStep(ys[k], inputs[k]);
  }

  lemma {:induction false} RunInv(ys: seq<Sys>, inputs: seq<Input>, k: nat)
    requires Run(ys, inputs) && k < |ys|
    ensures Inv(ys[k])
  {
    if k == 0 { InitInv(ys[0]); }
    else {
      RunInv(ys, inputs, k - 1);
      CycleInv(ys, inputs, k - 1);
    }
  }

  // ------------------------------------------------------------------ loads

  lemma HitShowsFlat(y: Sys, inp: Input)
    requires Inv(y) && LoadHit(y.s)
    ensures LoadData(Next(y.s, inp)) == y.flat(y.s.load.addr)
  {
    var s := y.s;
    var p := s.outTag(LOAD);
    var i, w := s.load.addr.index, RepWay(s, p);
    LsuAddr(s);
    assert OwnsPort(s, LOAD) && PortOk(s, p);
    assert TagMatch(s, p)(w);
    NoRewriteIfFree(s, i);
    assert TagFresh(s, p) && WayOk(y, i, w);
    assert Next(s, inp).outData(LOAD) == p;
    assert Next(s, inp).port(p) == NextPort(s, inp, p);
  }

  lemma LoadInTagStage(ys: seq<Sys>, inputs: seq<Input>, k: nat)
    requires Run(ys, inputs) && k < |ys| && ys[k].s.loadGranted
    ensures k > 0 && ys[k].s.load.addr == inputs[k - 1].loadAddr
  {
    if k > 0 { assert CycleOk(ys, inputs, k - 1); }
  }

  /** In every run, a load that hits the cache receives the flat line of its address. */
  lemma LoadHitReturnsFlat(ys: seq<Sys>, inputs: seq<Input>, k: nat)
    requires Run(ys, inputs) && k < |inputs| && LoadHit(ys[k].s)
    ensures k > 0 && LoadData(ys[k + 1].s) == ys[k].flat(inputs[k - 1].loadAddr)
  {
    RunInv(ys, inputs, k);
    HitShowsFlat(ys[k], inputs[k]);
    LoadInTagStage(ys, inputs, k);
    assert CycleOk(ys, inputs, k);
  }

  /** The entry that a bypass reads is the only one that holds the line. */
  lemma BypassEntry(s: DCacheState, a: LineAddr)
    requires HwOk(s) && MshrReadHit(s, a)
    ensures var e := s.mshr(MshrHitId(s, a)); e.valid && e.newAddr == a && e.phase.HoldsFetchedLine()
    ensures MshrReadData(s, a) == s.mshr(MshrHitId(s, a)).line
  {
    var n: MshrId := LastIndex(MshrHoldsFetched(s, a), MSHR_NUM);
    assert MshrHoldsFetched(s, a)(n);
    assert MshrHolds(s, a)(n);
    assert MshrAddrHit(s, a);
    assert MshrHolds(s, a)(MshrHitId(s, a));
  }

  /**
   In every run, a load that bypasses data from a miss register receives the flat line, unless the
   load that allocated the register was flushed before its line arrived.
   */
  lemma BypassReturnsFlat(ys: seq<Sys>, inputs: seq<Input>, k: nat, a: LineAddr)
    requires Run(ys, inputs) && k < |ys| && MshrReadHit(ys[k].s, a)
    ensures var e := ys[k].s.mshr(MshrHitId(ys[k].s, a));
            && (e.newValid ==> MshrReadData(ys[k].s, a) == ys[k].flat(a))
            && (!e.newValid ==> e.isAllocatorLoadFlushed && e.canBeInvalid && e.phase.MissHandlingComplete?)
  {
    RunInv(ys, inputs, k);
    BypassEntry(ys[k].s, a);
    var m := MshrHitId(ys[k].s, a);
    assert EntryOk(ys[k].s.mshr(m)) && MissOk(ys[k], m);
  }

  // ------------------------------------------------------------------ one copy of every line

  /** In every run no two miss registers share an index and no set holds a tag twice. */
  lemma OneHolder(ys: seq<Sys>, inputs: seq<Input>, k: nat)
    requires Run(ys, inputs) && k < |ys|
    ensures DistinctIndices(ys[k].s)
    ensures forall i: Index :: DistinctTags(ys[k].s, i)
  {
    RunInv(ys, inputs, k);
  }

  /** Same-cycle misses take entries that were free, for lines nobody holds. */
  lemma AllocationSound(ys: seq<Sys>, inputs: seq<Input>, k: nat, m: MshrId)
    requires Run(ys, inputs) && k < |ys| && InitMshr(ys[k].s, m).Some?
    ensures var s := ys[k].s;
            var a := InitMshr(s, m).value.addr;
            && !s.mshr(m).valid && NotCached(s, a)
            && (forall n: MshrId :: s.mshr(n).valid ==> s.mshr(n).newAddr.index != a.index)
            && (forall n: MshrId :: n != m && InitMshr(s, n).Some? ==> InitMshr(s, n).value.addr.index != a.index)
  {
    RunInv(ys, inputs, k);
    var s := ys[k].s;
    MissedNotCached(s, m);
    AllocationFree(s, m, m);
    forall n: MshrId
      ensures s.mshr(n).valid ==> s.mshr(n).newAddr.index != InitMshr(s, m).value.addr.index
      ensures n != m && InitMshr(s, n).Some? ==> InitMshr(s, n).value.addr.index != InitMshr(s, m).value.addr.index
    {
      AllocationFree(s, m, n);
      if n != m && InitMshr(s, n).Some? { AllocationsDistinct(s, m, n); }
    }
  }

  /** The RAMs never see two ports write the same entry. */
  lemma SingleWriter(ys: seq<Sys>, inputs: seq<Input>, k: nat, i: Index, w: Way)
    requires Run(ys, inputs) && k < |ys|
    ensures !(DataWrite(ys[k].s, 0, i, w) && DataWrite(ys[k].s, 1, i, w))
    ensures k < |inputs| ==> !(Filling(ys[k + 1].s, 0, i, w) && Filling(ys[k + 1].s, 1, i, w))
  {
    RunInv(ys, inputs, k);
    PortWrites(ys[k].s, 0, i, w);
    PortWrites(ys[k].s, 1, i, w);
    TagWritesDistinct(ys[k].s);
    if k < |inputs| {
      RunInv(ys, inputs, k + 1);
      TagWritesDistinct(ys[k + 1].s);
    }
  }

  // ------------------------------------------------------------------ eviction

  /** A cachable miss between reading its victim and filling its way. */
  predicate Evicting(e: Mshr)
  {
    && e.valid && !e.isUncachable
    && (e.phase.VictimWriteToMem? || e.phase.VictimWriteComplete? || e.phase.MissReadMemRequest?
        || e.phase.MissReadMemReceive? || e.phase.MissMergeStoreData? || e.phase.MissWriteCacheRequest?)
  }

  /** The way, line and dirty bit that the miss register m is about to replace. */
  predicate SameVictim(s: DCacheState, t: DCacheState, m: MshrId)
  {
    var i, w := s.mshr(m).newAddr.index, s.mshr(m).evictWay;
    && t.mshr(m).newAddr == s.mshr(m).newAddr && t.mshr(m).evictWay == w
    && t.tag(i, w) == s.tag(i, w) && t.data(i, w) == s.data(i, w) && t.dirty(i, w) == s.dirty(i, w)
  }

  lemma EvictingStep(y: Sys, inp: Input, y2: Sys, view: MshrId -> MshrView, m: MshrId)
    requires Inv(y) && SysStepped(y, inp, y2, view) && Evicting(y.s.mshr(m)) && Evicting(y2.s.mshr(m))
    ensures SameVictim(y.s, y2.s, m)
  {
    assert y2.s.mshr(m) == NextMshr(y.s.mshr(m), view(m));
    assert EntryOk(y.s.mshr(m));
    FrozenTags(y, inp, y2, view, m, y.s.mshr(m).evictWay);
    FrozenData(y, inp, y2, view, m, y.s.mshr(m).evictWay);
  }

  lemma SameVictimTrans(s: DCacheState, t: DCacheState, u: DCacheState, m: MshrId)
    requires SameVictim(s, t, m) && SameVictim(t, u, m)
    ensures SameVictim(s, u, m)
  {
  }

  lemma RunStepped(ys: seq<Sys>, inputs: seq<Input>, k: nat)
    requires Run(ys, inputs) && k < |inputs|
    ensures SysStepped(ys[k], inputs[k], ys[k + 1], Views(ys[k].s, inputs[k]))
  {
    SteppedNext(ys[k].s, inputs[k]);
    assert CycleOk(ys, inputs, k);
  }

  lemma EvictingRun(ys: seq<Sys>, inputs: seq<Input>, k: nat, m: MshrId)
    requires Run(ys, inputs) && k < |inputs| && Evicting(ys[k].s.mshr(m)) && Evicting(ys[k + 1].s.mshr(m))
    ensures SameVictim(ys[k].s, ys[k + 1].s, m)
  {
    RunInv(ys, inputs, k);
    RunStepped(ys, inputs, k);
    EvictingStep(ys[k], inputs[k], ys[k + 1], Views(ys[k].s, inputs[k]), m);
  }

  /** From the choice of the victim to the fill, its way stays the same and nothing in it changes. */
  lemma {:induction false} VictimFrozen(ys: seq<Sys>, inputs: seq<Input>, m: MshrId, j: nat, k: nat)
    requires Run(ys, inputs) && j <= k < |ys|
    requires forall t :: j <= t <= k ==> Evicting(ys[t].s.mshr(m))
    ensures SameVictim(ys[j].s, ys[k].s, m)
    decreases k
  {
    if j < k {
      VictimFrozen(ys, inputs, m, j, k - 1);
      EvictingRun(ys, inputs, k - 1, m);
      SameVictimTrans(ys[j].s, ys[k - 1].s, ys[k].s, m);
    }
  }

  /** The saved line, the victim address and the way to be filled all belong to the chosen way. */
  lemma VictimIsWay(ys: seq<Sys>, inputs: seq<Input>, k: nat, m: MshrId)
    requires Run(ys, inputs) && k < |ys|
    requires ys[k].s.mshr(m).phase.VictimWriteToMem? || ys[k].s.mshr(m).phase.VictimWriteComplete?
    ensures var e := ys[k].s.mshr(m);
            && e.victimAddr == WayAddr(ys[k].s, e.newAddr.index, e.evictWay)
            && e.line == ys[k].s.data(e.newAddr.index, e.evictWay) == ys[k].flat(e.victimAddr)
  {
    RunInv(ys, inputs, k);
    var y := ys[k];
    assert EntryOk(y.s.mshr(m)) && MissOk(y, m);
    NoFillAt(y.s, m);
    assert WayOk(y, y.s.mshr(m).newAddr.index, y.s.mshr(m).evictWay);
  }

  /** When the new line is requested, memory already holds whatever the way to be filled holds. */
  lemma NoDirtyDataLost(ys: seq<Sys>, inputs: seq<Input>, k: nat, m: MshrId)
    requires Run(ys, inputs) && k < |ys| && Evicting(ys[k].s.mshr(m))
    requires !ys[k].s.mshr(m).phase.VictimWriteToMem? && !ys[k].s.mshr(m).phase.VictimWriteComplete?
    ensures var e := ys[k].s.mshr(m);
            var a := WayAddr(ys[k].s, e.newAddr.index, e.evictWay);
            ys[k].s.tag(e.newAddr.index, e.evictWay).valid ==>
              ys[k].mem(a) == ys[k].flat(a) == ys[k].s.data(e.newAddr.index, e.evictWay)
  {
    RunInv(ys, inputs, k);
    var y := ys[k];
    assert EntryOk(y.s.mshr(m)) && MissOk(y, m);
    NoFillAt(y.s, m);
    assert WayOk(y, y.s.mshr(m).newAddr.index, y.s.mshr(m).evictWay);
  }

  // ------------------------------------------------------------------ stores

  /** An entry allocated by a store merges once: never before its line arrived, never twice. */
  predicate PastMerge(e: Mshr)
  {
    e.phase.UncachableWriteToMem? || e.phase.UncachableWriteComplete?
    || e.phase.MissWriteCacheRequest? || e.phase.MissHandlingComplete?
  }

  /** The cycles in which miss register m merges its store. */
  function Merges(ys: seq<Sys>, m: MshrId): nat -> bool
  {
    (t: nat) => t < |ys| && ys[t].s.mshr(m).phase.MissMergeStoreData?
  }

  predicate StoreEntry(e: Mshr) { e.valid && e.isAllocatedByStore }

  lemma StoreEntryStep(e: Mshr, v: MshrView)
    requires EntryOk(e) && StoreEntry(e)
    ensures var n := NextMshr(e, v);
            && (n.valid ==> n.isAllocatedByStore && n.newAddr == e.newAddr)
            && (n.valid ==> (PastMerge(n) <==> PastMerge(e) || e.phase.MissMergeStoreData?))
            && (!n.valid ==> PastMerge(e))
  {
  }

  lemma StoreEntryRun(ys: seq<Sys>, inputs: seq<Input>, m: MshrId, k: nat)
    requires Run(ys, inputs) && k < |inputs| && StoreEntry(ys[k].s.mshr(m))
    ensures var e, n := ys[k].s.mshr(m), ys[k + 1].s.mshr(m);
            && (n.valid ==> n.isAllocatedByStore && n.newAddr == e.newAddr)
            && (n.valid ==> (PastMerge(n) <==> PastMerge(e) || e.phase.MissMergeStoreData?))
            && (!n.valid ==> PastMerge(e))
    ensures ys[k + 1].want(m) == ys[k].want(m)
  {
    RunInv(ys, inputs, k);
    RunStepped(ys, inputs, k);
    var view := Views(ys[k].s, inputs[k]);
    assert EntryOk(ys[k].s.mshr(m));
    assert ys[k + 1].s.mshr(m) == NextMshr(ys[k].s.mshr(m), view(m));
    StoreEntryStep(ys[k].s.mshr(m), view(m));
    assert !FreeMshrBut(ys[k].s, LoadSlot(ys[k].s))(m);
  }

  /**
   A store that missed takes effect exactly once: from its allocation at cycle j until cycle k its
   entry has merged once if it is past the merge step and not at all otherwise, always with the
   address and bytes it was allocated with; and it is freed only past the merge step.
   */
  lemma {:induction false} StoreMissOnce(ys: seq<Sys>, inputs: seq<Input>, m: MshrId, j: nat, k: nat)
    requires Run(ys, inputs) && j <= k < |ys|
    requires ys[j].s.mshr(m).phase.VictimRequest? || ys[j].s.mshr(m).phase.MissReadMemRequest?
    requires forall t :: j <= t <= k ==> ys[t].s.mshr(m).valid
    requires ys[j].s.mshr(m).isAllocatedByStore
    ensures Count(Merges(ys, m), j, k) == if PastMerge(ys[k].s.mshr(m)) then 1 else 0
    ensures ys[k].s.mshr(m).isAllocatedByStore
    ensures ys[k].want(m) == ys[j].want(m) && ys[k].s.mshr(m).newAddr == ys[j].s.mshr(m).newAddr
    ensures k < |inputs| && !ys[k + 1].s.mshr(m).valid ==> Count(Merges(ys, m), j, k) == 1
    decreases k
  {
    if j < k {
      StoreMissOnce(ys, inputs, m, j, k - 1);
      StoreEntryRun(ys, inputs, m, k - 1);
    }
    if k < |inputs| { StoreEntryRun(ys, inputs, m, k); }
  }

  /** A store in its TAG stage carries the address and the bytes it was issued with. */
  lemma StoreInTagStage(ys: seq<Sys>, inputs: seq<Input>, k: nat)
    requires Run(ys, inputs) && k < |ys| && ys[k].s.storeGranted
    ensures k > 0 && ys[k].s.store.addr == inputs[k - 1].storeAddr
    ensures StoreReqNow(ys[k].s).dataIn == inputs[k - 1].storeData
            && StoreReqNow(ys[k].s).dataMask == inputs[k - 1].storeMask
  {
    RunStepped(ys, inputs, k - 1);
    var view := Views(ys[k - 1].s, inputs[k - 1]);
    assert OwnsPort(ys[k].s, STORE);
    assert PortSource(ys[k - 1].s, inputs[k - 1], ys[k].s, view, ys[k].s.outTag(STORE));
  }

  /** An allocated store is recorded with its address and bytes, and its entry is created. */
  lemma StoreAllocated(ys: seq<Sys>, inputs: seq<Input>, k: nat)
    requires Run(ys, inputs) && k < |inputs| && StoreSlot(ys[k].s) < MSHR_NUM && !inputs[k].flushed(0)
    ensures k > 0
    ensures var e := ys[k + 1].s.mshr(StoreSlot(ys[k].s));
            && StoreEntry(e) && e.newAddr == inputs[k - 1].storeAddr
            && ys[k + 1].want(StoreSlot(ys[k].s)) == StoreBytes(inputs[k - 1].storeData, inputs[k - 1].storeMask)
  {
    StoreInTagStage(ys, inputs, k);
    RunInv(ys, inputs, k);
    RunStepped(ys, inputs, k);
    var m: MshrId := StoreSlot(ys[k].s);
    var view := Views(ys[k].s, inputs[k]);
    assert EntryOk(ys[k].s.mshr(m)) && ViewSource(ys[k].s, inputs[k], view(m), m);
    assert ys[k + 1].s.mshr(m) == NextMshr(ys[k].s.mshr(m), view(m));
  }

  /**
   When a pipeline flush covers list position 0 in the cycle of a store's allocation, the entry that
   the cache reports to the store committer is not created.
   */
  lemma StoreAllocationLost(ys: seq<Sys>, inputs: seq<Input>, k: nat)
    requires Run(ys, inputs) && k < |inputs| && StoreSlot(ys[k].s) < MSHR_NUM && inputs[k].flushed(0)
    ensures !ys[k + 1].s.mshr(StoreSlot(ys[k].s)).valid
  {
    RunInv(ys, inputs, k);
    RunStepped(ys, inputs, k);
    var m: MshrId := StoreSlot(ys[k].s);
    var view := Views(ys[k].s, inputs[k]);
    assert EntryOk(ys[k].s.mshr(m)) && ModeOk(ys[k].s) && ViewSource(ys[k].s, inputs[k], view(m), m);
    assert ys[k + 1].s.mshr(m) == NextMshr(ys[k].s.mshr(m), view(m));
  }
}
