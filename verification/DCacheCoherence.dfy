/** What one clock edge does to the contents of a set, to memory and to the flat memory. */
module DCacheCoherence {
  import opened Common
  import opened CacheTypes
  import opened DCacheModel
  import opened DCacheSystem
  import opened DCacheInvariant
  import opened DCacheCycle
  import opened DCacheHardware

  ghost predicate SysStepped(y: Sys, inp: Input, y2: Sys, view: MshrId -> MshrView)
  {
    && Stepped(y.s, inp, y2.s, view)
    && (forall a: LineAddr :: y2.mem(a) == NextLine(y, inp, a))
    && (forall a: LineAddr :: y2.flat(a) == NextFlatLine(y, a))
    && (forall m: MshrId :: y2.want(m) == NextWant(y, m))
    && y2.pendingReads == NextReads(y, inp)
    && y2.pendingWrites == NextWrites(y, inp)
  }

  // ------------------------------------------------------------------ who touches a set

  /** The store in its TAG stage writes this way. */
  predicate StoreWrites(s: DCacheState, i: Index, w: Way)
  {
    StoreHit(s) && s.store.addr.index == i && RepWay(s, s.outTag(STORE)) == w
  }

  /** The fill in the TAG stage of port p belongs to a miss register that completed at this index. */
  lemma FillOwner(s: DCacheState, p: PortId) returns (m: MshrId)
    requires HwOk(s) && s.port(p).req.tagWE
    ensures s.mshr(m).valid && MshrPortOk(s.mshr(m), s.port(p).req)
    ensures !Flushing(s) ==>
              s.mshr(m).newAddr.index == s.port(p).req.addr.index && s.mshr(m).phase.MissHandlingComplete?
  {
    assert PortOk(s, p);
    m := s.port(p).owner - 2;
    assert EntryOk(s.mshr(m));
  }

  /** While a miss is in progress at an index, nothing else is being written there. */
  lemma NoFillAt(s: DCacheState, m: MshrId)
    requires HwOk(s) && !Flushing(s) && s.mshr(m).valid && !s.mshr(m).phase.MissHandlingComplete?
    ensures !TagRewritten(s, s.mshr(m).newAddr.index)
  {
    var i := s.mshr(m).newAddr.index;
    if s.port(0).req.tagWE && s.port(0).req.addr.index == i { var n := FillOwner(s, 0); }
    if s.port(1).req.tagWE && s.port(1).req.addr.index == i { var n := FillOwner(s, 1); }
  }

  /** A store that hits finds no miss register at its index, hence no fill either. */
  lemma StoreHitAlone(s: DCacheState, m: MshrId)
    requires HwOk(s) && StoreHit(s)
    ensures s.mshr(m).valid ==> s.mshr(m).newAddr.index != s.store.addr.index
  {
    LsuAddr(s);
    assert !MshrConflict(s, s.store.addr.index);
    assert BusyAt(s, s.store.addr.index)(m) <==> s.mshr(m).valid && s.mshr(m).newAddr.index == s.store.addr.index;
  }

  lemma StoreHitNoFill(s: DCacheState)
    requires HwOk(s) && StoreHit(s)
    ensures !TagRewritten(s, s.store.addr.index)
  {
    var i := s.store.addr.index;
    if s.port(0).req.tagWE && s.port(0).req.addr.index == i { var n := FillOwner(s, 0); StoreHitAlone(s, n); }
    if s.port(1).req.tagWE && s.port(1).req.addr.index == i { var n := FillOwner(s, 1); StoreHitAlone(s, n); }
  }

  // ------------------------------------------------------------------ data and dirty arrays

  /** A port writes data for its fill, or for the store that hit. */
  lemma PortWrites(s: DCacheState, p: PortId, i: Index, w: Way)
    requires HwOk(s)
    ensures DataWrite(s, p, i, w) <==> Filling(s, p, i, w) || (p == s.outTag(STORE) && StoreWrites(s, i, w))
    ensures Filling(s, p, i, w) ==> s.port(p).req.dataMask == AllBytes()
    ensures p == s.outTag(STORE) && StoreWrites(s, i, w) ==>
              !Filling(s, 0, i, w) && !Filling(s, 1, i, w) && s.port(p).req.dirtyIn
  {
    assert PortOk(s, p);
    assert s.storeGranted ==> PortOk(s, s.outTag(STORE));
    LsuAddr(s);
    if StoreHit(s) { StoreHitNoFill(s); }
  }

  /** At the end of a cycle the arrays hold the pending fills, and the store that hit. */
  lemma DataStep(s: DCacheState, s2: DCacheState, i: Index, w: Way)
    requires HwOk(s) && DataStepped(s, s2)
    ensures StoreWrites(s, i, w) ==>
              && s2.data(i, w) == Merge(s.data(i, w), StoreReqNow(s).dataIn, StoreReqNow(s).dataMask)
              && s2.dirty(i, w) && EffData(s, i, w) == s.data(i, w)
    ensures !StoreWrites(s, i, w) ==> s2.data(i, w) == EffData(s, i, w) && s2.dirty(i, w) == EffDirty(s, i, w)
  {
    assert s2.data(i, w) == NextData(s, i, w) && s2.dirty(i, w) == NextDirty(s, i, w);
    PortWrites(s, 0, i, w);
    PortWrites(s, 1, i, w);
    MergeAll(s.data(i, w), s.port(0).req.dataIn);
    MergeAll(s.data(i, w), s.port(1).req.dataIn);
    MergeAll(WriteData(s, 0, s.data(i, w), i, w), s.port(1).req.dataIn);
  }

  // ------------------------------------------------------------------ tags

  /** A request that writes tags was sent by a miss register in its fill or flush phase. */
  lemma NewFill(s: DCacheState, inp: Input, s2: DCacheState, view: MshrId -> MshrView, p: PortId) returns (m: MshrId)
    requires Stepped(s, inp, s2, view) && s2.port(p).req.tagWE
    ensures view(m).grant && s2.port(p).req == MshrMux(s.mshr(m))
    ensures s.mshr(m).phase.MissWriteCacheRequest? || s.mshr(m).phase.FlushVictimRequest?
    ensures s2.port(p).owner == m + 2
  {
    assert PortSource(s, inp, s2, view, p);
    m := s2.port(p).owner - 2;
  }

  lemma TagKept(s: DCacheState, s2: DCacheState, i: Index, w: Way)
    requires TagsStepped(s, s2) && !Filling(s2, 0, i, w) && !Filling(s2, 1, i, w)
    ensures s2.tag(i, w) == s.tag(i, w)
    ensures EffData(s2, i, w) == s2.data(i, w) && EffDirty(s2, i, w) == s2.dirty(i, w)
  {
  }

  /** Outside a flush, the ways of a set change only by the fill of the miss register at that index. */
  lemma FillIsMine(y: Sys, inp: Input, y2: Sys, view: MshrId -> MshrView, m: MshrId, p: PortId)
    requires HwOk(y.s) && Stepped(y.s, inp, y2.s, view) && !Flushing(y.s)
    requires y.s.mshr(m).valid && y2.s.port(p).req.tagWE && y2.s.port(p).req.addr.index == y.s.mshr(m).newAddr.index
    ensures y.s.mshr(m).phase.MissWriteCacheRequest? && view(m).grant && y2.s.port(p).req == MshrMux(y.s.mshr(m))
  {
    var n := NewFill(y.s, inp, y2.s, view, p);
    assert EntryOk(y.s.mshr(n));
  }

  // ------------------------------------------------------------------ the flat memory

  lemma {:induction false} MergesOnlyAt(y: Sys, n: nat, a: LineAddr)
    requires n <= MSHR_NUM && forall m: MshrId :: m < n ==> !MergesAt(y, m, a)
    ensures AfterMerges(y, n, a) == AfterHitStore(y, a)
  {
    if n > 0 { MergesOnlyAt(y, n - 1, a); }
  }

  lemma {:induction false} MergesOnce(y: Sys, n: nat, a: LineAddr, m: MshrId)
    requires m < n <= MSHR_NUM && MergesAt(y, m, a) && forall k: MshrId :: k != m ==> !MergesAt(y, k, a)
    ensures AfterMerges(y, n, a) == Merge(AfterHitStore(y, a), y.want(m).data, y.want(m).mask)
  {
    if m == n - 1 { MergesOnlyAt(y, n - 1, a); } else { MergesOnce(y, n - 1, a, m); }
  }

  /** No store takes effect at this line now. */
  ghost predicate Untouched(y: Sys, a: LineAddr)
  {
    !(StoreHit(y.s) && y.s.store.addr == a) && forall m: MshrId :: !MergesAt(y, m, a)
  }

  lemma FlatKept(y: Sys, a: LineAddr)
    requires Untouched(y, a)
    ensures NextFlatLine(y, a) == y.flat(a)
  {
    MergesOnlyAt(y, MSHR_NUM, a);
  }

  /** At the index of a miss in progress only its own merge changes the flat memory. */
  lemma FlatAtMiss(y: Sys, m: MshrId, a: LineAddr)
    requires HwOk(y.s) && y.s.mshr(m).valid && a.index == y.s.mshr(m).newAddr.index
    ensures !MergesAt(y, m, a) ==> Untouched(y, a)
    ensures MergesAt(y, m, a) ==> NextFlatLine(y, a) == Merge(y.flat(a), y.want(m).data, y.want(m).mask)
  {
    if StoreHit(y.s) { StoreHitAlone(y.s, m); }
    forall k: MshrId | k != m ensures !MergesAt(y, k, a)
    {
      assert EntryOk(y.s.mshr(k));
    }
    if MergesAt(y, m, a) { MergesOnce(y, MSHR_NUM, a, m); }
  }

  /** A cached line changes only by the store that hits it. */
  lemma FlatAtCached(y: Sys, a: LineAddr, w: Way)
    requires HwOk(y.s) && (forall m: MshrId :: MissOk(y, m)) && CachedIn(y.s, a, w)
    ensures NextFlatLine(y, a) == AfterHitStore(y, a)
  {
    forall m: MshrId ensures !MergesAt(y, m, a)
    {
      assert MissOk(y, m);
    }
    MergesOnlyAt(y, MSHR_NUM, a);
  }

  // ------------------------------------------------------------------ main memory

  /** A write that lands was issued by the miss register that waits for it. */
  lemma LandingOwner(y: Sys, inp: Input, a: LineAddr) returns (m: MshrId)
    requires Inv(y) && LandsAt(y, inp, a)
    ensures AwaitsWrite(y.s.mshr(m)) && WritePending(y, m, a) && y.s.mshr(m).memWSerial == inp.land.value
    ensures NextLine(y, inp, a) == y.s.mshr(m).line
  {
    m := y.pendingWrites[inp.land.value].owner;
    assert MissOk(y, m);
    if y.s.mshr(m).phase.FlushVictimWriteComplete? { assert m == 0; }
  }
}
