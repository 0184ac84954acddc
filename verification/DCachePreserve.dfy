/** Coherence of the cache, the memory and the flat memory is kept by every clock edge. */
module DCachePreserve {
  import opened Common
  import opened CacheTypes
  import opened DCacheModel
  import opened DCacheSystem
  import opened DCacheInvariant
  import opened DCacheCycle
  import opened DCacheHardware
  import opened DCacheCoherence

  // ------------------------------------------------------------------ memory at a line

  /** Memory keeps a line that is cached unless its own victim write lands, which brings it up to date. */
  lemma MemAtCached(y: Sys, inp: Input, a: LineAddr, w: Way)
    requires Inv(y) && CachedIn(y.s, a, w)
    ensures NextLine(y, inp, a) == y.mem(a) || NextLine(y, inp, a) == y.flat(a)
  {
    if LandsAt(y, inp, a) {
      var m := LandingOwner(y, inp, a);
      assert EntryOk(y.s.mshr(m)) && MissOk(y, m);
      if y.s.mshr(m).phase.VictimWriteComplete? {
        assert !Flushing(y.s);
        NoFillAt(y.s, m);
        assert WayOk(y, a.index, y.s.mshr(m).evictWay);
      }
    }
  }

  /** A line that a write reaches is cached or owed. */
  lemma LandsOwed(y: Sys, inp: Input, a: LineAddr)
    requires Inv(y) && LandsAt(y, inp, a)
    ensures !NotCached(y.s, a) || Owed(y.s, a)
  {
    var m := LandingOwner(y, inp, a);
    var e := y.s.mshr(m);
    assert EntryOk(e) && MissOk(y, m);
    if e.phase.VictimWriteComplete? { assert CachedIn(y.s, a, e.evictWay); }
    else if e.phase.UncachableWriteComplete? { assert StoreOwes(y.s, m, a); }
    else { assert m == 0 && FlushOwes(y.s, a); }
  }

  /** Memory keeps a line that is neither cached nor owed. */
  lemma MemAtClean(y: Sys, inp: Input, a: LineAddr)
    requires Inv(y) && NotCached(y.s, a) && !Owed(y.s, a)
    ensures NextLine(y, inp, a) == y.mem(a)
  {
    if LandsAt(y, inp, a) { LandsOwed(y, inp, a); }
  }

  /** At the index of a miss that awaits no write, memory keeps every line. */
  lemma MemAtMiss(y: Sys, inp: Input, m: MshrId, a: LineAddr)
    requires Inv(y) && !Flushing(y.s) && y.s.mshr(m).valid && a.index == y.s.mshr(m).newAddr.index
    ensures !AwaitsWrite(y.s.mshr(m)) ==> NextLine(y, inp, a) == y.mem(a)
    ensures NextLine(y, inp, a) == y.mem(a) || NextLine(y, inp, a) == y.s.mshr(m).line
  {
    if LandsAt(y, inp, a) {
      var n := LandingOwner(y, inp, a);
      assert EntryOk(y.s.mshr(n)) && MissOk(y, n);
    }
  }

  // ------------------------------------------------------------------ valid ways

  /** Only the miss register that holds a line can owe it. */
  lemma OwedByMiss(y: Sys, m: MshrId)
    requires HwOk(y.s) && !Flushing(y.s) && y.s.mshr(m).valid
    ensures Owed(y.s, y.s.mshr(m).newAddr) ==> StoreOwes(y.s, m, y.s.mshr(m).newAddr)
  {
    forall n: MshrId | StoreOwes(y.s, n, y.s.mshr(m).newAddr) ensures n == m
    {
      assert EntryOk(y.s.mshr(n));
    }
  }

  /** The line to be filled: memory has it unless the entry belongs to a store. */
  lemma FetchedLine(y: Sys, inp: Input, m: MshrId)
    requires Inv(y) && y.s.mshr(m).phase.MissWriteCacheRequest?
    ensures var e := y.s.mshr(m);
            && NextFlatLine(y, e.newAddr) == e.line
            && (e.isAllocatedByStore || NextLine(y, inp, e.newAddr) == e.line)
  {
    var e := y.s.mshr(m);
    assert EntryOk(e) && MissOk(y, m);
    FlatAtMiss(y, m, e.newAddr);
    FlatKept(y, e.newAddr);
    MemAtMiss(y, inp, m, e.newAddr);
    OwedByMiss(y, m);
    assert LineOk(y, e.newAddr);
  }

  /** A way that is being filled belongs to a miss register in its fill phase. */
  lemma FilledBy(y: Sys, inp: Input, s2: DCacheState, view: MshrId -> MshrView, p: PortId, i: Index, w: Way)
    returns (m: MshrId)
    requires Stepped(y.s, inp, s2, view) && HwOk(s2) && Filling(s2, p, i, w) && s2.tag(i, w).valid
    ensures y.s.mshr(m).phase.MissWriteCacheRequest?
    ensures WayAddr(s2, i, w) == y.s.mshr(m).newAddr
    ensures EffData(s2, i, w) == y.s.mshr(m).line && EffDirty(s2, i, w) == y.s.mshr(m).isAllocatedByStore
  {
    m := NewFill(y.s, inp, s2, view, p);
    assert TagWritten(s2, p);
    TagWritesDistinct(s2);
  }

  /** A way that is being filled holds the fetched line of its miss register. */
  lemma FilledWay(y: Sys, inp: Input, y2: Sys, view: MshrId -> MshrView, p: PortId, i: Index, w: Way)
    requires Inv(y) && SysStepped(y, inp, y2, view) && HwOk(y2.s)
    requires Filling(y2.s, p, i, w) && y2.s.tag(i, w).valid
    ensures WayOk(y2, i, w)
  {
    var m := FilledBy(y, inp, y2.s, view, p, i, w);
    FetchedLine(y, inp, m);
  }

  /** A store hit selects the one way that holds the line. */
  lemma StoreHitWay(y: Sys, i: Index, w: Way)
    requires Inv(y) && StoreHit(y.s) && y.s.store.addr.index == i && y.s.tag(i, w).valid
    ensures StoreWrites(y.s, i, w) <==> y.s.tag(i, w).tag == y.s.store.addr.tag
  {
    LsuAddr(y.s);
    StoreHitNoFill(y.s);
    var p := y.s.outTag(STORE);
    assert TagFresh(y.s, p) && PortOk(y.s, p);
    assert OwnsPort(y.s, STORE);
    assert TagMatch(y.s, p)(RepWay(y.s, p));
    assert DistinctTags(y.s, i);
  }

  lemma KeptWay(y: Sys, inp: Input, y2: Sys, view: MshrId -> MshrView, i: Index, w: Way)
    requires Inv(y) && SysStepped(y, inp, y2, view)
    requires !Filling(y2.s, 0, i, w) && !Filling(y2.s, 1, i, w) && y2.s.tag(i, w).valid
    ensures WayOk(y2, i, w)
  {
    TagKept(y.s, y2.s, i, w);
    DataStep(y.s, y2.s, i, w);
    var a := WayAddr(y.s, i, w);
    assert CachedIn(y.s, a, w) && WayOk(y, i, w);
    FlatAtCached(y, a, w);
    MemAtCached(y, inp, a, w);
    if StoreHit(y.s) && y.s.store.addr.index == i { StoreHitWay(y, i, w); }
    if StoreWrites(y.s, i, w) { assert EffData(y.s, i, w) == y.flat(a); }
  }

  lemma WaysStep(y: Sys, inp: Input, y2: Sys, view: MshrId -> MshrView, i: Index, w: Way)
    requires Inv(y) && SysStepped(y, inp, y2, view) && HwOk(y2.s)
    ensures WayOk(y2, i, w)
  {
    if y2.s.tag(i, w).valid {
      if Filling(y2.s, 0, i, w) { FilledWay(y, inp, y2, view, 0, i, w); }
      else if Filling(y2.s, 1, i, w) { FilledWay(y, inp, y2, view, 1, i, w); }
      else { KeptWay(y, inp, y2, view, i, w); }
    }
  }

  // ------------------------------------------------------------------ tags

  /** The line of a miss in progress is in no way of its set. */
  lemma MissNotCached(y: Sys, m: MshrId)
    requires Inv(y) && y.s.mshr(m).phase.MissWriteCacheRequest?
    ensures NotCached(y.s, y.s.mshr(m).newAddr)
  {
    assert MissOk(y, m);
  }

  lemma TagsStep(y: Sys, inp: Input, y2: Sys, view: MshrId -> MshrView, i: Index)
    requires Inv(y) && SysStepped(y, inp, y2, view) && HwOk(y2.s)
    ensures DistinctTags(y2.s, i)
  {
    assert DistinctTags(y.s, i);
    forall w: Way, x: Way | w != x && y2.s.tag(i, w).valid && y2.s.tag(i, x).valid
      ensures y2.s.tag(i, w).tag != y2.s.tag(i, x).tag
    {
      TagPair(y, inp, y2, view, i, w, x);
      TagPair(y, inp, y2, view, i, x, w);
    }
  }

  /** A way filled now differs from every way that stays. */
  lemma TagPair(y: Sys, inp: Input, y2: Sys, view: MshrId -> MshrView, i: Index, w: Way, x: Way)
    requires Inv(y) && SysStepped(y, inp, y2, view) && HwOk(y2.s)
    requires w != x && y2.s.tag(i, w).valid && y2.s.tag(i, x).valid
    ensures Filling(y2.s, 0, i, w) || Filling(y2.s, 1, i, w) ==> y2.s.tag(i, w).tag != y2.s.tag(i, x).tag
    ensures !Filling(y2.s, 0, i, w) && !Filling(y2.s, 1, i, w) ==> y2.s.tag(i, w) == y.s.tag(i, w)
  {
    if Filling(y2.s, 0, i, w) || Filling(y2.s, 1, i, w) {
      var p: PortId := if Filling(y2.s, 0, i, w) then 0 else 1;
      var m := FilledBy(y, inp, y2.s, view, p, i, w);
      MissNotCached(y, m);
      TagWritesDistinct(y2.s);
      TagKept(y.s, y2.s, i, x);
      assert !CachedIn(y.s, y.s.mshr(m).newAddr, x);
    }
  }

  // ------------------------------------------------------------------ lines outside the cache

  /** What a fill replaces is in memory. */
  lemma FilledOver(y: Sys, inp: Input, y2: Sys, view: MshrId -> MshrView, m: MshrId, a: LineAddr, w: Way)
    requires Inv(y) && SysStepped(y, inp, y2, view) && CachedIn(y.s, a, w)
    requires y.s.mshr(m).phase.MissWriteCacheRequest? && y.s.mshr(m).newAddr.index == a.index
             && y.s.mshr(m).evictWay == w
    ensures y2.mem(a) == y2.flat(a)
  {
    assert EntryOk(y.s.mshr(m)) && MissOk(y, m);
    assert WayAddr(y.s, a.index, w) == a;
    FlatAtMiss(y, m, a);
    FlatKept(y, a);
    MemAtMiss(y, inp, m, a);
  }

  /** A way that loses its line to a fill was safe in memory; to a flush, it is now owed. */
  lemma LostWay(y: Sys, inp: Input, y2: Sys, view: MshrId -> MshrView, a: LineAddr, w: Way, p: PortId)
    requires Inv(y) && SysStepped(y, inp, y2, view) && HwOk(y2.s)
    requires CachedIn(y.s, a, w) && Filling(y2.s, p, a.index, w)
    ensures FlushOwes(y2.s, a) || y2.mem(a) == y2.flat(a)
  {
    var m := NewFill(y.s, inp, y2.s, view, p);
    var e := y.s.mshr(m);
    assert EntryOk(e) && MissOk(y, m);
    if e.phase.MissWriteCacheRequest? {
      FilledOver(y, inp, y2, view, m, a, w);
    } else {
      assert Flushing(y.s) && m == 0;
      FlushTakes(y, inp, y2, view, p);
    }
  }

  /** The flush reads the tag it invalidates. */
  lemma FlushTakes(y: Sys, inp: Input, y2: Sys, view: MshrId -> MshrView, p: PortId)
    requires Inv(y) && SysStepped(y, inp, y2, view) && Flushing(y.s)
    requires y2.s.port(p).req.tagWE && y2.s.port(p).owner == 2 && y.s.mshr(0).phase.FlushVictimRequest? && view(0).grant
    ensures y2.s.mshr(0).phase.FlushVictimReceiveTag? && y2.s.mshr(0).flushIndex == y.s.mshr(0).flushIndex
    ensures TagPort(y2.s, 0).tagOut(0) == y.s.tag(y.s.mshr(0).flushIndex, 0)
  {
    assert PortSource(y.s, inp, y2.s, view, p) && PortReads(y.s, y2.s, p);
    assert y2.s.mshr(0) == NextMshr(y.s.mshr(0), view(0));
  }

  /** A line outside the cache stays equal to memory or becomes owed when its store is merged. */
  lemma CleanLine(y: Sys, inp: Input, y2: Sys, view: MshrId -> MshrView, a: LineAddr)
    requires Inv(y) && SysStepped(y, inp, y2, view)
    requires NotCached(y.s, a) && !Owed(y.s, a)
    ensures Owed(y2.s, a) || y2.mem(a) == y2.flat(a)
  {
    MemAtClean(y, inp, a);
    assert LineOk(y, a);
    NotCachedNoHit(y, a);
    if m: MshrId :| MergesAt(y, m, a) {
      assert EntryOk(y.s.mshr(m));
      assert y2.s.mshr(m) == NextMshr(y.s.mshr(m), view(m));
      assert StoreOwes(y2.s, m, a);
    } else {
      FlatKept(y, a);
    }
  }

  lemma NotCachedNoHit(y: Sys, a: LineAddr)
    requires Inv(y) && NotCached(y.s, a)
    ensures !(StoreHit(y.s) && y.s.store.addr == a)
  {
    if StoreHit(y.s) && y.s.store.addr == a {
      var p := y.s.outTag(STORE);
      LsuAddr(y.s);
      StoreHitNoFill(y.s);
      assert TagFresh(y.s, p) && OwnsPort(y.s, STORE);
      assert TagMatch(y.s, p)(RepWay(y.s, p));
      assert CachedIn(y.s, a, RepWay(y.s, p));
    }
  }

  /** Nothing but its own write touches the line that a store owes. */
  lemma OwedKept(y: Sys, inp: Input, y2: Sys, view: MshrId -> MshrView, a: LineAddr, m: MshrId)
    requires Inv(y) && SysStepped(y, inp, y2, view) && StoreOwes(y.s, m, a)
    ensures y2.flat(a) == y.flat(a) == y.s.mshr(m).line
    ensures y2.mem(a) == y.mem(a) || y2.mem(a) == y2.flat(a)
    ensures y.s.mshr(m).phase.UncachableWriteComplete? ==> WritePending(y, m, a)
  {
    assert EntryOk(y.s.mshr(m)) && MissOk(y, m) && !Flushing(y.s);
    FlatAtMiss(y, m, a);
    FlatKept(y, a);
    MemAtMiss(y, inp, m, a);
  }

  lemma FillRequest(s: DCacheState, inp: Input, s2: DCacheState, view: MshrId -> MshrView, m: MshrId)
    requires Stepped(s, inp, s2, view) && view(m).grant
    ensures s2.port(s2.outTag(MshrReqId(m))).req == MshrMux(s.mshr(m))
  {
    assert OwnsPort(s2, MshrReqId(m)) && PortSource(s, inp, s2, view, s2.outTag(MshrReqId(m)));
  }

  /** A granted fill puts the line into the cache. */
  lemma FillCaches(s: DCacheState, inp: Input, s2: DCacheState, view: MshrId -> MshrView, m: MshrId)
    requires Stepped(s, inp, s2, view) && s.mshr(m).phase.MissWriteCacheRequest? && view(m).grant
    requires forall p: PortId :: TagWritten(s2, p)
    ensures CachedIn(s2, s.mshr(m).newAddr, s.mshr(m).evictWay)
  {
    var p := s2.outTag(MshrReqId(m));
    FillRequest(s, inp, s2, view, m);
    assert TagWritten(s2, p);
  }

  /** A store's line stays owed until its write is answered or it is filled. */
  lemma OwedLine(y: Sys, inp: Input, y2: Sys, view: MshrId -> MshrView, a: LineAddr, m: MshrId)
    requires Inv(y) && EnvOk(y, inp) && SysStepped(y, inp, y2, view) && HwOk(y2.s)
    requires StoreOwes(y.s, m, a)
    ensures StoreOwes(y2.s, m, a) || !NotCached(y2.s, a) || y2.mem(a) == y2.flat(a)
  {
    OwedKept(y, inp, y2, view, a, m);
    if y.s.mshr(m).phase.MissWriteCacheRequest? && view(m).grant { FillCaches(y.s, inp, y2.s, view, m); }
    OwedPhase(y, inp, y2, view, a, m);
  }

  lemma OwedPhase(y: Sys, inp: Input, y2: Sys, view: MshrId -> MshrView, a: LineAddr, m: MshrId)
    requires EntryOk(y.s.mshr(m)) && EnvOk(y, inp) && MshrsStepped(y.s, inp, y2.s, view) && StoreOwes(y.s, m, a)
    requires y.s.mshr(m).phase.UncachableWriteComplete? ==> WritePending(y, m, a)
    requires y2.flat(a) == y.s.mshr(m).line && (y2.mem(a) == y.mem(a) || y2.mem(a) == y2.flat(a))
    ensures StoreOwes(y2.s, m, a) || y2.mem(a) == y2.flat(a)
            || (y.s.mshr(m).phase.MissWriteCacheRequest? && view(m).grant)
  {
    assert y2.s.mshr(m) == NextMshr(y.s.mshr(m), view(m)) && ViewSource(y.s, inp, view(m), m);
  }

  /** Memory changes at a line during a flush only when the sweep's own write lands. */
  lemma MemInFlush(y: Sys, inp: Input, a: LineAddr)
    requires Inv(y) && Flushing(y.s)
    ensures !y.s.mshr(0).phase.FlushVictimWriteComplete? ==> NextLine(y, inp, a) == y.mem(a)
    ensures y.s.mshr(0).phase.FlushVictimWriteComplete? ==>
              NextLine(y, inp, a) == y.mem(a) || NextLine(y, inp, a) == y.s.mshr(0).line
  {
    if LandsAt(y, inp, a) { var n := LandingOwner(y, inp, a); }
  }

  /** A line taken by the flush stays owed until it is found clean or its write is answered. */
  lemma FlushedLine(y: Sys, inp: Input, y2: Sys, view: MshrId -> MshrView, a: LineAddr)
    requires EntryOk(y.s.mshr(0)) && FlushOk(y) && EnvOk(y, inp) && MshrsStepped(y.s, inp, y2.s, view)
    requires FlushOwes(y.s, a) && y2.flat(a) == y.flat(a)
    requires !y.s.mshr(0).phase.FlushVictimWriteComplete? ==> y2.mem(a) == y.mem(a)
    requires y.s.mshr(0).phase.FlushVictimWriteComplete? ==> y2.mem(a) == y.mem(a) || y2.mem(a) == y.s.mshr(0).line
    ensures FlushOwes(y2.s, a) || y2.mem(a) == y2.flat(a)
  {
    var e := y.s.mshr(0);
    assert y2.s.mshr(0) == NextMshr(e, view(0)) && ViewSource(y.s, inp, view(0), 0);
    if e.phase.FlushVictimReceiveTag? { assert SomeValid(view(0).tagOut)(0); }
  }

  /** Nothing is stored during a flush. */
  lemma FlatInFlush(y: Sys, a: LineAddr)
    requires HwOk(y.s) && Flushing(y.s)
    ensures NextFlatLine(y, a) == y.flat(a)
  {
    FlatKept(y, a);
  }

  lemma LinesStep(y: Sys, inp: Input, y2: Sys, view: MshrId -> MshrView, a: LineAddr)
    requires Inv(y) && EnvOk(y, inp) && SysStepped(y, inp, y2, view) && HwOk(y2.s)
    ensures LineOk(y2, a)
  {
    if NotCached(y2.s, a) && !Owed(y2.s, a) {
      if !NotCached(y.s, a) {
        var w: Way :| CachedIn(y.s, a, w);
        assert !CachedIn(y2.s, a, w);
        if Filling(y2.s, 0, a.index, w) { LostWay(y, inp, y2, view, a, w, 0); }
        else if Filling(y2.s, 1, a.index, w) { LostWay(y, inp, y2, view, a, w, 1); }
        else { TagKept(y.s, y2.s, a.index, w); assert false; }
      } else if !Owed(y.s, a) {
        CleanLine(y, inp, y2, view, a);
      } else if FlushOwes(y.s, a) {
        assert EntryOk(y.s.mshr(0)) && Flushing(y.s);
        FlatInFlush(y, a);
        MemInFlush(y, inp, a);
        FlushedLine(y, inp, y2, view, a);
      } else {
        var m: MshrId :| StoreOwes(y.s, m, a);
        OwedLine(y, inp, y2, view, a, m);
      }
    }
  }
}
