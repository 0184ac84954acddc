/** HwOk is kept by every clock edge: registers, ports and miss registers stay consistent. */
module DCacheHardware {
  import opened Common
  import opened CacheTypes
  import opened DCacheModel
  import opened DCacheSystem
  import opened DCacheInvariant
  import opened DCacheCycle

  lemma EntryStep(e: Mshr, v: MshrView)
    requires EntryOk(e)
    ensures EntryOk(NextMshr(e, v))
  {
  }

  /** A valid entry keeps its address; a new one was free and takes the allocation or starts the flush. */
  lemma AddressStep(e: Mshr, v: MshrView)
    requires EntryOk(e) && NextMshr(e, v).valid
    ensures e.valid ==> NextMshr(e, v).newAddr == e.newAddr
    ensures !e.valid ==>
              (v.alloc.Some? && NextMshr(e, v).newAddr == v.alloc.value.addr) || (v.alloc.None? && v.startFlush)
  {
  }

  /** A request that reached its TAG stage carries the address its pipeline register holds. */
  lemma LsuAddr(s: DCacheState)
    requires HwOk(s)
    ensures s.loadGranted ==> s.port(s.outTag(LOAD)).req.addr == s.load.addr
    ensures s.storeGranted ==> s.port(s.outTag(STORE)).req.addr == s.store.addr
  {
    assert PortOk(s, s.outTag(LOAD)) && PortOk(s, s.outTag(STORE));
  }

  /** Whatever is allocated takes a free entry and conflicts with no valid one. */
  lemma AllocationFree(s: DCacheState, m: MshrId, n: MshrId)
    requires HwOk(s) && InitMshr(s, m).Some?
    ensures !s.mshr(m).valid
    ensures s.mshr(n).valid ==> s.mshr(n).newAddr.index != InitMshr(s, m).value.addr.index
  {
    LsuAddr(s);
    var i := InitMshr(s, m).value.addr.index;
    assert !MshrConflict(s, i);
    assert BusyAt(s, i)(n) <==> s.mshr(n).valid && s.mshr(n).newAddr.index == i;
  }

  /** Same-cycle misses get distinct entries for distinct indices. */
  lemma AllocationsDistinct(s: DCacheState, m: MshrId, n: MshrId)
    requires m != n && InitMshr(s, m).Some? && InitMshr(s, n).Some?
    ensures InitMshr(s, m).value.addr.index != InitMshr(s, n).value.addr.index
  {
  }

  /** Without a granted load or store nothing is allocated. */
  lemma NoAllocation(s: DCacheState, m: MshrId)
    requires !s.loadGranted && !s.storeGranted
    ensures InitMshr(s, m).None?
  {
  }

  /** The index of a valid entry is either kept or newly allocated. */
  ghost predicate Origin(s: DCacheState, s2: DCacheState, m: MshrId)
  {
    || (s.mshr(m).valid && s2.mshr(m).newAddr == s.mshr(m).newAddr)
    || (!s.mshr(m).valid && InitMshr(s, m).Some? && s2.mshr(m).newAddr == InitMshr(s, m).value.addr)
    || (Flushing(s) && m == 0)
  }

  lemma OriginStep(s: DCacheState, inp: Input, s2: DCacheState, view: MshrId -> MshrView, m: MshrId)
    requires HwOk(s) && MshrsStepped(s, inp, s2, view) && s2.mshr(m).valid
    ensures Origin(s, s2, m)
  {
    assert EntryOk(s.mshr(m));
    AddressStep(s.mshr(m), view(m));
  }

  lemma DistinctPair(s: DCacheState, s2: DCacheState, m: MshrId, n: MshrId)
    requires HwOk(s) && m != n && Origin(s, s2, m) && Origin(s, s2, n)
    ensures s2.mshr(m).newAddr.index != s2.mshr(n).newAddr.index
  {
    if Flushing(s) {
      assert EntryOk(s.mshr(m)) && EntryOk(s.mshr(n));
      NoAllocation(s, m);
      NoAllocation(s, n);
    } else if s.mshr(m).valid {
      if !s.mshr(n).valid { AllocationFree(s, n, m); }
    } else if s.mshr(n).valid { AllocationFree(s, m, n); }
    else { AllocationsDistinct(s, m, n); }
  }

  lemma DistinctStep(s: DCacheState, inp: Input, s2: DCacheState, view: MshrId -> MshrView)
    requires HwOk(s) && MshrsStepped(s, inp, s2, view)
    ensures DistinctIndices(s2)
  {
    forall m: MshrId, n: MshrId | m != n && s2.mshr(m).valid && s2.mshr(n).valid
      ensures s2.mshr(m).newAddr.index != s2.mshr(n).newAddr.index
    {
      OriginStep(s, inp, s2, view, m);
      OriginStep(s, inp, s2, view, n);
      DistinctPair(s, s2, m, n);
    }
  }

  // ------------------------------------------------------------------ the mode of the cache

  lemma FlushEntryStep(e: Mshr, v: MshrView)
    requires (e.phase == Invalid || e.phase.Flushing()) && v.alloc.None?
    ensures NextMshr(e, v).phase == Invalid || NextMshr(e, v).phase.Flushing()
    ensures LastIndexDone(e) || (e.phase == Invalid && !v.startFlush) ==> NextMshr(e, v).phase == Invalid
  {
  }

  lemma MissEntryStep(e: Mshr, v: MshrView)
    requires !e.phase.Flushing() && !v.startFlush
    ensures !NextMshr(e, v).phase.Flushing()
    ensures e.phase == Invalid && v.alloc.None? ==> NextMshr(e, v).phase == Invalid
  {
  }

  lemma ModeEntry(s: DCacheState, inp: Input, s2: DCacheState, view: MshrId -> MshrView, m: MshrId)
    requires ModeOk(s) && MshrsStepped(s, inp, s2, view) && s2.phase == NextPhase(s, inp)
    requires s2.phase == FlushProcessing ==> !s.loadGranted && !s.storeGranted
    ensures s2.phase == FlushProcessing ==>
              && (m != 0 ==> s2.mshr(m).phase == Invalid)
              && (s2.mshr(m).phase == Invalid || s2.mshr(m).phase.Flushing())
    ensures s2.phase != FlushProcessing ==> !s2.mshr(m).phase.Flushing()
  {
    var e, v := s.mshr(m), view(m);
    assert ViewSource(s, inp, v, m);
    if s.phase == FlushProcessing {
      NoAllocation(s, m);
      FlushEntryStep(e, v);
    } else {
      MissEntryStep(e, v);
      if s2.phase == FlushProcessing {
        NoAllocation(s, m);
        assert Occupied(s)(m) <==> e.phase != Invalid;
      }
    }
  }

  lemma ModeStep(y: Sys, inp: Input, s2: DCacheState, view: MshrId -> MshrView)
    requires ModeOk(y.s) && EnvOk(y, inp) && Stepped(y.s, inp, s2, view)
    requires s2.loadGranted == CacheGrant(y.s, inp, LOAD) && s2.storeGranted == CacheGrant(y.s, inp, STORE)
    ensures ModeOk(s2)
  {
    forall m: MshrId
      ensures s2.phase == FlushProcessing ==>
                && (m != 0 ==> s2.mshr(m).phase == Invalid)
                && (s2.mshr(m).phase == Invalid || s2.mshr(m).phase.Flushing())
      ensures s2.phase != FlushProcessing ==> !s2.mshr(m).phase.Flushing()
    {
      ModeEntry(y.s, inp, s2, view, m);
    }
  }

  // ------------------------------------------------------------------ ports

  /** A miss register that is granted a port moves to the phase that its request announces. */
  lemma MshrPortStep(e: Mshr, v: MshrView)
    requires EntryOk(e) && v.grant && MshrCacheReq(e)
    ensures MshrPortOk(NextMshr(e, v), MshrMux(e))
  {
  }

  lemma PortStep(s: DCacheState, inp: Input, s2: DCacheState, view: MshrId -> MshrView, p: PortId)
    requires HwOk(s) && Stepped(s, inp, s2, view)
    ensures PortOk(s2, p)
  {
    assert PortSource(s, inp, s2, view, p);
    var r := s2.port(p).owner;
    if s2.port(p).granted && r >= 2 {
      assert EntryOk(s.mshr(r - 2));
      MshrPortStep(s.mshr(r - 2), view(r - 2));
    }
  }

  lemma ReceiveTagMeansGranted(e: Mshr, v: MshrView)
    requires NextMshr(e, v).phase.VictimReceiveTag? || NextMshr(e, v).phase.FlushVictimReceiveTag?
    ensures v.grant
  {
  }

  lemma GrantsStep(s: DCacheState, inp: Input, s2: DCacheState, view: MshrId -> MshrView)
    requires Stepped(s, inp, s2, view)
    ensures GrantsOk(s2)
  {
    forall m: MshrId | s2.mshr(m).phase.VictimReceiveTag? || s2.mshr(m).phase.FlushVictimReceiveTag?
      ensures OwnsPort(s2, MshrReqId(m))
    {
      ReceiveTagMeansGranted(s.mshr(m), view(m));
    }
  }

  /** Two requests that write tags never name the same index. */
  lemma TagWritesDistinct(s: DCacheState)
    requires (forall p: PortId :: PortOk(s, p)) && DistinctIndices(s) && (forall m: MshrId :: EntryOk(s.mshr(m)))
             && ModeOk(s)
    ensures s.port(0).req.tagWE && s.port(1).req.tagWE ==> s.port(0).req.addr.index != s.port(1).req.addr.index
  {
    var t0, t1 := s.port(0), s.port(1);
    assert PortOk(s, 0) && PortOk(s, 1);
    if t0.req.tagWE && t1.req.tagWE {
      assert t0.owner >= 2 && t1.owner >= 2 && t0.owner != t1.owner;
      assert EntryOk(s.mshr(t0.owner - 2)) && EntryOk(s.mshr(t1.owner - 2));
    }
  }

  lemma TagStep(s: DCacheState, s2: DCacheState, p: PortId)
    requires TagsStepped(s, s2) && PortReads(s, s2, p)
    requires s2.port(0).req.tagWE && s2.port(1).req.tagWE ==> s2.port(0).req.addr.index != s2.port(1).req.addr.index
    ensures TagFresh(s2, p) && TagWritten(s2, p)
  {
  }

  lemma HwStepped(y: Sys, inp: Input, s2: DCacheState, view: MshrId -> MshrView)
    requires HwOk(y.s) && EnvOk(y, inp) && Stepped(y.s, inp, s2, view)
    requires s2.loadGranted == CacheGrant(y.s, inp, LOAD) && s2.storeGranted == CacheGrant(y.s, inp, STORE)
    ensures HwOk(s2)
  {
    forall m: MshrId ensures EntryOk(s2.mshr(m))
    {
      assert EntryOk(y.s.mshr(m));
      EntryStep(y.s.mshr(m), view(m));
    }
    DistinctStep(y.s, inp, s2, view);
    ModeStep(y, inp, s2, view);
    forall p: PortId ensures PortOk(s2, p) { PortStep(y.s, inp, s2, view, p); }
    TagWritesDistinct(s2);
    forall p: PortId ensures TagFresh(s2, p) && TagWritten(s2, p)
    {
      assert PortReads(y.s, s2, p);
      TagStep(y.s, s2, p);
    }
    GrantsStep(y.s, inp, s2, view);
  }
}
