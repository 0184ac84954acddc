/** The progress of one miss: from allocation through victim write-back to the fill. */
module DCacheMiss {
  import opened Common
  import opened CacheTypes
  import opened DCacheModel
  import opened DCacheSystem
  import opened DCacheInvariant
  import opened DCacheCycle
  import opened DCacheHardware
  import opened DCacheCoherence
  import opened DCachePreserve

  // ------------------------------------------------------------------ allocation

  /** A miss is allocated only for a line that no way of the set holds. */
  lemma MissedNotCached(s: DCacheState, m: MshrId)
    requires HwOk(s) && InitMshr(s, m).Some?
    ensures NotCached(s, InitMshr(s, m).value.addr)
    ensures !MshrConflict(s, InitMshr(s, m).value.addr.index)
  {
    LsuAddr(s);
    var r := if m == StoreSlot(s) then STORE else LOAD;
    var p := s.outTag(r);
    var a := InitMshr(s, m).value.addr;
    assert OwnsPort(s, r);
    NoRewriteIfFree(s, a.index);
    assert TagFresh(s, p);
    forall w: Way ensures !CachedIn(s, a, w)
    {
      assert !TagMatch(s, p)(w);
    }
  }

  lemma NotBusy(s: DCacheState, i: Index, n: MshrId)
    requires !MshrConflict(s, i)
    ensures !(s.mshr(n).valid && s.mshr(n).newAddr.index == i)
  {
    assert !BusyAt(s, i)(n);
  }

  /** Without a miss register at the index no fill is in flight there. */
  lemma NoRewriteIfFree(s: DCacheState, i: Index)
    requires HwOk(s) && !MshrConflict(s, i) && !Flushing(s)
    ensures !TagRewritten(s, i)
  {
    if s.port(0).req.tagWE && s.port(0).req.addr.index == i { var n := FillOwner(s, 0); NotBusy(s, i, n); }
    if s.port(1).req.tagWE && s.port(1).req.addr.index == i { var n := FillOwner(s, 1); NotBusy(s, i, n); }
  }

  /** Without a miss register at the index no fill is sent there. */
  lemma NoFillIfFree(s: DCacheState, inp: Input, s2: DCacheState, view: MshrId -> MshrView, i: Index, w: Way)
    requires HwOk(s) && Stepped(s, inp, s2, view) && !MshrConflict(s, i) && !Flushing(s)
    ensures s2.tag(i, w) == s.tag(i, w)
  {
    if s2.port(0).req.tagWE && s2.port(0).req.addr.index == i {
      var n := NewFill(s, inp, s2, view, 0);
      assert EntryOk(s.mshr(n));
      NotBusy(s, i, n);
    }
    if s2.port(1).req.tagWE && s2.port(1).req.addr.index == i {
      var n := NewFill(s, inp, s2, view, 1);
      assert EntryOk(s.mshr(n));
      NotBusy(s, i, n);
    }
  }

  lemma AfterAllocation(y: Sys, inp: Input, y2: Sys, view: MshrId -> MshrView, m: MshrId)
    requires MshrsStepped(y.s, inp, y2.s, view) && Allocates(y.s.mshr(m), view(m))
    requires InitMshr(y.s, m).Some? && NotCached(y2.s, InitMshr(y.s, m).value.addr)
    ensures MissOk(y2, m)
  {
    assert y2.s.mshr(m) == NextMshr(y.s.mshr(m), view(m)) && ViewSource(y.s, inp, view(m), m);
  }

  lemma AllocatedMiss(y: Sys, inp: Input, y2: Sys, view: MshrId -> MshrView, m: MshrId)
    requires Inv(y) && SysStepped(y, inp, y2, view) && Allocates(y.s.mshr(m), view(m))
    ensures MissOk(y2, m)
  {
    var a := InitMshr(y.s, m).value.addr;
    assert ViewSource(y.s, inp, view(m), m);
    MissedNotCached(y.s, m);
    forall w: Way ensures !CachedIn(y2.s, a, w)
    {
      NoFillIfFree(y.s, inp, y2.s, view, a.index, w);
      assert !CachedIn(y.s, a, w);
    }
    AfterAllocation(y, inp, y2, view, m);
  }

  // ------------------------------------------------------------------ the set is frozen

  /** The set of a miss in progress keeps its tags until the miss itself fills it. */
  lemma FrozenTags(y: Sys, inp: Input, y2: Sys, view: MshrId -> MshrView, m: MshrId, w: Way)
    requires Inv(y) && SysStepped(y, inp, y2, view) && !Flushing(y.s) && y.s.mshr(m).valid
    requires !(y.s.mshr(m).phase.MissWriteCacheRequest? && view(m).grant)
    ensures y2.s.tag(y.s.mshr(m).newAddr.index, w) == y.s.tag(y.s.mshr(m).newAddr.index, w)
  {
    var i := y.s.mshr(m).newAddr.index;
    if y2.s.port(0).req.tagWE && y2.s.port(0).req.addr.index == i { FillIsMine(y, inp, y2, view, m, 0); }
    if y2.s.port(1).req.tagWE && y2.s.port(1).req.addr.index == i { FillIsMine(y, inp, y2, view, m, 1); }
  }

  /** The set of a miss in progress keeps its data and dirty bits. */
  lemma FrozenData(y: Sys, inp: Input, y2: Sys, view: MshrId -> MshrView, m: MshrId, w: Way)
    requires Inv(y) && SysStepped(y, inp, y2, view) && !Flushing(y.s)
    requires y.s.mshr(m).valid && !y.s.mshr(m).phase.MissHandlingComplete?
    ensures var i := y.s.mshr(m).newAddr.index;
            && y2.s.data(i, w) == y.s.data(i, w) && y2.s.dirty(i, w) == y.s.dirty(i, w)
            && EffData(y.s, i, w) == y.s.data(i, w) && EffDirty(y.s, i, w) == y.s.dirty(i, w)
  {
    NoFillAt(y.s, m);
    if StoreHit(y.s) { StoreHitAlone(y.s, m); }
    DataStep(y.s, y2.s, y.s.mshr(m).newAddr.index, w);
  }

  lemma StillNotCached(y: Sys, inp: Input, y2: Sys, view: MshrId -> MshrView, m: MshrId)
    requires Inv(y) && SysStepped(y, inp, y2, view) && !Flushing(y.s) && y.s.mshr(m).valid
    requires !(y.s.mshr(m).phase.MissWriteCacheRequest? && view(m).grant)
    ensures NotCached(y.s, y.s.mshr(m).newAddr) ==> NotCached(y2.s, y.s.mshr(m).newAddr)
  {
    forall w: Way ensures y2.s.tag(y.s.mshr(m).newAddr.index, w) == y.s.tag(y.s.mshr(m).newAddr.index, w)
    {
      FrozenTags(y, inp, y2, view, m, w);
    }
    if NotCached(y.s, y.s.mshr(m).newAddr) {
      forall w: Way ensures !CachedIn(y2.s, y.s.mshr(m).newAddr, w)
      {
        assert !CachedIn(y.s, y.s.mshr(m).newAddr, w);
      }
    }
  }

  // ------------------------------------------------------------------ outstanding transactions

  lemma WriteStaysPending(y: Sys, inp: Input, y2: Sys, view: MshrId -> MshrView, m: MshrId, a: LineAddr)
    requires Inv(y) && EnvOk(y, inp) && SysStepped(y, inp, y2, view)
    requires WritePending(y, m, a) && y2.s.mshr(m).line == y.s.mshr(m).line
    requires y2.s.mshr(m).memWSerial == y.s.mshr(m).memWSerial && !Answered(inp.response, y.s.mshr(m).memWSerial)
    requires NextLine(y, inp, a) == y.mem(a) || NextLine(y, inp, a) == y.s.mshr(m).line
    ensures WritePending(y2, m, a)
  {
  }

  lemma WriteIssued(y: Sys, inp: Input, y2: Sys, view: MshrId -> MshrView, m: MshrId)
    requires SysStepped(y, inp, y2, view) && view(m).accepted && MemReq(y.s.mshr(m)) && MemWE(y.s.mshr(m))
    requires y2.s.mshr(m).line == y.s.mshr(m).line && y2.s.mshr(m).memWSerial == view(m).memWSerial
    ensures WritePending(y2, m, MemAddr(y.s.mshr(m)))
  {
    assert ViewSource(y.s, inp, view(m), m);
  }

  /** Once its write is answered, memory holds the line. */
  lemma WriteAnswered(y: Sys, inp: Input, m: MshrId, a: LineAddr)
    requires Inv(y) && EnvOk(y, inp) && WritePending(y, m, a)
    requires Answered(inp.response, y.s.mshr(m).memWSerial)
    requires NextLine(y, inp, a) == y.mem(a) || NextLine(y, inp, a) == y.s.mshr(m).line
    ensures NextLine(y, inp, a) == y.s.mshr(m).line
  {
  }

  lemma ReadStaysPending(y: Sys, inp: Input, y2: Sys, view: MshrId -> MshrView, m: MshrId)
    requires Inv(y) && EnvOk(y, inp) && SysStepped(y, inp, y2, view) && ReadPending(y, m)
    requires y2.s.mshr(m).memSerial == y.s.mshr(m).memSerial && y2.s.mshr(m).newAddr == y.s.mshr(m).newAddr
    requires !(inp.result.Some? && inp.result.value.serial == y.s.mshr(m).memSerial)
    requires y2.flat(y.s.mshr(m).newAddr) == y.flat(y.s.mshr(m).newAddr) == y.mem(y.s.mshr(m).newAddr)
    ensures ReadPending(y2, m)
  {
    var k := y.s.mshr(m).memSerial;
    assert k in y2.pendingReads && y2.pendingReads[k] == Sampled(y, inp, k);
  }

  // ------------------------------------------------------------------ phases

  /** The line of a miss is clean in memory until its store is merged. */
  lemma MissLineClean(y: Sys, m: MshrId)
    requires Inv(y) && y.s.mshr(m).valid && !Flushing(y.s) && NotCached(y.s, y.s.mshr(m).newAddr)
    requires !StoreOwes(y.s, m, y.s.mshr(m).newAddr)
    ensures y.mem(y.s.mshr(m).newAddr) == y.flat(y.s.mshr(m).newAddr)
  {
    OwedByMiss(y, m);
    assert LineOk(y, y.s.mshr(m).newAddr);
  }

  lemma AfterSetRequest(y: Sys, inp: Input, y2: Sys, view: MshrId -> MshrView, m: MshrId)
    requires EntryOk(y.s.mshr(m)) && MshrsStepped(y.s, inp, y2.s, view)
    requires y.s.mshr(m).phase.VictimRequest? && NotCached(y2.s, y.s.mshr(m).newAddr)
    ensures MissOk(y2, m)
  {
    assert y2.s.mshr(m) == NextMshr(y.s.mshr(m), view(m)) && ViewSource(y.s, inp, view(m), m);
  }

  /** The victim's set is requested, or requested again. */
  lemma VictimRequested(y: Sys, inp: Input, y2: Sys, view: MshrId -> MshrView, m: MshrId)
    requires Inv(y) && EnvOk(y, inp) && SysStepped(y, inp, y2, view)
    requires y.s.mshr(m).phase.VictimRequest?
    ensures MissOk(y2, m)
  {
    assert EntryOk(y.s.mshr(m)) && MissOk(y, m);
    StillNotCached(y, inp, y2, view, m);
    AfterSetRequest(y, inp, y2, view, m);
  }

  lemma WayUnchanged(y: Sys, inp: Input, y2: Sys, view: MshrId -> MshrView, m: MshrId, w: Way)
    requires Inv(y) && SysStepped(y, inp, y2, view)
    requires y.s.mshr(m).phase.VictimReceiveTag? && EntryOk(y.s.mshr(m))
    ensures var i := y.s.mshr(m).newAddr.index;
            && y2.s.tag(i, w) == y.s.tag(i, w) && y2.s.data(i, w) == y.s.data(i, w)
            && y2.s.dirty(i, w) == y.s.dirty(i, w)
  {
    FrozenTags(y, inp, y2, view, m, w);
    FrozenData(y, inp, y2, view, m, w);
  }

  /** In the cycle in which the tags arrive nothing in the set changes, and the data follow from the same port. */
  lemma SetArrives(y: Sys, inp: Input, y2: Sys, view: MshrId -> MshrView, m: MshrId)
    requires Inv(y) && SysStepped(y, inp, y2, view)
    requires y.s.mshr(m).phase.VictimReceiveTag? && EntryOk(y.s.mshr(m))
    requires y2.s.mshr(m).tagOut == TagPort(y.s, m).tagOut && y2.s.mshr(m).newAddr == y.s.mshr(m).newAddr
    ensures SeesSet(y2, m)
  {
    var p := y.s.outTag(MshrReqId(m));
    assert OwnsPort(y.s, MshrReqId(m));
    assert PortOk(y.s, p) && TagFresh(y.s, p) && PortReads(y.s, y2.s, p);
    NoFillAt(y.s, m);
    forall w: Way { WayUnchanged(y, inp, y2, view, m, w); }
  }

  lemma TagsHeld(s: DCacheState, inp: Input, s2: DCacheState, view: MshrId -> MshrView, m: MshrId)
    requires MshrsStepped(s, inp, s2, view) && s.mshr(m).phase.VictimReceiveTag?
    ensures var e, n := s.mshr(m), s2.mshr(m);
            n.phase.VictimReceiveData? && n.tagOut == TagPort(s, m).tagOut && n.newAddr == e.newAddr
  {
    assert s2.mshr(m) == NextMshr(s.mshr(m), view(m)) && ViewSource(s, inp, view(m), m);
  }

  lemma VictimTagged(y: Sys, inp: Input, y2: Sys, view: MshrId -> MshrView, m: MshrId)
    requires Inv(y) && EnvOk(y, inp) && SysStepped(y, inp, y2, view)
    requires y.s.mshr(m).phase.VictimReceiveTag?
    ensures MissOk(y2, m)
  {
    assert EntryOk(y.s.mshr(m)) && MissOk(y, m);
    StillNotCached(y, inp, y2, view, m);
    TagsHeld(y.s, inp, y2.s, view, m);
    SetArrives(y, inp, y2, view, m);
  }

  /** The data port delivers line and dirty bit of the very way that the replacement state designates. */
  lemma VictimSeen(y: Sys, inp: Input, v: MshrView, m: MshrId)
    requires ViewSource(y.s, inp, v, m) && SeesSet(y, m)
    ensures var i := y.s.mshr(m).newAddr.index;
            v.dataOut == y.s.data(i, v.replOut) && v.dirtyOut == y.s.dirty(i, v.replOut)
            && y.s.mshr(m).tagOut(v.replOut) == y.s.tag(i, v.replOut)
  {
  }

  /** Choosing the victim changes neither its way nor its line in memory. */
  lemma VictimUndisturbed(y: Sys, inp: Input, y2: Sys, view: MshrId -> MshrView, m: MshrId, w: Way)
    requires Inv(y) && EnvOk(y, inp) && SysStepped(y, inp, y2, view)
    requires y.s.mshr(m).phase.VictimReceiveData?
    ensures var i := y.s.mshr(m).newAddr.index;
            var a := WayAddr(y.s, i, w);
            && y2.s.tag(i, w) == y.s.tag(i, w) && y2.s.data(i, w) == y.s.data(i, w)
            && (y.s.tag(i, w).valid && !y.s.dirty(i, w) ==> y2.mem(a) == y2.flat(a))
  {
    var i := y.s.mshr(m).newAddr.index;
    var a := WayAddr(y.s, i, w);
    assert EntryOk(y.s.mshr(m));
    FrozenTags(y, inp, y2, view, m, w);
    FrozenData(y, inp, y2, view, m, w);
    assert WayOk(y, i, w);
    FlatAtMiss(y, m, a);
    FlatKept(y, a);
    MemAtMiss(y, inp, m, a);
  }

  lemma AfterChoice(y: Sys, inp: Input, y2: Sys, view: MshrId -> MshrView, m: MshrId)
    requires EntryOk(y.s.mshr(m)) && MshrsStepped(y.s, inp, y2.s, view)
    requires y.s.mshr(m).phase.VictimReceiveData? && SeesSet(y, m) && NotCached(y2.s, y.s.mshr(m).newAddr)
    requires var i, w := y.s.mshr(m).newAddr.index, view(m).replOut;
             var a := WayAddr(y.s, i, w);
             && y2.s.tag(i, w) == y.s.tag(i, w) && y2.s.data(i, w) == y.s.data(i, w)
             && (y.s.tag(i, w).valid && !y.s.dirty(i, w) ==> y2.mem(a) == y2.flat(a))
    ensures MissOk(y2, m)
  {
    assert y2.s.mshr(m) == NextMshr(y.s.mshr(m), view(m)) && ViewSource(y.s, inp, view(m), m);
    VictimSeen(y, inp, view(m), m);
  }

  /** The victim is chosen: its line is held for write-back, or memory already has it. */
  lemma VictimChosen(y: Sys, inp: Input, y2: Sys, view: MshrId -> MshrView, m: MshrId)
    requires Inv(y) && EnvOk(y, inp) && SysStepped(y, inp, y2, view)
    requires y.s.mshr(m).phase.VictimReceiveData?
    ensures MissOk(y2, m)
  {
    assert EntryOk(y.s.mshr(m)) && MissOk(y, m);
    VictimUndisturbed(y, inp, y2, view, m, view(m).replOut);
    StillNotCached(y, inp, y2, view, m);
    AfterChoice(y, inp, y2, view, m);
  }

  /** While the victim is written back, its way stays as it is. */
  lemma VictimWayKept(y: Sys, inp: Input, y2: Sys, view: MshrId -> MshrView, m: MshrId)
    requires Inv(y) && SysStepped(y, inp, y2, view)
    requires y.s.mshr(m).phase.VictimWriteToMem? || y.s.mshr(m).phase.VictimWriteComplete?
    ensures var e := y.s.mshr(m);
            && EntryOk(e) && VictimHeld(y, m) && NotCached(y2.s, e.newAddr)
            && y2.s.tag(e.newAddr.index, e.evictWay) == y.s.tag(e.newAddr.index, e.evictWay)
            && y2.s.data(e.newAddr.index, e.evictWay) == y.s.data(e.newAddr.index, e.evictWay)
  {
    var e := y.s.mshr(m);
    assert EntryOk(e) && MissOk(y, m);
    StillNotCached(y, inp, y2, view, m);
    FrozenTags(y, inp, y2, view, m, e.evictWay);
    FrozenData(y, inp, y2, view, m, e.evictWay);
  }

  /** While the victim is written back, its line stays as it is. */
  lemma VictimLineKept(y: Sys, m: MshrId)
    requires Inv(y)
    requires y.s.mshr(m).phase.VictimWriteToMem? || y.s.mshr(m).phase.VictimWriteComplete?
    ensures var e := y.s.mshr(m); NextFlatLine(y, e.victimAddr) == y.flat(e.victimAddr) == e.line
  {
    var e := y.s.mshr(m);
    assert EntryOk(e) && MissOk(y, m);
    NoFillAt(y.s, m);
    assert WayOk(y, e.newAddr.index, e.evictWay);
    FlatAtMiss(y, m, e.victimAddr);
    FlatKept(y, e.victimAddr);
  }

  lemma AfterVictimRequest(y: Sys, inp: Input, y2: Sys, view: MshrId -> MshrView, m: MshrId)
    requires EntryOk(y.s.mshr(m)) && MshrsStepped(y.s, inp, y2.s, view)
    requires y.s.mshr(m).phase.VictimWriteToMem? && VictimHeld(y, m)
    requires var e := y.s.mshr(m);
             && NotCached(y2.s, e.newAddr)
             && y2.s.tag(e.newAddr.index, e.evictWay) == y.s.tag(e.newAddr.index, e.evictWay)
             && y2.s.data(e.newAddr.index, e.evictWay) == y.s.data(e.newAddr.index, e.evictWay)
             && (view(m).accepted ==> WritePending(y2, m, e.victimAddr))
    ensures MissOk(y2, m)
  {
    assert y2.s.mshr(m) == NextMshr(y.s.mshr(m), view(m)) && ViewSource(y.s, inp, view(m), m);
  }

  /** The line stays, and an accepted request leaves its serial. */
  lemma WriteRequested(s: DCacheState, inp: Input, s2: DCacheState, view: MshrId -> MshrView, m: MshrId)
    requires MshrsStepped(s, inp, s2, view)
    requires s.mshr(m).phase.VictimWriteToMem? || s.mshr(m).phase.UncachableWriteToMem?
    ensures var e, n := s.mshr(m), s2.mshr(m);
            n.line == e.line && (view(m).accepted ==> n.memWSerial == view(m).memWSerial)
  {
    assert s2.mshr(m) == NextMshr(s.mshr(m), view(m)) && ViewSource(s, inp, view(m), m);
  }

  /** The victim is written back. */
  lemma VictimWriting(y: Sys, inp: Input, y2: Sys, view: MshrId -> MshrView, m: MshrId)
    requires Inv(y) && EnvOk(y, inp) && SysStepped(y, inp, y2, view)
    requires y.s.mshr(m).phase.VictimWriteToMem?
    ensures MissOk(y2, m)
  {
    VictimWayKept(y, inp, y2, view, m);
    WriteRequested(y.s, inp, y2.s, view, m);
    if view(m).accepted { WriteIssued(y, inp, y2, view, m); }
    AfterVictimRequest(y, inp, y2, view, m);
  }

  /** What an acknowledged, or still awaited, write of the victim leaves. */
  lemma AfterVictimWrite(y: Sys, inp: Input, y2: Sys, view: MshrId -> MshrView, m: MshrId)
    requires EntryOk(y.s.mshr(m)) && MshrsStepped(y.s, inp, y2.s, view)
    requires y.s.mshr(m).phase.VictimWriteComplete? && VictimHeld(y, m)
    requires var e := y.s.mshr(m);
             && NotCached(y2.s, e.newAddr)
             && y2.s.tag(e.newAddr.index, e.evictWay) == y.s.tag(e.newAddr.index, e.evictWay)
             && y2.s.data(e.newAddr.index, e.evictWay) == y.s.data(e.newAddr.index, e.evictWay)
             && if Answered(inp.response, e.memWSerial) then y2.mem(e.victimAddr) == y2.flat(e.victimAddr)
                else WritePending(y2, m, e.victimAddr)
    ensures MissOk(y2, m)
  {
    assert y2.s.mshr(m) == NextMshr(y.s.mshr(m), view(m)) && ViewSource(y.s, inp, view(m), m);
  }

  /** The line, the victim's address and the serial of its write stay while the write is awaited. */
  lemma WriteAwaited(s: DCacheState, inp: Input, s2: DCacheState, view: MshrId -> MshrView, m: MshrId)
    requires MshrsStepped(s, inp, s2, view)
    requires s.mshr(m).phase.VictimWriteComplete? || s.mshr(m).phase.UncachableWriteComplete?
    ensures var e, n := s.mshr(m), s2.mshr(m);
            n.line == e.line && n.memWSerial == e.memWSerial
  {
    assert s2.mshr(m) == NextMshr(s.mshr(m), view(m)) && ViewSource(s, inp, view(m), m);
  }

  /** The victim's write reaches memory, or stays outstanding. */
  lemma VictimWriteEnds(y: Sys, inp: Input, y2: Sys, view: MshrId -> MshrView, m: MshrId)
    requires Inv(y) && EnvOk(y, inp) && SysStepped(y, inp, y2, view)
    requires y.s.mshr(m).phase.VictimWriteComplete?
    requires y2.s.mshr(m).line == y.s.mshr(m).line && y2.s.mshr(m).memWSerial == y.s.mshr(m).memWSerial
    ensures var e := y.s.mshr(m);
            if Answered(inp.response, e.memWSerial) then y2.mem(e.victimAddr) == y2.flat(e.victimAddr)
            else WritePending(y2, m, e.victimAddr)
  {
    var e := y.s.mshr(m);
    VictimLineKept(y, m);
    assert EntryOk(e) && MissOk(y, m);
    MemAtMiss(y, inp, m, e.victimAddr);
    if Answered(inp.response, e.memWSerial) {
      WriteAnswered(y, inp, m, e.victimAddr);
    } else {
      WriteStaysPending(y, inp, y2, view, m, e.victimAddr);
    }
  }

  /** The write of the victim is acknowledged before the new line is requested. */
  lemma VictimWritten(y: Sys, inp: Input, y2: Sys, view: MshrId -> MshrView, m: MshrId)
    requires Inv(y) && EnvOk(y, inp) && SysStepped(y, inp, y2, view)
    requires y.s.mshr(m).phase.VictimWriteComplete?
    ensures MissOk(y2, m)
  {
    VictimWayKept(y, inp, y2, view, m);
    WriteAwaited(y.s, inp, y2.s, view, m);
    VictimWriteEnds(y, inp, y2, view, m);
    AfterVictimWrite(y, inp, y2, view, m);
  }

  /** Nothing happens to the victim while the new line is fetched and merged. */
  lemma VictimStaysSafe(y: Sys, inp: Input, y2: Sys, view: MshrId -> MshrView, m: MshrId)
    requires Inv(y) && SysStepped(y, inp, y2, view) && !Flushing(y.s)
    requires y.s.mshr(m).valid && NotCached(y.s, y.s.mshr(m).newAddr) && VictimSafe(y, m) && !AwaitsWrite(y.s.mshr(m))
    requires !(y.s.mshr(m).phase.MissWriteCacheRequest? && view(m).grant)
    requires var e, e2 := y.s.mshr(m), y2.s.mshr(m);
             e2.newAddr == e.newAddr && e2.evictWay == e.evictWay && e2.isUncachable == e.isUncachable
    ensures VictimSafe(y2, m)
  {
    var e := y.s.mshr(m);
    FrozenTags(y, inp, y2, view, m, e.evictWay);
    var a := WayAddr(y.s, e.newAddr.index, e.evictWay);
    assert !CachedIn(y.s, e.newAddr, e.evictWay);
    FlatAtMiss(y, m, a);
    if !MergesAt(y, m, a) { FlatKept(y, a); }
    MemAtMiss(y, inp, m, a);
  }

  /** The way, the address and the kind of a miss are settled once its victim is dealt with. */
  predicate Fetching(e: Mshr)
  {
    || e.phase.MissReadMemRequest? || e.phase.MissReadMemReceive?
    || e.phase.MissMergeStoreData? || e.phase.MissWriteCacheRequest?
  }

  lemma FetchingEntry(s: DCacheState, inp: Input, s2: DCacheState, view: MshrId -> MshrView, m: MshrId)
    requires MshrsStepped(s, inp, s2, view)
    requires Fetching(s.mshr(m))
    ensures var e, n := s.mshr(m), s2.mshr(m);
            n.newAddr == e.newAddr && n.evictWay == e.evictWay && n.isUncachable == e.isUncachable
  {
    assert s2.mshr(m) == NextMshr(s.mshr(m), view(m)) && ViewSource(s, inp, view(m), m);
  }

  lemma FetchingMiss(y: Sys, m: MshrId)
    requires Inv(y) && Fetching(y.s.mshr(m))
    ensures EntryOk(y.s.mshr(m)) && NotCached(y.s, y.s.mshr(m).newAddr) && VictimSafe(y, m) && !Flushing(y.s)
    ensures y.s.mshr(m).phase.MissReadMemReceive? ==> ReadPending(y, m)
    ensures y.s.mshr(m).phase.MissMergeStoreData? || y.s.mshr(m).phase.MissWriteCacheRequest? ==>
              y.s.mshr(m).line == y.flat(y.s.mshr(m).newAddr)
  {
    assert EntryOk(y.s.mshr(m)) && MissOk(y, m);
  }

  /** While the new line is fetched and merged, nothing happens to the victim. */
  lemma VictimUntouched(y: Sys, inp: Input, y2: Sys, view: MshrId -> MshrView, m: MshrId)
    requires Inv(y) && SysStepped(y, inp, y2, view) && Fetching(y.s.mshr(m))
    requires !(y.s.mshr(m).phase.MissWriteCacheRequest? && view(m).grant)
    ensures EntryOk(y.s.mshr(m)) && VictimSafe(y2, m) && NotCached(y2.s, y.s.mshr(m).newAddr)
  {
    FetchingMiss(y, m);
    FetchingEntry(y.s, inp, y2.s, view, m);
    StillNotCached(y, inp, y2, view, m);
    VictimStaysSafe(y, inp, y2, view, m);
  }

  /** Until the answer is here, neither memory nor the flat memory changes at the missed line. */
  lemma MissLineKept(y: Sys, m: MshrId)
    requires Inv(y) && (y.s.mshr(m).phase.MissReadMemRequest? || y.s.mshr(m).phase.MissReadMemReceive?)
    ensures var a := y.s.mshr(m).newAddr; NextFlatLine(y, a) == y.flat(a) == y.mem(a)
  {
    FetchingMiss(y, m);
    MissLineClean(y, m);
    FlatAtMiss(y, m, y.s.mshr(m).newAddr);
    FlatKept(y, y.s.mshr(m).newAddr);
  }

  lemma AfterReadRequest(y: Sys, inp: Input, y2: Sys, view: MshrId -> MshrView, m: MshrId)
    requires EntryOk(y.s.mshr(m)) && MshrsStepped(y.s, inp, y2.s, view)
    requires y.s.mshr(m).phase.MissReadMemRequest? && NotCached(y2.s, y.s.mshr(m).newAddr) && VictimSafe(y2, m)
    requires view(m).accepted ==> ReadPending(y2, m)
    ensures MissOk(y2, m)
  {
    assert y2.s.mshr(m) == NextMshr(y.s.mshr(m), view(m)) && ViewSource(y.s, inp, view(m), m);
  }

  lemma ReadIssued(y: Sys, inp: Input, y2: Sys, view: MshrId -> MshrView, m: MshrId)
    requires SysStepped(y, inp, y2, view) && view(m).accepted && y.s.mshr(m).phase.MissReadMemRequest?
    ensures ReadPending(y2, m)
  {
    assert y2.s.mshr(m) == NextMshr(y.s.mshr(m), view(m));
  }

  lemma Requesting(y: Sys, inp: Input, y2: Sys, view: MshrId -> MshrView, m: MshrId)
    requires Inv(y) && EnvOk(y, inp) && SysStepped(y, inp, y2, view)
    requires y.s.mshr(m).phase.MissReadMemRequest?
    ensures MissOk(y2, m)
  {
    VictimUntouched(y, inp, y2, view, m);
    if view(m).accepted { ReadIssued(y, inp, y2, view, m); }
    AfterReadRequest(y, inp, y2, view, m);
  }

  /** What memory returns is the flat line. */
  lemma AnswerIsFlat(y: Sys, inp: Input, m: MshrId)
    requires EnvOk(y, inp) && ReadPending(y, m)
    requires inp.result.Some? && inp.result.value.serial == y.s.mshr(m).memSerial
    ensures inp.result.value.data == y.flat(y.s.mshr(m).newAddr)
  {
  }

  lemma LineArrives(y: Sys, inp: Input, y2: Sys, view: MshrId -> MshrView, m: MshrId)
    requires EntryOk(y.s.mshr(m)) && ReadPending(y, m) && EnvOk(y, inp)
    requires MshrsStepped(y.s, inp, y2.s, view)
    requires y.s.mshr(m).phase.MissReadMemReceive? && Received(y.s.mshr(m), view(m))
    requires NotCached(y2.s, y.s.mshr(m).newAddr) && y2.flat(y.s.mshr(m).newAddr) == y.flat(y.s.mshr(m).newAddr)
    requires VictimSafe(y2, m)
    ensures MissOk(y2, m)
  {
    assert y2.s.mshr(m) == NextMshr(y.s.mshr(m), view(m)) && ViewSource(y.s, inp, view(m), m);
    AnswerIsFlat(y, inp, m);
  }

  lemma LineAwaited(y: Sys, inp: Input, y2: Sys, view: MshrId -> MshrView, m: MshrId)
    requires EntryOk(y.s.mshr(m)) && MshrsStepped(y.s, inp, y2.s, view)
    requires y.s.mshr(m).phase.MissReadMemReceive? && !Received(y.s.mshr(m), view(m))
    requires NotCached(y2.s, y.s.mshr(m).newAddr) && VictimSafe(y2, m) && ReadPending(y2, m)
    ensures MissOk(y2, m)
  {
    assert y2.s.mshr(m) == NextMshr(y.s.mshr(m), view(m)) && ViewSource(y.s, inp, view(m), m);
  }

  lemma AwaitingEntry(s: DCacheState, inp: Input, s2: DCacheState, view: MshrId -> MshrView, m: MshrId)
    requires MshrsStepped(s, inp, s2, view)
    requires s.mshr(m).phase.MissReadMemReceive?
    ensures var e, n := s.mshr(m), s2.mshr(m);
            n.memSerial == e.memSerial && n.newAddr == e.newAddr && view(m).result == inp.result
  {
    assert s2.mshr(m) == NextMshr(s.mshr(m), view(m)) && ViewSource(s, inp, view(m), m);
  }

  /** The line is not here yet, and its read stays outstanding. */
  lemma ReadAwaited(y: Sys, inp: Input, y2: Sys, view: MshrId -> MshrView, m: MshrId)
    requires Inv(y) && EnvOk(y, inp) && SysStepped(y, inp, y2, view)
    requires y.s.mshr(m).phase.MissReadMemReceive? && !Received(y.s.mshr(m), view(m))
    ensures ReadPending(y2, m)
  {
    FetchingMiss(y, m);
    MissLineKept(y, m);
    AwaitingEntry(y.s, inp, y2.s, view, m);
    ReadStaysPending(y, inp, y2, view, m);
  }

  /** The line arrives now. */
  lemma LineReceived(y: Sys, inp: Input, y2: Sys, view: MshrId -> MshrView, m: MshrId)
    requires Inv(y) && EnvOk(y, inp) && SysStepped(y, inp, y2, view)
    requires y.s.mshr(m).phase.MissReadMemReceive? && Received(y.s.mshr(m), view(m))
    ensures MissOk(y2, m)
  {
    FetchingMiss(y, m);
    MissLineKept(y, m);
    VictimUntouched(y, inp, y2, view, m);
    LineArrives(y, inp, y2, view, m);
  }

  /** The line is still awaited. */
  lemma LineNotReceived(y: Sys, inp: Input, y2: Sys, view: MshrId -> MshrView, m: MshrId)
    requires Inv(y) && EnvOk(y, inp) && SysStepped(y, inp, y2, view)
    requires y.s.mshr(m).phase.MissReadMemReceive? && !Received(y.s.mshr(m), view(m))
    ensures MissOk(y2, m)
  {
    VictimUntouched(y, inp, y2, view, m);
    ReadAwaited(y, inp, y2, view, m);
    LineAwaited(y, inp, y2, view, m);
  }

  lemma Receiving(y: Sys, inp: Input, y2: Sys, view: MshrId -> MshrView, m: MshrId)
    requires Inv(y) && EnvOk(y, inp) && SysStepped(y, inp, y2, view)
    requires y.s.mshr(m).phase.MissReadMemReceive?
    ensures MissOk(y2, m)
  {
    if Received(y.s.mshr(m), view(m)) {
      LineReceived(y, inp, y2, view, m);
    } else {
      LineNotReceived(y, inp, y2, view, m);
    }
  }

  lemma AfterMerge(y: Sys, inp: Input, y2: Sys, view: MshrId -> MshrView, m: MshrId)
    requires EntryOk(y.s.mshr(m)) && MshrsStepped(y.s, inp, y2.s, view)
    requires y.s.mshr(m).phase.MissMergeStoreData? && NotCached(y2.s, y.s.mshr(m).newAddr) && VictimSafe(y2, m)
    requires y2.flat(y.s.mshr(m).newAddr) == Merge(y.s.mshr(m).line, inp.storeData, inp.storeMask)
    ensures MissOk(y2, m)
  {
    assert y2.s.mshr(m) == NextMshr(y.s.mshr(m), view(m)) && ViewSource(y.s, inp, view(m), m);
  }

  /** The store that the committer holds is the one that the flat memory takes. */
  lemma MergedLine(y: Sys, inp: Input, m: MshrId)
    requires Inv(y) && EnvOk(y, inp) && y.s.mshr(m).phase.MissMergeStoreData?
    ensures NextFlatLine(y, y.s.mshr(m).newAddr) == Merge(y.s.mshr(m).line, inp.storeData, inp.storeMask)
  {
    FetchingMiss(y, m);
    assert MergesAt(y, m, y.s.mshr(m).newAddr);
    FlatAtMiss(y, m, y.s.mshr(m).newAddr);
  }

  lemma Merging(y: Sys, inp: Input, y2: Sys, view: MshrId -> MshrView, m: MshrId)
    requires Inv(y) && EnvOk(y, inp) && SysStepped(y, inp, y2, view)
    requires y.s.mshr(m).phase.MissMergeStoreData?
    ensures MissOk(y2, m)
  {
    VictimUntouched(y, inp, y2, view, m);
    MergedLine(y, inp, m);
    AfterMerge(y, inp, y2, view, m);
  }

  predicate Uncached(e: Mshr) { e.phase.UncachableWriteToMem? || e.phase.UncachableWriteComplete? }

  /** While an uncachable store is written, the line is in no way and keeps its contents. */
  lemma UncachedLineKept(y: Sys, inp: Input, y2: Sys, view: MshrId -> MshrView, m: MshrId)
    requires Inv(y) && SysStepped(y, inp, y2, view) && Uncached(y.s.mshr(m))
    ensures var e := y.s.mshr(m);
            EntryOk(e) && NotCached(y2.s, e.newAddr) && y2.flat(e.newAddr) == y.flat(e.newAddr) == e.line
  {
    var e := y.s.mshr(m);
    assert EntryOk(e) && MissOk(y, m);
    StillNotCached(y, inp, y2, view, m);
    FlatAtMiss(y, m, e.newAddr);
    FlatKept(y, e.newAddr);
  }

  lemma AfterUncached(y: Sys, inp: Input, y2: Sys, view: MshrId -> MshrView, m: MshrId)
    requires EntryOk(y.s.mshr(m)) && MshrsStepped(y.s, inp, y2.s, view) && Uncached(y.s.mshr(m))
    requires var e := y.s.mshr(m);
             && NotCached(y2.s, e.newAddr) && y2.flat(e.newAddr) == e.line
             && (e.phase.UncachableWriteToMem? && view(m).accepted ==> WritePending(y2, m, e.newAddr))
             && (e.phase.UncachableWriteComplete? && !Answered(inp.response, e.memWSerial) ==>
                   WritePending(y2, m, e.newAddr))
    ensures MissOk(y2, m)
  {
    assert y2.s.mshr(m) == NextMshr(y.s.mshr(m), view(m)) && ViewSource(y.s, inp, view(m), m);
  }

  lemma Writing(y: Sys, inp: Input, y2: Sys, view: MshrId -> MshrView, m: MshrId)
    requires Inv(y) && EnvOk(y, inp) && SysStepped(y, inp, y2, view)
    requires y.s.mshr(m).phase.UncachableWriteToMem?
    ensures MissOk(y2, m)
  {
    UncachedLineKept(y, inp, y2, view, m);
    WriteRequested(y.s, inp, y2.s, view, m);
    if view(m).accepted { WriteIssued(y, inp, y2, view, m); }
    AfterUncached(y, inp, y2, view, m);
  }

  lemma Written(y: Sys, inp: Input, y2: Sys, view: MshrId -> MshrView, m: MshrId)
    requires Inv(y) && EnvOk(y, inp) && SysStepped(y, inp, y2, view)
    requires y.s.mshr(m).phase.UncachableWriteComplete?
    ensures MissOk(y2, m)
  {
    UncachedLineKept(y, inp, y2, view, m);
    WriteAwaited(y.s, inp, y2.s, view, m);
    if !Answered(inp.response, y.s.mshr(m).memWSerial) { UncachedWriteAwaited(y, inp, y2, view, m); }
    AfterUncached(y, inp, y2, view, m);
  }

  lemma UncachedWriteAwaited(y: Sys, inp: Input, y2: Sys, view: MshrId -> MshrView, m: MshrId)
    requires Inv(y) && EnvOk(y, inp) && SysStepped(y, inp, y2, view)
    requires y.s.mshr(m).phase.UncachableWriteComplete? && !Answered(inp.response, y.s.mshr(m).memWSerial)
    requires y2.s.mshr(m).line == y.s.mshr(m).line && y2.s.mshr(m).memWSerial == y.s.mshr(m).memWSerial
    ensures WritePending(y2, m, y.s.mshr(m).newAddr)
  {
    assert EntryOk(y.s.mshr(m)) && MissOk(y, m);
    MemAtMiss(y, inp, m, y.s.mshr(m).newAddr);
    WriteStaysPending(y, inp, y2, view, m, y.s.mshr(m).newAddr);
  }

  lemma AfterFill(y: Sys, inp: Input, y2: Sys, view: MshrId -> MshrView, m: MshrId)
    requires EntryOk(y.s.mshr(m)) && MshrsStepped(y.s, inp, y2.s, view)
    requires y.s.mshr(m).phase.MissWriteCacheRequest? || y.s.mshr(m).phase.MissHandlingComplete?
    requires y.s.mshr(m).newValid ==> y2.flat(y.s.mshr(m).newAddr) == y.s.mshr(m).line
    requires y.s.mshr(m).phase.MissWriteCacheRequest? && !view(m).grant ==>
               NotCached(y2.s, y.s.mshr(m).newAddr) && VictimSafe(y2, m)
    ensures MissOk(y2, m)
  {
    assert y2.s.mshr(m) == NextMshr(y.s.mshr(m), view(m)) && ViewSource(y.s, inp, view(m), m);
  }

  lemma FilledLineKept(y: Sys, m: MshrId)
    requires Inv(y) && (y.s.mshr(m).phase.MissWriteCacheRequest? || y.s.mshr(m).phase.MissHandlingComplete?)
    ensures var e := y.s.mshr(m); EntryOk(e) && (e.newValid ==> NextFlatLine(y, e.newAddr) == e.line)
  {
    assert EntryOk(y.s.mshr(m)) && MissOk(y, m);
    FlatAtMiss(y, m, y.s.mshr(m).newAddr);
    FlatKept(y, y.s.mshr(m).newAddr);
  }

  lemma Filled(y: Sys, inp: Input, y2: Sys, view: MshrId -> MshrView, m: MshrId)
    requires Inv(y) && EnvOk(y, inp) && SysStepped(y, inp, y2, view)
    requires y.s.mshr(m).phase.MissWriteCacheRequest?
    ensures MissOk(y2, m)
  {
    FilledLineKept(y, m);
    if !view(m).grant { VictimUntouched(y, inp, y2, view, m); }
    AfterFill(y, inp, y2, view, m);
  }

  lemma Completed(y: Sys, inp: Input, y2: Sys, view: MshrId -> MshrView, m: MshrId)
    requires Inv(y) && SysStepped(y, inp, y2, view)
    requires y.s.mshr(m).phase.MissHandlingComplete?
    ensures MissOk(y2, m)
  {
    FilledLineKept(y, m);
    AfterFill(y, inp, y2, view, m);
  }

  lemma StaysWithoutMiss(y: Sys, inp: Input, y2: Sys, view: MshrId -> MshrView, m: MshrId)
    requires MshrsStepped(y.s, inp, y2.s, view)
    requires (y.s.mshr(m).phase.Invalid? || y.s.mshr(m).phase.Flushing()) && !Allocates(y.s.mshr(m), view(m))
    ensures MissOk(y2, m)
  {
    assert y2.s.mshr(m) == NextMshr(y.s.mshr(m), view(m));
  }

  /** An entry that handles no miss may become one. */
  lemma NoMiss(y: Sys, inp: Input, y2: Sys, view: MshrId -> MshrView, m: MshrId)
    requires Inv(y) && EnvOk(y, inp) && SysStepped(y, inp, y2, view)
    requires y.s.mshr(m).phase.Invalid? || y.s.mshr(m).phase.Flushing()
    ensures MissOk(y2, m)
  {
    if Allocates(y.s.mshr(m), view(m)) { AllocatedMiss(y, inp, y2, view, m); }
    else { StaysWithoutMiss(y, inp, y2, view, m); }
  }

  /** A miss that deals with its victim. */
  lemma VictimStep(y: Sys, inp: Input, y2: Sys, view: MshrId -> MshrView, m: MshrId)
    requires Inv(y) && EnvOk(y, inp) && SysStepped(y, inp, y2, view)
    requires HandlesVictim(y.s.mshr(m))
    ensures MissOk(y2, m)
  {
    var e := y.s.mshr(m);
    if e.phase.VictimRequest? { VictimRequested(y, inp, y2, view, m); return; }
    if e.phase.VictimReceiveTag? { VictimTagged(y, inp, y2, view, m); return; }
    if e.phase.VictimReceiveData? { VictimChosen(y, inp, y2, view, m); return; }
    if e.phase.VictimWriteToMem? { VictimWriting(y, inp, y2, view, m); return; }
    VictimWritten(y, inp, y2, view, m);
  }

  predicate HandlesVictim(e: Mshr)
  {
    || e.phase.VictimRequest? || e.phase.VictimReceiveTag? || e.phase.VictimReceiveData?
    || e.phase.VictimWriteToMem? || e.phase.VictimWriteComplete?
  }

  /** A miss that fetches its line. */
  lemma FetchStep(y: Sys, inp: Input, y2: Sys, view: MshrId -> MshrView, m: MshrId)
    requires Inv(y) && EnvOk(y, inp) && SysStepped(y, inp, y2, view) && Fetching(y.s.mshr(m))
    ensures MissOk(y2, m)
  {
    var e := y.s.mshr(m);
    if e.phase.MissReadMemRequest? { Requesting(y, inp, y2, view, m); return; }
    if e.phase.MissReadMemReceive? { Receiving(y, inp, y2, view, m); return; }
    if e.phase.MissMergeStoreData? { Merging(y, inp, y2, view, m); return; }
    Filled(y, inp, y2, view, m);
  }

  lemma MissStep(y: Sys, inp: Input, y2: Sys, view: MshrId -> MshrView, m: MshrId)
    requires Inv(y) && EnvOk(y, inp) && SysStepped(y, inp, y2, view)
    ensures MissOk(y2, m)
  {
    var e := y.s.mshr(m);
    if HandlesVictim(e) { VictimStep(y, inp, y2, view, m); return; }
    if Fetching(e) { FetchStep(y, inp, y2, view, m); return; }
    if e.phase.UncachableWriteToMem? { Writing(y, inp, y2, view, m); return; }
    if e.phase.UncachableWriteComplete? { Written(y, inp, y2, view, m); return; }
    if e.phase.MissHandlingComplete? { Completed(y, inp, y2, view, m); return; }
    NoMiss(y, inp, y2, view, m);
  }
}
