/** The flush sweep of the one-way cache, and the bookkeeping of outstanding transactions. */
module DCacheFlush {
  import opened Common
  import opened CacheTypes
  import opened DCacheModel
  import opened DCacheSystem
  import opened DCacheInvariant
  import opened DCacheCycle
  import opened DCacheHardware
  import opened DCacheCoherence
  import opened DCachePreserve
  import opened DCacheMiss

  // ------------------------------------------------------------------ the sweep

  /** In a flush only the sweep itself rewrites tags, and it invalidates them. */
  lemma SweepTags(y: Sys, inp: Input, y2: Sys, view: MshrId -> MshrView, i: Index, w: Way)
    requires HwOk(y.s) && Stepped(y.s, inp, y2.s, view) && Flushing(y.s)
    ensures y2.s.tag(i, w).valid ==> y2.s.tag(i, w) == y.s.tag(i, w)
    ensures !(y.s.mshr(0).phase.FlushVictimRequest? && view(0).grant) ==> y2.s.tag(i, w) == y.s.tag(i, w)
  {
    if y2.s.port(0).req.tagWE { var n := NewFill(y.s, inp, y2.s, view, 0); assert n == 0; }
    if y2.s.port(1).req.tagWE { var n := NewFill(y.s, inp, y2.s, view, 1); assert n == 0; }
  }

  lemma FlushedBelowStep(y: Sys, inp: Input, y2: Sys, view: MshrId -> MshrView, n: nat)
    requires HwOk(y.s) && Stepped(y.s, inp, y2.s, view) && Flushing(y.s) && FlushedBelow(y.s, n)
    ensures FlushedBelow(y2.s, n)
  {
    forall i: Index, w: Way | i < n ensures !y2.s.tag(i, w).valid
    {
      SweepTags(y, inp, y2, view, i, w);
    }
  }

  /** The granted request invalidates its index. */
  lemma FlushInvalidates(y: Sys, inp: Input, y2: Sys, view: MshrId -> MshrView)
    requires HwOk(y.s) && HwOk(y2.s) && Stepped(y.s, inp, y2.s, view) && Flushing(y.s)
    requires y.s.mshr(0).phase.FlushVictimRequest? && view(0).grant && FlushedBelow(y.s, y.s.mshr(0).flushIndex)
    ensures FlushedBelow(y2.s, y.s.mshr(0).flushIndex + 1)
    ensures TagPort(y2.s, 0).tagOut(0) == y.s.tag(y.s.mshr(0).flushIndex, 0)
  {
    var fi := y.s.mshr(0).flushIndex;
    var p := y2.s.outTag(MshrReqId(0));
    FlushedBelowStep(y, inp, y2, view, fi);
    assert OwnsPort(y2.s, MshrReqId(0));
    assert PortSource(y.s, inp, y2.s, view, p) && PortReads(y.s, y2.s, p) && TagWritten(y2.s, p);
    forall w: Way ensures !y2.s.tag(fi, w).valid
    {
      assert w == y.s.mshr(0).evictWay;
    }
  }

  /** No fill is pending while the sweep waits for its next grant. */
  lemma SweepIdle(y: Sys, i: Index, w: Way)
    requires HwOk(y.s) && Flushing(y.s) && !y.s.mshr(0).phase.FlushVictimReceiveTag?
    ensures EffData(y.s, i, w) == y.s.data(i, w) && EffDirty(y.s, i, w) == y.s.dirty(i, w)
  {
    if y.s.port(0).req.tagWE { var n := FillOwner(y.s, 0); }
    if y.s.port(1).req.tagWE { var n := FillOwner(y.s, 1); }
  }

  lemma TakeTag(y: Sys, inp: Input, y2: Sys, view: MshrId -> MshrView)
    requires Inv(y) && HwOk(y2.s) && SysStepped(y, inp, y2, view) && Flushing(y.s)
    requires y.s.mshr(0).phase.FlushVictimRequest?
    ensures FlushOk(y2)
  {
    var fi := y.s.mshr(0).flushIndex;
    assert y2.s.mshr(0) == NextMshr(y.s.mshr(0), view(0));
    if view(0).grant {
      FlushInvalidates(y, inp, y2, view);
      SweepIdle(y, fi, 0);
      DataStep(y.s, y2.s, fi, 0);
      assert WayOk(y, fi, 0);
      var a := WayAddr(y.s, fi, 0);
      FlatInFlush(y, a);
      if y.s.tag(fi, 0).valid { assert CachedIn(y.s, a, 0); MemAtCached(y, inp, a, 0); }
    } else {
      FlushedBelowStep(y, inp, y2, view, fi);
    }
  }

  /** The data port will deliver what the swept way held before the sweep overwrote it. */
  lemma SweptData(y: Sys, inp: Input, y2: Sys, view: MshrId -> MshrView)
    requires HwOk(y.s) && Stepped(y.s, inp, y2.s, view) && Flushing(y.s)
    requires y.s.mshr(0).phase.FlushVictimReceiveTag?
    ensures var fi := y.s.mshr(0).flushIndex;
            DataOut(DataPort(y2.s, 0)) == y.s.data(fi, 0) && DirtyOut(DataPort(y2.s, 0)) == y.s.dirty(fi, 0)
  {
    var p := y.s.outTag(MshrReqId(0));
    assert OwnsPort(y.s, MshrReqId(0));
    assert PortOk(y.s, p) && PortReads(y.s, y2.s, p);
    assert DataWay(y2.s.port(p)) == 0;
  }

  lemma TakeData(y: Sys, inp: Input, y2: Sys, view: MshrId -> MshrView)
    requires Inv(y) && SysStepped(y, inp, y2, view) && Flushing(y.s)
    requires y.s.mshr(0).phase.FlushVictimReceiveTag?
    ensures FlushOk(y2)
  {
    var e := y.s.mshr(0);
    assert y2.s.mshr(0) == NextMshr(e, view(0)) && ViewSource(y.s, inp, view(0), 0);
    FlushedBelowStep(y, inp, y2, view, e.flushIndex + 1);
    var a := LineAddr(e.flushIndex, TagPort(y.s, 0).tagOut(0).tag);
    FlatInFlush(y, a);
    MemInFlush(y, inp, a);
    SweptData(y, inp, y2, view);
    if AnyValid(view(0).tagOut) { assert TagPort(y.s, 0).tagOut(0).valid; }
  }

  predicate WritesBack(e: Mshr)
  {
    e.phase.FlushVictimReceiveData? || e.phase.FlushVictimWriteToMem? || e.phase.FlushVictimWriteComplete?
  }

  /** What the sweep holds after a step of its write-back. */
  lemma AfterWriteBack(y: Sys, inp: Input, y2: Sys, view: MshrId -> MshrView)
    requires EntryOk(y.s.mshr(0)) && FlushOk(y) && MshrsStepped(y.s, inp, y2.s, view) && WritesBack(y.s.mshr(0))
    requires FlushedBelow(y2.s, y.s.mshr(0).flushIndex + 1)
    requires var e := y.s.mshr(0);
             && y2.flat(e.victimAddr) == y.flat(e.victimAddr)
             && (e.phase.FlushVictimWriteToMem? && view(0).accepted ==> WritePending(y2, 0, e.victimAddr))
             && (e.phase.FlushVictimWriteComplete? && !Answered(inp.response, e.memWSerial) ==>
                   WritePending(y2, 0, e.victimAddr))
    ensures FlushOk(y2)
  {
    assert y2.s.mshr(0) == NextMshr(y.s.mshr(0), view(0)) && ViewSource(y.s, inp, view(0), 0);
  }

  lemma SweepKeepsLine(s: DCacheState, inp: Input, s2: DCacheState, view: MshrId -> MshrView)
    requires MshrsStepped(s, inp, s2, view)
    ensures var e, n := s.mshr(0), s2.mshr(0);
            && (e.phase.FlushVictimWriteToMem? || e.phase.FlushVictimWriteComplete? ==> n.line == e.line)
            && (e.phase.FlushVictimWriteToMem? && view(0).accepted ==> n.memWSerial == view(0).memWSerial)
            && (e.phase.FlushVictimWriteComplete? ==> n.memWSerial == e.memWSerial)
  {
    assert s2.mshr(0) == NextMshr(s.mshr(0), view(0));
  }

  /** The write of the sweep is issued, or stays outstanding. */
  lemma SweepWrites(y: Sys, inp: Input, y2: Sys, view: MshrId -> MshrView)
    requires Inv(y) && EnvOk(y, inp) && SysStepped(y, inp, y2, view) && Flushing(y.s)
    ensures y.s.mshr(0).phase.FlushVictimWriteToMem? && view(0).accepted ==> WritePending(y2, 0, y.s.mshr(0).victimAddr)
    ensures y.s.mshr(0).phase.FlushVictimWriteComplete? && !Answered(inp.response, y.s.mshr(0).memWSerial) ==>
              WritePending(y2, 0, y.s.mshr(0).victimAddr)
  {
    var e := y.s.mshr(0);
    SweepKeepsLine(y.s, inp, y2.s, view);
    if e.phase.FlushVictimWriteToMem? && view(0).accepted { WriteIssued(y, inp, y2, view, 0); }
    if e.phase.FlushVictimWriteComplete? && !Answered(inp.response, e.memWSerial) {
      MemInFlush(y, inp, e.victimAddr);
      WriteStaysPending(y, inp, y2, view, 0, e.victimAddr);
    }
  }

  lemma WriteBack(y: Sys, inp: Input, y2: Sys, view: MshrId -> MshrView)
    requires Inv(y) && EnvOk(y, inp) && SysStepped(y, inp, y2, view) && Flushing(y.s) && WritesBack(y.s.mshr(0))
    ensures FlushOk(y2)
  {
    var e := y.s.mshr(0);
    assert EntryOk(e);
    FlushedBelowStep(y, inp, y2, view, e.flushIndex + 1);
    FlatInFlush(y, e.victimAddr);
    SweepWrites(y, inp, y2, view);
    AfterWriteBack(y, inp, y2, view);
  }

  /** An entry that is no sweep can only start one, at the first index. */
  lemma SweepStartsAtZero(e: Mshr, v: MshrView)
    requires !e.phase.Flushing()
    ensures var n := NextMshr(e, v); !n.phase.Flushing() || (n.phase.FlushVictimRequest? && n.flushIndex == 0)
  {
  }

  lemma SweepGoesOn(e: Mshr, v: MshrView)
    requires e.phase.FlushCheck?
    ensures var n := NextMshr(e, v);
            n.phase.Invalid? || (n.phase.FlushVictimRequest? && n.flushIndex == e.flushIndex + 1)
  {
  }

  /** An entry that takes nothing back starts a sweep, goes on to the next index or is no sweep at all. */
  lemma SweepMovesOn(y: Sys, y2: Sys)
    requires var e, n := y.s.mshr(0), y2.s.mshr(0);
             || !n.phase.Flushing()
             || (n.phase.FlushVictimRequest? && n.flushIndex == 0)
             || (n.phase.FlushVictimRequest? && n.flushIndex == e.flushIndex + 1
                 && FlushedBelow(y2.s, e.flushIndex + 1))
    ensures FlushOk(y2)
  {
  }

  lemma SweepUnderWay(y: Sys, inp: Input, y2: Sys, view: MshrId -> MshrView)
    requires Inv(y) && SysStepped(y, inp, y2, view) && !WritesBack(y.s.mshr(0))
    requires !y.s.mshr(0).phase.FlushVictimRequest? && !y.s.mshr(0).phase.FlushVictimReceiveTag?
    ensures FlushOk(y2)
  {
    var e := y.s.mshr(0);
    assert y2.s.mshr(0) == NextMshr(e, view(0));
    if e.phase.FlushCheck? {
      FlushedBelowStep(y, inp, y2, view, e.flushIndex + 1);
      SweepGoesOn(e, view(0));
    } else {
      SweepStartsAtZero(e, view(0));
    }
    SweepMovesOn(y, y2);
  }

  lemma FlushStep(y: Sys, inp: Input, y2: Sys, view: MshrId -> MshrView)
    requires Inv(y) && EnvOk(y, inp) && HwOk(y2.s) && SysStepped(y, inp, y2, view)
    ensures FlushOk(y2)
  {
    var e := y.s.mshr(0);
    if e.phase.FlushVictimRequest? { TakeTag(y, inp, y2, view); return; }
    if e.phase.FlushVictimReceiveTag? { TakeData(y, inp, y2, view); return; }
    if WritesBack(e) { WriteBack(y, inp, y2, view); return; }
    SweepUnderWay(y, inp, y2, view);
  }

  // ------------------------------------------------------------------ outstanding transactions

  lemma WriterWaits(e: Mshr, v: MshrView)
    requires MemReq(e) && MemWE(e) && v.accepted
    ensures AwaitsWrite(NextMshr(e, v)) && NextMshr(e, v).memWSerial == v.memWSerial
  {
  }

  lemma WaitsOn(e: Mshr, v: MshrView)
    requires EntryOk(e) && AwaitsWrite(e) && !Answered(v.response, e.memWSerial)
    ensures AwaitsWrite(NextMshr(e, v)) && NextMshr(e, v).memWSerial == e.memWSerial
  {
  }

  lemma WriteOwner(y: Sys, inp: Input, y2: Sys, view: MshrId -> MshrView, k: Serial)
    requires OwnersOk(y) && (forall m: MshrId :: EntryOk(y.s.mshr(m)))
    requires MshrsStepped(y.s, inp, y2.s, view) && y2.pendingWrites == NextWrites(y, inp) && k in y2.pendingWrites
    ensures var m := y2.pendingWrites[k].owner; AwaitsWrite(y2.s.mshr(m)) && y2.s.mshr(m).memWSerial == k
  {
    var m := y2.pendingWrites[k].owner;
    assert EntryOk(y.s.mshr(m));
    assert y2.s.mshr(m) == NextMshr(y.s.mshr(m), view(m)) && ViewSource(y.s, inp, view(m), m);
    if WriteAccepted(y, inp) && k == inp.memWSerial { WriterWaits(y.s.mshr(m), view(m)); }
    else { WaitsOn(y.s.mshr(m), view(m)); }
  }

  lemma ReaderAsked(e: Mshr, v: MshrView)
    requires MemReq(e) && !MemWE(e) && v.accepted
    ensures NextMshr(e, v).phase.MissReadMemReceive? && NextMshr(e, v).memSerial == v.memSerial
  {
  }

  lemma ReaderWaits(e: Mshr, v: MshrView)
    requires e.phase.MissReadMemReceive? && !Received(e, v)
    ensures NextMshr(e, v).phase.MissReadMemReceive? && NextMshr(e, v).memSerial == e.memSerial
  {
  }

  /** An outstanding read is the one accepted now, or one that was outstanding and not answered. */
  lemma ReadOrigin(y: Sys, inp: Input, k: Serial)
    requires k in NextReads(y, inp)
    ensures if ReadAccepted(y, inp) && k == inp.memSerial then NextReads(y, inp)[k].owner == MemSel(y.s)
            else k in y.pendingReads && NextReads(y, inp)[k].owner == y.pendingReads[k].owner
                 && !(inp.result.Some? && inp.result.value.serial == k)
  {
  }

  lemma ReadOwner(y: Sys, inp: Input, y2: Sys, view: MshrId -> MshrView, k: Serial)
    requires OwnersOk(y)
    requires MshrsStepped(y.s, inp, y2.s, view) && y2.pendingReads == NextReads(y, inp) && k in y2.pendingReads
    ensures var m := y2.pendingReads[k].owner; y2.s.mshr(m).phase.MissReadMemReceive? && y2.s.mshr(m).memSerial == k
  {
    ReadOrigin(y, inp, k);
    var m := y2.pendingReads[k].owner;
    assert y2.s.mshr(m) == NextMshr(y.s.mshr(m), view(m)) && ViewSource(y.s, inp, view(m), m);
    if ReadAccepted(y, inp) && k == inp.memSerial { ReaderAsked(y.s.mshr(m), view(m)); }
    else { ReaderWaits(y.s.mshr(m), view(m)); }
  }

  lemma OwnersStep(y: Sys, inp: Input, y2: Sys, view: MshrId -> MshrView)
    requires Inv(y) && EnvOk(y, inp) && SysStepped(y, inp, y2, view)
    ensures OwnersOk(y2)
  {
    forall k | k in y2.pendingWrites
      ensures AwaitsWrite(y2.s.mshr(y2.pendingWrites[k].owner)) && y2.s.mshr(y2.pendingWrites[k].owner).memWSerial == k
    {
      WriteOwner(y, inp, y2, view, k);
    }
    forall k | k in y2.pendingReads
      ensures y2.s.mshr(y2.pendingReads[k].owner).phase.MissReadMemReceive?
              && y2.s.mshr(y2.pendingReads[k].owner).memSerial == k
    {
      ReadOwner(y, inp, y2, view, k);
    }
  }
}
