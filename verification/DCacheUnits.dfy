/**
 The combinational loops of DCache.sv and its controller, in the form they are written in; each is proved equal to
 the functions of DCacheModel. Every method receives s, the values of all registers before the clock edge.
 */
module DCacheUnits {
  import opened Common
  import opened CacheTypes
  import opened DCacheModel

  method MergeStoreDataToLine(dst: array<bv8>, fetched: Line, stored: Line, storedDirty: Mask)
    requires dst.Length == LINE_BYTE_NUM
    modifies dst
    ensures dst[..] == Merge(fetched, stored, storedDirty)
  {
    for i := 0 to LINE_BYTE_NUM
      invariant forall k :: 0 <= k < i ==> dst[k] == if storedDirty[k] then stored[k] else fetched[k]
    {
      dst[i] := if storedDirty[i] then stored[i] else fetched[i];
    }
  }

  /** What the search of the miss registers finds for an address. */
  datatype MshrLookup = MshrLookup(conflict: bool, addrHit: bool, hitId: MshrId, readHit: bool, readData: Line)

  method LookUpMshrs(s: DCacheState, a: LineAddr) returns (r: MshrLookup)
    ensures r.conflict == MshrConflict(s, a.index)
    ensures r.addrHit == MshrAddrHit(s, a) && r.hitId == MshrHitId(s, a)
    ensures r.readHit == MshrReadHit(s, a) && r.readData == MshrReadData(s, a)
  {
    var conflict, addrHit, readHit := false, false, false;
    var hitId: MshrId := 0;
    var readData: Line := ZeroLine();
    for m := 0 to MSHR_NUM
      invariant conflict == AnyIndex(BusyAt(s, a.index), m)
      invariant addrHit == AnyIndex(MshrHolds(s, a), m)
      invariant hitId == LastIndex(MshrHolds(s, a), m)
      invariant readHit == AnyIndex(MshrHoldsFetched(s, a), m)
      invariant readData == if addrHit then s.mshr(hitId).line else ZeroLine()
    {
      var e := s.mshr(m);
      if e.valid && a.index == e.newAddr.index {
        conflict := true;
        if a.tag == e.newAddr.tag {
          if e.phase.HoldsFetchedLine() { readHit := true; }
          addrHit := true;
          hitId := m;
          readData := e.line;
        }
      }
    }
    r := MshrLookup(conflict, addrHit, hitId, readHit, readData);
  }

  method DetectHit(s: DCacheState, p: PortId) returns (isHit: bool, hitWay: Way)
    ensures isHit == RepHit(s, p) && hitWay == RepWay(s, p)
  {
    var lookup := LookUpMshrs(s, s.port(p).req.addr);
    isHit, hitWay := false, 0;
    for w := 0 to WAY_NUM
      invariant isHit == AnyIndex(TagMatch(s, p), w) && hitWay == LastIndex(TagMatch(s, p), w)
    {
      var t := s.port(p).tagOut(w);
      if t.tag == s.port(p).req.addr.tag && t.valid && !lookup.conflict {
        hitWay := w;
        isHit := true;
      }
    }
  }

  /** Free entries are handed to the load's miss first, then to the store's. */
  method AllocateMisses(s: DCacheState) returns (init: seq<Option<Allocation>>)
    ensures |init| == MSHR_NUM && forall m: MshrId :: init[m] == InitMshr(s, m)
  {
    var missReq := [LoadMiss(s), StoreMiss(s)];
    var missAddr := [s.load.addr, s.store.addr];
    var requests := [Allocation(s.load.addr, s.load.listPtr, false, s.load.uncachable),
                     Allocation(s.store.addr, 0, true, s.store.uncachable)];
    init := seq(MSHR_NUM, _ => None);
    for i := 0 to 2
      invariant |init| == MSHR_NUM
      invariant forall m: MshrId ::
                  init[m] == if i == 2 && m == StoreSlot(s) then Some(requests[1])
                             else if i >= 1 && m == LoadSlot(s) then Some(requests[0]) else None
    {
      if missReq[i] && !(i == 1 && missReq[0] && missAddr[0].index == missAddr[1].index) {
        var m := 0;
        while m < MSHR_NUM && (s.mshr(m).valid || init[m].Some?)
          invariant m <= MSHR_NUM
          invariant forall n: MshrId :: n < m ==> s.mshr(n).valid || init[n].Some?
        {
          m := m + 1;
        }
        if i == 0 { FirstIndexIs(FreeMshr(s), MSHR_NUM, m); }
        else { FirstIndexIs(FreeMshrBut(s, LoadSlot(s)), MSHR_NUM, m); }
        if m < MSHR_NUM { init := init[m := Some(requests[i])]; }
      }
    }
  }

  class DCacheController {
    var regPhase: DCachePhase

    ghost predicate Holds(s: DCacheState)
      reads this
    {
      regPhase == s.phase
    }

    method Clock(s: DCacheState, inp: Input) returns (flushReqAck: bool, flushComplete: bool)
      requires Holds(s)
      modifies this
      ensures Holds(Next(s, inp))
      ensures flushReqAck == FlushAck(s) && flushComplete == (s.phase == FlushComplete)
    {
      flushReqAck, flushComplete := false, false;
      match regPhase {
        case Normal =>
          var mshrBusy := false;
          for i := 0 to MSHR_NUM
            invariant mshrBusy == AnyIndex(Occupied(s), i)
            invariant regPhase == s.phase
          {
            if s.mshr(i).phase != Invalid { mshrBusy := true; }
          }
          flushReqAck := !mshrBusy;
          if inp.flushReq && flushReqAck { regPhase := FlushProcessing; }
        case FlushProcessing =>
          if LastIndexDone(s.mshr(0)) { regPhase := FlushComplete; }
        case FlushComplete =>
          flushComplete := true;
          if inp.flushDone { regPhase := Normal; }
      }
    }
  }
}
