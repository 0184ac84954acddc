/** What holds of the data cache, its memory and the flat memory in every reachable state. */
module DCacheInvariant {
  import opened Common
  import opened CacheTypes
  import opened PortArbiter
  import opened DCacheModel
  import opened DCacheSystem

  // ------------------------------------------------------------------ one miss register by itself

  ghost predicate EntryOk(e: Mshr)
  {
    && (e.valid <==> e.phase != Invalid)
    && (e.valid && e.isAllocatedByStore ==> !e.isAllocatorLoadFlushed && !e.phase.Flushing())
    && (e.valid && e.isAllocatorLoadFlushed ==> e.canBeInvalid)
    && match e.phase
       case VictimRequest | VictimReceiveTag | VictimReceiveData => !e.isUncachable && !e.newValid
       case VictimWriteToMem | VictimWriteComplete =>
         !e.isUncachable && !e.newValid && e.victimValid && e.victimDirty
       case MissReadMemRequest | MissReadMemReceive => !e.newValid
       case MissMergeStoreData => e.newValid && e.isAllocatedByStore
       case UncachableWriteToMem | UncachableWriteComplete => e.newValid && e.isAllocatedByStore && e.isUncachable
       case MissWriteCacheRequest => e.newValid && !e.isUncachable
       case MissHandlingComplete =>
         e.newValid || (e.isAllocatorLoadFlushed && e.canBeInvalid && !e.isAllocatedByStore)
       case FlushVictimReceiveData => e.victimValid
       case FlushVictimWriteToMem | FlushVictimWriteComplete => e.victimValid && e.victimDirty
       case _ => true
  }

  // ------------------------------------------------------------------ the array ports

  predicate NoWrite(q: Request) { !q.tagWE && !q.dataWE && !q.dataWEOnTagHit }

  ghost predicate IsFill(e: Mshr, q: Request)
  {
    q == Request(e.newAddr, true, true, e.line, AllBytes(), true, false, e.isAllocatedByStore, e.evictWay, false)
  }

  ghost predicate IsFlushRead(e: Mshr, q: Request)
  {
    && q.tagWE && !q.tagValidIn && q.dataWE && !q.dataWEOnTagHit && !q.isVictimEviction
    && q.evictWay == e.evictWay && q.addr.index == e.flushIndex && q.dataMask == AllBytes()
  }

  ghost predicate MshrPortOk(e: Mshr, q: Request)
  {
    || (e.phase.VictimReceiveTag? && NoWrite(q) && q.isVictimEviction && q.addr == e.newAddr)
    || (e.phase.MissHandlingComplete? && e.newValid && !e.isUncachable && IsFill(e, q))
    || (e.phase.FlushVictimReceiveTag? && IsFlushRead(e, q))
  }

  /** The request in the TAG stage of port p and whoever sent it agree. */
  ghost predicate PortOk(s: DCacheState, p: PortId)
  {
    var t := s.port(p);
    if !t.granted then t.owner == LOAD && NoWrite(t.req)
    else
      && s.outTag(t.owner) == p
      && if t.owner == LOAD then s.loadGranted && NoWrite(t.req) && !t.req.isVictimEviction && t.req.addr == s.load.addr
         else if t.owner == STORE then
           && s.storeGranted && !t.req.tagWE && !t.req.dataWE && t.req.dataWEOnTagHit && t.req.dirtyIn
           && !t.req.isVictimEviction && t.req.addr == s.store.addr
         else MshrPortOk(s.mshr(t.owner - 2), t.req)
  }

  ghost predicate OwnsPort(s: DCacheState, r: ReqId)
  {
    s.port(s.outTag(r)).granted && s.port(s.outTag(r)).owner == r
  }

  /** Whoever was granted a port finds its request there. */
  ghost predicate GrantsOk(s: DCacheState)
  {
    && (s.loadGranted ==> OwnsPort(s, LOAD))
    && (s.storeGranted ==> OwnsPort(s, STORE))
    && (forall m: MshrId :: s.mshr(m).phase.VictimReceiveTag? || s.mshr(m).phase.FlushVictimReceiveTag? ==>
          OwnsPort(s, MshrReqId(m)))
  }

  /** The tags of this index are being rewritten by a fill or a flush in its TAG stage. */
  predicate TagRewritten(s: DCacheState, i: Index)
  {
    || (s.port(0).req.tagWE && s.port(0).req.addr.index == i)
    || (s.port(1).req.tagWE && s.port(1).req.addr.index == i)
  }

  /** The tag read registers show the current tags unless those were just rewritten. */
  ghost predicate TagFresh(s: DCacheState, p: PortId)
  {
    !TagRewritten(s, s.port(p).req.addr.index) && s.port(p).granted ==>
      forall w: Way :: s.port(p).tagOut(w) == s.tag(s.port(p).req.addr.index, w)
  }

  ghost predicate TagWritten(s: DCacheState, p: PortId)
  {
    s.port(p).req.tagWE ==>
      s.tag(s.port(p).req.addr.index, s.port(p).req.evictWay) ==
        TagEntry(s.port(p).req.tagValidIn, s.port(p).req.addr.tag)
  }

  /** No two valid miss registers hold the same index. */
  ghost predicate DistinctIndices(s: DCacheState)
  {
    forall m: MshrId, n: MshrId :: m != n && s.mshr(m).valid && s.mshr(n).valid ==>
      s.mshr(m).newAddr.index != s.mshr(n).newAddr.index
  }

  ghost predicate ModeOk(s: DCacheState)
  {
    if s.phase == FlushProcessing then
      && WAY_NUM == 1 && !s.loadGranted && !s.storeGranted
      && (forall m: MshrId :: m != 0 ==> s.mshr(m).phase == Invalid)
      && (s.mshr(0).phase == Invalid || s.mshr(0).phase.Flushing())
    else forall m: MshrId :: !s.mshr(m).phase.Flushing()
  }

  /** Everything about the hardware alone. */
  ghost predicate HwOk(s: DCacheState)
  {
    && (forall m: MshrId {:trigger EntryOk(s.mshr(m))} :: EntryOk(s.mshr(m)))
    && DistinctIndices(s)
    && ModeOk(s)
    && (forall p: PortId :: PortOk(s, p) && TagFresh(s, p) && TagWritten(s, p))
    && GrantsOk(s)
  }

  // ------------------------------------------------------------------ contents

  /** A fill or a flush in the TAG stage of port p is about to write this way. */
  predicate Filling(s: DCacheState, p: PortId, i: Index, w: Way)
  {
    s.port(p).req.tagWE && s.port(p).req.addr.index == i && s.port(p).req.evictWay == w
  }

  /** The contents of a way once the fills in flight are written. */
  function EffData(s: DCacheState, i: Index, w: Way): Line
  {
    if Filling(s, 1, i, w) then s.port(1).req.dataIn
    else if Filling(s, 0, i, w) then s.port(0).req.dataIn else s.data(i, w)
  }

  function EffDirty(s: DCacheState, i: Index, w: Way): bool
  {
    if Filling(s, 1, i, w) then s.port(1).req.dirtyIn
    else if Filling(s, 0, i, w) then s.port(0).req.dirtyIn else s.dirty(i, w)
  }

  predicate CachedIn(s: DCacheState, a: LineAddr, w: Way)
  {
    s.tag(a.index, w).valid && s.tag(a.index, w).tag == a.tag
  }

  ghost predicate NotCached(s: DCacheState, a: LineAddr) { forall w: Way :: !CachedIn(s, a, w) }

  function WayAddr(s: DCacheState, i: Index, w: Way): LineAddr { LineAddr(i, s.tag(i, w).tag) }

  /** A miss register still owes this line to memory: its store is merged but not yet written. */
  ghost predicate StoreOwes(s: DCacheState, m: MshrId, a: LineAddr)
  {
    var e := s.mshr(m);
    && e.newAddr == a && e.isAllocatedByStore
    && (e.phase.UncachableWriteToMem? || e.phase.UncachableWriteComplete? || e.phase.MissWriteCacheRequest?)
  }

  /** The flush has taken this line out of the cache and not yet written it. */
  ghost predicate FlushOwes(s: DCacheState, a: LineAddr)
  {
    var e := s.mshr(0);
    || (e.phase.FlushVictimReceiveTag? && a.index == e.flushIndex && TagPort(s, 0).tagOut(0) == TagEntry(true, a.tag))
    || ((e.phase.FlushVictimReceiveData? || e.phase.FlushVictimWriteToMem? || e.phase.FlushVictimWriteComplete?)
        && e.victimAddr == a)
  }

  ghost predicate Owed(s: DCacheState, a: LineAddr)
  {
    (exists m: MshrId :: StoreOwes(s, m, a)) || FlushOwes(s, a)
  }

  // ------------------------------------------------------------------ coherence

  ghost predicate WayOk(y: Sys, i: Index, w: Way)
  {
    y.s.tag(i, w).valid ==>
      && EffData(y.s, i, w) == y.flat(WayAddr(y.s, i, w))
      && (EffDirty(y.s, i, w) || y.mem(WayAddr(y.s, i, w)) == y.flat(WayAddr(y.s, i, w)))
  }

  /** No set holds two valid ways with the same tag. */
  ghost predicate DistinctTags(s: DCacheState, i: Index)
  {
    forall w: Way, x: Way :: w != x && s.tag(i, w).valid && s.tag(i, x).valid ==> s.tag(i, w).tag != s.tag(i, x).tag
  }

  ghost predicate LineOk(y: Sys, a: LineAddr)
  {
    NotCached(y.s, a) && !Owed(y.s, a) ==> y.mem(a) == y.flat(a)
  }

  // ------------------------------------------------------------------ the miss in progress

  ghost predicate VictimHeld(y: Sys, m: MshrId)
  {
    var e := y.s.mshr(m);
    var i := e.newAddr.index;
    && y.s.tag(i, e.evictWay) == TagEntry(true, e.victimAddr.tag) && e.victimAddr.index == i
    && e.line == y.s.data(i, e.evictWay)
  }

  /** The way to be filled holds nothing that memory lacks. */
  ghost predicate VictimSafe(y: Sys, m: MshrId)
  {
    var e := y.s.mshr(m);
    var v := WayAddr(y.s, e.newAddr.index, e.evictWay);
    !e.isUncachable && y.s.tag(e.newAddr.index, e.evictWay).valid ==> y.mem(v) == y.flat(v)
  }

  ghost predicate WritePending(y: Sys, m: MshrId, a: LineAddr)
  {
    var e := y.s.mshr(m);
    && e.memWSerial in y.pendingWrites
    && y.pendingWrites[e.memWSerial] == PendingWrite(m, a, e.line, y.pendingWrites[e.memWSerial].landed)
    && (y.pendingWrites[e.memWSerial].landed ==> y.mem(a) == e.line)
  }

  ghost predicate ReadPending(y: Sys, m: MshrId)
  {
    var e := y.s.mshr(m);
    && e.memSerial in y.pendingReads
    && y.pendingReads[e.memSerial] == PendingRead(m, e.newAddr, y.pendingReads[e.memSerial].sampled)
    && (y.pendingReads[e.memSerial].sampled.Some? ==> y.pendingReads[e.memSerial].sampled.value == y.flat(e.newAddr))
  }

  ghost predicate SeesSet(y: Sys, m: MshrId)
  {
    var e := y.s.mshr(m);
    var i := e.newAddr.index;
    var q := DataPort(y.s, m);
    && (forall w: Way ::
          e.tagOut(w) == y.s.tag(i, w) && q.dataOut(w) == y.s.data(i, w) && q.dirtyOut(w) == y.s.dirty(i, w))
    && q.readsEvicted
  }

  ghost predicate FlushedBelow(s: DCacheState, n: nat)
  {
    forall i: Index, w: Way :: i < n ==> !s.tag(i, w).valid
  }

  ghost predicate FlushTagOk(y: Sys)
  {
    var e := y.s.mshr(0);
    var t := TagPort(y.s, 0).tagOut(0);
    var a := LineAddr(e.flushIndex, t.tag);
    t.valid ==> y.s.data(e.flushIndex, 0) == y.flat(a) && (y.s.dirty(e.flushIndex, 0) || y.mem(a) == y.flat(a))
  }

  ghost predicate FlushDataOk(y: Sys)
  {
    var e := y.s.mshr(0);
    var q := DataPort(y.s, 0);
    && e.victimAddr.index == e.flushIndex
    && DataOut(q) == y.flat(e.victimAddr) && (DirtyOut(q) || y.mem(e.victimAddr) == y.flat(e.victimAddr))
  }

  ghost predicate FlushOk(y: Sys)
  {
    var e := y.s.mshr(0);
    match e.phase
    case FlushVictimRequest => FlushedBelow(y.s, e.flushIndex)
    case FlushVictimReceiveTag => FlushedBelow(y.s, e.flushIndex + 1) && FlushTagOk(y)
    case FlushVictimReceiveData => FlushedBelow(y.s, e.flushIndex + 1) && FlushDataOk(y)
    case FlushVictimWriteToMem =>
      FlushedBelow(y.s, e.flushIndex + 1) && e.victimAddr.index == e.flushIndex && e.line == y.flat(e.victimAddr)
    case FlushVictimWriteComplete =>
      && FlushedBelow(y.s, e.flushIndex + 1) && e.victimAddr.index == e.flushIndex
      && e.line == y.flat(e.victimAddr) && WritePending(y, 0, e.victimAddr)
    case FlushCheck => FlushedBelow(y.s, e.flushIndex + 1)
    case _ => true
  }

  ghost predicate MissOk(y: Sys, m: MshrId)
  {
    var e := y.s.mshr(m);
    match e.phase
    case VictimRequest => NotCached(y.s, e.newAddr)
    case VictimReceiveTag => NotCached(y.s, e.newAddr)
    case VictimReceiveData => NotCached(y.s, e.newAddr) && SeesSet(y, m)
    case VictimWriteToMem => NotCached(y.s, e.newAddr) && VictimHeld(y, m)
    case VictimWriteComplete => NotCached(y.s, e.newAddr) && VictimHeld(y, m) && WritePending(y, m, e.victimAddr)
    case MissReadMemRequest => NotCached(y.s, e.newAddr) && VictimSafe(y, m)
    case MissReadMemReceive => NotCached(y.s, e.newAddr) && VictimSafe(y, m) && ReadPending(y, m)
    case MissMergeStoreData => NotCached(y.s, e.newAddr) && VictimSafe(y, m) && e.line == y.flat(e.newAddr)
    case UncachableWriteToMem => NotCached(y.s, e.newAddr) && e.line == y.flat(e.newAddr)
    case UncachableWriteComplete =>
      NotCached(y.s, e.newAddr) && e.line == y.flat(e.newAddr) && WritePending(y, m, e.newAddr)
    case MissWriteCacheRequest => NotCached(y.s, e.newAddr) && VictimSafe(y, m) && e.line == y.flat(e.newAddr)
    case MissHandlingComplete => e.newValid ==> e.line == y.flat(e.newAddr)
    case _ => true
  }

  predicate AwaitsWrite(e: Mshr)
  {
    e.phase.VictimWriteComplete? || e.phase.UncachableWriteComplete? || e.phase.FlushVictimWriteComplete?
  }

  /** Every outstanding transaction belongs to the miss register that waits for it. */
  ghost predicate OwnersOk(y: Sys)
  {
    && (forall k :: k in y.pendingWrites ==>
          AwaitsWrite(y.s.mshr(y.pendingWrites[k].owner)) && y.s.mshr(y.pendingWrites[k].owner).memWSerial == k)
    && (forall k :: k in y.pendingReads ==>
          y.s.mshr(y.pendingReads[k].owner).phase.MissReadMemReceive?
          && y.s.mshr(y.pendingReads[k].owner).memSerial == k)
  }

  ghost predicate Inv(y: Sys)
  {
    && HwOk(y.s)
    && (forall i: Index :: DistinctTags(y.s, i))
    && (forall i: Index, w: Way :: WayOk(y, i, w))
    && (forall a: LineAddr :: LineOk(y, a))
    && (forall m: MshrId :: MissOk(y, m))
    && FlushOk(y)
    && OwnersOk(y)
  }
}
