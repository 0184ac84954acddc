/**
 One clock cycle of DCache.sv as functions of the registers and the inputs: the port arbiter,
 hit detection, miss allocation, the miss handler, the arrays and the controller.
 */
module DCacheModel {
  import opened Common
  import opened CacheTypes
  import opened PortArbiter
  import TreeLru

  // ------------------------------------------------------------------ ADDR stage

  predicate Flushing(s: DCacheState) { s.phase == FlushProcessing }

  predicate MshrCacheReq(e: Mshr)
  {
    e.phase.FlushVictimRequest? || e.phase.VictimRequest? || e.phase.MissWriteCacheRequest?
  }

  predicate ReqOf(s: DCacheState, inp: Input, r: ReqId)
  {
    if r == LOAD then !Flushing(s) && inp.loadReq
    else if r == STORE then !Flushing(s) && inp.storeReq
    else MshrCacheReq(s.mshr(r - 2))
  }

  function Requests(s: DCacheState, inp: Input): (q: seq<bool>)
    ensures |q| == 2 + MSHR_NUM
    ensures forall r: ReqId :: q[r] == ReqOf(s, inp, r)
  {
    seq(2 + MSHR_NUM, r requires 0 <= r < 2 + MSHR_NUM => ReqOf(s, inp, r))
  }

  predicate CacheGrant(s: DCacheState, inp: Input, r: ReqId)
  {
    Granted(Requests(s, inp), 2, r)
  }

  function LoadMux(inp: Input): Request
  {
    Request(inp.loadAddr, false, true, ZeroLine(), NoBytes(), false, false, false, 0, false)
  }

  function StoreMux(inp: Input): Request
  {
    Request(inp.storeAddr, false, true, inp.storeData, inp.storeMask, false, true, true, 0, false)
  }

  function MshrMux(e: Mshr): Request
  {
    var idle := Request(e.newAddr, false, true, e.line, AllBytes(), false, false, false, e.evictWay, false);
    if e.phase.FlushVictimRequest? then
      idle.(addr := LineAddr(e.flushIndex, e.newAddr.tag), tagValidIn := false, tagWE := true, dataWE := true)
    else if e.phase.VictimRequest? then idle.(isVictimEviction := true)
    else if e.phase.MissWriteCacheRequest? then
      idle.(tagWE := true, dataWE := true, dirtyIn := e.isAllocatedByStore)
    else idle
  }

  function MuxIn(s: DCacheState, inp: Input, r: ReqId): Request
  {
    if r == LOAD then LoadMux(inp) else if r == STORE then StoreMux(inp) else MshrMux(s.mshr(r - 2))
  }

  /** The request that enters port p; an ungranted port is connected to the load. */
  function AddrOwner(s: DCacheState, inp: Input, p: PortId): ReqId
  {
    InSel(Requests(s, inp), p)
  }

  function AddrReq(s: DCacheState, inp: Input, p: PortId): Request
  {
    MuxIn(s, inp, AddrOwner(s, inp, p))
  }

  // ------------------------------------------------------------------ TAG stage

  function BusyAt(s: DCacheState, i: Index): nat -> bool
  {
    (m: nat) => m < MSHR_NUM && s.mshr(m).valid && s.mshr(m).newAddr.index == i
  }

  /** Some miss register holds this index: no access to the index can hit. */
  predicate MshrConflict(s: DCacheState, i: Index)
  {
    AnyIndex(BusyAt(s, i), MSHR_NUM)
  }

  function MshrHolds(s: DCacheState, a: LineAddr): nat -> bool
  {
    (m: nat) => m < MSHR_NUM && s.mshr(m).valid && s.mshr(m).newAddr == a
  }

  function MshrHoldsFetched(s: DCacheState, a: LineAddr): nat -> bool
  {
    (m: nat) => m < MSHR_NUM && s.mshr(m).valid && s.mshr(m).newAddr == a && s.mshr(m).phase.HoldsFetchedLine()
  }

  predicate MshrAddrHit(s: DCacheState, a: LineAddr) { AnyIndex(MshrHolds(s, a), MSHR_NUM) }

  function MshrHitId(s: DCacheState, a: LineAddr): MshrId { LastIndex(MshrHolds(s, a), MSHR_NUM) }

  predicate MshrReadHit(s: DCacheState, a: LineAddr) { AnyIndex(MshrHoldsFetched(s, a), MSHR_NUM) }

  /** Data bypassed from a miss register. */
  function MshrReadData(s: DCacheState, a: LineAddr): Line
  {
    if MshrAddrHit(s, a) then s.mshr(MshrHitId(s, a)).line else ZeroLine()
  }

  function TagMatch(s: DCacheState, p: PortId): nat -> bool
  {
    (w: nat) =>
      && w < WAY_NUM
      && s.port(p).tagOut(w).tag == s.port(p).req.addr.tag
      && s.port(p).tagOut(w).valid
      && !MshrConflict(s, s.port(p).req.addr.index)
  }

  predicate RepHit(s: DCacheState, p: PortId) { AnyIndex(TagMatch(s, p), WAY_NUM) }

  function RepWay(s: DCacheState, p: PortId): Way { LastIndex(TagMatch(s, p), WAY_NUM) }

  predicate LoadHit(s: DCacheState) { RepHit(s, s.outTag(LOAD)) && s.loadGranted }

  predicate StoreHit(s: DCacheState) { RepHit(s, s.outTag(STORE)) && s.storeGranted }

  predicate LoadMiss(s: DCacheState)
  {
    && !LoadHit(s) && s.load.req && s.loadGranted
    && !MshrConflict(s, s.port(s.outTag(LOAD)).req.addr.index)
  }

  predicate StoreMiss(s: DCacheState)
  {
    && !StoreHit(s) && s.store.req && s.storeGranted
    && !MshrConflict(s, s.port(s.outTag(STORE)).req.addr.index)
  }

  /** A load that misses on the same index in the same cycle goes first. */
  predicate StoreYields(s: DCacheState)
  {
    LoadMiss(s) && s.store.addr.index == s.load.addr.index
  }

  function FreeMshr(s: DCacheState): nat -> bool
  {
    (m: nat) => m < MSHR_NUM && !s.mshr(m).valid
  }

  function FreeMshrBut(s: DCacheState, taken: nat): nat -> bool
  {
    (m: nat) => m < MSHR_NUM && !s.mshr(m).valid && m != taken
  }

  /** The entry given to the load; MSHR_NUM when there is none. */
  function LoadSlot(s: DCacheState): (m: nat)
    ensures m <= MSHR_NUM
  {
    if LoadMiss(s) then FirstIndex(FreeMshr(s), MSHR_NUM) else MSHR_NUM
  }

  function StoreSlot(s: DCacheState): (m: nat)
    ensures m <= MSHR_NUM
  {
    if StoreMiss(s) && !StoreYields(s) then FirstIndex(FreeMshrBut(s, LoadSlot(s)), MSHR_NUM) else MSHR_NUM
  }

  datatype Allocation = Allocation(addr: LineAddr, listPtr: ListPtr, byStore: bool, uncachable: bool)

  function InitMshr(s: DCacheState, m: MshrId): Option<Allocation>
  {
    if m == StoreSlot(s) then Some(Allocation(s.store.addr, 0, true, s.store.uncachable))
    else if m == LoadSlot(s) then Some(Allocation(s.load.addr, s.load.listPtr, false, s.load.uncachable))
    else None
  }

  // ------------------------------------------------------------------ data stage

  /** The way whose data port q delivers. */
  function DataWay(port: Port): Way
  {
    if port.readsEvicted then TreeLru.Evicted(WAY_BITS, port.replOut) else port.readWay
  }

  function DataOut(port: Port): Line { port.dataOut(DataWay(port)) }

  function DirtyOut(port: Port): bool { port.dirtyOut(DataWay(port)) }

  function ReplOut(port: Port): Way { TreeLru.Evicted(WAY_BITS, port.replOut) }

  /** What the load receives in its data stage. */
  function LoadData(s: DCacheState): Line { DataOut(s.port(s.outData(LOAD))) }

  // ------------------------------------------------------------------ memory port

  predicate MemReq(e: Mshr)
  {
    || e.phase.FlushVictimWriteToMem? || e.phase.VictimWriteToMem?
    || e.phase.MissReadMemRequest? || e.phase.UncachableWriteToMem?
  }

  function MemReqs(s: DCacheState): nat -> bool { (m: nat) => m < MSHR_NUM && MemReq(s.mshr(m)) }

  function MemSel(s: DCacheState): (m: nat)
    ensures m <= MSHR_NUM && (m < MSHR_NUM ==> MemReq(s.mshr(m)))
  {
    FirstIndex(MemReqs(s), MSHR_NUM)
  }

  predicate MemValid(s: DCacheState) { MemSel(s) < MSHR_NUM }

  predicate MemAccepted(s: DCacheState, inp: Input, m: MshrId) { m == MemSel(s) && inp.memAck }

  predicate MemWE(e: Mshr) { !e.phase.MissReadMemRequest? }

  function MemAddr(e: Mshr): LineAddr
  {
    if e.phase.MissReadMemRequest? || e.phase.UncachableWriteToMem? then e.newAddr else e.victimAddr
  }

  // ------------------------------------------------------------------ miss handler

  /** What one miss register sees in a cycle. */
  datatype MshrView = MshrView(
    canBeInvalid: bool,
    flushed: bool,
    alloc: Option<Allocation>,
    allocPtr: ListPtr,
    startFlush: bool,
    grant: bool,
    tagOut: Way -> TagEntry,
    dataOut: Line,
    dirtyOut: bool,
    replOut: Way,
    accepted: bool,
    memSerial: Serial,
    memWSerial: Serial,
    result: Option<Result>,
    response: Option<Serial>,
    storeData: Line,
    storeMask: Mask)

  /** The load that allocated the entry is flushed. */
  predicate LoadLost(e: Mshr, v: MshrView) { v.flushed && !e.isAllocatedByStore }

  function SomeValid(tagOut: Way -> TagEntry): nat -> bool { (w: nat) => w < WAY_NUM && tagOut(w).valid }

  predicate AnyValid(tagOut: Way -> TagEntry) { AnyIndex(SomeValid(tagOut), WAY_NUM) }

  predicate Answered(response: Option<Serial>, serial: Serial) { response == Some(serial) }

  /** The answer that the entry waits for is here. */
  predicate Received(e: Mshr, v: MshrView) { v.result.Some? && v.result.value.serial == e.memSerial }

  /** The last flush index has been handled. */
  predicate LastIndexDone(e: Mshr) { e.phase.FlushCheck? && e.flushIndex == INDEX_NUM - 1 }

  predicate Allocates(e: Mshr, v: MshrView) { e.phase.Invalid? && v.alloc.Some? }

  predicate StartsFlush(e: Mshr, v: MshrView) { e.phase.Invalid? && v.alloc.None? && v.startFlush }

  predicate Starts(e: Mshr, v: MshrView) { Allocates(e, v) || StartsFlush(e, v) }

  predicate Releases(e: Mshr)
  {
    LastIndexDone(e) || (e.phase.MissHandlingComplete? && (e.canBeInvalid || e.isAllocatedByStore))
  }

  /** The way chosen for eviction holds a line. */
  predicate EvictsValid(e: Mshr, v: MshrView) { e.tagOut(v.replOut).valid }

  function MshrNextPhase(e: Mshr, v: MshrView): MshrPhase
  {
    match e.phase
    case Invalid =>
      if Allocates(e, v) then (if v.alloc.value.uncachable then MissReadMemRequest else VictimRequest)
      else if StartsFlush(e, v) then FlushVictimRequest else Invalid
    case FlushVictimRequest => if v.grant then FlushVictimReceiveTag else FlushVictimRequest
    case FlushVictimReceiveTag => if AnyValid(v.tagOut) then FlushVictimReceiveData else FlushCheck
    case FlushVictimReceiveData => if v.dirtyOut then FlushVictimWriteToMem else FlushCheck
    case FlushVictimWriteToMem => if v.accepted then FlushVictimWriteComplete else FlushVictimWriteToMem
    case FlushVictimWriteComplete =>
      if e.victimValid && e.victimDirty && !Answered(v.response, e.memWSerial) then FlushVictimWriteComplete
      else FlushCheck
    case FlushCheck => if LastIndexDone(e) then Invalid else FlushVictimRequest
    case VictimRequest =>
      if v.grant then VictimReceiveTag
      else if e.isAllocatorLoadFlushed then MissHandlingComplete else VictimRequest
    case VictimReceiveTag => VictimReceiveData
    case VictimReceiveData => if EvictsValid(e, v) && v.dirtyOut then VictimWriteToMem else MissReadMemRequest
    case VictimWriteToMem => if v.accepted then VictimWriteComplete else VictimWriteToMem
    case VictimWriteComplete =>
      if e.victimValid && e.victimDirty && !Answered(v.response, e.memWSerial) then VictimWriteComplete
      else MissReadMemRequest
    case MissReadMemRequest => if v.accepted then MissReadMemReceive else MissReadMemRequest
    case MissReadMemReceive =>
      if !Received(e, v) then MissReadMemReceive
      else if e.isAllocatedByStore then MissMergeStoreData
      else if e.isUncachable then MissHandlingComplete else MissWriteCacheRequest
    case MissMergeStoreData => if e.isUncachable then UncachableWriteToMem else MissWriteCacheRequest
    case UncachableWriteToMem => if v.accepted then UncachableWriteComplete else UncachableWriteToMem
    case UncachableWriteComplete =>
      if e.newValid && !Answered(v.response, e.memWSerial) then UncachableWriteComplete else MissHandlingComplete
    case MissWriteCacheRequest =>
      if v.grant || e.isAllocatorLoadFlushed then MissHandlingComplete else MissWriteCacheRequest
    case MissHandlingComplete => if Releases(e) then Invalid else MissHandlingComplete
  }

  function NextVictimDirty(e: Mshr, v: MshrView): bool
  {
    if Starts(e, v) || e.phase.FlushCheck? then false
    else if e.phase.FlushVictimReceiveData? || e.phase.VictimReceiveData? then v.dirtyOut
    else e.victimDirty
  }

  function NextVictimValid(e: Mshr, v: MshrView): bool
  {
    if Starts(e, v) || e.phase.FlushCheck? || e.phase.MissReadMemRequest? then false
    else if e.phase.FlushVictimReceiveTag? then AnyValid(v.tagOut)
    else if e.phase.VictimReceiveData? then EvictsValid(e, v)
    else e.victimValid
  }

  function NextVictimReceived(e: Mshr, v: MshrView): bool
  {
    if Starts(e, v) || e.phase.FlushCheck? then false
    else e.victimReceived || e.phase.FlushVictimReceiveData? || e.phase.VictimReceiveData?
  }

  /** Address of the victim, rebuilt from the index in use and the tag that was read. */
  function NextVictimAddr(e: Mshr, v: MshrView): LineAddr
  {
    if e.phase.FlushVictimReceiveTag? && AnyValid(v.tagOut) then LineAddr(e.flushIndex, v.tagOut(0).tag)
    else if e.phase.VictimReceiveData? && EvictsValid(e, v) then LineAddr(e.newAddr.index, e.tagOut(v.replOut).tag)
    else e.victimAddr
  }

  function NextTagOut(e: Mshr, v: MshrView): Way -> TagEntry
  {
    if e.phase.VictimReceiveTag? then v.tagOut else e.tagOut
  }

  function NextNewValid(e: Mshr, v: MshrView): bool
  {
    if Starts(e, v) then false else e.newValid || (e.phase.MissReadMemReceive? && Received(e, v))
  }

  function NextNewAddr(e: Mshr, v: MshrView): LineAddr
  {
    if Allocates(e, v) then v.alloc.value.addr else if StartsFlush(e, v) then LineAddr(0, 0) else e.newAddr
  }

  function NextMemSerial(e: Mshr, v: MshrView): Serial
  {
    if Starts(e, v) || e.phase.FlushCheck? then 0
    else if e.phase.MissReadMemRequest? && v.accepted then v.memSerial else e.memSerial
  }

  function NextMemWSerial(e: Mshr, v: MshrView): Serial
  {
    if Starts(e, v) || e.phase.FlushCheck? then 0
    else if (e.phase.FlushVictimWriteToMem? || e.phase.VictimWriteToMem? || e.phase.UncachableWriteToMem?) && v.accepted
    then v.memWSerial else e.memWSerial
  }

  function NextLineOf(e: Mshr, v: MshrView): Line
  {
    if StartsFlush(e, v) || e.phase.FlushCheck? then ZeroLine()
    else if e.phase.FlushVictimReceiveData? || e.phase.VictimReceiveData? then v.dataOut
    else if e.phase.MissReadMemReceive? && Received(e, v) then v.result.value.data
    else if e.phase.MissMergeStoreData? then Merge(e.line, v.storeData, v.storeMask)
    else e.line
  }

  function NextCanBeInvalid(e: Mshr, v: MshrView): bool
  {
    !Starts(e, v) && (e.canBeInvalid || v.canBeInvalid || LoadLost(e, v))
  }

  function NextAllocatorFlushed(e: Mshr, v: MshrView): bool
  {
    !Starts(e, v) && (e.isAllocatorLoadFlushed || LoadLost(e, v))
  }

  function NextByStore(e: Mshr, v: MshrView): bool
  {
    if Allocates(e, v) then v.alloc.value.byStore else !StartsFlush(e, v) && e.isAllocatedByStore
  }

  function NextUncachable(e: Mshr, v: MshrView): bool
  {
    if Allocates(e, v) then v.alloc.value.uncachable else !StartsFlush(e, v) && e.isUncachable
  }

  function NextEvictWay(e: Mshr, v: MshrView): Way
  {
    if Allocates(e, v) then 0 else if e.phase.VictimReceiveData? then v.replOut else e.evictWay
  }

  function NextFlushIndex(e: Mshr, v: MshrView): Index
  {
    if Starts(e, v) || LastIndexDone(e) then 0 else if e.phase.FlushCheck? then e.flushIndex + 1 else e.flushIndex
  }

  function NextListPtr(e: Mshr, v: MshrView): ListPtr
  {
    if Allocates(e, v) then v.alloc.value.listPtr else if StartsFlush(e, v) then v.allocPtr else e.listPtr
  }

  /** The next value of one miss register, field by field. */
  function NextMshr(e: Mshr, v: MshrView): Mshr
  {
    Mshr(
      Starts(e, v) || (e.valid && !Releases(e)),
      MshrNextPhase(e, v),
      NextVictimDirty(e, v), NextVictimValid(e, v), NextVictimReceived(e, v), NextVictimAddr(e, v),
      NextTagOut(e, v),
      NextNewValid(e, v), NextNewAddr(e, v),
      NextMemSerial(e, v), NextMemWSerial(e, v),
      NextLineOf(e, v),
      NextCanBeInvalid(e, v), NextAllocatorFlushed(e, v), NextByStore(e, v), NextUncachable(e, v),
      NextEvictWay(e, v), NextFlushIndex(e, v), NextListPtr(e, v))
  }

  function TagPort(s: DCacheState, m: MshrId): Port { s.port(s.outTag(MshrReqId(m))) }

  function DataPort(s: DCacheState, m: MshrId): Port { s.port(s.outData(MshrReqId(m))) }

  /** An allocation is cancelled when its instruction is flushed in the same cycle. */
  function KeptAllocation(s: DCacheState, inp: Input, m: MshrId): Option<Allocation>
  {
    if InitMshr(s, m).Some? && inp.flushed(InitMshr(s, m).value.listPtr) then None else InitMshr(s, m)
  }

  function ViewOf(s: DCacheState, inp: Input, m: MshrId): MshrView
  {
    MshrView(
      inp.canBeInvalid(m),
      inp.flushed(s.mshr(m).listPtr),
      KeptAllocation(s, inp, m),
      if InitMshr(s, m).Some? then InitMshr(s, m).value.listPtr else 0,
      Flushing(s) && m == 0,
      CacheGrant(s, inp, MshrReqId(m)),
      TagPort(s, m).tagOut,
      DataOut(DataPort(s, m)), DirtyOut(DataPort(s, m)), ReplOut(DataPort(s, m)),
      MemAccepted(s, inp, m), inp.memSerial, inp.memWSerial,
      inp.result, inp.response, inp.storeData, inp.storeMask)
  }

  // ------------------------------------------------------------------ arrays

  function WriteTag(was: TagEntry, q: Request, i: Index, w: Way): TagEntry
  {
    if q.tagWE && q.addr.index == i && q.evictWay == w then TagEntry(q.tagValidIn, q.addr.tag) else was
  }

  function NextTag(s: DCacheState, inp: Input, i: Index, w: Way): TagEntry
  {
    WriteTag(WriteTag(s.tag(i, w), AddrReq(s, inp, 0), i, w), AddrReq(s, inp, 1), i, w)
  }

  /** Port p writes the data and dirty entry of this way at the end of its TAG stage. */
  predicate DataWrite(s: DCacheState, p: PortId, i: Index, w: Way)
  {
    var q := s.port(p).req;
    && (q.dataWE || (q.dataWEOnTagHit && RepHit(s, p)))
    && q.addr.index == i
    && w == (if q.tagWE then q.evictWay else RepWay(s, p))
  }

  function WriteData(s: DCacheState, p: PortId, was: Line, i: Index, w: Way): Line
  {
    if DataWrite(s, p, i, w) then Merge(was, s.port(p).req.dataIn, s.port(p).req.dataMask) else was
  }

  function NextData(s: DCacheState, i: Index, w: Way): Line
  {
    WriteData(s, 1, WriteData(s, 0, s.data(i, w), i, w), i, w)
  }

  function WriteDirty(s: DCacheState, p: PortId, was: bool, i: Index, w: Way): bool
  {
    if DataWrite(s, p, i, w) then s.port(p).req.dirtyIn else was
  }

  function NextDirty(s: DCacheState, i: Index, w: Way): bool
  {
    WriteDirty(s, 1, WriteDirty(s, 0, s.dirty(i, w), i, w), i, w)
  }

  /** Port p records a way in the replacement array: a filled way, or a way that hit. */
  predicate ReplWrite(s: DCacheState, p: PortId)
  {
    var q := s.port(p).req;
    && !(p == 1 && s.port(0).req.addr.index == q.addr.index)
    && (q.tagWE || (!q.isVictimEviction && RepHit(s, p)))
  }

  function ReplRecorded(s: DCacheState, p: PortId): Way
  {
    if s.port(p).req.tagWE then s.port(p).req.evictWay else RepWay(s, p)
  }

  function WriteRepl(s: DCacheState, p: PortId, was: LruState, i: Index): LruState
  {
    if ReplWrite(s, p) && s.port(p).req.addr.index == i
    then TreeLru.Touch(WAY_BITS, was, ReplRecorded(s, p)) else was
  }

  function NextRepl(s: DCacheState, i: Index): LruState
  {
    WriteRepl(s, 1, WriteRepl(s, 0, s.repl(i), i), i)
  }

  function TagRow(s: DCacheState, i: Index): Way -> TagEntry { (w: Way) => s.tag(i, w) }

  function DataRow(s: DCacheState, i: Index): Way -> Line { (w: Way) => s.data(i, w) }

  function DirtyRow(s: DCacheState, i: Index): Way -> bool { (w: Way) => s.dirty(i, w) }

  /** The RAMs are read before they are written; the tag array a stage earlier than the others. */
  function NextPort(s: DCacheState, inp: Input, p: PortId): Port
  {
    Port(
      AddrOwner(s, inp, p), InGrant(Requests(s, inp), p), AddrReq(s, inp, p),
      TagRow(s, AddrReq(s, inp, p).addr.index),
      DataRow(s, s.port(p).req.addr.index),
      DirtyRow(s, s.port(p).req.addr.index),
      s.repl(s.port(p).req.addr.index),
      RepWay(s, p),
      s.port(p).req.isVictimEviction)
  }

  // ------------------------------------------------------------------ controller

  function Occupied(s: DCacheState): nat -> bool { (m: nat) => m < MSHR_NUM && !s.mshr(m).phase.Invalid? }

  predicate MshrBusy(s: DCacheState) { AnyIndex(Occupied(s), MSHR_NUM) }

  predicate FlushAck(s: DCacheState) { s.phase == Normal && !MshrBusy(s) }

  function NextPhase(s: DCacheState, inp: Input): DCachePhase
  {
    match s.phase
    case Normal => if inp.flushReq && !MshrBusy(s) then FlushProcessing else Normal
    case FlushProcessing => if LastIndexDone(s.mshr(0)) then FlushComplete else FlushProcessing
    case FlushComplete => if inp.flushDone then Normal else FlushComplete
  }

  // ------------------------------------------------------------------ the clock edge

  function Next(s: DCacheState, inp: Input): DCacheState
  {
    DCacheState(
      (i: Index, w: Way) => NextTag(s, inp, i, w),
      (i: Index, w: Way) => NextData(s, i, w),
      (i: Index, w: Way) => NextDirty(s, i, w),
      (i: Index) => NextRepl(s, i),
      (p: PortId) => NextPort(s, inp, p),
      (r: ReqId) => OutSel(Requests(s, inp), 2, r),
      s.outTag,
      CacheGrant(s, inp, LOAD),
      CacheGrant(s, inp, STORE),
      LoadRegs(inp.loadReq, inp.loadAddr, inp.loadUncachable, inp.loadPtr),
      StoreRegs(inp.storeReq, inp.storeAddr, inp.storeUncachable),
      (m: MshrId) => NextMshr(s.mshr(m), ViewOf(s, inp, m)),
      NextPhase(s, inp))
  }

  /** The registers after reset: arrays cleared, nothing in flight. */
  ghost predicate IsReset(s: DCacheState)
  {
    && (forall i: Index, w: Way :: !s.tag(i, w).valid && !s.dirty(i, w))
    && (forall m: MshrId :: !s.mshr(m).valid && s.mshr(m).phase == Invalid)
    && (forall p: PortId ::
          && !s.port(p).granted && s.port(p).owner == LOAD
          && !s.port(p).req.tagWE && !s.port(p).req.dataWE && !s.port(p).req.dataWEOnTagHit)
    && !s.loadGranted && !s.storeGranted && s.phase == Normal
  }
}
