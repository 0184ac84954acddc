/**
 Parameters and records of the data cache. The constants carry no value: every proof holds
 for any number of ways (a power of two), sets, line bytes and miss registers.
 */
module CacheTypes {
  import opened Common

  const WAY_BITS: nat
  const WAY_NUM: Positive := Pow2(WAY_BITS)
  const INDEX_BITS: nat
  const INDEX_NUM: Positive := Pow2(INDEX_BITS)
  const LINE_BYTE_NUM: Positive
  const MSHR_NUM: Positive

  type Way = w: nat | w < WAY_NUM
  type Index = i: nat | i < INDEX_NUM
  type Tag = nat
  type MshrId = m: nat | m < MSHR_NUM
  type ReqId = r: nat | r < 2 + MSHR_NUM
  type PortId = p: nat | p < 2
  type Serial = nat
  type ListPtr = nat

  type Line = l: seq<bv8> | |l| == LINE_BYTE_NUM witness seq(LINE_BYTE_NUM, _ => 0)
  type Mask = b: seq<bool> | |b| == LINE_BYTE_NUM witness seq(LINE_BYTE_NUM, _ => false)
  type LruState = s: seq<bool> | |s| == WAY_NUM - 1 witness seq(WAY_NUM - 1, _ => false)

  /** A line address: the tag and index slices of a physical address. */
  datatype LineAddr = LineAddr(index: Index, tag: Tag)

  datatype TagEntry = TagEntry(valid: bool, tag: Tag)

  /** Requesters of the array ports: 0 the load, 1 the store, 2.. the miss registers. */
  const LOAD: ReqId := 0
  const STORE: ReqId := 1

  function MshrReqId(m: MshrId): ReqId { m + 2 }

  function ZeroLine(): Line { seq(LINE_BYTE_NUM, _ => 0) }

  function AllBytes(): Mask { seq(LINE_BYTE_NUM, _ => true) }

  function NoBytes(): Mask { seq(LINE_BYTE_NUM, _ => false) }

  /** Byte-wise merge: stored bytes where the mask is set, fetched bytes elsewhere. */
  function Merge(fetched: Line, stored: Line, mask: Mask): (r: Line)
    ensures forall k :: 0 <= k < LINE_BYTE_NUM ==> r[k] == if mask[k] then stored[k] else fetched[k]
  {
    seq(LINE_BYTE_NUM, k requires 0 <= k < LINE_BYTE_NUM => if mask[k] then stored[k] else fetched[k])
  }

  lemma MergeAll(fetched: Line, stored: Line)
    ensures Merge(fetched, stored, AllBytes()) == stored
  {
    assert forall k :: 0 <= k < LINE_BYTE_NUM ==> Merge(fetched, stored, AllBytes())[k] == stored[k];
  }

  datatype MshrPhase =
    | Invalid
    | FlushVictimRequest
    | FlushVictimReceiveTag
    | FlushVictimReceiveData
    | FlushVictimWriteToMem
    | FlushVictimWriteComplete
    | FlushCheck
    | VictimRequest
    | VictimReceiveTag
    | VictimReceiveData
    | VictimWriteToMem
    | VictimWriteComplete
    | MissMergeStoreData
    | MissReadMemRequest
    | MissReadMemReceive
    | UncachableWriteToMem
    | UncachableWriteComplete
    | MissWriteCacheRequest
    | MissHandlingComplete
  {
    predicate Flushing() {
      || FlushVictimRequest? || FlushVictimReceiveTag? || FlushVictimReceiveData?
      || FlushVictimWriteToMem? || FlushVictimWriteComplete? || FlushCheck?
    }

    /** Phases at or above MissWriteCacheRequest in the source's numbering. */
    predicate HoldsFetchedLine() {
      MissWriteCacheRequest? || MissHandlingComplete?
    }
  }

  datatype Mshr = Mshr(
    valid: bool,
    phase: MshrPhase,
    victimDirty: bool,
    victimValid: bool,
    victimReceived: bool,
    victimAddr: LineAddr,
    tagOut: Way -> TagEntry,
    newValid: bool,
    newAddr: LineAddr,
    memSerial: Serial,
    memWSerial: Serial,
    line: Line,
    canBeInvalid: bool,
    isAllocatorLoadFlushed: bool,
    isAllocatedByStore: bool,
    isUncachable: bool,
    evictWay: Way,
    flushIndex: Index,
    listPtr: ListPtr)

  /** What a requester drives into the array multiplexer. */
  datatype Request = Request(
    addr: LineAddr,
    tagWE: bool,
    tagValidIn: bool,
    dataIn: Line,
    dataMask: Mask,
    dataWE: bool,
    dataWEOnTagHit: bool,
    dirtyIn: bool,
    evictWay: Way,
    isVictimEviction: bool)

  datatype DCachePhase = Normal | FlushProcessing | FlushComplete

  /** One array port: the ADDR/TAG pipeline register and the read registers of its RAMs. */
  datatype Port = Port(
    owner: ReqId,
    granted: bool,
    req: Request,
    tagOut: Way -> TagEntry,
    dataOut: Way -> Line,
    dirtyOut: Way -> bool,
    replOut: LruState,
    readWay: Way,
    readsEvicted: bool)

  datatype LoadRegs = LoadRegs(req: bool, addr: LineAddr, uncachable: bool, listPtr: ListPtr)
  datatype StoreRegs = StoreRegs(req: bool, addr: LineAddr, uncachable: bool)

  /** Every register and RAM of the data cache. */
  datatype DCacheState = DCacheState(
    tag: (Index, Way) -> TagEntry,
    data: (Index, Way) -> Line,
    dirty: (Index, Way) -> bool,
    repl: Index -> LruState,
    port: PortId -> Port,
    outTag: ReqId -> PortId,
    outData: ReqId -> PortId,
    loadGranted: bool,
    storeGranted: bool,
    load: LoadRegs,
    store: StoreRegs,
    mshr: MshrId -> Mshr,
    phase: DCachePhase)

  datatype Result = Result(serial: Serial, data: Line)

  /** The signals that reach the cache in one cycle, and the memory's own choices. */
  datatype Input = Input(
    loadReq: bool,
    loadAddr: LineAddr,
    loadUncachable: bool,
    loadPtr: ListPtr,
    storeReq: bool,
    storeAddr: LineAddr,
    storeUncachable: bool,
    storeData: Line,
    storeMask: Mask,
    canBeInvalid: MshrId -> bool,
    flushed: ListPtr -> bool,
    memAck: bool,
    memSerial: Serial,
    memWSerial: Serial,
    result: Option<Result>,
    response: Option<Serial>,
    flushReq: bool,
    flushDone: bool,
    sample: Option<Serial>,
    land: Option<Serial>)
}
