/**
 The data cache together with main memory and the flat byte memory it must behave like.
 Memory may apply an accepted write, and sample an accepted read, in any cycle before it answers.
 */
module DCacheSystem {
  import opened Common
  import opened CacheTypes
  import opened PortArbiter
  import opened DCacheModel

  datatype PendingRead = PendingRead(owner: MshrId, addr: LineAddr, sampled: Option<Line>)
  datatype PendingWrite = PendingWrite(owner: MshrId, addr: LineAddr, data: Line, landed: bool)

  /** The bytes of a store. */
  datatype StoreBytes = StoreBytes(data: Line, mask: Mask)

  /**
   s: the hardware; mem: main memory; pendingReads, pendingWrites: outstanding transactions by serial;
   flat: the flat memory; want: the store that allocated each miss register.
   */
  datatype Sys = Sys(
    s: DCacheState,
    mem: LineAddr -> Line,
    pendingReads: map<Serial, PendingRead>,
    pendingWrites: map<Serial, PendingWrite>,
    flat: LineAddr -> Line,
    want: MshrId -> StoreBytes)

  // ------------------------------------------------------------------ memory

  predicate ReadAccepted(y: Sys, inp: Input)
  {
    MemValid(y.s) && inp.memAck && !MemWE(y.s.mshr(MemSel(y.s)))
  }

  predicate WriteAccepted(y: Sys, inp: Input)
  {
    MemValid(y.s) && inp.memAck && MemWE(y.s.mshr(MemSel(y.s)))
  }

  /** This write reaches memory now. */
  predicate Lands(y: Sys, inp: Input, k: Serial)
  {
    inp.land == Some(k) && k in y.pendingWrites && !y.pendingWrites[k].landed
  }

  predicate LandsAt(y: Sys, inp: Input, a: LineAddr)
  {
    inp.land.Some? && Lands(y, inp, inp.land.value) && y.pendingWrites[inp.land.value].addr == a
  }

  function NextLine(y: Sys, inp: Input, a: LineAddr): Line
  {
    if LandsAt(y, inp, a) then y.pendingWrites[inp.land.value].data else y.mem(a)
  }

  function Sampled(y: Sys, inp: Input, k: Serial): PendingRead
    requires k in y.pendingReads
  {
    if inp.sample == Some(k) && y.pendingReads[k].sampled.None?
    then y.pendingReads[k].(sampled := Some(y.mem(y.pendingReads[k].addr))) else y.pendingReads[k]
  }

  function NextReads(y: Sys, inp: Input): map<Serial, PendingRead>
  {
    (map k | k in y.pendingReads && !(inp.result.Some? && inp.result.value.serial == k) :: Sampled(y, inp, k))
    + if ReadAccepted(y, inp)
      then map[inp.memSerial := PendingRead(MemSel(y.s), MemAddr(y.s.mshr(MemSel(y.s))), None)] else map[]
  }

  function NextWrites(y: Sys, inp: Input): map<Serial, PendingWrite>
  {
    (map k | k in y.pendingWrites && inp.response != Some(k) ::
      y.pendingWrites[k].(landed := y.pendingWrites[k].landed || Lands(y, inp, k)))
    + if WriteAccepted(y, inp)
      then map[inp.memWSerial := PendingWrite(MemSel(y.s), MemAddr(y.s.mshr(MemSel(y.s))),
                                              y.s.mshr(MemSel(y.s)).line, false)] else map[]
  }

  // ------------------------------------------------------------------ flat memory

  function StoreReqNow(s: DCacheState): Request { s.port(s.outTag(STORE)).req }

  /** A store that hits takes effect in its TAG stage. */
  function AfterHitStore(y: Sys, a: LineAddr): Line
  {
    if StoreHit(y.s) && y.s.store.addr == a
    then Merge(y.flat(a), StoreReqNow(y.s).dataIn, StoreReqNow(y.s).dataMask) else y.flat(a)
  }

  predicate MergesAt(y: Sys, m: MshrId, a: LineAddr)
  {
    y.s.mshr(m).phase.MissMergeStoreData? && y.s.mshr(m).newAddr == a
  }

  /** A store that missed takes effect in the merge step of its miss register. */
  function AfterMerges(y: Sys, n: nat, a: LineAddr): Line
    requires n <= MSHR_NUM
  {
    if n == 0 then AfterHitStore(y, a)
    else if MergesAt(y, n - 1, a) then Merge(AfterMerges(y, n - 1, a), y.want(n - 1).data, y.want(n - 1).mask)
    else AfterMerges(y, n - 1, a)
  }

  function NextFlatLine(y: Sys, a: LineAddr): Line { AfterMerges(y, MSHR_NUM, a) }

  function NextWant(y: Sys, m: MshrId): StoreBytes
  {
    if m == StoreSlot(y.s) then StoreBytes(StoreReqNow(y.s).dataIn, StoreReqNow(y.s).dataMask) else y.want(m)
  }

  // ------------------------------------------------------------------ one cycle

  function NextSys(y: Sys, inp: Input): Sys
  {
    Sys(
      Next(y.s, inp),
      (a: LineAddr) => NextLine(y, inp, a),
      NextReads(y, inp),
      NextWrites(y, inp),
      (a: LineAddr) => NextFlatLine(y, a),
      (m: MshrId) => NextWant(y, m))
  }

  /** What the cache relies on in one cycle. */
  ghost predicate EnvOk(y: Sys, inp: Input)
  {
    // outstanding serials are unique
    && (ReadAccepted(y, inp) ==> inp.memSerial !in y.pendingReads)
    && (WriteAccepted(y, inp) ==> inp.memWSerial !in y.pendingWrites)
    // memory answers a read with what it sampled, and a write after it landed
    && (inp.result.Some? && inp.result.value.serial in y.pendingReads ==>
          y.pendingReads[inp.result.value.serial].sampled == Some(inp.result.value.data))
    && (inp.response.Some? && inp.response.value in y.pendingWrites ==> y.pendingWrites[inp.response.value].landed)
    // the store committer holds the data of a missed store until it is merged
    && (forall m: MshrId :: y.s.mshr(m).phase.MissMergeStoreData? ==>
          y.want(m) == StoreBytes(inp.storeData, inp.storeMask))
    // a flush is accepted only in a one-way cache with no load or store in flight
    && (inp.flushReq && FlushAck(y.s) ==>
          && WAY_NUM == 1
          && !y.s.loadGranted && !y.s.storeGranted
          && !CacheGrant(y.s, inp, LOAD) && !CacheGrant(y.s, inp, STORE))
  }

  /** After reset the flat memory is main memory and nothing is outstanding. */
  ghost predicate InitSys(y: Sys)
  {
    IsReset(y.s) && y.pendingReads == map[] && y.pendingWrites == map[] && forall a: LineAddr :: y.flat(a) == y.mem(a)
  }

  ghost predicate CycleOk(ys: seq<Sys>, inputs: seq<Input>, k: nat)
    requires |ys| == |inputs| + 1 && k < |inputs|
  {
    EnvOk(ys[k], inputs[k]) && ys[k + 1] == NextSys(ys[k], inputs[k])
  }

  /** A run from reset: every state follows the one before under an input that meets EnvOk. */
  ghost predicate Run(ys: seq<Sys>, inputs: seq<Input>)
  {
    && |ys| == |inputs| + 1
    && InitSys(ys[0])
    && forall k: nat :: k < |inputs| ==> CycleOk(ys, inputs, k)
  }
}
