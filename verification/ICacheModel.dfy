/**
 One clock cycle of ICache.sv as functions of the registers and the inputs, for any number of ways,
 lines, instructions a line and fetch lanes.
 */
module ICacheModel {
  import opened Common
  import opened Nru

  const WAY_NUM: Positive
  const INDEX_NUM: Positive
  const LINE_INSN_NUM: Positive
  const FETCH_WIDTH: nat

  type Way = w: nat | w < WAY_NUM
  type Index = i: nat | i < INDEX_NUM
  type Tag = nat
  type InsnIndex = n: nat | n < LINE_INSN_NUM
  type Insn = bv32
  type Line = l: seq<Insn> | |l| == LINE_INSN_NUM witness seq(LINE_INSN_NUM, _ => 0)
  type NruState = s: seq<bool> | |s| == WAY_NUM witness seq(WAY_NUM, _ => false)
  type Serial = nat

  /** A fetch address: tag, line index and instruction within the line. */
  datatype FetchAddr = FetchAddr(tag: Tag, index: Index, head: InsnIndex)

  datatype LineAddr = LineAddr(tag: Tag, index: Index)

  datatype Entry = Entry(valid: bool, tag: Tag, line: Line)

  datatype ICachePhase =
    | ReadCache
    | MissReadMemRequest
    | MissReadMemReceive
    | MissWriteCache
    | FlushPrepare
    | FlushProcessing
    | FlushComplete
  {
    predicate Flushing() { FlushPrepare? || FlushProcessing? || FlushComplete? }
  }

  /** readOut and readNru are the read registers of the RAMs. */
  datatype ICacheState = ICacheState(
    phase: ICachePhase,
    ram: (Index, Way) -> Entry,
    nru: Index -> NruState,
    readOut: Way -> Entry,
    readNru: NruState,
    missValid: bool,
    missIndex: Index,
    missTag: Tag,
    serial: Serial,
    flush: bool,
    flushStart: bool,
    flushReqAck: bool,
    rstIndex: Index)

  datatype ICacheInput = ICacheInput(
    re: bool,
    readAddr: FetchAddr,
    nextReadAddr: FetchAddr,
    ack: Option<Serial>,
    resultValid: bool,
    resultSerial: Serial,
    resultLine: Line,
    flushReq: bool,
    flushComplete: bool)

  // ------------------------------------------------------------------ reading

  /** hitArray: the ways whose read register holds the tag that is read. */
  predicate WayHit(s: ICacheState, inp: ICacheInput, w: Way)
  {
    s.readOut(w).valid && s.readOut(w).tag == inp.readAddr.tag
  }

  function WayHits(s: ICacheState, inp: ICacheInput): nat -> bool
  {
    (w: nat) => w < WAY_NUM && WayHit(s, inp, w)
  }

  predicate Hit(s: ICacheState, inp: ICacheInput) { AnyIndex(WayHits(s, inp), WAY_NUM) }

  /** The first way that hits, way 0 when none does. */
  function HitWay(s: ICacheState, inp: ICacheInput): Way
  {
    var w := FirstIndex(WayHits(s, inp), WAY_NUM);
    if w < WAY_NUM then w else 0
  }

  /** The lane counter has one bit more than an index in the line. */
  function WordPtr(head: InsnIndex, lane: nat): nat { (head + lane) % (2 * LINE_INSN_NUM) }

  /** ICacheHitLogic: a set top bit means that the lane lies beyond the line. */
  predicate HitOut(hitIn: bool, head: InsnIndex, lane: nat)
  {
    hitIn && WordPtr(head, lane) < LINE_INSN_NUM
  }

  predicate HitIn(s: ICacheState, inp: ICacheInput) { Hit(s, inp) && s.phase.ReadCache? && inp.re }

  predicate ReadHit(s: ICacheState, inp: ICacheInput, lane: nat)
  {
    HitOut(HitIn(s, inp), inp.readAddr.head, lane)
  }

  function ReadData(s: ICacheState, inp: ICacheInput, lane: nat): Insn
  {
    s.readOut(HitWay(s, inp)).line[(inp.readAddr.head + lane) % LINE_INSN_NUM]
  }

  // ------------------------------------------------------------------ the state machine

  predicate StartsFlush(s: ICacheState, inp: ICacheInput) { s.phase.ReadCache? && inp.flushReq }

  predicate StartsMiss(s: ICacheState, inp: ICacheInput)
  {
    s.phase.ReadCache? && !inp.flushReq && inp.re && !Hit(s, inp)
  }

  predicate Accepted(s: ICacheState, inp: ICacheInput) { s.phase.MissReadMemRequest? && inp.ack.Some? }

  predicate Received(s: ICacheState, inp: ICacheInput)
  {
    s.phase.MissReadMemReceive? && inp.resultValid && inp.resultSerial == s.serial
  }

  predicate AtLastIndex(i: Index) { i == INDEX_NUM - 1 }

  function NextPhase(s: ICacheState, inp: ICacheInput): ICachePhase
  {
    match s.phase
    case ReadCache =>
      if inp.flushReq then FlushPrepare else if inp.re && !Hit(s, inp) then MissReadMemRequest else ReadCache
    case MissReadMemRequest => if inp.ack.Some? then MissReadMemReceive else MissReadMemRequest
    case MissReadMemReceive => if Received(s, inp) then MissWriteCache else MissReadMemReceive
    case MissWriteCache => ReadCache
    case FlushPrepare => FlushProcessing
    case FlushProcessing => if AtLastIndex(s.rstIndex) then FlushComplete else FlushProcessing
    case FlushComplete => if inp.flushComplete then ReadCache else FlushComplete
  }

  /** The write port of one way: during a flush it invalidates the entry at rstIndex. */
  function WriteEntry(s: ICacheState, inp: ICacheInput, was: Entry, i: Index, w: Way): Entry
  {
    if s.flush then (if i == s.rstIndex then Entry(false, s.missTag, inp.resultLine) else was)
    else if Received(s, inp) && w == WayToEvict(s.readNru) && i == s.missIndex
    then Entry(true, s.missTag, inp.resultLine)
    else was
  }

  predicate NruWrite(s: ICacheState, inp: ICacheInput)
  {
    s.phase.ReadCache? && !inp.flushReq && inp.re && Hit(s, inp)
  }

  function WriteNru(s: ICacheState, inp: ICacheInput, was: NruState, i: Index): NruState
  {
    if s.flush then (if i == s.rstIndex then seq(WAY_NUM, _ => false) else was)
    else if NruWrite(s, inp) && i == inp.readAddr.index then UpdateNruState(s.readNru, HitWay(s, inp))
    else was
  }

  function NextReqAck(s: ICacheState, inp: ICacheInput): bool
  {
    if StartsFlush(s, inp) || StartsMiss(s, inp) then false
    else if s.phase.MissWriteCache? || (s.phase.FlushComplete? && inp.flushComplete) then true
    else s.flushReqAck
  }

  /** The RAMs are read before they are written. */
  function Next(s: ICacheState, inp: ICacheInput): ICacheState
  {
    ICacheState(
      NextPhase(s, inp),
      (i: Index, w: Way) => WriteEntry(s, inp, s.ram(i, w), i, w),
      (i: Index) => WriteNru(s, inp, s.nru(i), i),
      (w: Way) => s.ram(inp.nextReadAddr.index, w),
      s.nru(inp.nextReadAddr.index),
      if StartsMiss(s, inp) then true else if Accepted(s, inp) then false else s.missValid,
      if StartsMiss(s, inp) then inp.readAddr.index else s.missIndex,
      if StartsMiss(s, inp) then inp.readAddr.tag else if s.phase.FlushPrepare? then 0 else s.missTag,
      if Accepted(s, inp) then inp.ack.value else s.serial,
      if StartsFlush(s, inp) then true
      else if s.phase.FlushProcessing? && AtLastIndex(s.rstIndex) then false else s.flush,
      if StartsFlush(s, inp) then true else if s.phase.FlushPrepare? then false else s.flushStart,
      NextReqAck(s, inp),
      if s.flushStart || AtLastIndex(s.rstIndex) then 0 else s.rstIndex + 1)
  }

  // ------------------------------------------------------------------ the memory behind it

  /**
   mem: the instruction lines in memory; pending: the line asked for; expected: the address whose set
   was read in the previous cycle.
   */
  datatype ICacheSys = ICacheSys(s: ICacheState, mem: LineAddr -> Line, pending: Option<LineAddr>, expected: FetchAddr)

  /** One cycle; memory may change only while the cache is being flushed. */
  ghost predicate Step(y: ICacheSys, inp: ICacheInput, y2: ICacheSys)
  {
    && inp.readAddr == y.expected
    && (Received(y.s, inp) && y.pending.Some? ==> inp.resultLine == y.mem(y.pending.value))
    && y2.s == Next(y.s, inp)
    && y2.expected == inp.nextReadAddr
    && y2.pending == (if Accepted(y.s, inp) then Some(LineAddr(y.s.missTag, y.s.missIndex))
                      else if Received(y.s, inp) then None else y.pending)
    && (!y.s.phase.Flushing() ==> y2.mem == y.mem)
  }

  /** After reset every entry is invalid and no access bit is set. */
  ghost predicate Reset(s: ICacheState)
  {
    && s.phase == ReadCache && !s.missValid && !s.flush && !s.flushStart && s.flushReqAck
    && (forall i: Index, w: Way :: !s.ram(i, w).valid)
    && (forall w: Way :: !s.readOut(w).valid)
    && (forall i: Index, w: Way :: !s.nru(i)[w])
    && (forall w: Way :: !s.readNru[w])
  }

  ghost predicate StepAt(ys: seq<ICacheSys>, inputs: seq<ICacheInput>, k: nat)
    requires |ys| == |inputs| + 1 && k < |inputs|
  {
    Step(ys[k], inputs[k], ys[k + 1])
  }

  ghost predicate Run(ys: seq<ICacheSys>, inputs: seq<ICacheInput>)
  {
    && |ys| == |inputs| + 1
    && Reset(ys[0].s) && ys[0].pending == None
    && forall k: nat :: k < |inputs| ==> StepAt(ys, inputs, k)
  }
}
