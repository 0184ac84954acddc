/** ICache.sv in the form it is written in: registers and RAMs updated at the clock edge, loops over ways and lanes. */
module ICacheUnits {
  import opened Common
  import opened Nru
  import opened ICacheModel

  /** Lane by lane: a lane whose counter has its top bit set lies on another line. */
  method HitLogic(hitIn: bool, head: InsnIndex) returns (hitOut: seq<bool>)
    ensures |hitOut| == FETCH_WIDTH
    ensures forall lane: nat :: lane < FETCH_WIDTH ==> hitOut[lane] == HitOut(hitIn, head, lane)
  {
    hitOut := seq(FETCH_WIDTH, _ => false);
    for i := 0 to FETCH_WIDTH
      invariant |hitOut| == FETCH_WIDTH
      invariant forall lane: nat :: lane < i ==> hitOut[lane] == HitOut(hitIn, head, lane)
    {
      var wordPtr := (head + i) % (2 * LINE_INSN_NUM);
      hitOut := hitOut[i := if wordPtr >= LINE_INSN_NUM then false else hitIn];
    }
  }

  /** The position of the first set bit of a one-hot vector, 0 when there is none. */
  method FirstSet(bits: seq<bool>) returns (way: nat)
    ensures way == if FirstIndex(BitAt(bits), |bits|) < |bits| then FirstIndex(BitAt(bits), |bits|) else 0
  {
    way := 0;
    for i := 0 to |bits|
      invariant way == 0 && forall j: nat :: j < i ==> !bits[j]
    {
      if bits[i] {
        FirstIndexIs(BitAt(bits), |bits|, i);
        return i;
      }
    }
    FirstIndexIs(BitAt(bits), |bits|, |bits|);
  }

  class ICache {
    const ram: array2<Entry>
    const nru: array<NruState>
    const readOut: array<Entry>
    var readNru: NruState
    var regPhase: ICachePhase
    var regMissValid: bool
    var regMissIndex: Index
    var regMissTag: Tag
    var regSerial: Serial
    var regFlush: bool
    var regFlushStart: bool
    var regFlushReqAck: bool
    var rstIndex: Index

    ghost predicate Sized()
    {
      ram.Length0 == nru.Length == INDEX_NUM && ram.Length1 == readOut.Length == WAY_NUM
    }

    ghost predicate HoldsControl(s: ICacheState)
      reads this
    {
      && regPhase == s.phase && regMissValid == s.missValid && regMissIndex == s.missIndex && regMissTag == s.missTag
      && regSerial == s.serial && regFlush == s.flush && regFlushStart == s.flushStart
      && regFlushReqAck == s.flushReqAck
    }

    ghost predicate Holds(s: ICacheState)
      reads this, ram, nru, readOut
    {
      && Sized() && HoldsControl(s) && rstIndex == s.rstIndex && readNru == s.readNru
      && (forall i: Index, w: Way :: ram[i, w] == s.ram(i, w))
      && (forall i: Index :: nru[i] == s.nru(i))
      && (forall w: Way :: readOut[w] == s.readOut(w))
    }

    method DetectHit(ghost s: ICacheState, inp: ICacheInput) returns (hit: bool, hitWay: Way)
      requires Holds(s)
      ensures hit == Hit(s, inp) && hitWay == HitWay(s, inp)
    {
      var hitArray: seq<bool> := [];
      hit := false;
      for i := 0 to WAY_NUM
        invariant |hitArray| == i && hit == AnyIndex(WayHits(s, inp), i)
        invariant forall w: nat :: w < i ==> hitArray[w] == WayHits(s, inp)(w)
      {
        var h := readOut[i].valid && readOut[i].tag == inp.readAddr.tag;
        hitArray := hitArray + [h];
        hit := hit || h;
      }
      hitWay := FirstSet(hitArray);
      var first := FirstIndex(BitAt(hitArray), WAY_NUM);
      assert forall w: nat :: w < WAY_NUM ==> BitAt(hitArray)(w) == WayHits(s, inp)(w);
      FirstIndexIs(WayHits(s, inp), WAY_NUM, first);
    }

    /** What the fetch stage receives. */
    method Read(ghost s: ICacheState, inp: ICacheInput) returns (hits: seq<bool>, data: seq<Insn>)
      requires Holds(s)
      ensures |hits| == |data| == FETCH_WIDTH
      ensures forall i: nat :: i < FETCH_WIDTH ==> hits[i] == ReadHit(s, inp, i) && data[i] == ReadData(s, inp, i)
    {
      var hit, hitWay := DetectHit(s, inp);
      hits := HitLogic(hit && regPhase.ReadCache? && inp.re, inp.readAddr.head);
      data := [];
      for i := 0 to FETCH_WIDTH
        invariant |data| == i && forall j: nat :: j < i ==> data[j] == ReadData(s, inp, j)
      {
        data := data + [readOut[hitWay].line[(inp.readAddr.head + i) % LINE_INSN_NUM]];
      }
    }

    /** The ports of the ways: every RAM delivers its old contents and then takes the write. */
    method ClockWays(ghost s: ICacheState, inp: ICacheInput)
      requires Holds(s)
      modifies ram, readOut
      ensures forall i: Index, w: Way :: ram[i, w] == WriteEntry(s, inp, s.ram(i, w), i, w)
      ensures forall w: Way :: readOut[w] == s.ram(inp.nextReadAddr.index, w)
    {
      var wayToEvict := FirstSet(DecideWayToEvict(readNru));
      var fill := regPhase.MissReadMemReceive? && inp.resultValid && inp.resultSerial == regSerial;
      for way := 0 to WAY_NUM
        invariant forall i: Index, w: Way ::
                    ram[i, w] == if w < way then WriteEntry(s, inp, s.ram(i, w), i, w) else s.ram(i, w)
        invariant forall w: Way :: w < way ==> readOut[w] == s.ram(inp.nextReadAddr.index, w)
      {
        readOut[way] := ram[inp.nextReadAddr.index, way];
        if regFlush { ram[rstIndex, way] := Entry(false, regMissTag, inp.resultLine); }
        else if fill && way == wayToEvict { ram[regMissIndex, way] := Entry(true, regMissTag, inp.resultLine); }
      }
    }

    method ClockNru(ghost s: ICacheState, inp: ICacheInput, hit: bool, hitWay: Way)
      requires Sized() && HoldsControl(s) && rstIndex == s.rstIndex
      requires readNru == s.readNru && forall i: Index :: nru[i] == s.nru(i)
      requires hit == Hit(s, inp) && hitWay == HitWay(s, inp)
      modifies this`readNru, nru
      ensures forall i: Index :: nru[i] == WriteNru(s, inp, s.nru(i), i)
      ensures readNru == s.nru(inp.nextReadAddr.index)
    {
      var updated, read := UpdateNruState(readNru, hitWay), nru[inp.nextReadAddr.index];
      if regFlush { nru[rstIndex] := seq(WAY_NUM, _ => false); }
      else if regPhase.ReadCache? && !inp.flushReq && inp.re && hit { nru[inp.readAddr.index] := updated; }
      readNru := read;
    }

    /** The state machine and the registers that it drives. */
    method ClockControl(ghost s: ICacheState, inp: ICacheInput, hit: bool)
      requires HoldsControl(s) && rstIndex == s.rstIndex && hit == Hit(s, inp)
      modifies this`regPhase, this`regMissValid, this`regMissIndex, this`regMissTag, this`regSerial, this`regFlush,
               this`regFlushStart, this`regFlushReqAck
      ensures HoldsControl(Next(s, inp))
    {
      if regPhase.ReadCache? { ClockRead(s, inp, hit); }
      else if regPhase.Flushing() { ClockFlush(s, inp); }
      else { ClockMiss(s, inp); }
    }

    method ClockRead(ghost s: ICacheState, inp: ICacheInput, hit: bool)
      requires HoldsControl(s) && hit == Hit(s, inp) && regPhase.ReadCache?
      modifies this`regPhase, this`regMissValid, this`regMissIndex, this`regMissTag, this`regFlush,
               this`regFlushStart, this`regFlushReqAck
      ensures HoldsControl(Next(s, inp))
    {
      if inp.flushReq {
        regPhase, regFlushStart, regFlush, regFlushReqAck := FlushPrepare, true, true, false;
      } else if inp.re && !hit {
        regPhase, regMissValid, regFlushReqAck := MissReadMemRequest, true, false;
        regMissIndex, regMissTag := inp.readAddr.index, inp.readAddr.tag;
      }
    }

    method ClockMiss(ghost s: ICacheState, inp: ICacheInput)
      requires HoldsControl(s) && !regPhase.ReadCache? && !regPhase.Flushing()
      modifies this`regPhase, this`regMissValid, this`regSerial, this`regFlushReqAck
      ensures HoldsControl(Next(s, inp))
    {
      if regPhase.MissReadMemRequest? {
        if inp.ack.Some? { regPhase, regMissValid, regSerial := MissReadMemReceive, false, inp.ack.value; }
      } else if regPhase.MissReadMemReceive? {
        if inp.resultValid && inp.resultSerial == regSerial { regPhase := MissWriteCache; }
      } else {
        regFlushReqAck, regPhase := true, ReadCache;
      }
    }

    method ClockFlush(ghost s: ICacheState, inp: ICacheInput)
      requires HoldsControl(s) && rstIndex == s.rstIndex && regPhase.Flushing()
      modifies this`regPhase, this`regMissTag, this`regFlush, this`regFlushStart, this`regFlushReqAck
      ensures HoldsControl(Next(s, inp))
    {
      if regPhase.FlushPrepare? {
        regFlushStart, regMissTag, regPhase := false, 0, FlushProcessing;
      } else if regPhase.FlushProcessing? {
        if rstIndex == INDEX_NUM - 1 { regFlush, regPhase := false, FlushComplete; }
      } else if inp.flushComplete {
        regFlushReqAck, regPhase := true, ReadCache;
      }
    }

    method Clock(ghost s: ICacheState, inp: ICacheInput)
      requires Holds(s)
      modifies this, ram, nru, readOut
      ensures Holds(Next(s, inp))
    {
      var hit, hitWay := DetectHit(s, inp);
      ClockWays(s, inp);
      ClockRest(s, inp, hit, hitWay);
    }

    method ClockRest(ghost s: ICacheState, inp: ICacheInput, hit: bool, hitWay: Way)
      requires Sized() && HoldsControl(s) && rstIndex == s.rstIndex
      requires readNru == s.readNru && forall i: Index :: nru[i] == s.nru(i)
      requires hit == Hit(s, inp) && hitWay == HitWay(s, inp)
      modifies this, nru
      ensures HoldsControl(Next(s, inp)) && readNru == Next(s, inp).readNru && rstIndex == Next(s, inp).rstIndex
      ensures forall i: Index :: nru[i] == Next(s, inp).nru(i)
    {
      var nextRstIndex: Index := if regFlushStart || rstIndex == INDEX_NUM - 1 then 0 else rstIndex + 1;
      ClockNru(s, inp, hit, hitWay);
      ClockControl(s, inp, hit);
      rstIndex := nextRstIndex;
    }
  }
}
