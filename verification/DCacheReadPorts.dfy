/**
 The read side of an array port: the read registers of its RAMs, the way that was hit, and the way select
 that follows a cycle later.
 */
module DCacheReadPortUnit {
  import opened CacheTypes
  import opened DCacheModel
  import opened DCacheUnits
  import opened DCacheArrayUnit
  import TreeLru

  class DCacheReadPort {
    const tagOut: array<TagEntry>
    const dataOut: array<Line>
    const dirtyOut: array<bool>
    var replOut: LruState
    var dataArrayReadWayReg: Way
    var dataArrayDoesReadEvictedWayReg: bool

    ghost predicate Sized()
    {
      tagOut.Length == dataOut.Length == dirtyOut.Length == WAY_NUM
    }

    ghost predicate HoldsRows(port: Port)
      requires Sized()
      reads tagOut, dataOut, dirtyOut
    {
      forall w: Way :: tagOut[w] == port.tagOut(w) && dataOut[w] == port.dataOut(w) && dirtyOut[w] == port.dirtyOut(w)
    }

    ghost predicate Holds(port: Port)
      reads this, tagOut, dataOut, dirtyOut
    {
      && Sized() && HoldsRows(port) && replOut == port.replOut
      && dataArrayReadWayReg == port.readWay && dataArrayDoesReadEvictedWayReg == port.readsEvicted
    }

    /** The rows of one index of the tag RAMs, and of another one of the data and dirty RAMs. */
    method ReadRows(a: DCacheArray, tagIndex: Index, dataIndex: Index)
      requires Sized() && a.Sized()
      modifies tagOut, dataOut, dirtyOut
      ensures forall w: Way ::
        tagOut[w] == a.tag[tagIndex, w] && dataOut[w] == a.data[dataIndex, w] && dirtyOut[w] == a.dirty[dataIndex, w]
    {
      for way := 0 to WAY_NUM
        invariant forall w: Way :: w < way ==>
          tagOut[w] == a.tag[tagIndex, w] && dataOut[w] == a.data[dataIndex, w] && dirtyOut[w] == a.dirty[dataIndex, w]
      {
        tagOut[way] := a.tag[tagIndex, way];
        dataOut[way] := a.data[dataIndex, way];
        dirtyOut[way] := a.dirty[dataIndex, way];
      }
    }

    /** The clock edge: what the RAMs held before it, whatever is written in the same cycle. */
    method Clock(a: DCacheArray, s: DCacheState, inp: Input, p: PortId)
      requires Sized() && a.Holds(s)
      modifies this, tagOut, dataOut, dirtyOut
      ensures Holds(Next(s, inp).port(p))
    {
      var isHit, hitWay := DetectHit(s, p);
      var dataIndex := s.port(p).req.addr.index;
      ReadRows(a, AddrReq(s, inp, p).addr.index, dataIndex);
      replOut := a.repl[dataIndex];
      dataArrayReadWayReg := hitWay;
      dataArrayDoesReadEvictedWayReg := s.port(p).req.isVictimEviction;
      assert Next(s, inp).port(p) == NextPort(s, inp, p);
    }

    /** Line and dirty bit of the selected way, and the way to evict. */
    method Select(port: Port) returns (line: Line, isDirty: bool, evicted: Way)
      requires Holds(port)
      ensures line == DataOut(port) && isDirty == DirtyOut(port) && evicted == ReplOut(port)
    {
      evicted := TreeLru.CalcEvictedWay(WAY_BITS, replOut);
      var way := if dataArrayDoesReadEvictedWayReg then evicted else dataArrayReadWayReg;
      line := dataOut[way];
      isDirty := dirtyOut[way];
    }
  }
}
