/**
 The tag, data, dirty and replacement RAMs of DCacheArray and their write ports.
 */
module DCacheArrayUnit {
  import opened CacheTypes
  import opened DCacheModel
  import opened DCacheUnits
  import TreeLru

  class DCacheArray {
    const tag: array2<TagEntry>
    const data: array2<Line>
    const dirty: array2<bool>
    const repl: array<LruState>

    ghost predicate Sized()
    {
      && tag.Length0 == data.Length0 == dirty.Length0 == repl.Length == INDEX_NUM
      && tag.Length1 == data.Length1 == dirty.Length1 == WAY_NUM
    }

    ghost predicate Holds(s: DCacheState)
      reads tag, data, dirty, repl
    {
      && Sized()
      && (forall i: Index, w: Way :: tag[i, w] == s.tag(i, w))
      && (forall i: Index, w: Way :: data[i, w] == s.data(i, w) && dirty[i, w] == s.dirty(i, w))
      && (forall i: Index :: repl[i] == s.repl(i))
    }

    /** A write port of the tag RAM of every way. */
    method WriteTags(q: Request)
      requires Sized()
      modifies tag
      ensures forall i: Index, w: Way :: tag[i, w] == WriteTag(old(tag[i, w]), q, i, w)
    {
      for way := 0 to WAY_NUM
        invariant forall i: Index, w: Way ::
                    tag[i, w] == if w < way then WriteTag(old(tag[i, w]), q, i, w) else old(tag[i, w])
      {
        if q.tagWE && way == q.evictWay { tag[q.addr.index, way] := TagEntry(q.tagValidIn, q.addr.tag); }
      }
    }

    /** A write port of the data and dirty RAMs of every way. */
    method WriteLine(s: DCacheState, p: PortId)
      requires Sized()
      modifies data, dirty
      ensures forall i: Index, w: Way :: data[i, w] == WriteData(s, p, old(data[i, w]), i, w)
      ensures forall i: Index, w: Way :: dirty[i, w] == WriteDirty(s, p, old(dirty[i, w]), i, w)
    {
      var q := s.port(p).req;
      var isHit, hitWay := DetectHit(s, p);
      var we, writeWay := q.dataWE || (q.dataWEOnTagHit && isHit), if q.tagWE then q.evictWay else hitWay;
      WriteBytes(s, p, we, writeWay);
      WriteDirtyBits(s, p, we, writeWay);
    }

    /** The write enable and the way that port p drives. */
    ghost predicate Drives(s: DCacheState, p: PortId, we: bool, way: Way)
    {
      forall i: Index, w: Way :: DataWrite(s, p, i, w) == (we && i == s.port(p).req.addr.index && w == way)
    }

    method WriteBytes(s: DCacheState, p: PortId, we: bool, writeWay: Way)
      requires Sized() && Drives(s, p, we, writeWay)
      modifies data
      ensures forall i: Index, w: Way :: data[i, w] == WriteData(s, p, old(data[i, w]), i, w)
    {
      var q := s.port(p).req;
      for way := 0 to WAY_NUM
        invariant forall i: Index, w: Way ::
                    data[i, w] == if w < way then WriteData(s, p, old(data[i, w]), i, w) else old(data[i, w])
      {
        if we && writeWay == way {
          var bytes := new bv8[LINE_BYTE_NUM];
          MergeStoreDataToLine(bytes, data[q.addr.index, way], q.dataIn, q.dataMask);
          data[q.addr.index, way] := bytes[..];
        }
      }
    }

    method WriteDirtyBits(s: DCacheState, p: PortId, we: bool, writeWay: Way)
      requires Sized() && Drives(s, p, we, writeWay)
      modifies dirty
      ensures forall i: Index, w: Way :: dirty[i, w] == WriteDirty(s, p, old(dirty[i, w]), i, w)
    {
      for way := 0 to WAY_NUM
        invariant forall i: Index, w: Way ::
                    dirty[i, w] == if w < way then WriteDirty(s, p, old(dirty[i, w]), i, w) else old(dirty[i, w])
      {
        if we && writeWay == way { dirty[s.port(p).req.addr.index, way] := s.port(p).req.dirtyIn; }
      }
    }

    /** A write port of the replacement RAMs, one per bit. */
    method WriteReplacement(s: DCacheState, p: PortId)
      requires Sized()
      modifies repl
      ensures forall i: Index :: repl[i] == WriteRepl(s, p, old(repl[i]), i)
    {
      var q := s.port(p).req;
      var isHit, hitWay := DetectHit(s, p);
      var same := p == 1 && s.port(0).req.addr.index == q.addr.index;
      if !same && (q.tagWE || (!q.isVictimEviction && isHit)) {
        var row := repl[q.addr.index];
        var bits := new bool[|row|](b requires 0 <= b < |row| => row[b]);
        assert bits[..] == row;
        TreeLru.Record(WAY_BITS, bits, if q.tagWE then q.evictWay else hitWay);
        repl[q.addr.index] := bits[..];
      }
    }

    method ClockTags(s: DCacheState, inp: Input)
      requires Sized() && forall i: Index, w: Way :: tag[i, w] == s.tag(i, w)
      modifies tag
      ensures forall i: Index, w: Way :: tag[i, w] == NextTag(s, inp, i, w)
    {
      WriteTags(AddrReq(s, inp, 0));
      WriteTags(AddrReq(s, inp, 1));
    }

    method ClockLines(s: DCacheState)
      requires Sized() && forall i: Index, w: Way :: data[i, w] == s.data(i, w) && dirty[i, w] == s.dirty(i, w)
      modifies data, dirty
      ensures forall i: Index, w: Way :: data[i, w] == NextData(s, i, w) && dirty[i, w] == NextDirty(s, i, w)
    {
      WriteLine(s, 0);
      WriteLine(s, 1);
    }

    method ClockReplacement(s: DCacheState)
      requires Sized() && forall i: Index :: repl[i] == s.repl(i)
      modifies repl
      ensures forall i: Index :: repl[i] == NextRepl(s, i)
    {
      WriteReplacement(s, 0);
      WriteReplacement(s, 1);
    }

    /** The RAMs when the clock edge has passed, as the model's next state gives them. */
    lemma HoldsNext(s: DCacheState, inp: Input)
      requires Sized()
      requires forall i: Index, w: Way :: tag[i, w] == NextTag(s, inp, i, w)
      requires forall i: Index, w: Way :: data[i, w] == NextData(s, i, w) && dirty[i, w] == NextDirty(s, i, w)
      requires forall i: Index :: repl[i] == NextRepl(s, i)
      ensures Holds(Next(s, inp))
    {
    }

    method Clock(s: DCacheState, inp: Input)
      requires Holds(s)
      modifies tag, data, dirty, repl
      ensures Holds(Next(s, inp))
    {
      ClockTags(s, inp);
      ClockLines(s);
      ClockReplacement(s);
      HoldsNext(s, inp);
    }
  }
}
