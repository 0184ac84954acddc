/** What holds of the instruction cache in every run. */
module ICacheTheorems {
  import opened Common
  import opened Nru
  import opened ICacheModel

  // ------------------------------------------------------------------ the invariant

  ghost predicate FlagsOk(s: ICacheState)
  {
    && s.flush == (s.phase.FlushPrepare? || s.phase.FlushProcessing?)
    && s.flushStart == s.phase.FlushPrepare?
    && s.flushReqAck == s.phase.ReadCache?
    && s.missValid == s.phase.MissReadMemRequest?
  }

  predicate Holds(e: Entry, tag: Tag) { e.valid && e.tag == tag }

  /** No two ways of a set hold the same tag. */
  ghost predicate DistinctTags(row: Way -> Entry)
  {
    forall w: Way, x: Way :: w != x && row(w).valid && row(x).valid ==> row(w).tag != row(x).tag
  }

  function Row(s: ICacheState, i: Index): Way -> Entry { (w: Way) => s.ram(i, w) }

  ghost predicate AllInvalidBelow(s: ICacheState, n: nat) { forall i: Index, w: Way :: i < n ==> !s.ram(i, w).valid }

  /** Outside a flush a valid entry is the memory line of its address. */
  ghost predicate EntryOk(y: ICacheSys, i: Index, w: Way)
  {
    y.s.ram(i, w).valid && !y.s.phase.Flushing() ==> y.s.ram(i, w).line == y.mem(LineAddr(y.s.ram(i, w).tag, i))
  }

  /** The missed line is not in its set until it is filled. */
  ghost predicate MissAbsent(s: ICacheState)
  {
    s.phase.MissReadMemRequest? || s.phase.MissReadMemReceive? ==>
      forall w: Way :: !Holds(s.ram(s.missIndex, w), s.missTag)
  }

  predicate SameEntry(e: Entry, f: Entry) { e.valid == f.valid && (e.valid ==> e == f) }

  /** When the cache is read its read registers show the set of the address that is read. */
  ghost predicate ReadFresh(y: ICacheSys)
  {
    y.s.phase.ReadCache? ==> forall w: Way :: SameEntry(y.s.readOut(w), y.s.ram(y.expected.index, w))
  }

  ghost predicate FlushOk(s: ICacheState)
  {
    && (s.phase.FlushProcessing? ==> AllInvalidBelow(s, s.rstIndex))
    && (s.phase.FlushComplete? ==> AllInvalidBelow(s, INDEX_NUM))
  }

  ghost predicate NruOk(s: ICacheState)
  {
    WAY_NUM > 1 ==> s.readNru != AllOnes(WAY_NUM) && forall i: Index :: s.nru(i) != AllOnes(WAY_NUM)
  }

  ghost predicate Inv(y: ICacheSys)
  {
    && FlagsOk(y.s) && NruOk(y.s) && MissAbsent(y.s) && FlushOk(y.s)
    && DistinctTags(y.s.readOut) && (forall i: Index :: DistinctTags(Row(y.s, i)))
    && ReadFresh(y) && (forall i: Index, w: Way :: EntryOk(y, i, w))
    && (y.s.phase.MissReadMemReceive? ==> y.pending == Some(LineAddr(y.s.missTag, y.s.missIndex)))
  }

  // ------------------------------------------------------------------ it is kept

  lemma ResetInv(y: ICacheSys)
    requires Reset(y.s) && y.pending == None
    ensures Inv(y)
  {
    assert AllOnes(WAY_NUM)[0];
    forall i: Index ensures y.s.nru(i) != AllOnes(WAY_NUM) { assert !y.s.nru(i)[0]; }
    assert !y.s.readNru[0];
  }

  lemma FlagsStep(y: ICacheSys, inp: ICacheInput, y2: ICacheSys)
    requires FlagsOk(y.s) && Step(y, inp, y2)
    ensures FlagsOk(y2.s)
  {
  }

  lemma NruStep(y: ICacheSys, inp: ICacheInput, y2: ICacheSys)
    requires NruOk(y.s) && Step(y, inp, y2)
    ensures NruOk(y2.s)
  {
    NeverAllOnes(y.s.readNru, HitWay(y.s, inp));
    var cleared := seq(WAY_NUM, _ => false);
    assert !cleared[0] && AllOnes(WAY_NUM)[0];
  }

  /** A set changes only by the fill of its missed line or by the sweep of a flush. */
  lemma RowStep(y: ICacheSys, inp: ICacheInput, y2: ICacheSys, i: Index)
    requires Inv(y) && Step(y, inp, y2)
    ensures DistinctTags(Row(y2.s, i))
  {
    assert DistinctTags(Row(y.s, i));
    forall w: Way
      ensures Row(y2.s, i)(w) == WriteEntry(y.s, inp, y.s.ram(i, w), i, w) && Row(y.s, i)(w) == y.s.ram(i, w)
    {
    }
    if Received(y.s, inp) && i == y.s.missIndex {
      assert forall w: Way :: !Holds(y.s.ram(i, w), y.s.missTag);
    }
  }

  lemma MissStep(y: ICacheSys, inp: ICacheInput, y2: ICacheSys)
    requires Inv(y) && Step(y, inp, y2)
    ensures MissAbsent(y2.s)
  {
    if StartsMiss(y.s, inp) {
      forall w: Way ensures !Holds(y2.s.ram(y2.s.missIndex, w), y2.s.missTag)
      {
        assert !WayHits(y.s, inp)(w);
        assert y2.s.ram(y2.s.missIndex, w) == WriteEntry(y.s, inp, y.s.ram(y2.s.missIndex, w), y2.s.missIndex, w);
      }
    } else if y2.s.phase.MissReadMemRequest? || y2.s.phase.MissReadMemReceive? {
      forall w: Way ensures !Holds(y2.s.ram(y2.s.missIndex, w), y2.s.missTag)
      {
        assert !Holds(y.s.ram(y.s.missIndex, w), y.s.missTag);
        assert y2.s.ram(y2.s.missIndex, w) == WriteEntry(y.s, inp, y.s.ram(y2.s.missIndex, w), y2.s.missIndex, w);
      }
    }
  }

  lemma FlushStep(y: ICacheSys, inp: ICacheInput, y2: ICacheSys)
    requires FlagsOk(y.s) && FlushOk(y.s) && Step(y, inp, y2)
    ensures FlushOk(y2.s)
  {
    forall i: Index, w: Way
      ensures y2.s.ram(i, w) == WriteEntry(y.s, inp, y.s.ram(i, w), i, w)
    {
    }
  }

  lemma EntryStep(y: ICacheSys, inp: ICacheInput, y2: ICacheSys, i: Index, w: Way)
    requires Inv(y) && Step(y, inp, y2)
    ensures EntryOk(y2, i, w)
  {
    assert EntryOk(y, i, w);
    assert y2.s.ram(i, w) == WriteEntry(y.s, inp, y.s.ram(i, w), i, w);
    if y.s.phase.FlushComplete? { assert !y.s.ram(i, w).valid; }
  }

  lemma FreshStep(y: ICacheSys, inp: ICacheInput, y2: ICacheSys)
    requires FlagsOk(y.s) && Step(y, inp, y2)
    ensures ReadFresh(y2)
  {
    if y2.s.phase.ReadCache? {
      forall w: Way ensures SameEntry(y2.s.readOut(w), y2.s.ram(y2.expected.index, w))
      {
        assert y2.s.ram(y2.expected.index, w) ==
               WriteEntry(y.s, inp, y.s.ram(y2.expected.index, w), y2.expected.index, w);
      }
    }
  }

  lemma InvStep(y: ICacheSys, inp: ICacheInput, y2: ICacheSys)
    requires Inv(y) && Step(y, inp, y2)
    ensures Inv(y2)
  {
    FlagsStep(y, inp, y2);
    NruStep(y, inp, y2);
    MissStep(y, inp, y2);
    FlushStep(y, inp, y2);
    FreshStep(y, inp, y2);
    forall i: Index ensures DistinctTags(Row(y2.s, i)) { RowStep(y, inp, y2, i); }
    forall i: Index, w: Way ensures EntryOk(y2, i, w) { EntryStep(y, inp, y2, i, w); }
    assert DistinctTags(Row(y.s, inp.nextReadAddr.index));
    assert forall w: Way :: y2.s.readOut(w) == Row(y.s, inp.nextReadAddr.index)(w);
  }

  lemma {:induction false} RunInv(ys: seq<ICacheSys>, inputs: seq<ICacheInput>, k: nat)
    requires Run(ys, inputs) && k < |ys|
    ensures Inv(ys[k])
  {
    if k == 0 { ResetInv(ys[0]); }
    else {
      RunInv(ys, inputs, k - 1);
      assert StepAt(ys, inputs, k - 1);
      InvStep(ys[k - 1], inputs[k - 1], ys[k]);
    }
  }

  // ------------------------------------------------------------------ main results

  lemma OneHolder(row: Way -> Entry, w: Way, x: Way, tag: Tag)
    requires DistinctTags(row) && Holds(row(w), tag) && Holds(row(x), tag)
    ensures w == x
  {
  }

  /** The hit vector is one-hot or zero. */
  lemma HitOneHot(ys: seq<ICacheSys>, inputs: seq<ICacheInput>, k: nat, w: Way, x: Way)
    requires Run(ys, inputs) && k < |inputs| && WayHit(ys[k].s, inputs[k], w) && WayHit(ys[k].s, inputs[k], x)
    ensures w == x && w == HitWay(ys[k].s, inputs[k])
  {
    RunInv(ys, inputs, k);
    var h := HitWay(ys[k].s, inputs[k]);
    assert WayHits(ys[k].s, inputs[k])(w);
    assert WayHit(ys[k].s, inputs[k], h);
    OneHolder(ys[k].s.readOut, w, h, inputs[k].readAddr.tag);
    OneHolder(ys[k].s.readOut, x, h, inputs[k].readAddr.tag);
  }

  /** The lanes that can be on the line of the head are the ones that the top bit of the counter admits. */
  lemma LanesWithinLine(head: InsnIndex, lane: nat)
    requires lane < FETCH_WIDTH <= LINE_INSN_NUM + 1
    ensures HitOut(true, head, lane) <==> head + lane < LINE_INSN_NUM
  {
    assert head + lane < 2 * LINE_INSN_NUM;
    Common.SmallMod(head + lane, 2 * LINE_INSN_NUM);
  }

  /**
   The hit lanes of every fetch form a prefix that ends at the line boundary if and only if a fetch
   group is at most one instruction wider than a line.
   */
  lemma HitLanesPrefix()
    ensures (forall head: InsnIndex, lane: nat :: lane < FETCH_WIDTH ==>
               (HitOut(true, head, lane) <==> head + lane < LINE_INSN_NUM))
            <==> FETCH_WIDTH <= LINE_INSN_NUM + 1
  {
    if FETCH_WIDTH <= LINE_INSN_NUM + 1 {
      forall head: InsnIndex, lane: nat | lane < FETCH_WIDTH
        ensures HitOut(true, head, lane) <==> head + lane < LINE_INSN_NUM
      {
        LanesWithinLine(head, lane);
      }
    } else {
      var head: InsnIndex := LINE_INSN_NUM - 1;
      assert (head + (LINE_INSN_NUM + 1)) == 2 * LINE_INSN_NUM;
      assert HitOut(true, head, LINE_INSN_NUM + 1);
    }
  }

  /** In every run, a lane that is reported as a hit delivers the memory word at its address. */
  lemma FetchDeliversMemory(ys: seq<ICacheSys>, inputs: seq<ICacheInput>, k: nat, lane: nat)
    requires Run(ys, inputs) && k < |inputs| && lane < FETCH_WIDTH <= LINE_INSN_NUM + 1
    requires ReadHit(ys[k].s, inputs[k], lane)
    ensures var a := inputs[k].readAddr;
            && a.head + lane < LINE_INSN_NUM
            && ReadData(ys[k].s, inputs[k], lane) == ys[k].mem(LineAddr(a.tag, a.index))[a.head + lane]
  {
    RunInv(ys, inputs, k);
    assert StepAt(ys, inputs, k);
    var s, a := ys[k].s, inputs[k].readAddr;
    LanesWithinLine(a.head, lane);
    Common.SmallMod(a.head + lane, LINE_INSN_NUM);
    var w := HitWay(s, inputs[k]);
    assert WayHit(s, inputs[k], w);
    assert SameEntry(s.readOut(w), s.ram(a.index, w)) && EntryOk(ys[k], a.index, w);
  }

  /** With more than one way no access-bit vector is ever all ones, so every fill evicts exactly one way. */
  lemma NruLeavesOne(ys: seq<ICacheSys>, inputs: seq<ICacheInput>, k: nat)
    requires Run(ys, inputs) && k < |ys| && WAY_NUM > 1
    ensures forall i: Index :: ys[k].s.nru(i) != AllOnes(WAY_NUM)
    ensures DecideWayToEvict(ys[k].s.readNru) == OneHot(WAY_NUM, WayToEvict(ys[k].s.readNru))
  {
    RunInv(ys, inputs, k);
    EvictsExactlyOne(ys[k].s.readNru);
  }

  /** A flush ends with every entry invalid. */
  lemma FlushInvalidatesAll(ys: seq<ICacheSys>, inputs: seq<ICacheInput>, k: nat, i: Index, w: Way)
    requires Run(ys, inputs) && k < |ys| && ys[k].s.phase.FlushComplete?
    ensures !ys[k].s.ram(i, w).valid
  {
    RunInv(ys, inputs, k);
  }

  /** The registered acknowledge is set exactly while the cache is in its reading phase. */
  lemma AckIffReading(ys: seq<ICacheSys>, inputs: seq<ICacheInput>, k: nat)
    requires Run(ys, inputs) && k < |ys|
    ensures ys[k].s.flushReqAck <==> ys[k].s.phase == ReadCache
  {
    RunInv(ys, inputs, k);
  }

  // ------------------------------------------------------------------ how long a flush takes

  lemma SweepStep(ys: seq<ICacheSys>, inputs: seq<ICacheInput>, k: nat)
    requires Run(ys, inputs) && k < |inputs|
    ensures ys[k].s.phase.FlushPrepare? ==> ys[k + 1].s.phase.FlushProcessing? && ys[k + 1].s.rstIndex == 0
    ensures ys[k].s.phase.FlushProcessing? && !AtLastIndex(ys[k].s.rstIndex) ==>
              ys[k + 1].s.phase.FlushProcessing? && ys[k + 1].s.rstIndex == ys[k].s.rstIndex + 1
    ensures ys[k].s.phase.FlushProcessing? && AtLastIndex(ys[k].s.rstIndex) ==> ys[k + 1].s.phase.FlushComplete?
  {
    RunInv(ys, inputs, k);
    assert StepAt(ys, inputs, k);
  }

  lemma {:induction false} SweepIndex(ys: seq<ICacheSys>, inputs: seq<ICacheInput>, j: nat, n: nat)
    requires Run(ys, inputs) && j + 1 + n < |ys| && n < INDEX_NUM && ys[j].s.phase.FlushPrepare?
    ensures ys[j + 1 + n].s.phase.FlushProcessing? && ys[j + 1 + n].s.rstIndex == n
    decreases n
  {
    if n > 0 { SweepIndex(ys, inputs, j, n - 1); }
    SweepStep(ys, inputs, j + n);
  }

  /** A flush is complete exactly one cycle for every line after its preparation, whatever happens meanwhile. */
  lemma FlushTakesOneCycleALine(ys: seq<ICacheSys>, inputs: seq<ICacheInput>, j: nat, n: nat)
    requires Run(ys, inputs) && 0 < n <= INDEX_NUM + 1 && j + n < |ys| && ys[j].s.phase.FlushPrepare?
    ensures ys[j + n].s.phase == if n <= INDEX_NUM then FlushProcessing else FlushComplete
  {
    SweepIndex(ys, inputs, j, if n <= INDEX_NUM then n - 1 else INDEX_NUM - 1);
    if n == INDEX_NUM + 1 { SweepStep(ys, inputs, j + INDEX_NUM); }
  }
}
