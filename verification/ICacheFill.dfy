/** What a miss of the instruction cache leads to: its line becomes readable, and it stays so. */
module ICacheFill {
  import opened Common
  import opened Nru
  import opened ICacheModel
  import opened ICacheTheorems

  // ------------------------------------------------------------------ from the miss to the line

  /** In cycle j a fetch is not served, and no flush comes before it. */
  predicate Misses(s: ICacheState, inp: ICacheInput)
  {
    s.phase.ReadCache? && !inp.flushReq && inp.re && !ReadHit(s, inp, 0)
  }

  predicate Answers(inp: ICacheInput, serial: Serial) { inp.resultValid && inp.resultSerial == serial }

  /** The fetch of cycle j misses, memory accepts its request in cycle a, and the line arrives in cycle k. */
  ghost predicate MissServed(ys: seq<ICacheSys>, inputs: seq<ICacheInput>, j: nat, a: nat, k: nat)
    requires |ys| == |inputs| + 1
  {
    && j < a < k < |inputs| && Misses(ys[j].s, inputs[j])
    && (forall t: nat :: j < t < a ==> inputs[t].ack.None?)
    && inputs[a].ack.Some?
    && (forall t: nat :: a < t < k ==> !Answers(inputs[t], inputs[a].ack.value))
    && Answers(inputs[k], inputs[a].ack.value)
  }

  /** What the miss registers hold from the cycle after the miss on. */
  predicate Awaits(s: ICacheState, addr: FetchAddr, serial: Option<Serial>)
  {
    && s.missIndex == addr.index && s.missTag == addr.tag
    && if serial.None? then s.phase.MissReadMemRequest? else s.phase.MissReadMemReceive? && s.serial == serial.value
  }

  lemma MissStarts(y: ICacheSys, inp: ICacheInput, y2: ICacheSys)
    requires Step(y, inp, y2) && Misses(y.s, inp)
    ensures Awaits(y2.s, inp.readAddr, None) && y2.mem == y.mem
  {
    Common.SmallMod(inp.readAddr.head, 2 * LINE_INSN_NUM);
  }

  lemma MissGoesOn(y: ICacheSys, inp: ICacheInput, y2: ICacheSys, addr: FetchAddr)
    requires Step(y, inp, y2) && Awaits(y.s, addr, None)
    ensures Awaits(y2.s, addr, inp.ack) && y2.mem == y.mem
  {
  }

  lemma LineAwaited(y: ICacheSys, inp: ICacheInput, y2: ICacheSys, addr: FetchAddr, serial: Serial)
    requires Step(y, inp, y2) && Awaits(y.s, addr, Some(serial)) && !Answers(inp, serial)
    ensures Awaits(y2.s, addr, Some(serial)) && y2.mem == y.mem
  {
  }

  lemma {:induction false} MissPhases(ys: seq<ICacheSys>, inputs: seq<ICacheInput>, j: nat, a: nat, k: nat, t: nat)
    requires Run(ys, inputs) && MissServed(ys, inputs, j, a, k) && j < t <= k
    ensures Awaits(ys[t].s, inputs[j].readAddr, if t <= a then None else inputs[a].ack)
    ensures ys[t].mem == ys[j].mem
    decreases t
  {
    assert StepAt(ys, inputs, t - 1);
    if t == j + 1 {
      MissStarts(ys[j], inputs[j], ys[t]);
    } else {
      MissPhases(ys, inputs, j, a, k, t - 1);
      if t - 1 <= a { MissGoesOn(ys[t - 1], inputs[t - 1], ys[t], inputs[j].readAddr); }
      else { LineAwaited(ys[t - 1], inputs[t - 1], ys[t], inputs[j].readAddr, inputs[a].ack.value); }
    }
  }

  // ------------------------------------------------------------------ the line is there

  /** Way w, and no other of the set, holds the line of this address, and it is what memory holds. */
  ghost predicate Present(y: ICacheSys, addr: FetchAddr, w: Way)
  {
    && Holds(y.s.ram(addr.index, w), addr.tag)
    && y.s.ram(addr.index, w).line == y.mem(LineAddr(addr.tag, addr.index))
    && forall x: Way :: x != w ==> !Holds(y.s.ram(addr.index, x), addr.tag)
  }

  /** Nothing but way w of index i differs. */
  ghost predicate OnlyChanges(s: ICacheState, t: ICacheState, i: Index, w: Way)
  {
    forall h: Index, x: Way :: h != i || x != w ==> t.ram(h, x) == s.ram(h, x)
  }

  lemma Fills(y: ICacheSys, inp: ICacheInput, y2: ICacheSys, addr: FetchAddr, serial: Serial) returns (w: Way)
    requires Inv(y) && Step(y, inp, y2) && Awaits(y.s, addr, Some(serial)) && Answers(inp, serial)
    ensures Present(y2, addr, w) && OnlyChanges(y.s, y2.s, addr.index, w)
    ensures y2.s.phase.MissWriteCache? && y2.mem == y.mem
    ensures w == WayToEvict(y.s.readNru)
  {
    w := WayToEvict(y.s.readNru);
    assert y2.s.ram(addr.index, w).line == inp.resultLine;
    forall x: Way | x != w ensures !Holds(y2.s.ram(addr.index, x), addr.tag)
    {
      assert !Holds(y.s.ram(addr.index, x), addr.tag);
    }
  }

  /**
   In every run, when the line that a missed fetch waits for arrives, exactly one way of its set holds
   its tag; that way is valid and holds the memory line; no other entry of the cache changes. With
   several ways it is the first one without an access bit in the state read, and reading goes on two
   cycles later.
   */
  lemma FillMakesReadable(ys: seq<ICacheSys>, inputs: seq<ICacheInput>, j: nat, a: nat, k: nat) returns (w: Way)
    requires Run(ys, inputs) && MissServed(ys, inputs, j, a, k)
    ensures Present(ys[k + 1], inputs[j].readAddr, w) && ys[k + 1].mem == ys[j].mem
    ensures OnlyChanges(ys[k].s, ys[k + 1].s, inputs[j].readAddr.index, w)
    ensures WAY_NUM > 1 ==> !ys[k].s.readNru[w] && forall x: Way :: x < w ==> ys[k].s.readNru[x]
    ensures k + 1 < |inputs| ==> ys[k + 2].s.phase.ReadCache?
  {
    RunInv(ys, inputs, k);
    assert StepAt(ys, inputs, k);
    MissPhases(ys, inputs, j, a, k, k);
    w := Fills(ys[k], inputs[k], ys[k + 1], inputs[j].readAddr, inputs[a].ack.value);
    if WAY_NUM > 1 {
      EvictsExactlyOne(ys[k].s.readNru);
      EvictsLowestZero(ys[k].s.readNru, w);
    }
    if k + 1 < |inputs| { assert StepAt(ys, inputs, k + 1); }
  }

  // ------------------------------------------------------------------ it stays there

  /** In this cycle some line arrives for index i. */
  predicate FillsSet(s: ICacheState, inp: ICacheInput, i: Index)
  {
    s.phase.MissReadMemReceive? && Answers(inp, s.serial) && s.missIndex == i
  }

  /** Neither a flush nor a fill of index i from cycle j on, up to cycle k. */
  ghost predicate Undisturbed(ys: seq<ICacheSys>, inputs: seq<ICacheInput>, i: Index, j: nat, k: nat)
    requires |ys| == |inputs| + 1 && j <= k < |ys|
  {
    forall t: nat :: j <= t < k ==> !ys[t].s.phase.Flushing() && !FillsSet(ys[t].s, inputs[t], i)
  }

  lemma PresentStep(y: ICacheSys, inp: ICacheInput, y2: ICacheSys, addr: FetchAddr, w: Way)
    requires Inv(y) && Step(y, inp, y2) && Present(y, addr, w)
    requires !y.s.phase.Flushing() && !FillsSet(y.s, inp, addr.index)
    ensures Present(y2, addr, w)
  {
    forall x: Way ensures y2.s.ram(addr.index, x) == y.s.ram(addr.index, x)
    {
      assert y2.s.ram(addr.index, x) == WriteEntry(y.s, inp, y.s.ram(addr.index, x), addr.index, x);
    }
    forall x: Way | x != w ensures !Holds(y2.s.ram(addr.index, x), addr.tag)
    {
      assert !Holds(y.s.ram(addr.index, x), addr.tag);
    }
  }

  lemma {:induction false} StaysPresent(ys: seq<ICacheSys>, inputs: seq<ICacheInput>, addr: FetchAddr, w: Way, j: nat,
                                        k: nat)
    requires Run(ys, inputs) && j <= k < |ys| && Present(ys[j], addr, w) && Undisturbed(ys, inputs, addr.index, j, k)
    ensures Present(ys[k], addr, w)
    decreases k
  {
    if j < k {
      StaysPresent(ys, inputs, addr, w, j, k - 1);
      RunInv(ys, inputs, k - 1);
      assert StepAt(ys, inputs, k - 1);
      PresentStep(ys[k - 1], inputs[k - 1], ys[k], addr, w);
    }
  }

  // ------------------------------------------------------------------ it is read

  /** A fetch of a line that is present hits in every lane on the line, with the words of memory. */
  lemma PresentHits(y: ICacheSys, inp: ICacheInput, w: Way, lane: nat)
    requires Inv(y) && inp.readAddr == y.expected && Present(y, inp.readAddr, w)
    requires y.s.phase.ReadCache? && inp.re && inp.readAddr.head + lane < LINE_INSN_NUM
    ensures ReadHit(y.s, inp, lane)
    ensures ReadData(y.s, inp, lane) ==
            y.mem(LineAddr(inp.readAddr.tag, inp.readAddr.index))[inp.readAddr.head + lane]
  {
    var a := inp.readAddr;
    Common.SmallMod(a.head + lane, LINE_INSN_NUM);
    Common.SmallMod(a.head + lane, 2 * LINE_INSN_NUM);
    assert SameEntry(y.s.readOut(w), y.s.ram(a.index, w));
    assert WayHits(y.s, inp)(w);
    var h := HitWay(y.s, inp);
    assert WayHit(y.s, inp, h) && SameEntry(y.s.readOut(h), y.s.ram(a.index, h));
  }

  /** The same line, wherever the fetch starts in it. */
  predicate SameLine(a: FetchAddr, b: FetchAddr) { a.tag == b.tag && a.index == b.index }

  /**
   In every run, once the line of a missed fetch has arrived, a later fetch from it hits in every lane on
   the line and gets the words of memory, as long as there was no flush and no fill of its set since.
   */
  lemma RefetchHits(ys: seq<ICacheSys>, inputs: seq<ICacheInput>, j: nat, a: nat, k: nat, m: nat, lane: nat)
    requires Run(ys, inputs) && MissServed(ys, inputs, j, a, k) && k < m < |inputs|
    requires Undisturbed(ys, inputs, inputs[j].readAddr.index, k + 1, m)
    requires ys[m].s.phase.ReadCache? && inputs[m].re && SameLine(inputs[m].readAddr, inputs[j].readAddr)
    requires inputs[m].readAddr.head + lane < LINE_INSN_NUM
    ensures ReadHit(ys[m].s, inputs[m], lane)
    ensures var r := inputs[m].readAddr;
            ReadData(ys[m].s, inputs[m], lane) == ys[m].mem(LineAddr(r.tag, r.index))[r.head + lane]
  {
    var w := FillMakesReadable(ys, inputs, j, a, k);
    StaysPresent(ys, inputs, inputs[j].readAddr, w, k + 1, m);
    RunInv(ys, inputs, m);
    assert StepAt(ys, inputs, m);
    assert Present(ys[m], inputs[m].readAddr, w);
    PresentHits(ys[m], inputs[m], w, lane);
  }

  /** So the fetch that missed is served when it is tried again two cycles after its line arrived. */
  lemma RetryHits(ys: seq<ICacheSys>, inputs: seq<ICacheInput>, j: nat, a: nat, k: nat, lane: nat)
    requires Run(ys, inputs) && MissServed(ys, inputs, j, a, k) && k + 2 < |inputs|
    requires inputs[k + 2].re && inputs[k + 2].readAddr == inputs[j].readAddr
    requires inputs[j].readAddr.head + lane < LINE_INSN_NUM
    ensures ReadHit(ys[k + 2].s, inputs[k + 2], lane)
  {
    var w := FillMakesReadable(ys, inputs, j, a, k);
    MissPhases(ys, inputs, j, a, k, k);
    assert StepAt(ys, inputs, k) && StepAt(ys, inputs, k + 1);
    RefetchHits(ys, inputs, j, a, k, k + 2, lane);
  }

  // ------------------------------------------------------------------ which accesses are remembered

  /**
   In every run, a fetch that hits way w marks it in the access bits of its set, and no other set
   changes. The bits it starts from are those of the cycle before, so of two hits on one set in
   consecutive cycles the later one forgets the mark of the earlier one.
   */
  lemma HitMarksWay(ys: seq<ICacheSys>, inputs: seq<ICacheInput>, k: nat, w: Way)
    requires Run(ys, inputs) && 0 < k < |inputs| && ys[k].s.phase.ReadCache? && inputs[k].re && !inputs[k].flushReq
    requires Holds(ys[k].s.ram(inputs[k].readAddr.index, w), inputs[k].readAddr.tag)
    ensures var i := inputs[k].readAddr.index;
            && ys[k + 1].s.nru(i)[w]
            && ys[k + 1].s.nru(i) == UpdateNruState(ys[k - 1].s.nru(i), w)
            && forall h: Index :: h != i ==> ys[k + 1].s.nru(h) == ys[k].s.nru(h)
  {
    RunInv(ys, inputs, k);
    assert StepAt(ys, inputs, k - 1) && StepAt(ys, inputs, k);
    var s, inp := ys[k].s, inputs[k];
    assert SameEntry(s.readOut(w), s.ram(inp.readAddr.index, w));
    assert WayHits(s, inp)(w);
    HitOneHot(ys, inputs, k, w, w);
    NeverAllOnes(s.readNru, w);
    assert s.readNru == ys[k - 1].s.nru(inp.readAddr.index);
  }

  lemma UpdateElsewhere(state: NruState, v: Way, w: Way)
    requires v != w && !state[v]
    ensures !UpdateNruState(state, w)[v]
  {
  }

  /** The mark of a hit is lost when another way of the set is hit in the next cycle, unless it was there before. */
  lemma LaterHitForgets(ys: seq<ICacheSys>, inputs: seq<ICacheInput>, k: nat, v: Way, w: Way)
    requires Run(ys, inputs) && k + 1 < |inputs| && v != w
    requires Reads(ys[k].s, inputs[k]) && Holds(ys[k].s.ram(inputs[k].readAddr.index, v), inputs[k].readAddr.tag)
    requires Reads(ys[k + 1].s, inputs[k + 1]) && inputs[k + 1].readAddr.index == inputs[k].readAddr.index
    requires Holds(ys[k + 1].s.ram(inputs[k + 1].readAddr.index, w), inputs[k + 1].readAddr.tag)
    requires !ys[k].s.nru(inputs[k].readAddr.index)[v]
    ensures !ys[k + 2].s.nru(inputs[k].readAddr.index)[v]
  {
    HitMarksWay(ys, inputs, k + 1, w);
    UpdateElsewhere(ys[k].s.nru(inputs[k].readAddr.index), v, w);
  }

  predicate Reads(s: ICacheState, inp: ICacheInput) { s.phase.ReadCache? && inp.re && !inp.flushReq }
}
