/** The sweep of a flush, for any number of ways and any inputs: its order, its length, the way it covers. */
module DCacheSweep {
  import opened Common
  import opened CacheTypes
  import opened PortArbiter
  import opened DCacheModel
  import opened DCacheInvariant
  import opened DCacheCycle
  import opened DCacheHardware
  import opened DCacheCoherence

  // ------------------------------------------------------------------ cycles of the hardware alone

  ghost predicate AllInvalid(s: DCacheState) { forall i: Index, w: Way :: !s.tag(i, w).valid }

  /** Cycles of the hardware alone, under any input. */
  ghost predicate Clocked(ss: seq<DCacheState>, inputs: seq<Input>)
  {
    |ss| == |inputs| + 1 && forall k: nat :: k < |inputs| ==> TickAt(ss, inputs, k)
  }

  ghost predicate TickAt(ss: seq<DCacheState>, inputs: seq<Input>, k: nat)
    requires |ss| == |inputs| + 1 && k < |inputs|
  {
    ss[k + 1] == Next(ss[k], inputs[k])
  }

  /** Only the sweep is active: what holds of the hardware while a flush is processed. */
  ghost predicate SweepOnly(s: DCacheState)
  {
    && s.phase == FlushProcessing && !s.loadGranted && !s.storeGranted
    && (forall m: MshrId :: m != 0 ==> s.mshr(m).phase == Invalid)
    && (s.mshr(0).phase == Invalid || s.mshr(0).phase.Flushing())
  }

  /** The state that a flush starts from. */
  ghost predicate SweepStarts(s: DCacheState) { SweepOnly(s) && s.mshr(0).phase == Invalid }

  /** A flush that is accepted with no load or store in flight starts a sweep. */
  lemma AcceptedFlushStarts(s: DCacheState, inp: Input)
    requires inp.flushReq && FlushAck(s) && !s.loadGranted && !s.storeGranted
    requires !CacheGrant(s, inp, LOAD) && !CacheGrant(s, inp, STORE)
    ensures SweepStarts(Next(s, inp))
  {
    var s2 := Next(s, inp);
    forall m: MshrId ensures s2.mshr(m).phase == Invalid
    {
      assert !Occupied(s)(m);
      NoAllocation(s, m);
      assert s2.mshr(m) == NextMshr(s.mshr(m), ViewOf(s, inp, m));
      FlushEntryStep(s.mshr(m), ViewOf(s, inp, m));
    }
  }

  /** How many indices are behind the sweep. */
  function Passed(e: Mshr): nat
  {
    if e.phase.Invalid? then 0 else e.flushIndex + if e.phase.FlushVictimRequest? then 0 else 1
  }

  lemma PassedStep(e: Mshr, v: MshrView)
    requires e.phase == Invalid || e.phase.Flushing()
    requires v.alloc.None? && NextMshr(e, v).phase.Flushing()
    ensures Passed(NextMshr(e, v)) == Passed(e) + if e.phase.FlushVictimRequest? && v.grant then 1 else 0
  {
  }

  // ------------------------------------------------------------------ one cycle of a sweep

  /** The way that the sweep names has no valid tag below index n; every other way is as it was in s0. */
  ghost predicate SweptBelow(s0: DCacheState, s: DCacheState, n: nat)
  {
    && s.mshr(0).evictWay == s0.mshr(0).evictWay
    && (forall i: Index :: i < n ==> !s.tag(i, s0.mshr(0).evictWay).valid)
    && (forall i: Index, w: Way :: w != s0.mshr(0).evictWay ==> s.tag(i, w) == s0.tag(i, w))
  }

  /** Whatever tag a port writes during the sweep invalidates the entry that the sweep visits. */
  ghost predicate SweepPort(e: Mshr, q: Request)
  {
    q.tagWE ==> !q.tagValidIn && q.evictWay == e.evictWay && q.addr.index == e.flushIndex && e.phase.FlushVictimRequest?
  }

  lemma SweepPortStep(s: DCacheState, inp: Input, s2: DCacheState, view: MshrId -> MshrView, p: PortId)
    requires SweepOnly(s) && Stepped(s, inp, s2, view)
    ensures SweepPort(s.mshr(0), s2.port(p).req)
  {
    if s2.port(p).req.tagWE { var n := NewFill(s, inp, s2, view, p); }
  }

  lemma SweepVisit(s: DCacheState, inp: Input, s2: DCacheState, view: MshrId -> MshrView) returns (p: PortId)
    requires Stepped(s, inp, s2, view) && s.mshr(0).phase.FlushVictimRequest? && view(0).grant
    ensures Filling(s2, p, s.mshr(0).flushIndex, s.mshr(0).evictWay)
  {
    p := s2.outTag(MshrReqId(0));
    assert OwnsPort(s2, MshrReqId(0)) && PortSource(s, inp, s2, view, p);
  }

  lemma SweepWrites(s: DCacheState, s2: DCacheState, i: Index, w: Way)
    requires TagsStepped(s, s2) && forall p: PortId :: SweepPort(s.mshr(0), s2.port(p).req)
    ensures w != s.mshr(0).evictWay ==> s2.tag(i, w) == s.tag(i, w)
    ensures !s.tag(i, w).valid || Filling(s2, 0, i, w) || Filling(s2, 1, i, w) ==> !s2.tag(i, w).valid
  {
    assert SweepPort(s.mshr(0), s2.port(0).req) && SweepPort(s.mshr(0), s2.port(1).req);
  }

  lemma SweepEntry(s: DCacheState, inp: Input, s2: DCacheState, view: MshrId -> MshrView)
    requires SweepOnly(s) && Stepped(s, inp, s2, view)
    ensures s2.phase == FlushProcessing ==> SweepOnly(s2)
    ensures s2.mshr(0).evictWay == s.mshr(0).evictWay
    ensures s2.phase == FlushProcessing ==>
              Passed(s2.mshr(0)) <=
              Passed(s.mshr(0)) + if s.mshr(0).phase.FlushVictimRequest? && view(0).grant then 1 else 0
    ensures s2.phase != FlushProcessing ==> Passed(s.mshr(0)) == INDEX_NUM
  {
    forall m: MshrId ensures s2.mshr(m).phase == Invalid || (m == 0 && s2.mshr(m).phase.Flushing())
    {
      NoAllocation(s, m);
      assert s2.mshr(m) == NextMshr(s.mshr(m), view(m)) && ViewSource(s, inp, view(m), m);
      FlushEntryStep(s.mshr(m), view(m));
    }
    NoAllocation(s, 0);
    assert s2.mshr(0) == NextMshr(s.mshr(0), view(0)) && ViewSource(s, inp, view(0), 0);
    if s2.mshr(0).phase.Flushing() { PassedStep(s.mshr(0), view(0)); }
  }

  lemma SweptTags(s0: DCacheState, s: DCacheState, inp: Input, s2: DCacheState, view: MshrId -> MshrView, n: nat)
    requires SweepOnly(s) && Stepped(s, inp, s2, view) && SweptBelow(s0, s, Passed(s.mshr(0)))
    requires s2.mshr(0).evictWay == s.mshr(0).evictWay
    requires n <= Passed(s.mshr(0)) + if s.mshr(0).phase.FlushVictimRequest? && view(0).grant then 1 else 0
    ensures SweptBelow(s0, s2, n)
  {
    var v := s.mshr(0).evictWay;
    SweepPortStep(s, inp, s2, view, 0);
    SweepPortStep(s, inp, s2, view, 1);
    forall i: Index, w: Way ensures w != v ==> s2.tag(i, w) == s0.tag(i, w) { SweepWrites(s, s2, i, w); }
    forall i: Index | i < n ensures !s2.tag(i, v).valid
    {
      if i == Passed(s.mshr(0)) { var p := SweepVisit(s, inp, s2, view); }
      SweepWrites(s, s2, i, v);
    }
  }

  lemma SweptStep(s0: DCacheState, s: DCacheState, inp: Input, s2: DCacheState, view: MshrId -> MshrView)
    requires SweepOnly(s) && Stepped(s, inp, s2, view) && SweptBelow(s0, s, Passed(s.mshr(0)))
    ensures SweptTo(s0, s2)
  {
    SweepEntry(s, inp, s2, view);
    SweptTags(s0, s, inp, s2, view, if s2.phase == FlushProcessing then Passed(s2.mshr(0)) else INDEX_NUM);
  }

  /** What the sweep has achieved when the registers are s. */
  ghost predicate SweptTo(s0: DCacheState, s: DCacheState)
  {
    if s.phase == FlushProcessing then SweepOnly(s) && SweptBelow(s0, s, Passed(s.mshr(0)))
    else SweptBelow(s0, s, INDEX_NUM)
  }

  lemma SweptTick(s0: DCacheState, ss: seq<DCacheState>, inputs: seq<Input>, k: nat)
    requires Clocked(ss, inputs) && k < |inputs| && ss[k].phase == FlushProcessing && SweptTo(s0, ss[k])
    ensures SweptTo(s0, ss[k + 1])
  {
    assert TickAt(ss, inputs, k);
    SteppedNext(ss[k], inputs[k]);
    SweptStep(s0, ss[k], inputs[k], ss[k + 1], Views(ss[k], inputs[k]));
  }

  lemma {:induction false} SweepRun(ss: seq<DCacheState>, inputs: seq<Input>, k: nat)
    requires Clocked(ss, inputs) && SweepStarts(ss[0])
    requires k < |ss| && forall t: nat :: t < k ==> ss[t].phase == FlushProcessing
    ensures SweptTo(ss[0], ss[k])
  {
    if k > 0 {
      SweepRun(ss, inputs, k - 1);
      SweptTick(ss[0], ss, inputs, k - 1);
    }
  }

  // ------------------------------------------------------------------ the order

  function Counting(n: nat): (c: seq<nat>)
    ensures |c| == n && forall i :: 0 <= i < n ==> c[i] == i
  {
    seq(n, i => i)
  }

  /** The sweep's request enters the arrays in this cycle. */
  predicate Visits(s: DCacheState, inp: Input)
  {
    s.mshr(0).phase.FlushVictimRequest? && CacheGrant(s, inp, MshrReqId(0))
  }

  /** The indices that the sweep visits in the first k cycles. */
  function Visited(ss: seq<DCacheState>, inputs: seq<Input>, k: nat): seq<nat>
    requires |ss| == |inputs| + 1 && k < |ss|
  {
    if k == 0 then []
    else if Visits(ss[k - 1], inputs[k - 1]) then Visited(ss, inputs, k - 1) + [ss[k - 1].mshr(0).flushIndex]
    else Visited(ss, inputs, k - 1)
  }

  /** The sweep is still running after k cycles. */
  ghost predicate Sweeping(ss: seq<DCacheState>, k: nat)
    requires k < |ss|
  {
    forall t: nat :: t <= k ==> ss[t].phase == FlushProcessing
  }

  /** Miss register 0 in the cycles of a sweep. */
  lemma SweepTick(ss: seq<DCacheState>, inputs: seq<Input>, k: nat)
    requires Clocked(ss, inputs) && SweepStarts(ss[0]) && k < |inputs| && Sweeping(ss, k)
    ensures SweepOnly(ss[k]) && ViewOf(ss[k], inputs[k], 0).alloc.None? && ViewOf(ss[k], inputs[k], 0).startFlush
    ensures ss[k + 1].mshr(0) == NextMshr(ss[k].mshr(0), ViewOf(ss[k], inputs[k], 0))
    ensures ss[k + 1].phase == NextPhase(ss[k], inputs[k])
  {
    SweepRun(ss, inputs, k);
    NoAllocation(ss[k], 0);
    assert TickAt(ss, inputs, k);
  }

  lemma VisitCounts(ss: seq<DCacheState>, inputs: seq<Input>, k: nat)
    requires Clocked(ss, inputs) && SweepStarts(ss[0]) && k < |inputs| && Sweeping(ss, k + 1)
    ensures Passed(ss[k + 1].mshr(0)) == Passed(ss[k].mshr(0)) + if Visits(ss[k], inputs[k]) then 1 else 0
    ensures Visits(ss[k], inputs[k]) ==> ss[k].mshr(0).flushIndex == Passed(ss[k].mshr(0))
  {
    SweepTick(ss, inputs, k);
    var e, v := ss[k].mshr(0), ViewOf(ss[k], inputs[k], 0);
    assert ss[k + 1].phase == FlushProcessing;
    SweepGoesOn(e, v);
    PassedStep(e, v);
  }

  /** With any number of ways the sweep visits every index exactly once, in order. */
  lemma {:induction false} SweepOrder(ss: seq<DCacheState>, inputs: seq<Input>, k: nat)
    requires Clocked(ss, inputs) && SweepStarts(ss[0]) && k < |ss| && Sweeping(ss, k)
    ensures Visited(ss, inputs, k) == Counting(Passed(ss[k].mshr(0)))
  {
    if k > 0 {
      SweepOrder(ss, inputs, k - 1);
      VisitCounts(ss, inputs, k - 1);
    }
  }

  lemma SweepGoesOn(e: Mshr, v: MshrView)
    requires (e.phase == Invalid || e.phase.Flushing()) && v.alloc.None? && v.startFlush && !LastIndexDone(e)
    ensures NextMshr(e, v).phase.Flushing()
  {
  }

  /** With any number of ways a sweep that ends has visited exactly the indices 0 .. INDEX_NUM - 1. */
  lemma SweepComplete(ss: seq<DCacheState>, inputs: seq<Input>, k: nat)
    requires Clocked(ss, inputs) && SweepStarts(ss[0]) && k < |inputs| && Sweeping(ss, k)
    requires ss[k + 1].phase == FlushComplete
    ensures Visited(ss, inputs, k) == Counting(INDEX_NUM)
  {
    SweepOrder(ss, inputs, k);
    SweepTick(ss, inputs, k);
  }

  // ------------------------------------------------------------------ termination

  function FlushPhaseRank(p: MshrPhase): nat
  {
    match p
    case Invalid => 6
    case FlushVictimRequest => 5
    case FlushVictimReceiveTag => 4
    case FlushVictimReceiveData => 3
    case FlushVictimWriteToMem => 2
    case FlushVictimWriteComplete => 1
    case _ => 0
  }

  /** Remaining indices first, then the phase. */
  function FlushRank(e: Mshr): nat
  {
    (if e.phase.Invalid? then INDEX_NUM else INDEX_NUM - e.flushIndex) * 6 + FlushPhaseRank(e.phase)
  }

  /** The sweep waits for memory to accept or to acknowledge a write. */
  predicate FlushWaits(e: Mshr, v: MshrView)
  {
    || (e.phase.FlushVictimWriteToMem? && !v.accepted)
    || (e.phase.FlushVictimWriteComplete? && e.victimValid && e.victimDirty && !Answered(v.response, e.memWSerial))
  }

  /** The sweep never waits for an array port. */
  lemma SweepGranted(s: DCacheState, inp: Input)
    requires Flushing(s) && s.mshr(0).phase.FlushVictimRequest?
    ensures CacheGrant(s, inp, MshrReqId(0))
  {
    var q := Requests(s, inp);
    assert q[0] == ReqOf(s, inp, LOAD) == false && q[1] == ReqOf(s, inp, STORE) == false;
    assert q[2] == ReqOf(s, inp, 2);
    assert Before(q, 0) == 0 && Before(q, 1) == 0 && Before(q, 2) == 0;
  }

  lemma FlushRankStep(e: Mshr, v: MshrView)
    requires (e.phase == Invalid && v.alloc.None? && v.startFlush) || e.phase.Flushing()
    requires (e.phase.FlushVictimRequest? ==> v.grant) && !FlushWaits(e, v)
    ensures LastIndexDone(e) || FlushRank(NextMshr(e, v)) < FlushRank(e)
  {
  }

  lemma FlushRankWaits(e: Mshr, v: MshrView)
    requires e.phase.Flushing() && FlushWaits(e, v)
    ensures FlushRank(NextMshr(e, v)) == FlushRank(e)
  {
  }

  /** The cycles in which the sweep waits for memory. */
  function SweepWaits(ss: seq<DCacheState>, inputs: seq<Input>): nat -> bool
    requires |ss| == |inputs| + 1
  {
    (t: nat) => t < |inputs| && FlushWaits(ss[t].mshr(0), ViewOf(ss[t], inputs[t], 0))
  }

  function RankAt(ss: seq<DCacheState>, t: nat): nat { if t < |ss| then FlushRank(ss[t].mshr(0)) else 0 }

  function SweepRank(ss: seq<DCacheState>): nat -> nat { (t: nat) => RankAt(ss, t) }

  lemma SweepRankStep(ss: seq<DCacheState>, inputs: seq<Input>, k: nat)
    requires Clocked(ss, inputs) && SweepStarts(ss[0]) && k < |inputs| && Sweeping(ss, k + 1)
    ensures Drops(SweepRank(ss), SweepWaits(ss, inputs), k)
  {
    SweepTick(ss, inputs, k);
    var e, v := ss[k].mshr(0), ViewOf(ss[k], inputs[k], 0);
    assert ss[k + 1].phase == FlushProcessing;
    if e.phase.FlushVictimRequest? { SweepGranted(ss[k], inputs[k]); }
    if FlushWaits(e, v) { FlushRankWaits(e, v); } else { FlushRankStep(e, v); }
  }

  /** With any number of ways a sweep takes at most 6 cycles an index, and those spent waiting for memory. */
  lemma SweepTerminates(ss: seq<DCacheState>, inputs: seq<Input>, k: nat)
    requires Clocked(ss, inputs) && SweepStarts(ss[0]) && k < |ss| && Sweeping(ss, k)
    ensures k <= 6 * INDEX_NUM + 6 + Count(SweepWaits(ss, inputs), 0, k)
  {
    forall t: nat | t < k ensures Drops(SweepRank(ss), SweepWaits(ss, inputs), t)
    {
      SweepRankStep(ss, inputs, t);
    }
    RankBound(SweepRank(ss), SweepWaits(ss, inputs), 0, k);
  }

  lemma {:induction false} FirstLeave(ss: seq<DCacheState>, n: nat) returns (k: nat)
    requires n < |ss| && ss[0].phase == FlushProcessing && !Sweeping(ss, n)
    ensures k < n && Sweeping(ss, k) && ss[k + 1].phase != FlushProcessing
  {
    if n > 0 && !Sweeping(ss, n - 1) { k := FirstLeave(ss, n - 1); } else { k := n - 1; }
  }

  /** So a sweep that runs longer than that has completed. */
  lemma SweepEnds(ss: seq<DCacheState>, inputs: seq<Input>) returns (k: nat)
    requires Clocked(ss, inputs) && SweepStarts(ss[0])
    requires |inputs| > 6 * INDEX_NUM + 6 + Count(SweepWaits(ss, inputs), 0, |inputs|)
    ensures k < |inputs| && Sweeping(ss, k) && ss[k + 1].phase == FlushComplete
  {
    if Sweeping(ss, |inputs|) { SweepTerminates(ss, inputs, |inputs|); }
    k := FirstLeave(ss, |inputs|);
    SweepTick(ss, inputs, k);
  }

  // ------------------------------------------------------------------ the way that is covered

  ghost predicate OthersInvalid(s: DCacheState, v: Way) { forall i: Index, w: Way :: w != v ==> !s.tag(i, w).valid }

  lemma SweptIsEmpty(s0: DCacheState, s: DCacheState)
    requires SweptBelow(s0, s, INDEX_NUM)
    ensures AllInvalid(s) <==> OthersInvalid(s0, s0.mshr(0).evictWay)
  {
    if OthersInvalid(s0, s0.mshr(0).evictWay) {
      forall i: Index, w: Way ensures !s.tag(i, w).valid
      {
        if w != s0.mshr(0).evictWay { assert !s0.tag(i, w).valid; }
      }
    } else {
      var i: Index, w: Way :| w != s0.mshr(0).evictWay && s0.tag(i, w).valid;
      assert s.tag(i, w).valid;
    }
  }

  /**
   With any number of ways, a complete flush empties exactly the way that miss register 0 last
   evicted: the cache is empty afterwards if and only if all the other ways were empty before.
   */
  lemma FlushCoversOneWay(ss: seq<DCacheState>, inputs: seq<Input>, k: nat)
    requires Clocked(ss, inputs) && SweepStarts(ss[0]) && k < |inputs| && Sweeping(ss, k)
    requires ss[k + 1].phase == FlushComplete
    ensures AllInvalid(ss[k + 1]) <==> OthersInvalid(ss[0], ss[0].mshr(0).evictWay)
  {
    SweepRun(ss, inputs, k + 1);
    SweptIsEmpty(ss[0], ss[k + 1]);
  }

  // ------------------------------------------------------------------ a flush that leaves a line behind

  /** Two ways, and a valid line in the one that miss register 0 does not name. */
  function TwoWays(): DCacheState
    requires WAY_NUM > 1
  {
    var idle := Mshr(false, Invalid, false, false, false, LineAddr(0, 0), (w: Way) => TagEntry(false, 0), false,
                     LineAddr(0, 0), 0, 0, ZeroLine(), false, false, false, false, 0, 0, 0);
    var port := Port(LOAD, false, LoadMux(Prompt(idle)), (w: Way) => TagEntry(false, 0), (w: Way) => ZeroLine(),
                     (w: Way) => false, seq(WAY_NUM - 1, _ => false), 0, false);
    DCacheState(
      (i: Index, w: Way) => TagEntry(w == 1, 0), (i: Index, w: Way) => ZeroLine(), (i: Index, w: Way) => false,
      (i: Index) => seq(WAY_NUM - 1, _ => false), (p: PortId) => port,
      (r: ReqId) => 0, (r: ReqId) => 0, false, false,
      LoadRegs(false, LineAddr(0, 0), false, 0), StoreRegs(false, LineAddr(0, 0), false),
      (m: MshrId) => idle, FlushProcessing)
  }

  /** A memory that accepts and acknowledges at once. */
  function Prompt(e: Mshr): Input
  {
    Input(false, LineAddr(0, 0), false, 0, false, LineAddr(0, 0), false, ZeroLine(), NoBytes(),
          (m: MshrId) => false, (p: ListPtr) => false, true, 0, 0, None, Some(e.memWSerial), false, false, None, None)
  }

  function PromptState(s: DCacheState, k: nat): DCacheState
  {
    if k == 0 then s
    else
      var before := PromptState(s, k - 1);
      Next(before, Prompt(before.mshr(0)))
  }

  function PromptRun(s: DCacheState, n: nat): (ss: seq<DCacheState>)
    ensures |ss| == n + 1 && forall k: nat :: k <= n ==> ss[k] == PromptState(s, k)
  {
    seq(n + 1, k requires 0 <= k => PromptState(s, k))
  }

  function PromptInputs(s: DCacheState, n: nat): (inputs: seq<Input>)
    ensures |inputs| == n && forall k: nat :: k < n ==> inputs[k] == Prompt(PromptState(s, k).mshr(0))
  {
    seq(n, k requires 0 <= k => Prompt(PromptState(s, k).mshr(0)))
  }

  lemma PromptTick(s: DCacheState, ss: seq<DCacheState>, inputs: seq<Input>, k: nat)
    requires ss == PromptRun(s, |inputs|) && inputs == PromptInputs(s, |inputs|) && k < |inputs|
    ensures TickAt(ss, inputs, k) && inputs[k] == Prompt(ss[k].mshr(0))
  {
    assert ss[k] == PromptState(s, k) && ss[k + 1] == PromptState(s, k + 1);
  }

  /** Only the sweep asks for memory, and it is heard at once. */
  lemma PromptNeverWaits(s: DCacheState)
    ensures !FlushWaits(s.mshr(0), ViewOf(s, Prompt(s.mshr(0)), 0))
  {
    if s.mshr(0).phase.FlushVictimWriteToMem? {
      assert MemReqs(s)(0);
      assert MemSel(s) == 0;
    }
  }

  lemma {:induction false} NoneCounted(f: nat -> bool, n: nat)
    requires forall t: nat :: t < n ==> !f(t)
    ensures Count(f, 0, n) == 0
  {
    if n > 0 { NoneCounted(f, n - 1); }
  }

  lemma TwoWaysStart()
    requires WAY_NUM > 1
    ensures SweepStarts(TwoWays()) && !OthersInvalid(TwoWays(), TwoWays().mshr(0).evictWay)
  {
    assert TwoWays().tag(0, 1).valid;
  }

  lemma PromptWaits(ss: seq<DCacheState>, inputs: seq<Input>, k: nat)
    requires |ss| == |inputs| + 1 && k < |inputs| && inputs[k] == Prompt(ss[k].mshr(0))
    ensures !SweepWaits(ss, inputs)(k)
  {
    PromptNeverWaits(ss[k]);
  }

  lemma PromptClocked(s: DCacheState, ss: seq<DCacheState>, inputs: seq<Input>)
    requires ss == PromptRun(s, |inputs|) && inputs == PromptInputs(s, |inputs|)
    ensures Clocked(ss, inputs) && ss[0] == s
  {
    forall t: nat | t < |inputs| ensures TickAt(ss, inputs, t) { PromptTick(s, ss, inputs, t); }
    assert ss[0] == PromptState(s, 0);
  }

  lemma PromptCount(s: DCacheState, ss: seq<DCacheState>, inputs: seq<Input>)
    requires ss == PromptRun(s, |inputs|) && inputs == PromptInputs(s, |inputs|)
    ensures Count(SweepWaits(ss, inputs), 0, |inputs|) == 0
  {
    var waits := SweepWaits(ss, inputs);
    forall t: nat | t < |inputs| ensures !waits(t)
    {
      PromptTick(s, ss, inputs, t);
      PromptWaits(ss, inputs, t);
    }
    NoneCounted(waits, |inputs|);
  }

  /** A run with a prompt memory completes its sweep. */
  lemma PromptEnds(s: DCacheState, ss: seq<DCacheState>, inputs: seq<Input>) returns (k: nat)
    requires SweepStarts(s) && |inputs| > 6 * INDEX_NUM + 6
    requires ss == PromptRun(s, |inputs|) && inputs == PromptInputs(s, |inputs|)
    ensures Clocked(ss, inputs) && ss[0] == s && k < |inputs| && Sweeping(ss, k) && ss[k + 1].phase == FlushComplete
  {
    PromptClocked(s, ss, inputs);
    PromptCount(s, ss, inputs);
    k := SweepEnds(ss, inputs);
  }

  /** In a cache with several ways this flush completes and leaves a valid line. */
  lemma FlushLeavesLine() returns (ss: seq<DCacheState>, inputs: seq<Input>, k: nat)
    requires WAY_NUM > 1
    ensures Clocked(ss, inputs) && SweepStarts(ss[0]) && k < |inputs| && Sweeping(ss, k)
    ensures ss[k + 1].phase == FlushComplete && !AllInvalid(ss[k + 1])
  {
    var n := 6 * INDEX_NUM + 7;
    TwoWaysStart();
    ss, inputs := PromptRun(TwoWays(), n), PromptInputs(TwoWays(), n);
    k := PromptEnds(TwoWays(), ss, inputs);
    FlushCoversOneWay(ss, inputs, k);
  }
}
