/** Which way an access records, which way a miss evicts, and so which lines survive. */
module DCacheReplacement {
  import opened Common
  import opened CacheTypes
  import opened DCacheModel
  import opened DCacheSystem
  import opened DCacheInvariant
  import opened DCacheCycle
  import opened DCacheCoherence
  import opened DCacheMiss
  import opened DCacheTheorems
  import TreeLru

  // ------------------------------------------------------------------ accesses

  predicate Held(s: DCacheState, i: Index, m: MshrId) { s.mshr(m).valid && s.mshr(m).newAddr.index == i }

  /** No miss register holds this index. */
  ghost predicate Unheld(s: DCacheState, i: Index) { forall m: MshrId :: !Held(s, i, m) }

  /**
   The request in the TAG stage of port p uses this way: it fills it, or it finds its line there. Reading
   a victim is no use.
   */
  ghost predicate Accesses(s: DCacheState, p: PortId, i: Index, w: Way)
  {
    var q := s.port(p).req;
    && q.addr.index == i
    && if q.tagWE then q.evictWay == w else !q.isVictimEviction && CachedIn(s, q.addr, w) && Unheld(s, i)
  }

  /** Of two requests for one index only that of port 0 counts. */
  ghost predicate Recorded(s: DCacheState, i: Index, w: Way)
  {
    if s.port(0).req.addr.index == i then Accesses(s, 0, i, w) else Accesses(s, 1, i, w)
  }

  /** The tag read registers of port p show what the tag array holds at its index. */
  ghost predicate ShowsTags(s: DCacheState, p: PortId)
  {
    forall w: Way :: s.port(p).tagOut(w) == s.tag(s.port(p).req.addr.index, w)
  }

  lemma UnheldIsFree(s: DCacheState, i: Index)
    ensures Unheld(s, i) <==> !MshrConflict(s, i)
  {
    if MshrConflict(s, i) {
      var m: nat :| m < MSHR_NUM && BusyAt(s, i)(m);
      assert Held(s, i, m);
    } else {
      forall m: MshrId ensures !Held(s, i, m) { assert !BusyAt(s, i)(m); }
    }
  }

  /** The way that the hit detection finds is the one that holds the line. */
  lemma HitIsCached(s: DCacheState, p: PortId, w: Way)
    requires DistinctTags(s, s.port(p).req.addr.index) && ShowsTags(s, p)
    requires Unheld(s, s.port(p).req.addr.index) && CachedIn(s, s.port(p).req.addr, w)
    ensures RepHit(s, p) && RepWay(s, p) == w
  {
    UnheldIsFree(s, s.port(p).req.addr.index);
    assert TagMatch(s, p)(w);
    assert TagMatch(s, p)(RepWay(s, p));
  }

  lemma HitCaches(s: DCacheState, p: PortId)
    requires RepHit(s, p) && ShowsTags(s, p)
    ensures Unheld(s, s.port(p).req.addr.index) && CachedIn(s, s.port(p).req.addr, RepWay(s, p))
  {
    assert TagMatch(s, p)(RepWay(s, p));
    UnheldIsFree(s, s.port(p).req.addr.index);
  }

  // ------------------------------------------------------------------ one port

  ghost predicate PortReady(s: DCacheState, p: PortId)
  {
    DistinctTags(s, s.port(p).req.addr.index) && (!MshrConflict(s, s.port(p).req.addr.index) ==> ShowsTags(s, p))
  }

  lemma AccessIsRecorded(s: DCacheState, p: PortId, i: Index, w: Way)
    requires PortReady(s, p) && Accesses(s, p, i, w) && !(p == 1 && s.port(0).req.addr.index == i)
    ensures ReplWrite(s, p) && ReplRecorded(s, p) == w && s.port(p).req.addr.index == i
  {
    if !s.port(p).req.tagWE {
      UnheldIsFree(s, i);
      HitIsCached(s, p, w);
    }
  }

  lemma RecordedIsAccess(s: DCacheState, p: PortId, i: Index)
    requires PortReady(s, p) && ReplWrite(s, p) && s.port(p).req.addr.index == i
    ensures Accesses(s, p, i, ReplRecorded(s, p))
  {
    if !s.port(p).req.tagWE {
      assert TagMatch(s, p)(RepWay(s, p));
      HitCaches(s, p);
    }
  }

  /** The replacement state of an index takes the way that is used, and stays when none is. */
  lemma ReplacementStep(s: DCacheState, i: Index, w: Way)
    requires PortReady(s, 0) && PortReady(s, 1)
    ensures Recorded(s, i, w) ==> NextRepl(s, i) == TreeLru.Touch(WAY_BITS, s.repl(i), w)
    ensures NextRepl(s, i) != s.repl(i) ==> exists x: Way :: Recorded(s, i, x)
  {
    if Recorded(s, i, w) {
      if s.port(0).req.addr.index == i { AccessIsRecorded(s, 0, i, w); } else { AccessIsRecorded(s, 1, i, w); }
    }
    if NextRepl(s, i) != s.repl(i) {
      if s.port(0).req.addr.index == i {
        RecordedIsAccess(s, 0, i);
        assert Recorded(s, i, ReplRecorded(s, 0));
      } else {
        RecordedIsAccess(s, 1, i);
        assert Recorded(s, i, ReplRecorded(s, 1));
      }
    }
  }

  // ------------------------------------------------------------------ in every run

  lemma TagsShown(y: Sys, inp: Input, y2: Sys, view: MshrId -> MshrView, p: PortId)
    requires SysStepped(y, inp, y2, view) && Inv(y2) && !Flushing(y2.s)
    requires !MshrConflict(y2.s, y2.s.port(p).req.addr.index)
    ensures ShowsTags(y2.s, p)
  {
    var i := y2.s.port(p).req.addr.index;
    NoRewriteIfFree(y2.s, i);
    assert PortReads(y.s, y2.s, p);
    forall w: Way ensures y2.s.tag(i, w) == y.s.tag(i, w) { TagKept(y.s, y2.s, i, w); }
  }

  lemma PortReadyAfter(y: Sys, inp: Input, y2: Sys, view: MshrId -> MshrView, p: PortId)
    requires SysStepped(y, inp, y2, view) && Inv(y2) && !Flushing(y2.s)
    ensures PortReady(y2.s, p)
  {
    if !MshrConflict(y2.s, y2.s.port(p).req.addr.index) { TagsShown(y, inp, y2, view, p); }
  }

  lemma PortsReady(ys: seq<Sys>, inputs: seq<Input>, k: nat, p: PortId)
    requires Run(ys, inputs) && 0 < k < |ys| && !Flushing(ys[k].s)
    ensures PortReady(ys[k].s, p)
  {
    RunInv(ys, inputs, k);
    RunStepped(ys, inputs, k - 1);
    PortReadyAfter(ys[k - 1], inputs[k - 1], ys[k], Views(ys[k - 1].s, inputs[k - 1]), p);
  }

  /** A flush runs in a cache of one way, which has nothing to record. */
  lemma OneWayState(a: LruState, b: LruState)
    requires WAY_NUM == 1
    ensures a == b
  {
  }

  lemma FlushesOneWay(ys: seq<Sys>, inputs: seq<Input>, k: nat)
    requires Run(ys, inputs) && k < |ys| && Flushing(ys[k].s)
    ensures WAY_NUM == 1
  {
    RunInv(ys, inputs, k);
  }

  lemma NextReplacement(ys: seq<Sys>, inputs: seq<Input>, k: nat, i: Index)
    requires Run(ys, inputs) && k < |inputs|
    ensures ys[k + 1].s.repl(i) == NextRepl(ys[k].s, i)
  {
    assert CycleOk(ys, inputs, k);
  }

  /**
   In every run the replacement state of a set changes by exactly the accesses to it: it records the way
   that is filled, or the way that holds the line of a load or store, and it stays when there is none.
   */
  lemma ReplacementFollowsAccesses(ys: seq<Sys>, inputs: seq<Input>, k: nat, i: Index, w: Way)
    requires Run(ys, inputs) && 0 < k < |inputs|
    ensures Recorded(ys[k].s, i, w) ==>
              ys[k + 1].s.repl(i) == TreeLru.Touch(WAY_BITS, ys[k].s.repl(i), w)
    ensures ys[k + 1].s.repl(i) != ys[k].s.repl(i) ==> exists x: Way :: Recorded(ys[k].s, i, x)
  {
    NextReplacement(ys, inputs, k, i);
    if Flushing(ys[k].s) {
      FlushesOneWay(ys, inputs, k);
      OneWayState(ys[k + 1].s.repl(i), ys[k].s.repl(i));
      OneWayState(ys[k + 1].s.repl(i), TreeLru.Touch(WAY_BITS, ys[k].s.repl(i), w));
    } else {
      PortsReady(ys, inputs, k, 0);
      PortsReady(ys, inputs, k, 1);
      ReplacementStep(ys[k].s, i, w);
    }
  }

  /** Every level of the tree leads away from this way. */
  ghost predicate PointsAway(state: LruState, w: Way)
  {
    forall level: nat :: level < WAY_BITS ==> !TreeLru.Towards(WAY_BITS, state, w, level)
  }

  lemma TouchPointsAway(state: LruState, w: Way)
    ensures PointsAway(TreeLru.Touch(WAY_BITS, state, w), w)
  {
    TreeLru.TouchProtects(WAY_BITS, state, w, 0);
    forall level: nat | level < WAY_BITS
      ensures !TreeLru.Towards(WAY_BITS, TreeLru.Touch(WAY_BITS, state, w), w, level)
    {
      TreeLru.NoDangerAt(WAY_BITS, TreeLru.Touch(WAY_BITS, state, w), w, 0, level);
    }
  }

  /** In every run, after an access every level of the tree leads away from the way that it used. */
  lemma AccessPointsAway(ys: seq<Sys>, inputs: seq<Input>, k: nat, i: Index, w: Way)
    requires Run(ys, inputs) && 0 < k < |inputs| && Recorded(ys[k].s, i, w)
    ensures PointsAway(ys[k + 1].s.repl(i), w)
  {
    ReplacementFollowsAccesses(ys, inputs, k, i, w);
    TouchPointsAway(ys[k].s.repl(i), w);
  }

  // ------------------------------------------------------------------ loads and stores

  lemma HitAccess(s: DCacheState, r: ReqId, w: Way)
    requires HwOk(s) && !Flushing(s) && (r == LOAD || r == STORE) && OwnsPort(s, r)
    requires DistinctTags(s, s.port(s.outTag(r)).req.addr.index)
    requires RepHit(s, s.outTag(r)) && CachedIn(s, s.port(s.outTag(r)).req.addr, w)
    ensures Accesses(s, s.outTag(r), s.port(s.outTag(r)).req.addr.index, w)
  {
    var p := s.outTag(r);
    var i := s.port(p).req.addr.index;
    assert PortOk(s, p) && TagFresh(s, p);
    assert TagMatch(s, p)(RepWay(s, p));
    UnheldIsFree(s, i);
    NoRewriteIfFree(s, i);
  }

  /**
   In every run, a load that hits way w records that way, unless it is in port 1 and port 0 carries a
   request for the same index; then nothing is recorded for it.
   */
  lemma LoadHitRecords(ys: seq<Sys>, inputs: seq<Input>, k: nat, w: Way)
    requires Run(ys, inputs) && 0 < k < |inputs| && LoadHit(ys[k].s)
    requires CachedIn(ys[k].s, inputs[k - 1].loadAddr, w)
    requires var s := ys[k].s; s.outTag(LOAD) == 0 || s.port(0).req.addr.index != inputs[k - 1].loadAddr.index
    ensures Recorded(ys[k].s, inputs[k - 1].loadAddr.index, w)
    ensures PointsAway(ys[k + 1].s.repl(inputs[k - 1].loadAddr.index), w)
  {
    LoadInTagStage(ys, inputs, k);
    RunInv(ys, inputs, k);
    GrantedAddr(ys[k].s);
    HitAccess(ys[k].s, LOAD, w);
    AccessPointsAway(ys, inputs, k, inputs[k - 1].loadAddr.index, w);
  }

  /** Likewise for a store that hits. */
  lemma StoreHitRecords(ys: seq<Sys>, inputs: seq<Input>, k: nat, w: Way)
    requires Run(ys, inputs) && 0 < k < |inputs| && StoreHit(ys[k].s)
    requires CachedIn(ys[k].s, inputs[k - 1].storeAddr, w)
    requires var s := ys[k].s; s.outTag(STORE) == 0 || s.port(0).req.addr.index != inputs[k - 1].storeAddr.index
    ensures Recorded(ys[k].s, inputs[k - 1].storeAddr.index, w)
    ensures PointsAway(ys[k + 1].s.repl(inputs[k - 1].storeAddr.index), w)
  {
    StoreInTagStage(ys, inputs, k);
    RunInv(ys, inputs, k);
    GrantedAddr(ys[k].s);
    HitAccess(ys[k].s, STORE, w);
    AccessPointsAway(ys, inputs, k, inputs[k - 1].storeAddr.index, w);
  }

  lemma GrantedAddr(s: DCacheState)
    requires HwOk(s) && (s.loadGranted || s.storeGranted)
    ensures s.loadGranted ==> OwnsPort(s, LOAD) && s.port(s.outTag(LOAD)).req.addr == s.load.addr
    ensures s.storeGranted ==> OwnsPort(s, STORE) && s.port(s.outTag(STORE)).req.addr == s.store.addr
    ensures !Flushing(s)
  {
    assert PortOk(s, s.outTag(LOAD)) && PortOk(s, s.outTag(STORE));
  }

  // ------------------------------------------------------------------ the victim

  /** The data port delivers the replacement state that the index had in the TAG stage. */
  lemma ReplacementRead(y: Sys, inp: Input, m: MshrId)
    requires Inv(y) && y.s.mshr(m).phase.VictimReceiveTag?
    ensures DataPort(Next(y.s, inp), m).replOut == y.s.repl(y.s.mshr(m).newAddr.index)
  {
    var p := y.s.outTag(MshrReqId(m));
    assert OwnsPort(y.s, MshrReqId(m));
    assert PortOk(y.s, p);
    assert EntryOk(y.s.mshr(m));
    assert Next(y.s, inp).port(p) == NextPort(y.s, inp, p);
    assert Next(y.s, inp).outData(MshrReqId(m)) == p;
  }

  lemma TagBeforeData(e: Mshr, v: MshrView)
    requires NextMshr(e, v).phase.VictimReceiveData?
    ensures e.phase.VictimReceiveTag? && NextMshr(e, v).newAddr == e.newAddr
  {
  }

  lemma WayTaken(e: Mshr, v: MshrView)
    requires e.phase.VictimReceiveData?
    ensures NextMshr(e, v).evictWay == v.replOut
  {
  }

  /** What a miss register saw in cycle k. */
  lemma EntryAt(ys: seq<Sys>, inputs: seq<Input>, k: nat, m: MshrId) returns (v: MshrView)
    requires Run(ys, inputs) && k < |inputs|
    ensures ys[k + 1].s.mshr(m) == NextMshr(ys[k].s.mshr(m), v)
    ensures v.replOut == TreeLru.Evicted(WAY_BITS, DataPort(ys[k].s, m).replOut)
  {
    v := ViewOf(ys[k].s, inputs[k], m);
    assert CycleOk(ys, inputs, k);
  }

  lemma ReplacementAt(ys: seq<Sys>, inputs: seq<Input>, k: nat, m: MshrId)
    requires Run(ys, inputs) && k < |inputs| && ys[k].s.mshr(m).phase.VictimReceiveTag?
    ensures DataPort(ys[k + 1].s, m).replOut == ys[k].s.repl(ys[k].s.mshr(m).newAddr.index)
  {
    RunInv(ys, inputs, k);
    ReplacementRead(ys[k], inputs[k], m);
    assert CycleOk(ys, inputs, k);
  }

  /**
   In every run the way that a miss evicts, and then fills, is the one that the replacement state of its
   set designated when the set was read, a cycle before the choice.
   */
  lemma VictimIsDesignated(ys: seq<Sys>, inputs: seq<Input>, k: nat, m: MshrId)
    requires Run(ys, inputs) && k < |inputs| && ys[k].s.mshr(m).phase.VictimReceiveData?
    ensures k > 0 && ys[k - 1].s.mshr(m).phase.VictimReceiveTag?
    ensures ys[k - 1].s.mshr(m).newAddr == ys[k].s.mshr(m).newAddr
    ensures ys[k + 1].s.mshr(m).evictWay
            == TreeLru.Evicted(WAY_BITS, ys[k - 1].s.repl(ys[k].s.mshr(m).newAddr.index))
  {
    NotAtReset(ys, inputs, k, m);
    var u := EntryAt(ys, inputs, k - 1, m);
    var v := EntryAt(ys, inputs, k, m);
    TagBeforeData(ys[k - 1].s.mshr(m), u);
    ReplacementAt(ys, inputs, k - 1, m);
    WayTaken(ys[k].s.mshr(m), v);
  }

  lemma NotAtReset(ys: seq<Sys>, inputs: seq<Input>, k: nat, m: MshrId)
    requires Run(ys, inputs) && k < |ys| && ys[k].s.mshr(m).phase != Invalid
    ensures k > 0
  {
  }

  // ------------------------------------------------------------------ survival

  /** The cycles in which some way of index i is recorded. */
  ghost function Recordings(ys: seq<Sys>, i: Index): nat -> bool
  {
    (t: nat) => t < |ys| && exists x: Way :: Recorded(ys[t].s, i, x)
  }

  function Danger(state: LruState, w: Way): nat { TreeLru.Danger(WAY_BITS, state, w, 0) }

  lemma DangerStep(ys: seq<Sys>, inputs: seq<Input>, k: nat, i: Index, w: Way)
    requires Run(ys, inputs) && 0 < k < |inputs|
    ensures Danger(ys[k + 1].s.repl(i), w)
            <= Danger(ys[k].s.repl(i), w) + if Recordings(ys, i)(k) then 1 else 0
  {
    if Recordings(ys, i)(k) {
      var x: Way :| Recorded(ys[k].s, i, x);
      ReplacementFollowsAccesses(ys, inputs, k, i, x);
      TreeLru.DangerGrowsByOne(WAY_BITS, ys[k].s.repl(i), x, w, 0);
    } else {
      ReplacementFollowsAccesses(ys, inputs, k, i, w);
    }
  }

  /** How close to eviction a way has come since it was recorded in cycle j. */
  lemma {:induction false} DangerSince(ys: seq<Sys>, inputs: seq<Input>, j: nat, k: nat, i: Index, w: Way)
    requires Run(ys, inputs) && 0 < j < k < |ys| && Recorded(ys[j].s, i, w)
    ensures Danger(ys[k].s.repl(i), w) <= Count(Recordings(ys, i), j + 1, k)
    decreases k
  {
    if k == j + 1 {
      ReplacementFollowsAccesses(ys, inputs, j, i, w);
      TreeLru.TouchProtects(WAY_BITS, ys[j].s.repl(i), w, 0);
    } else {
      DangerSince(ys, inputs, j, k - 1, i, w);
      DangerStep(ys, inputs, k - 1, i, w);
    }
  }

  lemma SafeIsNotDesignated(state: LruState, w: Way)
    requires Danger(state, w) < WAY_BITS
    ensures TreeLru.Evicted(WAY_BITS, state) != w
  {
    TreeLru.EvictedIffAllTowards(WAY_BITS, state, w, 0);
  }

  /**
   In every run, a way used in cycle j is not the victim of a miss whose set is read in cycle k - 1 if
   fewer accesses than the tree has levels were recorded for the set in between.
   */
  lemma RecentAccessSurvives(ys: seq<Sys>, inputs: seq<Input>, j: nat, k: nat, i: Index, w: Way, m: MshrId)
    requires Run(ys, inputs) && 0 < j && j + 1 < k < |inputs| && Recorded(ys[j].s, i, w)
    requires ys[k].s.mshr(m).phase.VictimReceiveData? && ys[k].s.mshr(m).newAddr.index == i
    requires Count(Recordings(ys, i), j + 1, k - 1) < WAY_BITS
    ensures ys[k + 1].s.mshr(m).evictWay != w
  {
    VictimIsDesignated(ys, inputs, k, m);
    DangerSince(ys, inputs, j, k - 1, i, w);
    SafeIsNotDesignated(ys[k - 1].s.repl(i), w);
  }
}
