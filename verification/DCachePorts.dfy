/** What the port arbiter means for the arrays: who is granted in a flush, and what an idle port does. */
module DCachePorts {
  import opened Common
  import opened CacheTypes
  import opened PortArbiter
  import opened DCacheModel
  import opened DCacheSystem
  import opened DCacheInvariant
  import opened DCacheTheorems
  import opened DCacheProgress

  // ------------------------------------------------------------------ who is served

  /** Two of the first r requesters ask. */
  ghost predicate TwoAsk(req: seq<bool>, r: nat)
    requires r <= |req|
  {
    exists a: nat, b: nat :: a < b < r && req[a] && req[b]
  }

  lemma SomeAsks(req: seq<bool>, r: nat) returns (a: nat)
    requires r <= |req| && Before(req, r) > 0
    ensures a < r && req[a]
  {
    if req[r - 1] { a := r - 1; } else { a := SomeAsks(req, r - 1); }
  }

  lemma {:induction false} BeforeTwo(req: seq<bool>, r: nat)
    requires r <= |req|
    ensures Before(req, r) >= 2 <==> TwoAsk(req, r)
  {
    if Before(req, r) >= 2 {
      if Before(req, r - 1) >= 2 { BeforeTwo(req, r - 1); }
      else { var a := SomeAsks(req, r - 1); }
    } else if TwoAsk(req, r) {
      var a: nat, b: nat :| a < b < r && req[a] && req[b];
      BeforeMonotone(req, a, b);
      if b < r - 1 { BeforeMonotone(req, b, r - 1); }
    }
  }

  /** Requester r wants the arrays: a load or store that no flush holds up, or a register in one of three phases. */
  predicate Asks(s: DCacheState, inp: Input, r: ReqId)
  {
    if r < 2 then s.phase != FlushProcessing && (if r == LOAD then inp.loadReq else inp.storeReq)
    else s.mshr(r - 2).phase in {FlushVictimRequest, VictimRequest, MissWriteCacheRequest}
  }

  ghost predicate TwoAskBelow(s: DCacheState, inp: Input, r: ReqId)
  {
    exists a: ReqId, b: ReqId :: a < b < r && Asks(s, inp, a) && Asks(s, inp, b)
  }

  /** The two array ports go to the requesters that ask, unless two of a lower number do. */
  lemma ServedUnlessTwoBelow(s: DCacheState, inp: Input, r: ReqId)
    ensures CacheGrant(s, inp, r) <==> Asks(s, inp, r) && !TwoAskBelow(s, inp, r)
  {
    var req := Requests(s, inp);
    forall q: ReqId ensures req[q] == Asks(s, inp, q) { assert req[q] == ReqOf(s, inp, q); }
    BeforeTwo(req, r);
    if TwoAsk(req, r) {
      var a: nat, b: nat :| a < b < r && req[a] && req[b];
      var x: ReqId, y: ReqId := a, b;
      assert Asks(s, inp, x) && Asks(s, inp, y);
    }
    if TwoAskBelow(s, inp, r) {
      var a: ReqId, b: ReqId :| a < b < r && Asks(s, inp, a) && Asks(s, inp, b);
      assert req[a] && req[b];
    }
  }

  /** In every run a load or a store that is issued gets the arrays, unless a flush is processed. */
  lemma LsuServed(ys: seq<Sys>, inputs: seq<Input>, k: nat)
    requires Run(ys, inputs) && k < |inputs|
    ensures ys[k + 1].s.loadGranted <==> inputs[k].loadReq && ys[k].s.phase != FlushProcessing
    ensures ys[k + 1].s.storeGranted <==> inputs[k].storeReq && ys[k].s.phase != FlushProcessing
  {
    assert CycleOk(ys, inputs, k);
    ServedUnlessTwoBelow(ys[k].s, inputs[k], LOAD);
    ServedUnlessTwoBelow(ys[k].s, inputs[k], STORE);
  }

  /** Register m has a transaction for memory. */
  predicate Transacts(e: Mshr)
  {
    e.phase in {FlushVictimWriteToMem, VictimWriteToMem, MissReadMemRequest, UncachableWriteToMem}
  }

  ghost predicate TransactsBelow(s: DCacheState, m: MshrId)
  {
    exists a: MshrId :: a < m && Transacts(s.mshr(a))
  }

  /** Memory takes one transaction in a cycle with an acknowledge: that of the lowest register that has one. */
  lemma AcceptedIfLowest(s: DCacheState, inp: Input, m: MshrId)
    ensures MemReq(s.mshr(m)) && MemAccepted(s, inp, m) <==>
              inp.memAck && Transacts(s.mshr(m)) && !TransactsBelow(s, m)
  {
    if Transacts(s.mshr(m)) { assert MemReqs(s)(m); }
    if TransactsBelow(s, m) {
      var a: MshrId :| a < m && Transacts(s.mshr(a));
      assert MemReqs(s)(a);
    }
    if m == MemSel(s) && TransactsBelow(s, m) { assert false; }
  }

  /**
   What the waits of MissBounded are, in every run: a register waits for the arrays only while two
   requesters below it ask, and for memory only without an acknowledge or behind a lower register.
   */
  lemma WaitsMean(ys: seq<Sys>, inputs: seq<Input>, m: MshrId, k: nat)
    requires Run(ys, inputs) && k < |inputs|
    ensures var s, e, v := ys[k].s, ys[k].s.mshr(m), ViewOf(ys[k].s, inputs[k], m);
            && (WaitsForPort(e, v) <==>
                  && (e.phase.VictimRequest? || e.phase.MissWriteCacheRequest?) && !e.isAllocatorLoadFlushed
                  && TwoAskBelow(s, inputs[k], MshrReqId(m)))
            && (WaitsForAck(e, v) <==> Transacts(e) && (inputs[k].memAck ==> TransactsBelow(s, m)))
  {
    ServedUnlessTwoBelow(ys[k].s, inputs[k], MshrReqId(m));
    AcceptedIfLowest(ys[k].s, inputs[k], m);
  }

  // ------------------------------------------------------------------ flushes and idle ports

  /** No load and no store is granted while a flush is processed. */
  lemma NoLsuGrantInFlush(s: DCacheState, inp: Input)
    requires Flushing(s)
    ensures !CacheGrant(s, inp, LOAD) && !CacheGrant(s, inp, STORE)
  {
    assert Requests(s, inp)[0] == ReqOf(s, inp, LOAD) && Requests(s, inp)[1] == ReqOf(s, inp, STORE);
  }

  /** In every run, a port that was not granted writes neither a tag nor data nor a dirty bit. */
  lemma UngrantedPortWritesNothing(ys: seq<Sys>, inputs: seq<Input>, k: nat, p: PortId, i: Index, w: Way)
    requires Run(ys, inputs) && k < |ys| && !ys[k].s.port(p).granted
    ensures !Filling(ys[k].s, p, i, w) && !DataWrite(ys[k].s, p, i, w)
  {
    RunInv(ys, inputs, k);
    assert PortOk(ys[k].s, p);
  }

  /**
   An idle port still carries the load's address, so it does record a way in the replacement array:
   exactly when that address is in the cache and the other port is not at the same index.
   */
  lemma UngrantedPortRecords(ys: seq<Sys>, inputs: seq<Input>, k: nat, p: PortId)
    requires Run(ys, inputs) && 0 < k < |ys| && !ys[k].s.port(p).granted
    ensures ys[k].s.port(p).req.addr == inputs[k - 1].loadAddr
    ensures ReplWrite(ys[k].s, p) <==>
              RepHit(ys[k].s, p) && !(p == 1 && ys[k].s.port(0).req.addr.index == inputs[k - 1].loadAddr.index)
  {
    assert CycleOk(ys, inputs, k - 1);
    RunInv(ys, inputs, k);
    assert PortOk(ys[k].s, p);
    IdlePortCarriesLoad(ys[k - 1].s, inputs[k - 1], p);
  }

  lemma IdlePortCarriesLoad(s: DCacheState, inp: Input, p: PortId)
    requires !NextPort(s, inp, p).granted
    ensures NextPort(s, inp, p).req == LoadMux(inp)
  {
  }
}
