/**
 The pipeline registers of DCacheArrayPortMultiplexer, fed by the port arbiter.
 */
module DCacheMultiplexerUnit {
  import opened CacheTypes
  import opened DCacheModel
  import opened DCacheCycle
  import opened PortArbiter

  class DCacheArrayPortMultiplexer {
    const portInReg: array<nat>
    const portInGrantReg: array<bool>
    const muxInReg: array<Request>
    const portOutRegTagStg: array<nat>
    const portOutRegDataStg: array<nat>
    const lsuGrantReg: array<bool>

    ghost predicate Holds(s: DCacheState)
      reads portInReg, portInGrantReg, muxInReg, portOutRegTagStg, portOutRegDataStg, lsuGrantReg
    {
      && Separate() && HoldsInputs(s)
      && (forall r: ReqId :: portOutRegTagStg[r] == s.outTag(r) && portOutRegDataStg[r] == s.outData(r))
    }

    ghost predicate Separate()
    {
      && portInReg.Length == portInGrantReg.Length == muxInReg.Length == lsuGrantReg.Length == 2
      && portOutRegTagStg.Length == portOutRegDataStg.Length == 2 + MSHR_NUM
      && portInReg != portOutRegTagStg && portInReg != portOutRegDataStg && portOutRegTagStg != portOutRegDataStg
      && portInGrantReg != lsuGrantReg
    }

    ghost predicate HoldsInputs(s: DCacheState)
      requires Separate()
      reads portInReg, portInGrantReg, muxInReg, lsuGrantReg
    {
      && (forall p: PortId ::
            portInReg[p] == s.port(p).owner && portInGrantReg[p] == s.port(p).granted && muxInReg[p] == s.port(p).req)
      && lsuGrantReg[0] == s.loadGranted && lsuGrantReg[1] == s.storeGranted
    }

    static method Selected(s: DCacheState, inp: Input, p: PortId, sel: ReqId) returns (q: Request)
      requires sel == AddrOwner(s, inp, p)
      ensures q == AddrReq(s, inp, p)
    {
      q := MuxIn(s, inp, sel);
    }

    method LatchInputs(inSel: seq<nat>, inGrant: seq<bool>, selected: seq<Request>, grant: seq<bool>)
      requires portInReg.Length == portInGrantReg.Length == muxInReg.Length == lsuGrantReg.Length == 2
      requires portInGrantReg != lsuGrantReg && |inSel| == |inGrant| == |selected| == 2 <= |grant|
      modifies portInReg, portInGrantReg, muxInReg, lsuGrantReg
      ensures forall k :: 0 <= k < 2 ==> portInReg[k] == inSel[k] && portInGrantReg[k] == inGrant[k]
      ensures forall k :: 0 <= k < 2 ==> muxInReg[k] == selected[k] && lsuGrantReg[k] == grant[k]
    {
      for i := 0 to 2
        invariant forall k :: 0 <= k < i ==> portInReg[k] == inSel[k] && portInGrantReg[k] == inGrant[k]
        invariant forall k :: 0 <= k < i ==> muxInReg[k] == selected[k] && lsuGrantReg[k] == grant[k]
      {
        portInReg[i] := inSel[i];
        muxInReg[i] := selected[i];
        portInGrantReg[i] := inGrant[i];
        lsuGrantReg[i] := grant[i];
      }
    }

    method ClockInputs(s: DCacheState, inp: Input, inSel: seq<nat>, inGrant: seq<bool>, grant: seq<bool>)
      requires Separate() && |inSel| == |inGrant| == 2 && |grant| == 2 + MSHR_NUM
      requires forall p: PortId :: inGrant[p] == InGrant(Requests(s, inp), p) && inSel[p] == AddrOwner(s, inp, p)
      requires grant[0] == CacheGrant(s, inp, LOAD) && grant[1] == CacheGrant(s, inp, STORE)
      modifies portInReg, portInGrantReg, muxInReg, lsuGrantReg
      ensures forall p: PortId ::
                portInReg[p] == inSel[p] && portInGrantReg[p] == inGrant[p] && muxInReg[p] == AddrReq(s, inp, p)
      ensures lsuGrantReg[0] == grant[0] && lsuGrantReg[1] == grant[1]
    {
      var q0 := Selected(s, inp, 0, inSel[0]);
      var q1 := Selected(s, inp, 1, inSel[1]);
      LatchInputs(inSel, inGrant, [q0, q1], grant);
    }

    method LatchOutputs(outSel: seq<nat>)
      requires portOutRegTagStg.Length == portOutRegDataStg.Length == |outSel| && portOutRegTagStg != portOutRegDataStg
      modifies portOutRegTagStg, portOutRegDataStg
      ensures portOutRegDataStg[..] == old(portOutRegTagStg[..]) && portOutRegTagStg[..] == outSel
    {
      for i := 0 to |outSel|
        invariant portOutRegDataStg[..i] == old(portOutRegTagStg[..i]) && portOutRegTagStg[..i] == outSel[..i]
        invariant portOutRegTagStg[i..] == old(portOutRegTagStg[i..])
      {
        portOutRegDataStg[i] := portOutRegTagStg[i];
        portOutRegTagStg[i] := outSel[i];
      }
    }

    /** What the registers hold when each of them has taken the arbiter's output. */
    lemma HoldsNext(s: DCacheState, inp: Input)
      requires Separate()
      requires forall p: PortId ::
                 && portInReg[p] == AddrOwner(s, inp, p) && portInGrantReg[p] == InGrant(Requests(s, inp), p)
                 && muxInReg[p] == AddrReq(s, inp, p)
      requires lsuGrantReg[0] == CacheGrant(s, inp, LOAD) && lsuGrantReg[1] == CacheGrant(s, inp, STORE)
      requires forall r: ReqId ::
                 portOutRegTagStg[r] == OutSel(Requests(s, inp), 2, r) && portOutRegDataStg[r] == s.outTag(r)
      ensures Holds(Next(s, inp))
    {
      var n := Next(s, inp);
      forall p: PortId
        ensures portInReg[p] == n.port(p).owner && portInGrantReg[p] == n.port(p).granted
                && muxInReg[p] == n.port(p).req
      {
        PortFields(s, inp, p);
      }
      forall r: ReqId ensures portOutRegTagStg[r] == n.outTag(r) && portOutRegDataStg[r] == n.outData(r)
      {
        OutTagField(s, inp, r);
      }
      LsuGrantFields(s, inp);
    }

    method Clock(s: DCacheState, inp: Input)
      requires Holds(s)
      modifies portInReg, portInGrantReg, muxInReg, portOutRegTagStg, portOutRegDataStg, lsuGrantReg
      ensures Holds(Next(s, inp))
    {
      var grant, inSel, inGrant, outSel := Arbitrate(Requests(s, inp), 2);
      ClockInputs(s, inp, inSel, inGrant, grant);
      LatchOutputs(outSel);
      assert forall r: ReqId :: portOutRegTagStg[r] == outSel[r];
      assert forall r: ReqId :: portOutRegDataStg[r] == old(portOutRegTagStg[r]);
      HoldsNext(s, inp);
    }
  }
}
