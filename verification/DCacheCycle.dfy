/**
 One clock edge seen from outside the arbiter: which request sits in which port afterwards,
 what each miss register saw, and how the arrays changed.
 */
module DCacheCycle {
  import opened Common
  import opened CacheTypes
  import opened PortArbiter
  import opened DCacheModel
  import opened DCacheInvariant

  /** The request now in port p comes from whoever was granted the port, or from the idle load. */
  ghost predicate PortSource(s: DCacheState, inp: Input, s2: DCacheState, view: MshrId -> MshrView, p: PortId)
  {
    var t := s2.port(p);
    if !t.granted then t.owner == LOAD && t.req == LoadMux(inp)
    else
      && s2.outTag(t.owner) == p
      && if t.owner == LOAD then s2.loadGranted && t.req == LoadMux(inp)
         else if t.owner == STORE then s2.storeGranted && t.req == StoreMux(inp)
         else
           && view(t.owner - 2).grant && MshrCacheReq(s.mshr(t.owner - 2))
           && t.req == MshrMux(s.mshr(t.owner - 2))
  }

  ghost predicate PortReads(s: DCacheState, s2: DCacheState, p: PortId)
  {
    var t := s2.port(p);
    var i := s.port(p).req.addr.index;
    && (forall w: Way :: t.tagOut(w) == s.tag(t.req.addr.index, w))
    && (forall w: Way :: t.dataOut(w) == s.data(i, w) && t.dirtyOut(w) == s.dirty(i, w))
    && t.readWay == RepWay(s, p)
    && t.readsEvicted == s.port(p).req.isVictimEviction
  }

  ghost predicate ViewSource(s: DCacheState, inp: Input, v: MshrView, m: MshrId)
  {
    && v.alloc == KeptAllocation(s, inp, m)
    && v.startFlush == (Flushing(s) && m == 0)
    && v.tagOut == TagPort(s, m).tagOut
    && v.dataOut == DataOut(DataPort(s, m)) && v.dirtyOut == DirtyOut(DataPort(s, m))
    && v.replOut == ReplOut(DataPort(s, m))
    && v.accepted == MemAccepted(s, inp, m) && v.memSerial == inp.memSerial && v.memWSerial == inp.memWSerial
    && v.result == inp.result && v.response == inp.response
    && v.storeData == inp.storeData && v.storeMask == inp.storeMask
    && v.canBeInvalid == inp.canBeInvalid(m) && v.flushed == inp.flushed(s.mshr(m).listPtr)
  }

  ghost predicate GrantsKept(s2: DCacheState, view: MshrId -> MshrView)
  {
    && (s2.loadGranted ==> OwnsPort(s2, LOAD))
    && (s2.storeGranted ==> OwnsPort(s2, STORE))
    && (forall m: MshrId :: view(m).grant ==> OwnsPort(s2, MshrReqId(m)))
  }

  ghost predicate TagsStepped(s: DCacheState, s2: DCacheState)
  {
    forall i: Index, w: Way {:trigger s2.tag(i, w)} ::
      s2.tag(i, w) == WriteTag(WriteTag(s.tag(i, w), s2.port(0).req, i, w), s2.port(1).req, i, w)
  }

  ghost predicate DataStepped(s: DCacheState, s2: DCacheState)
  {
    && (forall i: Index, w: Way {:trigger NextData(s, i, w)} :: s2.data(i, w) == NextData(s, i, w))
    && (forall i: Index, w: Way {:trigger NextDirty(s, i, w)} :: s2.dirty(i, w) == NextDirty(s, i, w))
  }

  ghost predicate MshrsStepped(s: DCacheState, inp: Input, s2: DCacheState, view: MshrId -> MshrView)
  {
    forall m: MshrId {:trigger NextMshr(s.mshr(m), view(m))} {:trigger ViewSource(s, inp, view(m), m)} ::
      s2.mshr(m) == NextMshr(s.mshr(m), view(m)) && ViewSource(s, inp, view(m), m)
  }

  ghost predicate Stepped(s: DCacheState, inp: Input, s2: DCacheState, view: MshrId -> MshrView)
  {
    && TagsStepped(s, s2)
    && DataStepped(s, s2)
    && (forall p: PortId :: PortSource(s, inp, s2, view, p) && PortReads(s, s2, p))
    && GrantsKept(s2, view)
    && MshrsStepped(s, inp, s2, view)
    && s2.phase == NextPhase(s, inp)
    && s2.outData == s.outTag
    && s2.load == LoadRegs(inp.loadReq, inp.loadAddr, inp.loadUncachable, inp.loadPtr)
    && s2.store == StoreRegs(inp.storeReq, inp.storeAddr, inp.storeUncachable)
    && (Flushing(s) ==> !s2.loadGranted && !s2.storeGranted)
    && (s2.loadGranted ==> inp.loadReq) && (s2.storeGranted ==> inp.storeReq)
  }

  function Views(s: DCacheState, inp: Input): MshrId -> MshrView { (m: MshrId) => ViewOf(s, inp, m) }

  lemma OwnerGranted(s: DCacheState, inp: Input, p: PortId)
    requires InGrant(Requests(s, inp), p)
    ensures CacheGrant(s, inp, AddrOwner(s, inp, p)) && ReqOf(s, inp, AddrOwner(s, inp, p))
    ensures OutSel(Requests(s, inp), 2, AddrOwner(s, inp, p)) == p
  {
    GrantedSelection(Requests(s, inp), 2, p);
  }

  /** The pieces of PortSource, with the request still named by its owner. */
  ghost predicate PortFacts(s: DCacheState, inp: Input, s2: DCacheState, view: MshrId -> MshrView, p: PortId, r: ReqId)
  {
    && s2.port(p).owner == r && s2.port(p).req == MuxIn(s, inp, r)
    && (!s2.port(p).granted ==> r == LOAD)
    && (s2.port(p).granted ==> s2.outTag(r) == p)
    && (s2.port(p).granted && r == LOAD ==> s2.loadGranted)
    && (s2.port(p).granted && r == STORE ==> s2.storeGranted)
    && (s2.port(p).granted && r >= 2 ==> view(r - 2).grant && MshrCacheReq(s.mshr(r - 2)))
  }

  lemma PortSourceAt(s: DCacheState, inp: Input, s2: DCacheState, view: MshrId -> MshrView, p: PortId, r: ReqId)
    requires PortFacts(s, inp, s2, view, p, r)
    ensures PortSource(s, inp, s2, view, p)
  {
  }

  lemma PortFields(s: DCacheState, inp: Input, p: PortId)
    ensures var t := Next(s, inp).port(p);
            && t.owner == AddrOwner(s, inp, p) && t.granted == InGrant(Requests(s, inp), p)
            && t.req == MuxIn(s, inp, AddrOwner(s, inp, p))
  {
    assert Next(s, inp).port(p) == NextPort(s, inp, p);
  }

  lemma OutTagField(s: DCacheState, inp: Input, r: ReqId)
    ensures Next(s, inp).outTag(r) == OutSel(Requests(s, inp), 2, r)
  {
  }

  lemma LsuGrantFields(s: DCacheState, inp: Input)
    ensures Next(s, inp).loadGranted == CacheGrant(s, inp, LOAD)
            && Next(s, inp).storeGranted == CacheGrant(s, inp, STORE)
  {
  }

  lemma MshrGrantField(s: DCacheState, inp: Input, r: ReqId)
    requires r >= 2
    ensures Views(s, inp)(r - 2).grant == CacheGrant(s, inp, r)
  {
    assert Views(s, inp)(r - 2) == ViewOf(s, inp, r - 2);
  }

  lemma PortFactsFrom(s: DCacheState, inp: Input, s2: DCacheState, view: MshrId -> MshrView, p: PortId, r: ReqId)
    requires r == AddrOwner(s, inp, p)
    requires s2.port(p).owner == r && s2.port(p).granted == InGrant(Requests(s, inp), p)
             && s2.port(p).req == MuxIn(s, inp, r)
    requires s2.outTag(r) == OutSel(Requests(s, inp), 2, r)
    requires s2.loadGranted == CacheGrant(s, inp, LOAD) && s2.storeGranted == CacheGrant(s, inp, STORE)
    requires r >= 2 ==> view(r - 2).grant == CacheGrant(s, inp, r)
    ensures PortFacts(s, inp, s2, view, p, r)
  {
    if InGrant(Requests(s, inp), p) { OwnerGranted(s, inp, p); }
  }

  lemma PortFactsNext(s: DCacheState, inp: Input, p: PortId)
    ensures PortFacts(s, inp, Next(s, inp), Views(s, inp), p, AddrOwner(s, inp, p))
  {
    var s2, view, r := Next(s, inp), Views(s, inp), AddrOwner(s, inp, p);
    PortFields(s, inp, p);
    OutTagField(s, inp, r);
    LsuGrantFields(s, inp);
    if r >= 2 { MshrGrantField(s, inp, r); }
    PortFactsFrom(s, inp, s2, view, p, r);
  }

  lemma PortSourceNext(s: DCacheState, inp: Input, p: PortId)
    ensures PortSource(s, inp, Next(s, inp), Views(s, inp), p)
  {
    PortFactsNext(s, inp, p);
    PortSourceAt(s, inp, Next(s, inp), Views(s, inp), p, AddrOwner(s, inp, p));
  }

  lemma GrantNext(s: DCacheState, inp: Input, r: ReqId)
    requires CacheGrant(s, inp, r)
    ensures OwnsPort(Next(s, inp), r) && ReqOf(s, inp, r)
  {
    SelectionInverse(Requests(s, inp), 2, r);
  }

  lemma GrantsNext(s: DCacheState, inp: Input)
    ensures GrantsKept(Next(s, inp), Views(s, inp))
    ensures Flushing(s) ==> !Next(s, inp).loadGranted && !Next(s, inp).storeGranted
    ensures (Next(s, inp).loadGranted ==> inp.loadReq) && (Next(s, inp).storeGranted ==> inp.storeReq)
  {
    if CacheGrant(s, inp, LOAD) { GrantNext(s, inp, LOAD); }
    if CacheGrant(s, inp, STORE) { GrantNext(s, inp, STORE); }
    forall m: MshrId | Views(s, inp)(m).grant ensures OwnsPort(Next(s, inp), MshrReqId(m))
    {
      GrantNext(s, inp, MshrReqId(m));
    }
  }

  lemma PortReadsNext(s: DCacheState, inp: Input, p: PortId)
    ensures PortReads(s, Next(s, inp), p)
  {
    assert Next(s, inp).port(p) == NextPort(s, inp, p);
  }

  lemma ArraysNext(s: DCacheState, inp: Input)
    ensures TagsStepped(s, Next(s, inp)) && DataStepped(s, Next(s, inp))
  {
  }

  lemma MshrsNext(s: DCacheState, inp: Input)
    ensures MshrsStepped(s, inp, Next(s, inp), Views(s, inp))
  {
  }

  lemma SteppedNext(s: DCacheState, inp: Input)
    ensures Stepped(s, inp, Next(s, inp), Views(s, inp))
  {
    forall p: PortId
      ensures PortSource(s, inp, Next(s, inp), Views(s, inp), p) && PortReads(s, Next(s, inp), p)
    {
      PortSourceNext(s, inp, p);
      PortReadsNext(s, inp, p);
    }
    GrantsNext(s, inp);
    ArraysNext(s, inp);
    MshrsNext(s, inp);
  }
}
