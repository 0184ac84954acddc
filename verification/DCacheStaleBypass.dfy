/**
 A run in which a load bypasses a line that was never fetched: the miss register gave its miss up
 because its load was flushed, kept the line it held before, and still matches the address.
 */
module DCacheStaleBypass {
  import opened Common
  import opened CacheTypes
  import opened PortArbiter
  import opened DCacheModel
  import opened DCacheSystem
  import opened DCacheInvariant
  import opened DCacheTheorems

  function Address(): LineAddr { LineAddr(0, 0) }

  /** What memory holds everywhere. The registers start as zeros. */
  function Contents(): Line { seq(LINE_BYTE_NUM, _ => 1) }

  function IdleEntry(): Mshr
  {
    Mshr(false, Invalid, false, false, false, Address(), (w: Way) => TagEntry(false, 0), false, Address(), 0, 0,
         ZeroLine(), false, false, false, false, 0, 0, 0)
  }

  function IdleInput(): Input
  {
    Input(false, Address(), false, 0, false, Address(), false, ZeroLine(), NoBytes(),
          (m: MshrId) => false, (p: ListPtr) => false, false, 0, 0, None, None, false, false, None, None)
  }

  function IdlePort(): Port
  {
    Port(LOAD, false, LoadMux(IdleInput()), (w: Way) => TagEntry(false, 0), (w: Way) => ZeroLine(),
         (w: Way) => false, seq(WAY_NUM - 1, _ => false), 0, false)
  }

  function Start(): Sys
  {
    Sys(
      DCacheState(
        (i: Index, w: Way) => TagEntry(false, 0), (i: Index, w: Way) => ZeroLine(), (i: Index, w: Way) => false,
        (i: Index) => seq(WAY_NUM - 1, _ => false), (p: PortId) => IdlePort(),
        (r: ReqId) => 0, (r: ReqId) => 0, false, false,
        LoadRegs(false, Address(), false, 0), StoreRegs(false, Address(), false),
        (m: MshrId) => IdleEntry(), Normal),
      (a: LineAddr) => Contents(), map[], map[], (a: LineAddr) => Contents(),
      (m: MshrId) => StoreBytes(ZeroLine(), NoBytes()))
  }

  /**
   A load at position 1 of the active list; a pause; then twice a load at position 0 and a store that
   keep both ports busy. The first load, and only it, is flushed while they do so for the first time.
   */
  function Cycle(k: nat): Input
  {
    if k == 0 then IdleInput().(loadReq := true, loadPtr := 1)
    else if k == 1 then IdleInput()
    else IdleInput().(loadReq := true, storeReq := true, storeMask := AllBytes(),
                      flushed := (p: ListPtr) => k == 2 && p == 1)
  }

  /** No load is issued in a cycle that flushes it. */
  predicate IssuesLive(inp: Input) { inp.loadReq ==> !inp.flushed(inp.loadPtr) }

  function State(k: nat): Sys
  {
    if k == 0 then Start() else NextSys(State(k - 1), Cycle(k - 1))
  }

  lemma BothPortsTaken(s: DCacheState, inp: Input)
    requires s.phase == Normal && inp.loadReq && inp.storeReq
    ensures CacheGrant(s, inp, LOAD) && CacheGrant(s, inp, STORE) && !CacheGrant(s, inp, MshrReqId(0))
  {
    var q := Requests(s, inp);
    assert q[0] == ReqOf(s, inp, LOAD) && q[1] == ReqOf(s, inp, STORE) && q[2] == ReqOf(s, inp, 2);
    assert Before(q, 0) == 0 && Before(q, 1) == 1 && Before(q, 2) == 2;
  }

  lemma LoadGranted(s: DCacheState, inp: Input)
    requires s.phase == Normal && inp.loadReq
    ensures CacheGrant(s, inp, LOAD) && OutSel(Requests(s, inp), 2, LOAD) == 0 && InSel(Requests(s, inp), 0) == LOAD
  {
    var q := Requests(s, inp);
    assert q[0] == ReqOf(s, inp, LOAD) && Before(q, 0) == 0;
    SelectionInverse(q, 2, LOAD);
  }

  /** What every state of the run shares: no transaction, and only miss register 0 in use. */
  predicate Quiet(y: Sys, p: MshrPhase)
  {
    && y.s.phase == Normal && y.pendingReads == map[] && y.pendingWrites == map[]
    && y.flat(Address()) == Contents()
    && y.s.mshr(0).phase == p && y.s.mshr(0).line == ZeroLine()
  }

  ghost predicate OthersIdle(s: DCacheState)
  {
    forall m: MshrId :: m != 0 ==> s.mshr(m).phase == Invalid && !s.mshr(m).valid
  }

  /** Miss register 0 holds the address and has fetched nothing. */
  predicate Holding(e: Mshr)
  {
    e.valid && e.newAddr == Address() && e.listPtr == 1 && !e.newValid && !e.isAllocatedByStore
  }

  lemma QuietEnv(y: Sys, k: nat, p: MshrPhase)
    requires Quiet(y, p) && OthersIdle(y.s) && p in {Invalid, VictimRequest}
    ensures EnvOk(y, Cycle(k)) && NextSys(y, Cycle(k)).pendingReads == map[]
            && NextSys(y, Cycle(k)).pendingWrites == map[]
    ensures NextSys(y, Cycle(k)).s.phase == Normal
  {
    forall m: MshrId ensures !MemReq(y.s.mshr(m)) && !y.s.mshr(m).phase.MissMergeStoreData?
    {
      if m == 0 { assert y.s.mshr(m).phase == p; }
    }
    assert !MemValid(y.s);
  }

  lemma {:induction false} NoMerge(y: Sys, n: nat, p: MshrPhase)
    requires Quiet(y, p) && OthersIdle(y.s) && p in {Invalid, VictimRequest} && n <= MSHR_NUM
    ensures AfterMerges(y, n, Address()) == AfterHitStore(y, Address())
  {
    if n > 0 {
      NoMerge(y, n - 1, p);
      assert n - 1 == 0 ==> y.s.mshr(0).phase == p;
    }
  }

  lemma NothingHeld(s: DCacheState, i: Index)
    requires forall m: MshrId :: !s.mshr(m).valid
    ensures !MshrConflict(s, i)
  {
    forall m: MshrId ensures !BusyAt(s, i)(m) { }
  }

  lemma NothingCached(s: DCacheState, inp: Input, p: PortId)
    requires forall i: Index, w: Way :: !s.tag(i, w).valid
    ensures !RepHit(Next(s, inp), p)
  {
    var t := Next(s, inp);
    assert t.port(p) == NextPort(s, inp, p);
    forall w: Way ensures !TagMatch(t, p)(w) { }
  }

  lemma StartStep()
    ensures OthersIdle(State(1).s) && State(1).s.mshr(0).phase == Invalid && State(1).s.mshr(0).line == ZeroLine()
    ensures forall m: MshrId :: !State(1).s.mshr(m).valid
  {
    var y := State(0);
    forall m: MshrId
      ensures State(1).s.mshr(m) == NextMshr(y.s.mshr(m), ViewOf(y.s, Cycle(0), m)) && InitMshr(y.s, m).None?
    {
    }
  }

  lemma FirstLoad(s: DCacheState)
    requires s.phase == Normal && (forall m: MshrId :: s.mshr(m).phase == Invalid)
    ensures var t := Next(s, Cycle(0));
            t.load == LoadRegs(true, Address(), false, 1) && t.loadGranted && t.outTag(LOAD) == 0 && !t.storeGranted
  {
    LoadGranted(s, Cycle(0));
    assert Requests(s, Cycle(0))[1] == ReqOf(s, Cycle(0), STORE);
  }

  lemma Loaded()
    ensures Quiet(State(1), Invalid) && OthersIdle(State(1).s) && EnvOk(State(0), Cycle(0))
    ensures var s := State(1).s;
            !s.mshr(0).valid && LoadMiss(s) && s.load == LoadRegs(true, Address(), false, 1) && !s.storeGranted
  {
    var y, s := State(0), State(1).s;
    QuietEnv(y, 0, Invalid);
    NoMerge(y, MSHR_NUM, Invalid);
    StartStep();
    FirstLoad(y.s);
    NothingHeld(s, s.port(0).req.addr.index);
    NothingCached(y.s, Cycle(0), 0);
  }

  lemma EntryAllocated(e: Mshr, v: MshrView)
    requires e.phase.Invalid? && v.alloc == Some(Allocation(Address(), 1, false, false))
    ensures NextMshr(e, v).phase == VictimRequest && Holding(NextMshr(e, v)) && NextMshr(e, v).line == e.line
    ensures !NextMshr(e, v).isAllocatorLoadFlushed
  {
  }

  /** Without a grant the flush of its load marks the entry, and then makes it give up. */
  lemma EntryGivesUp(e: Mshr, v: MshrView)
    requires e.phase.VictimRequest? && Holding(e) && !v.grant && (v.flushed || e.isAllocatorLoadFlushed)
    ensures Holding(NextMshr(e, v)) && NextMshr(e, v).line == e.line && NextMshr(e, v).isAllocatorLoadFlushed
    ensures NextMshr(e, v).phase == if e.isAllocatorLoadFlushed then MissHandlingComplete else VictimRequest
  {
  }

  lemma OthersStay(y: Sys, inp: Input)
    requires OthersIdle(y.s) && y.s.phase == Normal && forall m: MshrId :: m != 0 ==> InitMshr(y.s, m).None?
    ensures OthersIdle(NextSys(y, inp).s)
  {
    forall m: MshrId | m != 0 ensures NextSys(y, inp).s.mshr(m).phase == Invalid && !NextSys(y, inp).s.mshr(m).valid
    {
      assert NextSys(y, inp).s.mshr(m) == NextMshr(y.s.mshr(m), ViewOf(y.s, inp, m));
    }
  }

  lemma LoadTakesEntry(s: DCacheState)
    requires LoadMiss(s) && !s.storeGranted && !s.mshr(0).valid
    ensures LoadSlot(s) == 0 && StoreSlot(s) == MSHR_NUM
    ensures InitMshr(s, 0) == Some(Allocation(s.load.addr, s.load.listPtr, false, s.load.uncachable))
    ensures forall m: MshrId :: m != 0 ==> InitMshr(s, m).None?
  {
    assert FreeMshr(s)(0);
  }

  lemma AllocatedStep(y: Sys, inp: Input)
    requires Quiet(y, Invalid) && OthersIdle(y.s) && inp == IdleInput()
    requires !y.s.mshr(0).valid && LoadMiss(y.s) && y.s.load == LoadRegs(true, Address(), false, 1) && !y.s.storeGranted
    ensures var s := NextSys(y, inp).s;
            && s.mshr(0).phase == VictimRequest && s.mshr(0).line == ZeroLine() && Holding(s.mshr(0)) && OthersIdle(s)
            && !s.mshr(0).isAllocatorLoadFlushed && !s.loadGranted && !s.storeGranted
    ensures NextSys(y, inp).flat(Address()) == Contents()
  {
    NoMerge(y, MSHR_NUM, Invalid);
    LoadTakesEntry(y.s);
    OthersStay(y, inp);
    EntryAllocated(y.s.mshr(0), ViewOf(y.s, inp, 0));
    NothingGranted(y.s, inp);
  }

  lemma Allocated()
    ensures Quiet(State(2), VictimRequest) && OthersIdle(State(2).s) && EnvOk(State(1), Cycle(1))
    ensures var s := State(2).s;
            Holding(s.mshr(0)) && !s.mshr(0).isAllocatorLoadFlushed && !s.loadGranted && !s.storeGranted
  {
    Loaded();
    Unfold(1);
    QuietEnv(State(1), 1, Invalid);
    AllocatedStep(State(1), Cycle(1));
  }

  lemma Unfold(k: nat)
    ensures State(k + 1) == NextSys(State(k), Cycle(k))
  {
  }

  lemma NothingGranted(s: DCacheState, inp: Input)
    requires !inp.loadReq && !inp.storeReq
    ensures !CacheGrant(s, inp, LOAD) && !CacheGrant(s, inp, STORE)
  {
    assert Requests(s, inp)[0] == ReqOf(s, inp, LOAD) && Requests(s, inp)[1] == ReqOf(s, inp, STORE);
  }

  /** Both ports stay busy for a cycle and no new miss is allocated. */
  lemma Starved(y: Sys, k: nat)
    requires k >= 2 && Quiet(y, VictimRequest) && OthersIdle(y.s) && Holding(y.s.mshr(0))
    requires (k == 2 || y.s.mshr(0).isAllocatorLoadFlushed) && forall m: MshrId :: InitMshr(y.s, m).None?
    ensures EnvOk(y, Cycle(k)) && OthersIdle(NextSys(y, Cycle(k)).s)
    ensures var e, n := y.s.mshr(0), NextSys(y, Cycle(k)).s.mshr(0);
            && Quiet(NextSys(y, Cycle(k)), if e.isAllocatorLoadFlushed then MissHandlingComplete else VictimRequest)
            && Holding(n) && n.isAllocatorLoadFlushed
    requires AfterHitStore(y, Address()) == Contents()
  {
    var inp := Cycle(k);
    QuietEnv(y, k, VictimRequest);
    NoMerge(y, MSHR_NUM, VictimRequest);
    BothPortsTaken(y.s, inp);
    OthersStay(y, inp);
    EntryGivesUp(y.s.mshr(0), ViewOf(y.s, inp, 0));
  }

  lemma TagStage(y: Sys, k: nat)
    requires k >= 2 && y.s.phase == Normal
    ensures var s := NextSys(y, Cycle(k)).s;
            && s.loadGranted && s.storeGranted && s.load.addr == Address() && s.store.addr == Address()
            && s.port(s.outTag(LOAD)).req.addr == Address() == s.port(s.outTag(STORE)).req.addr
  {
    BothPortsTaken(y.s, Cycle(k));
    SelectionInverse(Requests(y.s, Cycle(k)), 2, LOAD);
    SelectionInverse(Requests(y.s, Cycle(k)), 2, STORE);
  }

  lemma Conflict(s: DCacheState)
    requires Holding(s.mshr(0))
    requires s.port(s.outTag(LOAD)).req.addr == Address() == s.port(s.outTag(STORE)).req.addr
    ensures !LoadMiss(s) && !StoreMiss(s) && !StoreHit(s)
    ensures forall m: MshrId :: InitMshr(s, m).None?
  {
    assert BusyAt(s, 0)(0);
    assert MshrConflict(s, 0);
  }

  lemma NothingInTagStage(y: Sys, p: MshrPhase)
    requires Quiet(y, p) && !y.s.loadGranted && !y.s.storeGranted
    ensures (forall m: MshrId :: InitMshr(y.s, m).None?) && AfterHitStore(y, Address()) == Contents()
  {
  }

  lemma AbandonedStep(y: Sys, k: nat)
    requires k == 2 && Quiet(y, VictimRequest) && OthersIdle(y.s) && Holding(y.s.mshr(0))
    requires !y.s.loadGranted && !y.s.storeGranted && !y.s.mshr(0).isAllocatorLoadFlushed
    ensures EnvOk(y, Cycle(k)) && OthersIdle(NextSys(y, Cycle(k)).s) && Quiet(NextSys(y, Cycle(k)), VictimRequest)
    ensures var n := NextSys(y, Cycle(k)).s.mshr(0); Holding(n) && n.isAllocatorLoadFlushed
  {
    NothingInTagStage(y, VictimRequest);
    Starved(y, k);
  }

  lemma Abandoned()
    ensures Quiet(State(3), VictimRequest) && OthersIdle(State(3).s) && EnvOk(State(2), Cycle(2))
    ensures Holding(State(3).s.mshr(0)) && State(3).s.mshr(0).isAllocatorLoadFlushed
  {
    Allocated();
    Unfold(2);
    AbandonedStep(State(2), 2);
  }

  lemma GivenUp()
    ensures Quiet(State(4), MissHandlingComplete) && EnvOk(State(3), Cycle(3)) && Holding(State(4).s.mshr(0))
    ensures State(4).s.loadGranted && State(4).s.load.addr == Address()
  {
    Abandoned();
    Allocated();
    TagStage(State(2), 2);
    Unfold(2);
    Unfold(3);
    Conflict(State(3).s);
    Starved(State(3), 3);
    TagStage(State(3), 3);
  }

  function States(): (ys: seq<Sys>)
    ensures |ys| == 5 && forall k: nat :: k < 5 ==> ys[k] == State(k)
  {
    seq(5, k requires 0 <= k < 5 => State(k))
  }

  function Cycles(): (inputs: seq<Input>)
    ensures |inputs| == 4 && forall k: nat :: k < 4 ==> inputs[k] == Cycle(k)
  {
    seq(4, k requires 0 <= k < 4 => Cycle(k))
  }

  lemma CycleIsOk(k: nat)
    requires k < 4 && EnvOk(State(k), Cycle(k))
    ensures CycleOk(States(), Cycles(), k)
  {
    Unfold(k);
    assert States()[k] == State(k) && States()[k + 1] == State(k + 1) && Cycles()[k] == Cycle(k);
  }

  lemma Environment(k: nat)
    requires k < 4
    ensures EnvOk(State(k), Cycle(k))
  {
    if k == 0 { Loaded(); } else if k == 1 { Allocated(); } else if k == 2 { Abandoned(); } else { GivenUp(); }
  }

  lemma IsRun()
    ensures Run(States(), Cycles())
  {
    forall k: nat | k < 4 ensures CycleOk(States(), Cycles(), k)
    {
      Environment(k);
      CycleIsOk(k);
    }
    assert InitSys(State(0));
  }

  lemma StaleEntry(y: Sys)
    requires Inv(y) && Quiet(y, MissHandlingComplete) && Holding(y.s.mshr(0))
    ensures MshrReadHit(y.s, Address()) && MshrReadData(y.s, Address()) == ZeroLine() != y.flat(Address())
  {
    assert MshrHoldsFetched(y.s, Address())(0);
    BypassEntry(y.s, Address());
    assert MshrHitId(y.s, Address()) == 0;
    assert Contents()[0] != ZeroLine()[0];
  }

  lemma CycleIssuesLive(k: nat)
    ensures IssuesLive(Cycle(k))
  {
  }

  lemma LiveRun(k: nat)
    requires k < 4
    ensures IssuesLive(Cycles()[k])
  {
    CycleIssuesLive(k);
  }

  /** A load in its TAG stage bypasses a line that differs from the flat memory. */
  lemma StaleBypass()
    ensures Run(States(), Cycles()) && forall k: nat :: k < 4 ==> IssuesLive(Cycles()[k])
    ensures var y := States()[4];
            && y.s.loadGranted && MshrReadHit(y.s, y.s.load.addr)
            && MshrReadData(y.s, y.s.load.addr) != y.flat(y.s.load.addr)
  {
    IsRun();
    forall k: nat | k < 4 ensures IssuesLive(Cycles()[k]) { LiveRun(k); }
    GivenUp();
    RunInv(States(), Cycles(), 4);
    StaleEntry(State(4));
  }
}
