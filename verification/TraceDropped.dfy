/**
 A trace whose op is dumped once more after its retirement line: the generator no longer knows it, and an
 event that the parser hands over is dropped.
 */
module TraceDropped {
  import opened Common
  import opened TraceModel
  import opened TraceTheorems
  import opened TraceOutput
  import TraceIds

  /** The op with instruction serial 1 and micro-op 0. */
  const GID: int := 4

  function Dump(stage: nat, stall: bool): Command { Stage(true, stall, false, stage, 1, 0, "") }

  /** The op commits, is dumped as stalled in the commit stage, and once more after its retirement was taken. */
  function Lines(): seq<Command> {
    [Cycle(1), Dump(13, false), Cycle(1), Dump(14, false), Cycle(1), Cycle(1), Dump(14, true), Cycle(1), Cycle(1),
     Dump(14, false), Cycle(1)]
  }

  function Ev(kind: EventKind, stage: nat): Event { Event(GID, kind, stage, "") }

  /** The cycles that have events buffered, and those events. */
  datatype Buffered = Buffered(cycles: seq<int>, lists: seq<seq<Event>>)

  ghost predicate Holds(b: Buffered, events: map<int, seq<Event>>) {
    && |b.lists| == |b.cycles| && Ascending(b.cycles)
    && (forall c :: c in events <==> c in b.cycles)
    && forall i :: 0 <= i < |b.cycles| ==> Pending(events, b.cycles[i]) == b.lists[i]
  }

  /** What matters of the parser: the time, the op, whether the generator knows it, and the buffer. */
  ghost predicate Snap(p: Parser, now: int, op: Option<Op>, known: bool, b: Buffered) {
    && p.ok && p.currentCycle == now && p.maxRetired <= GID && GID !in p.flushed
    && (GID in p.ops <==> op.Some?) && (op.Some? ==> p.ops[GID] == op.value)
    && (GID in p.journal.kanata.known <==> known)
    && Holds(b, p.journal.events)
  }

  // -------- Lines that only pass time --------

  lemma TailMembers(a: seq<int>, x: int)
    requires Ascending(a) && a != []
    ensures x in a[1..] <==> x in a && x != a[0]
  {
    assert a == [a[0]] + a[1..];
    if x in a[1..] {
      var i :| 0 <= i < |a| - 1 && a[1..][i] == x;
      assert a[0] < a[i + 1];
    }
  }

  lemma {:induction false} SameAscending(a: seq<int>, b: seq<int>)
    requires Ascending(a) && Ascending(b) && forall x :: x in a <==> x in b
    ensures a == b
    decreases |a|
  {
    assert a != [] ==> a[0] in a;
    assert b != [] ==> b[0] in b;
    if a != [] {
      assert a[0] == b[0];
      forall x ensures x in a[1..] <==> x in b[1..]
      {
        TailMembers(a, x);
        TailMembers(b, x);
      }
      SameAscending(a[1..], b[1..]);
    }
  }

  lemma SortedCycles(b: Buffered, p: Parser)
    requires Holds(b, p.journal.events)
    ensures Sorted(p.journal.events.Keys) == b.cycles
  {
    SameAscending(Sorted(p.journal.events.Keys), b.cycles);
  }

  /** No cycle is due. */
  predicate NotYet(b: Buffered, now: int) { b.cycles != [] ==> b.cycles[0] > now - BUFFERED_CYCLES }

  lemma NothingDue(p: Parser, now: int, op: Option<Op>, known: bool, b: Buffered)
    requires Snap(p, now, op, known, b) && NotYet(b, now + 1)
    ensures Snap(ProcessLine(p, Cycle(1)), now + 1, op, known, b)
  {
    SortedCycles(b, p.(currentCycle := now + 1));
  }

  predicate Starts(b: Buffered, list: seq<Event>) { b.lists != [] && b.lists[0] == list }

  /** The next cycle is due, and no other one. */
  ghost predicate FirstDue(b: Buffered, now: int) {
    |b.cycles| == |b.lists| > 0 && b.cycles[0] <= now - BUFFERED_CYCLES
    && (|b.cycles| > 1 ==> b.cycles[1] > now - BUFFERED_CYCLES)
  }

  lemma OneDue(p: Parser, now: int, op: Option<Op>, known: bool, b: Buffered, q: Parser)
    requires Snap(p, now, op, known, b) && FirstDue(b, now + 1)
    requires q == ProcessCycle(p.(currentCycle := now + 1), b.cycles[0])
    ensures ProcessLine(p, Cycle(1)) == q && q.currentCycle == now + 1
  {
    var r := p.(currentCycle := now + 1);
    SortedCycles(b, r);
    CycleClock(r, b.cycles[0]);
    FirstCycleOnly(r, b.cycles, q);
  }

  lemma FirstCycleOnly(r: Parser, cycles: seq<int>, q: Parser)
    requires r.ok && cycles != [] && Due(r, cycles[0], false) && q == ProcessCycle(r, cycles[0])
    requires q.currentCycle == r.currentCycle && (|cycles| > 1 ==> !Due(r, cycles[1], false))
    ensures ProcessCycles(r, cycles, false) == q
  {
    assert ProcessCycles(r, cycles, false) == ProcessCycles(q, cycles[1..], false);
    assert |cycles| > 1 ==> cycles[1..][0] == cycles[1];
  }

  lemma CycleClock(p: Parser, cycle: int)
    ensures ProcessCycle(p, cycle).currentCycle == p.currentCycle
  {
    TakeAllClock(p.(journal := Announce(p.journal, cycle)), cycle, Pending(p.journal.events, cycle));
  }

  /** Taking events moves neither the clock nor the buffer. */
  lemma {:induction false} TakeAllClock(p: Parser, cycle: int, es: seq<Event>)
    ensures var q := TakeAll(p, cycle, es);
      q.currentCycle == p.currentCycle && q.journal.events == p.journal.events
      && q.maxRetired == p.maxRetired && q.flushed == p.flushed
    decreases |es|
  {
    if es != [] && p.ok { TakeAllClock(TakeEvent(p, Entry(cycle, es[0])), cycle, es[1..]); }
  }

  function Rest(b: Buffered): Buffered
    requires |b.cycles| == |b.lists| > 0
  {
    Buffered(b.cycles[1..], b.lists[1..])
  }

  lemma RestHolds(b: Buffered, events: map<int, seq<Event>>)
    requires Holds(b, events) && b.cycles != []
    ensures Holds(Rest(b), events - {b.cycles[0]})
  {
    forall c ensures c in events - {b.cycles[0]} <==> c in b.cycles[1..]
    {
      assert b.cycles == [b.cycles[0]] + b.cycles[1..];
    }
    forall i | 0 <= i < |b.cycles| - 1
      ensures Pending(events - {b.cycles[0]}, b.cycles[1..][i]) == b.lists[1..][i]
    {
      assert b.cycles[1..][i] == b.cycles[i + 1];
    }
  }

  /** The two events of the cycle that is due. */
  function TakeTwo(p: Parser, cycle: int, e: Event, f: Event): Parser {
    TakeEvent(TakeEvent(p, Entry(cycle, e)), Entry(cycle, f))
  }

  /** Neither event ends the run. */
  predicate TwoFine(p: Parser, cycle: int, e: Event, f: Event) {
    TakeEvent(p, Entry(cycle, e)).ok && TakeTwo(p, cycle, e, f).ok
  }

  lemma TwoTaken(p: Parser, cycle: int, e: Event, f: Event)
    requires p.ok && TwoFine(p, cycle, e, f)
    ensures TakeAll(p, cycle, [e, f]) == TakeTwo(p, cycle, e, f)
  {
    var q := TakeEvent(p, Entry(cycle, e));
    assert [e, f][1..] == [f] && [f][1..] == [];
    assert TakeAll(p, cycle, [e, f]) == TakeAll(q, cycle, [f]);
    assert TakeAll(q, cycle, [f]) == TakeAll(TakeEvent(q, Entry(cycle, f)), cycle, []);
  }

  /** The op and the generator after the two events of the first cycle. */
  lemma PassTwo(p: Parser, now: int, op: Op, known: bool, b: Buffered, e: Event, f: Event,
                op2: Option<Op>, known2: bool)
    requires Snap(p, now, Some(op), known, b) && FirstDue(b, now + 1) && Starts(b, [e, f])
    requires e.gid == GID == f.gid && Printable(e) && Printable(f) && !e.kind.Retire?
    requires known || e.kind.Init?
    requires if f.kind.Retire? then op2 == None && !known2 else op2 == Some(op) && known2
    ensures Snap(ProcessLine(p, Cycle(1)), now + 1, op2, known2, Rest(b))
  {
    var cycle := b.cycles[0];
    var q := ProcessCycle(p.(currentCycle := now + 1), cycle);
    OneDue(p, now, Some(op), known, b, q);
    assert Pending(p.journal.events, b.cycles[0]) == b.lists[0];
    var r := p.(currentCycle := now + 1, journal := Announce(p.journal, cycle));
    TakeKnown(r, cycle, e);
    TakeKnown(TakeEvent(r, Entry(cycle, e)), cycle, f);
    TwoTaken(r, cycle, e, f);
    TakeAllClock(r, cycle, [e, f]);
    RestHolds(b, p.journal.events);
  }

  /** An event of the op, known to the generator or made known by it. */
  lemma TakeKnown(p: Parser, cycle: int, e: Event)
    requires p.ok && e.gid == GID && GID in p.ops && Printable(e)
    requires GID in p.journal.kanata.known || e.kind.Init?
    ensures var q := TakeEvent(p, Entry(cycle, e));
      q.ok
      && (if e.kind.Retire? then GID !in q.ops && GID !in q.journal.kanata.known
          else q.ops == p.ops && GID in q.journal.kanata.known)
  {
  }

  // -------- Lines that dump the op --------

  lemma DumpedId(p: Parser)
    requires p.maxRetired <= GID
    ensures TraceIds.CreateGid(p.maxRetired, 1, 0) == Some(GID)
  {
  }

  /** Every cycle in the buffer is over. */
  ghost predicate Before(b: Buffered, cycle: int) { forall c :: c in b.cycles ==> c < cycle }

  /** The buffer with the events of one more cycle at its end. */
  function More(b: Buffered, cycle: int, list: seq<Event>): Buffered {
    Buffered(b.cycles + [cycle], b.lists + [list])
  }

  lemma AddLater(b: Buffered, j: Journal, cycle: int, e: Event)
    requires Holds(b, j.events) && Before(b, cycle)
    ensures Holds(More(b, cycle, [e]), AddEvent(j, Entry(cycle, e)).events)
  {
    var k := AddEvent(j, Entry(cycle, e));
    forall i | 0 <= i <= |b.cycles|
      ensures Pending(k.events, (b.cycles + [cycle])[i]) == (b.lists + [[e]])[i]
    {
      if i < |b.cycles| { assert b.cycles[i] in b.cycles; }
    }
    forall i, l | 0 <= i < l < |b.cycles + [cycle]|
      ensures (b.cycles + [cycle])[i] < (b.cycles + [cycle])[l]
    {
      assert b.cycles[i] in b.cycles;
    }
  }

  lemma AddSame(b: Buffered, j: Journal, cycle: int, list: seq<Event>, e: Event)
    requires Holds(More(b, cycle, list), j.events)
    ensures Holds(More(b, cycle, list + [e]), AddEvent(j, Entry(cycle, e)).events)
  {
    var k := AddEvent(j, Entry(cycle, e));
    var cs := b.cycles + [cycle];
    var n := |b.cycles|;
    assert cs[n] == cycle && cycle in cs;
    assert Pending(j.events, cs[n]) == list;
    forall i | 0 <= i < |cs|
      ensures Pending(k.events, cs[i]) == (b.lists + [list + [e]])[i]
    {
      assert Pending(j.events, cs[i]) == (b.lists + [list])[i];
    }
  }

  lemma AddPair(b: Buffered, j: Journal, cycle: int, e: Event, f: Event)
    requires Holds(b, j.events) && Before(b, cycle)
    ensures var es := [Entry(cycle, e), Entry(cycle, f)];
      Holds(More(b, cycle, [e, f]), AddAll(j, es).events) && AddAll(j, es).kanata == j.kanata
  {
    AddLater(b, j, cycle, e);
    AddSame(b, AddEvent(j, Entry(cycle, e)), cycle, [e], f);
    assert [Entry(cycle, e), Entry(cycle, f)][..1] == [Entry(cycle, e)];
    assert AddAll(j, [Entry(cycle, e)]) == AddEvent(AddAll(j, []), Entry(cycle, e));
  }

  /** A new op: initialized and begun in this cycle. */
  lemma DumpNew(p: Parser, now: int, known: bool, b: Buffered, stage: nat)
    requires Snap(p, now, None, known, b) && Before(b, now)
    ensures Snap(ProcessLine(p, Dump(stage, false)), now, Some(Op(false, false, stage, false)), known,
                 More(b, now, [Ev(Init, stage), Ev(StageBegin, stage)]))
  {
    DumpedId(p);
    AddPair(b, p.journal, now, Ev(Init, stage), Ev(StageBegin, stage));
    var op := Op(false, false, stage, false);
    assert StageEntries(None, op, GID, now, "") == [Entry(now, Ev(Init, stage)), Entry(now, Ev(StageBegin, stage))];
  }

  /** The commit: the stage changes now, and ends with the retirement in the next cycle. */
  lemma DumpCommit(p: Parser, now: int, known: bool, b: Buffered, stage: nat)
    requires Snap(p, now, Some(Op(false, false, stage, false)), known, b) && stage != 14
    requires Before(b, now)
    ensures Snap(ProcessLine(p, Dump(14, false)), now, Some(Op(false, false, 14, false)), known,
                 More(More(b, now, [Ev(StageEnd, stage), Ev(StageBegin, 14)]), now + 1,
                      [Ev(StageEnd, 14), Ev(Retire, 14)]))
  {
    DumpedId(p);
    var prev, op := Op(false, false, stage, false), Op(false, false, 14, false);
    var e, f := Entry(now, Ev(StageEnd, stage)), Entry(now, Ev(StageBegin, 14));
    var g, h := Entry(now + 1, Ev(StageEnd, 14)), Entry(now + 1, Ev(Retire, 14));
    AddPair(b, p.journal, now, e.event, f.event);
    AddPair(More(b, now, [e.event, f.event]), AddAll(p.journal, [e, f]), now + 1, g.event, h.event);
    assert StageEntries(Some(prev), op, GID, now, "") == [e, f, g, h];
    AddFour(p.journal, e, f, g, h);
  }

  lemma AddFour(j: Journal, e: Entry, f: Entry, g: Entry, h: Entry)
    ensures AddAll(j, [e, f, g, h]) == AddAll(AddAll(j, [e, f]), [g, h])
  {
    assert [e, f, g, h][..3] == [e, f, g] && [e, f, g][..2] == [e, f] && [g, h][..1] == [g];
    assert AddAll(AddAll(j, [e, f]), [g]) == AddEvent(AddAll(AddAll(j, [e, f]), []), g);
  }

  /** The stall of the committed op. */
  lemma DumpStall(p: Parser, now: int, known: bool, b: Buffered)
    requires Snap(p, now, Some(Op(false, false, 14, false)), known, b) && Before(b, now)
    ensures Snap(ProcessLine(p, Dump(14, true)), now, Some(Op(true, false, 14, false)), known,
                 More(b, now, [Ev(StallBegin, 14)]))
  {
    DumpedId(p);
    AddLater(b, p.journal, now, Ev(StallBegin, 14));
    var prev, op := Op(false, false, 14, false), Op(true, false, 14, false);
    assert StageEntries(Some(prev), op, GID, now, "") == [Entry(now, Ev(StallBegin, 14))];
    assert AddAll(p.journal, [Entry(now, Ev(StallBegin, 14))]) ==
           AddEvent(AddAll(p.journal, []), Entry(now, Ev(StallBegin, 14)));
  }

  // -------- The whole trace --------

  const NONE := Buffered([], [])

  // What is buffered in the course of the trace.

  function First(): Buffered { More(NONE, 0, [Ev(Init, 13), Ev(StageBegin, 13)]) }

  function Second(): Buffered { More(First(), 1, [Ev(StageEnd, 13), Ev(StageBegin, 14)]) }

  function Third(): Buffered { More(Second(), 2, [Ev(StageEnd, 14), Ev(Retire, 14)]) }

  /** What is left to take when the op has been initialized, and is dumped as stalled. */
  function Stalled(): Buffered { More(Rest(Third()), 3, [Ev(StallBegin, 14)]) }

  /** The stall of the third cycle, and the op as if it were new. */
  function Left(): Buffered { More(Rest(Rest(Stalled())), 5, [Ev(Init, 14), Ev(StageBegin, 14)]) }

  lemma ThirdIs()
    ensures First().cycles == [0] && Second().cycles == [0, 1] && Third().cycles == [0, 1, 2]
    ensures Third().lists == [[Ev(Init, 13), Ev(StageBegin, 13)], [Ev(StageEnd, 13), Ev(StageBegin, 14)],
                              [Ev(StageEnd, 14), Ev(Retire, 14)]]
  {
  }

  lemma StalledIs()
    ensures Stalled().cycles == [1, 2, 3] && Rest(Stalled()).cycles == [2, 3] && Rest(Rest(Stalled())).cycles == [3]
    ensures Stalled().lists == [[Ev(StageEnd, 13), Ev(StageBegin, 14)], [Ev(StageEnd, 14), Ev(Retire, 14)],
                                [Ev(StallBegin, 14)]]
    ensures Rest(Stalled()).lists == [[Ev(StageEnd, 14), Ev(Retire, 14)], [Ev(StallBegin, 14)]]
  {
    ThirdIs();
  }

  lemma LeftIs()
    ensures Left().cycles == [3, 5] && Left().lists == [[Ev(StallBegin, 14)], [Ev(Init, 14), Ev(StageBegin, 14)]]
  {
    StalledIs();
  }

  lemma EarlyTimes()
    ensures NotYet(First(), 1) && Before(First(), 1) && NotYet(Third(), 2)
    ensures FirstDue(Third(), 3) && Starts(Third(), [Ev(Init, 13), Ev(StageBegin, 13)])
  {
    ThirdIs();
  }

  lemma LateTimes()
    ensures Before(Rest(Third()), 3) && FirstDue(Stalled(), 4)
            && Starts(Stalled(), [Ev(StageEnd, 13), Ev(StageBegin, 14)])
    ensures FirstDue(Rest(Stalled()), 5) && Starts(Rest(Stalled()), [Ev(StageEnd, 14), Ev(Retire, 14)])
    ensures Before(Rest(Rest(Stalled())), 5)
  {
    ThirdIs();
    StalledIs();
  }

  lemma LastTimes()
    ensures FirstDue(Left(), 6) && Starts(Left(), [Ev(StallBegin, 14)])
  {
    LeftIs();
  }

  /** The parser after each of the lines. */
  ghost predicate Parses(ps: seq<Parser>) {
    |ps| == |Lines()| + 1 && ps[0] == INITIAL_PARSER && forall n: nat :: n < |Lines()| ==> Follows(ps, n)
  }

  ghost predicate Follows(ps: seq<Parser>, n: nat)
    requires n < |Lines()| && n + 1 < |ps|
  {
    ps[n + 1] == ProcessLine(ps[n], Lines()[n])
  }

  /** The op without its stall bit: it has the given stage. */
  function In(stage: nat): Op { Op(false, false, stage, false) }

  lemma After1(ps: seq<Parser>)
    requires Parses(ps)
    ensures Snap(ps[1], 0, None, false, NONE)
  {
    assert Follows(ps, 0) && Lines()[0] == Cycle(1);
    NothingDue(ps[0], -1, None, false, NONE);
  }

  lemma After2(ps: seq<Parser>)
    requires Parses(ps)
    ensures Snap(ps[2], 0, Some(In(13)), false, First())
  {
    After1(ps);
    assert Follows(ps, 1) && Lines()[1] == Dump(13, false);
    DumpNew(ps[1], 0, false, NONE, 13);
  }

  lemma After3(ps: seq<Parser>)
    requires Parses(ps)
    ensures Snap(ps[3], 1, Some(In(13)), false, First())
  {
    After2(ps);
    assert Follows(ps, 2) && Lines()[2] == Cycle(1);
    EarlyTimes();
    NothingDue(ps[2], 0, Some(In(13)), false, First());
  }

  lemma After4(ps: seq<Parser>)
    requires Parses(ps)
    ensures Snap(ps[4], 1, Some(In(14)), false, Third())
  {
    After3(ps);
    assert Follows(ps, 3) && Lines()[3] == Dump(14, false);
    EarlyTimes();
    DumpCommit(ps[3], 1, false, First(), 13);
  }

  lemma After5(ps: seq<Parser>)
    requires Parses(ps)
    ensures Snap(ps[5], 2, Some(In(14)), false, Third())
  {
    After4(ps);
    assert Follows(ps, 4) && Lines()[4] == Cycle(1);
    EarlyTimes();
    NothingDue(ps[4], 1, Some(In(14)), false, Third());
  }

  lemma After6(ps: seq<Parser>)
    requires Parses(ps)
    ensures Snap(ps[6], 3, Some(In(14)), true, Rest(Third()))
  {
    After5(ps);
    assert Follows(ps, 5) && Lines()[5] == Cycle(1);
    EarlyTimes();
    PassTwo(ps[5], 2, In(14), false, Third(), Ev(Init, 13), Ev(StageBegin, 13), Some(In(14)), true);
  }

  const STALLED := Op(true, false, 14, false)

  lemma After7(ps: seq<Parser>)
    requires Parses(ps)
    ensures Snap(ps[7], 3, Some(STALLED), true, Stalled())
  {
    After6(ps);
    assert Follows(ps, 6) && Lines()[6] == Dump(14, true);
    LateTimes();
    DumpStall(ps[6], 3, true, Rest(Third()));
  }

  lemma After8(ps: seq<Parser>)
    requires Parses(ps)
    ensures Snap(ps[8], 4, Some(STALLED), true, Rest(Stalled()))
  {
    After7(ps);
    assert Follows(ps, 7) && Lines()[7] == Cycle(1);
    LateTimes();
    PassTwo(ps[7], 3, STALLED, true, Stalled(), Ev(StageEnd, 13), Ev(StageBegin, 14), Some(STALLED), true);
  }

  lemma After9(ps: seq<Parser>)
    requires Parses(ps)
    ensures Snap(ps[9], 5, None, false, Rest(Rest(Stalled())))
  {
    After8(ps);
    assert Follows(ps, 8) && Lines()[8] == Cycle(1);
    LateTimes();
    PassTwo(ps[8], 4, STALLED, true, Rest(Stalled()), Ev(StageEnd, 14), Ev(Retire, 14), None, false);
  }

  lemma After10(ps: seq<Parser>)
    requires Parses(ps)
    ensures Snap(ps[10], 5, Some(In(14)), false, Left())
  {
    After9(ps);
    assert Follows(ps, 9) && Lines()[9] == Dump(14, false);
    LateTimes();
    DumpNew(ps[9], 5, false, Rest(Rest(Stalled())), 14);
  }

  /** The last event taken was handed to the generator and not written. */
  ghost predicate LastDropped(j: Journal) {
    |j.handed| == |j.written| == |j.taken| > 0 && j.handed[|j.taken| - 1] && !j.written[|j.taken| - 1]
  }

  lemma TakeUnknown(p: Parser, cycle: int, e: Event)
    requires p.ok && Tracks(p.journal) && e.gid == GID && GID in p.ops && GID !in p.journal.kanata.known
    requires !e.kind.Init? && !e.kind.Retire?
    ensures TakeEvent(p, Entry(cycle, e)).ok && LastDropped(TakeEvent(p, Entry(cycle, e)).journal)
  {
  }

  lemma OneTaken(p: Parser, cycle: int, e: Event)
    requires p.ok
    ensures TakeAll(p, cycle, [e]) == TakeEvent(p, Entry(cycle, e))
  {
    assert [e][1..] == [];
    assert TakeAll(p, cycle, [e]) == TakeAll(TakeEvent(p, Entry(cycle, e)), cycle, []);
  }

  /** The first cycle holds one event of an op that the generator does not know. */
  lemma PassUnknown(p: Parser, now: int, op: Op, b: Buffered, e: Event)
    requires Snap(p, now, Some(op), false, b) && FirstDue(b, now + 1) && Starts(b, [e]) && Tracks(p.journal)
    requires e.gid == GID && !e.kind.Init? && !e.kind.Retire?
    ensures var q := ProcessLine(p, Cycle(1)); q.ok && LastDropped(q.journal)
  {
    var cycle := b.cycles[0];
    var q := ProcessCycle(p.(currentCycle := now + 1), cycle);
    OneDue(p, now, Some(op), false, b, q);
    assert Pending(p.journal.events, b.cycles[0]) == b.lists[0];
    var r := p.(currentCycle := now + 1, journal := Announce(p.journal, cycle));
    SameTracks(p.journal, r.journal);
    TakeUnknown(r, cycle, e);
    OneTaken(r, cycle, e);
  }

  lemma LastLine(ps: seq<Parser>)
    requires Parses(ps) && Tracks(ps[10].journal)
    ensures ps[11].ok && LastDropped(ps[11].journal)
  {
    After10(ps);
    assert Follows(ps, 10) && Lines()[10] == Cycle(1);
    LastTimes();
    PassUnknown(ps[10], 5, In(14), Left(), Ev(StallBegin, 14));
  }

  function Runs(): (ps: seq<Parser>)
    ensures |ps| == |Lines()| + 1 && forall n: nat :: n <= |Lines()| ==> ps[n] == Run(Lines()[..n])
  {
    seq(|Lines()| + 1, n requires 0 <= n <= |Lines()| => Run(Lines()[..n]))
  }

  lemma RunsParse()
    ensures Parses(Runs())
  {
    forall n: nat | n < |Lines()| ensures Follows(Runs(), n) { assert Lines()[..n + 1][..n] == Lines()[..n]; }
    assert Lines()[..0] == [];
  }

  lemma RunsTrack()
    ensures Tracks(Runs()[10].journal)
  {
    RunTracks(Lines()[..10]);
    assert Runs()[10] == Run(Lines()[..10]);
  }

  lemma RunsEnd()
    ensures Runs()[11] == Run(Lines())
  {
    assert Lines()[..11] == Lines();
  }

  lemma LinesForward()
    ensures Forward(Lines())
  {
  }

  /** The stall that was buffered before the retirement is handed to the generator, which drops it. */
  lemma HandedButNotWritten()
    ensures Forward(Lines()) && Run(Lines()).ok && LastDropped(Run(Lines()).journal)
  {
    var ps := Runs();
    LinesForward();
    RunsParse();
    RunsTrack();
    LastLine(ps);
    RunsEnd();
  }
}
