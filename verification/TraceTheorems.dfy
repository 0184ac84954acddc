/** What every run of the trace parser keeps, and what its output says. */
module TraceTheorems {
  import opened Common
  import opened TraceModel

  // -------- Vocabulary --------

  /** The events of one cycle, in order. */
  function At(es: seq<Entry>, cycle: int): seq<Event> {
    if es == [] then []
    else
      var last := es[|es| - 1];
      At(es[..|es| - 1], cycle) + if last.cycle == cycle then [last.event] else []
  }

  /** The entries that are marked. */
  function Shown(es: seq<Entry>, marks: seq<bool>): seq<Entry>
    requires |marks| == |es|
  {
    if es == [] then []
    else
      var n := |es| - 1;
      Shown(es[..n], marks[..n]) + if marks[n] then [es[n]] else []
  }

  ghost predicate InOrder(es: seq<Entry>) {
    forall i, k :: 0 <= i < k < |es| ==> es[i].cycle <= es[k].cycle
  }

  ghost predicate Announced(es: seq<Entry>, cycles: seq<int>) {
    forall e :: e in es ==> e.cycle in cycles
  }

  ghost predicate AllBelow(cs: seq<int>, cycle: int) {
    forall c :: c in cs ==> c < cycle
  }

  /** Nothing lost and nothing doubled: of every cycle, what was added is what was taken, then what is buffered. */
  ghost predicate Conserved(j: Journal) {
    forall c :: At(j.added, c) == At(j.taken, c) + Pending(j.events, c)
  }

  /** The generator's clock is the last cycle announced, and a reader of its lines sees what it wrote. */
  ghost predicate Told(j: Journal) {
    && |j.handed| == |j.written| == |j.taken|
    && Ascending(j.emitted)
    && (forall c :: c in j.emitted ==> INITIAL_CYCLE <= c <= j.kanata.currentCycle)
    && (if j.emitted == [] then j.kanata.currentCycle == INITIAL_CYCLE
        else j.kanata.currentCycle == j.emitted[|j.emitted| - 1])
    && Clock(j.kanata.lines) == j.kanata.currentCycle
    && Timeline(j.kanata.lines) == Shown(j.taken, j.written)
    && InOrder(j.taken)
    && Announced(j.taken, j.emitted)
  }

  /** Whatever is buffered is for cycles still to be announced. */
  ghost predicate Buffered(j: Journal) {
    forall c :: c in j.events ==> c >= INITIAL_CYCLE && AllBelow(j.emitted, c)
  }

  ghost predicate NoneBuffered(j: Journal) {
    forall c :: c !in j.events
  }

  /** What every run keeps. An exception ends the run, so only what was written still counts then. */
  ghost predicate Inv(p: Parser) {
    && Told(p.journal)
    && (p.ok ==>
          && p.currentCycle >= INITIAL_CYCLE
          && AllBelow(p.journal.emitted, p.currentCycle - BUFFERED_CYCLES + 1)
          && Buffered(p.journal)
          && Conserved(p.journal))
  }

  // -------- One more element --------

  lemma AtSnoc(es: seq<Entry>, e: Entry, c: int)
    ensures At(es + [e], c) == At(es, c) + if e.cycle == c then [e.event] else []
  {
    assert (es + [e])[..|es|] == es;
  }

  lemma ShownSnoc(es: seq<Entry>, marks: seq<bool>, e: Entry, v: bool)
    requires |marks| == |es|
    ensures Shown(es + [e], marks + [v]) == Shown(es, marks) + if v then [e] else []
  {
    assert (es + [e])[..|es|] == es;
    assert (marks + [v])[..|es|] == marks;
  }

  lemma LinesSnoc(lines: seq<Line>, line: Line)
    ensures Clock(lines + [line]) == Clock(lines) + if line.CycleLine? then line.delta else 0
    ensures Timeline(lines + [line])
         == Timeline(lines) + if line.EventLine? then [Entry(Clock(lines), line.event)] else []
  {
    assert (lines + [line])[..|lines|] == lines;
  }

  // -------- Adding --------

  lemma AddKeeps(j: Journal, e: Entry)
    requires Told(j) && Buffered(j) && Conserved(j) && e.cycle >= INITIAL_CYCLE && AllBelow(j.emitted, e.cycle)
    ensures var k := AddEvent(j, e); Told(k) && Buffered(k) && Conserved(k) && k.emitted == j.emitted
  {
    var k := AddEvent(j, e);
    forall c
      ensures At(k.added, c) == At(k.taken, c) + Pending(k.events, c)
    {
      AtSnoc(j.added, e, c);
      assert At(j.added, c) == At(j.taken, c) + Pending(j.events, c);
    }
  }

  /** Every entry belongs to this cycle or a later one. */
  predicate From(es: seq<Entry>, now: int) { forall e :: e in es ==> e.cycle >= now }

  /** The added history grows by es. */
  lemma {:induction false} AddAllKeeps(j: Journal, es: seq<Entry>, now: int)
    requires Told(j) && Buffered(j) && Conserved(j) && now >= INITIAL_CYCLE && AllBelow(j.emitted, now) && From(es, now)
    ensures var k := AddAll(j, es);
            Told(k) && Buffered(k) && Conserved(k) && k.emitted == j.emitted && k.added == j.added + es
  {
    if es == [] {
    } else {
      var before, last := es[..|es| - 1], es[|es| - 1];
      assert es == before + [last];
      assert last in es;
      AddAllKeeps(j, before, now);
      AddKeeps(AddAll(j, before), last);
    }
  }

  // -------- Taking --------

  /** A reader of the lines sees the event exactly when it was written. */
  lemma TakeShown(j: Journal, e: Entry, shown: bool)
    requires Told(j) && e.cycle == j.kanata.currentCycle
    ensures var k := Take(j, e, shown);
            Clock(k.kanata.lines) == k.kanata.currentCycle && Timeline(k.kanata.lines) == Shown(k.taken, k.written)
  {
    ShownSnoc(j.taken, j.written, e, shown && Writes(j.kanata, e.event));
    LinesSnoc(j.kanata.lines, EventLine(e.event));
  }

  lemma TakeInOrder(es: seq<Entry>, cycles: seq<int>, e: Entry)
    requires InOrder(es) && Announced(es, cycles) && e.cycle in cycles && forall c :: c in cycles ==> c <= e.cycle
    ensures InOrder(es + [e]) && Announced(es + [e], cycles)
  {
    assert forall f :: f in es ==> f.cycle <= e.cycle;
  }

  lemma TakeTold(j: Journal, e: Entry, shown: bool)
    requires Told(j) && j.emitted != [] && e.cycle == j.kanata.currentCycle
    ensures Told(Take(j, e, shown))
  {
    assert e.cycle in j.emitted;
    TakeInOrder(j.taken, j.emitted, e);
    TakeShown(j, e, shown);
  }

  /** What taking a list of events of one cycle leaves alone. */
  ghost predicate SameBuffer(j: Journal, k: Journal) {
    && k.events == j.events && k.added == j.added && k.emitted == j.emitted
    && k.kanata.currentCycle == j.kanata.currentCycle
  }

  /** From j to k exactly the events es of this cycle are taken, in order. */
  ghost predicate Took(j: Journal, k: Journal, cycle: int, es: seq<Event>) {
    forall c :: At(k.taken, c) == At(j.taken, c) + if c == cycle then es else []
  }

  lemma TakeTook(j: Journal, e: Entry, shown: bool)
    ensures Took(j, Take(j, e, shown), e.cycle, [e.event])
  {
    forall c
      ensures At(Take(j, e, shown).taken, c) == At(j.taken, c) + if c == e.cycle then [e.event] else []
    {
      AtSnoc(j.taken, e, c);
    }
  }

  lemma TookBoth(j: Journal, k: Journal, l: Journal, cycle: int, es: seq<Event>)
    requires es != [] && Took(j, k, cycle, [es[0]]) && Took(k, l, cycle, es[1..])
    ensures Took(j, l, cycle, es)
  {
    forall c
      ensures At(l.taken, c) == At(j.taken, c) + if c == cycle then es else []
    {
      assert At(k.taken, c) == At(j.taken, c) + if c == cycle then [es[0]] else [];
      assert es == [es[0]] + es[1..];
    }
  }

  lemma TakeEventJournal(p: Parser, e: Entry)
    ensures TakeEvent(p, e).journal == Take(p.journal, e, e.event.gid in p.ops)
    ensures TakeEvent(p, e).currentCycle == p.currentCycle
    ensures TakeEvent(p, e).ok ==> p.ok
  {
  }

  lemma {:induction false} TakeAllKeeps(p: Parser, cycle: int, es: seq<Event>, q: Parser)
    requires Told(p.journal) && p.journal.emitted != [] && cycle == p.journal.kanata.currentCycle
             && q == TakeAll(p, cycle, es)
    ensures Told(q.journal) && SameBuffer(p.journal, q.journal) && q.currentCycle == p.currentCycle
    ensures q.ok ==> p.ok && Took(p.journal, q.journal, cycle, es)
    decreases |es|
  {
    if es != [] && p.ok {
      var e := Entry(cycle, es[0]);
      var shown := e.event.gid in p.ops;
      var r := TakeEvent(p, e);
      TakeEventJournal(p, e);
      TakeTold(p.journal, e, shown);
      TakeTook(p.journal, e, shown);
      TakeAllKeeps(r, cycle, es[1..], q);
      if q.ok {
        TookBoth(p.journal, r.journal, q.journal, cycle, es);
      }
    }
  }

  lemma AnnounceTold(j: Journal, cycle: int)
    requires Told(j) && cycle >= INITIAL_CYCLE && AllBelow(j.emitted, cycle)
    ensures Told(Announce(j, cycle)) && Announce(j, cycle).kanata.currentCycle == cycle
  {
    var lines := j.kanata.lines;
    LinesSnoc(lines, CycleLine(cycle - j.kanata.currentCycle));
    assert lines + [] == lines;
    assert j.emitted != [] ==> j.emitted[|j.emitted| - 1] in j.emitted;
    assert j.kanata.currentCycle <= cycle;
    forall i | 0 <= i < |j.emitted|
      ensures j.emitted[i] < cycle
    {
      assert j.emitted[i] in j.emitted;
    }
  }

  lemma DropConserved(j: Journal, k: Journal, cycle: int)
    requires Conserved(j) && k.added == j.added && k.events == j.events
    requires Took(j, k, cycle, Pending(j.events, cycle))
    ensures Conserved(Drop(k, cycle))
  {
    var l := Drop(k, cycle);
    forall c
      ensures At(l.added, c) == At(l.taken, c) + Pending(l.events, c)
    {
      assert At(j.added, c) == At(j.taken, c) + Pending(j.events, c);
    }
  }

  /** One cycle: announced, emptied in order, and gone from the buffer. */
  lemma ProcessCycleKeeps(p: Parser, cycle: int)
    requires p.ok && Told(p.journal) && Conserved(p.journal)
    requires cycle in p.journal.events && cycle >= INITIAL_CYCLE && AllBelow(p.journal.emitted, cycle)
    ensures var q := ProcessCycle(p, cycle);
      Told(q.journal) && q.currentCycle == p.currentCycle && q.journal.emitted == p.journal.emitted + [cycle]
      && q.journal.added == p.journal.added
    ensures var q := ProcessCycle(p, cycle);
      q.ok ==> Conserved(q.journal) && q.journal.events == p.journal.events - {cycle}
  {
    var r := p.(journal := Announce(p.journal, cycle));
    var es := p.journal.events[cycle];
    AnnounceTold(p.journal, cycle);
    var s := TakeAll(r, cycle, es);
    TakeAllKeeps(r, cycle, es, s);
    if s.ok {
      DropConserved(p.journal, s.journal, cycle);
    }
  }

  /** The list holds exactly the buffered cycles. */
  ghost predicate Lists(cycles: seq<int>, events: map<int, seq<Event>>) {
    forall c :: c in events <==> c in cycles
  }

  ghost predicate NoneDue(p: Parser, j: Journal, dispose: bool) { forall c :: c in j.events ==> !Due(p, c, dispose) }

  /** From p to q only due cycles are taken out, and all of them unless an exception ends the run. */
  ghost predicate TakesDue(p: Parser, q: Parser, dispose: bool) {
    && Told(q.journal)
    && q.currentCycle == p.currentCycle
    && q.journal.added == p.journal.added
    && (forall c :: c in q.journal.emitted ==> c in p.journal.emitted || Due(p, c, dispose))
    && (q.ok ==> Conserved(q.journal) && Buffered(q.journal) && NoneDue(p, q.journal, dispose))
  }

  lemma NothingDue(p: Parser, cycles: seq<int>, dispose: bool)
    requires Ascending(cycles) && Lists(cycles, p.journal.events) && (cycles != [] ==> !Due(p, cycles[0], dispose))
    ensures NoneDue(p, p.journal, dispose)
  {
    forall c | c in p.journal.events
      ensures !Due(p, c, dispose)
    {
      assert c in cycles;
    }
  }

  /** What is left after the first buffered cycle is listed by the rest. */
  lemma FirstTaken(j: Journal, k: Journal, cycles: seq<int>)
    requires cycles != [] && Ascending(cycles) && Lists(cycles, j.events) && Buffered(j)
    requires k.events == j.events - {cycles[0]} && k.emitted == j.emitted + [cycles[0]]
    ensures Buffered(k) && Lists(cycles[1..], k.events)
  {
    forall c | c in k.events
      ensures c >= INITIAL_CYCLE && AllBelow(k.emitted, c)
    {
      assert c in cycles && c != cycles[0];
    }
    assert cycles == [cycles[0]] + cycles[1..];
  }

  lemma {:induction false} ProcessCyclesKeeps(p: Parser, cycles: seq<int>, dispose: bool)
    requires p.ok && Told(p.journal) && Conserved(p.journal) && Buffered(p.journal)
    requires Ascending(cycles) && Lists(cycles, p.journal.events)
    ensures TakesDue(p, ProcessCycles(p, cycles, dispose), dispose)
    decreases |cycles|
  {
    if cycles == [] || !Due(p, cycles[0], dispose) {
      NothingDue(p, cycles, dispose);
    } else {
      assert cycles[0] in cycles;
      ProcessCycleKeeps(p, cycles[0]);
      var r := ProcessCycle(p, cycles[0]);
      if r.ok {
        FirstTaken(p.journal, r.journal, cycles);
        ProcessCyclesKeeps(r, cycles[1..], dispose);
      }
    }
  }

  lemma ProcessEventsKeeps(p: Parser, dispose: bool)
    requires p.ok && Told(p.journal) && Conserved(p.journal) && Buffered(p.journal)
    ensures TakesDue(p, ProcessEvents(p, dispose), dispose)
  {
    ProcessCyclesKeeps(p, Sorted(p.journal.events.Keys), dispose);
  }

  // -------- One line --------

  /** A line that only adds events: all of them for this cycle or a later one. */
  ghost predicate OnlyAdds(p: Parser, q: Parser) {
    && Inv(q)
    && q.currentCycle == p.currentCycle
    && q.journal.emitted == p.journal.emitted
    && exists es: seq<Entry> :: From(es, p.currentCycle) && q.journal.added == p.journal.added + es
  }

  lemma AddsOnly(p: Parser, q: Parser, es: seq<Entry>)
    requires Inv(p) && p.ok && From(es, p.currentCycle)
    requires q.journal == AddAll(p.journal, es) && q.currentCycle == p.currentCycle
    ensures OnlyAdds(p, q)
  {
    AddAllKeeps(p.journal, es, p.currentCycle);
  }

  lemma StageFrom(prev: Option<Op>, op: Op, gid: int, now: int, comment: string)
    ensures From(StageEntries(prev, op, gid, now, comment), now)
  {
  }

  lemma TrackAdds(p: Parser, gid: int, prev: Option<Op>, op: Op, comment: string)
    requires Inv(p) && p.ok
    ensures OnlyAdds(p, TrackOp(p, gid, prev, op, comment)) && TrackOp(p, gid, prev, op, comment).ok
  {
    var es := StageEntries(prev, op, gid, p.currentCycle, comment);
    StageFrom(prev, op, gid, p.currentCycle, comment);
    AddsOnly(p, TrackOp(p, gid, prev, op, comment), es);
  }

  lemma FlushAdds(p: Parser, gid: int, prev: Option<Op>, op: Op, comment: string)
    requires Inv(p) && p.ok
    ensures OnlyAdds(p, FlushOp(p, gid, prev, op, comment))
  {
    if prev.Some? && prev.value.stageId != 0 {
      AddsOnly(p, FlushOp(p, gid, prev, op, comment), FlushEntries(op, gid, p.currentCycle, comment));
    } else {
      assert p.journal.added == p.journal.added + [];
      assert From([], p.currentCycle);
    }
  }

  lemma AddsBoth(p: Parser, q: Parser, r: Parser)
    requires OnlyAdds(p, q) && OnlyAdds(q, r)
    ensures OnlyAdds(p, r)
  {
    var es: seq<Entry> :| From(es, p.currentCycle) && q.journal.added == p.journal.added + es;
    var fs: seq<Entry> :| From(fs, p.currentCycle) && r.journal.added == q.journal.added + fs;
    assert r.journal.added == p.journal.added + (es + fs);
    assert From(es + fs, p.currentCycle);
  }

  /** A change that leaves the journal alone. */
  lemma AddsNothing(p: Parser, q: Parser)
    requires Inv(p) && (q.ok ==> p.ok) && q.journal == p.journal && q.currentCycle == p.currentCycle
    ensures OnlyAdds(p, q)
  {
    assert p.journal.added == p.journal.added + [];
    assert From([], p.currentCycle);
  }

  lemma StageAdds(p: Parser, c: Command)
    requires Inv(p) && p.ok && c.Stage?
    ensures OnlyAdds(p, OnStage(p, c))
  {
    var id := TraceIds.CreateGid(p.maxRetired, c.iid, c.mid);
    var flush := c.clear && !c.stall;
    if !c.valid || id.None? || (id.value in p.flushed && flush) {
      AddsNothing(p, OnStage(p, c));
    } else {
      var gid := id.value;
      var prev := if gid in p.ops then Some(p.ops[gid]) else None;
      var op := Op(c.stall, c.clear, c.stageId, prev.Some? && prev.value.labelOutputted);
      var q := TrackOp(p, gid, prev, op, c.comment);
      TrackAdds(p, gid, prev, op, c.comment);
      if flush {
        FlushAdds(q, gid, prev, op, c.comment);
      } else {
        AddsNothing(q, OnStage(p, c));
      }
      AddsBoth(p, q, OnStage(p, c));
    }
  }

  lemma LabelAdds(p: Parser, c: Command)
    requires Inv(p) && p.ok && c.LabelOp?
    ensures OnlyAdds(p, OnLabel(p, c))
  {
    var id := TraceIds.CreateGid(p.maxRetired, c.iid, c.mid);
    if id.None? || id.value !in p.ops || p.ops[id.value].labelOutputted {
      AddsNothing(p, OnLabel(p, c));
    } else {
      var e := Entry(p.currentCycle, Event(id.value, Label, -1, c.comment));
      assert AddAll(p.journal, [e]) == AddEvent(p.journal, e);
      AddsOnly(p, OnLabel(p, c), [e]);
    }
  }

  /** Only cycles before the buffered ones are announced. */
  lemma AnnouncedInTime(r: Parser, q: Parser)
    requires TakesDue(r, q, false) && r.currentCycle >= INITIAL_CYCLE
    requires AllBelow(r.journal.emitted, r.currentCycle - BUFFERED_CYCLES + 1)
    ensures Inv(q)
  {
    forall x | x in q.journal.emitted
      ensures x < q.currentCycle - BUFFERED_CYCLES + 1
    {
      assert x in r.journal.emitted || Due(r, x, false);
    }
  }

  /** What still holds of a parser whose clock has moved on. */
  ghost predicate Moved(r: Parser) {
    && r.ok && Told(r.journal) && Conserved(r.journal) && Buffered(r.journal)
    && r.currentCycle >= INITIAL_CYCLE
    && AllBelow(r.journal.emitted, r.currentCycle - BUFFERED_CYCLES + 1)
  }

  lemma ClockMoves(p: Parser, increment: int) returns (r: Parser)
    requires Inv(p) && p.ok && increment >= 0
    ensures r == p.(currentCycle := p.currentCycle + increment) && Moved(r)
  {
    r := p.(currentCycle := p.currentCycle + increment);
  }

  lemma MovedKeeps(r: Parser, q: Parser)
    requires Moved(r) && q == ProcessEvents(r, false)
    ensures Inv(q) && q.journal.added == r.journal.added
  {
    ProcessEventsKeeps(r, false);
    AnnouncedInTime(r, q);
  }

  lemma CycleKeeps(p: Parser, c: Command)
    requires Inv(p) && p.ok && c.Cycle? && c.increment >= 0
    ensures Inv(OnCycleLine(p, c)) && OnCycleLine(p, c).journal.added == p.journal.added
  {
    var r := ClockMoves(p, c.increment);
    MovedKeeps(r, OnCycleLine(p, c));
  }

  lemma LineKeeps(p: Parser, c: Command)
    requires Inv(p) && (c.Cycle? ==> c.increment >= 0)
    ensures Inv(ProcessLine(p, c))
  {
    if p.ok {
      if c.Stage? {
        StageAdds(p, c);
      } else if c.LabelOp? {
        LabelAdds(p, c);
      } else {
        CycleKeeps(p, c);
      }
    }
  }

  lemma {:induction false} RunKeeps(cs: seq<Command>)
    requires Forward(cs)
    ensures Inv(Run(cs))
  {
    if cs == [] {
    } else {
      RunKeeps(cs[..|cs| - 1]);
      LineKeeps(Run(cs[..|cs| - 1]), cs[|cs| - 1]);
    }
  }

  lemma ParseKeeps(cs: seq<Command>)
    requires Forward(cs)
    ensures var q := Parse(cs); Told(q.journal) && (q.ok ==> NoneBuffered(q.journal) && Conserved(q.journal))
  {
    RunKeeps(cs);
    if Run(cs).ok {
      ProcessEventsKeeps(Run(cs), true);
    }
  }

  // -------- Theorems --------

  /** No event is ever added for a cycle that was already announced. */
  lemma NoLateEvent(cs: seq<Command>, c: Command)
    requires Forward(cs + [c])
    ensures var p, q := Run(cs), Run(cs + [c]);
      p.journal.added <= q.journal.added
      && forall i, k :: |p.journal.added| <= i < |q.journal.added| && 0 <= k < |p.journal.emitted| ==>
           p.journal.emitted[k] < q.journal.added[i].cycle
  {
    assert (cs + [c])[..|cs|] == cs;
    assert (cs + [c])[|cs|] == c;
    assert Forward(cs) by {
      forall i | 0 <= i < |cs| && cs[i].Cycle?
        ensures cs[i].increment >= 0
      {
        assert (cs + [c])[i] == cs[i];
      }
    }
    RunKeeps(cs);
    var p, q := Run(cs), Run(cs + [c]);
    assert q == ProcessLine(p, c);
    if p.ok && !c.Cycle? {
      if c.Stage? {
        StageAdds(p, c);
      } else {
        LabelAdds(p, c);
      }
      var es: seq<Entry> :| From(es, p.currentCycle) && q.journal.added == p.journal.added + es;
      forall i, k | |p.journal.added| <= i < |q.journal.added| && 0 <= k < |p.journal.emitted|
        ensures p.journal.emitted[k] < q.journal.added[i].cycle
      {
        assert q.journal.added[i] in es;
        assert p.journal.emitted[k] in p.journal.emitted;
      }
    } else if p.ok {
      CycleKeeps(p, c);
    }
  }

  /** The cycles announced only ever grow, even in a run that an exception ends. */
  lemma EmittedIncreasing(cs: seq<Command>)
    requires Forward(cs)
    ensures Ascending(Run(cs).journal.emitted) && Ascending(Parse(cs).journal.emitted)
  {
    RunKeeps(cs);
    ParseKeeps(cs);
  }

  /**
   * A file that is read to its end takes every event out exactly once: the events taken are a stable
   * sort by cycle of the events added. Nothing stays buffered.
   */
  lemma ParsedIsStableSort(cs: seq<Command>)
    requires Forward(cs) && Parse(cs).ok
    ensures var j := Parse(cs).journal;
      NoneBuffered(j) && InOrder(j.taken) && forall c :: At(j.taken, c) == At(j.added, c)
  {
    ParseKeeps(cs);
    var j := Parse(cs).journal;
    forall c
      ensures At(j.taken, c) == At(j.added, c)
    {
      assert At(j.added, c) == At(j.taken, c) + Pending(j.events, c);
    }
  }

  /** In the middle of a run nothing is lost either: taken or still buffered, never both. */
  lemma NothingLost(cs: seq<Command>, c: int)
    requires Forward(cs) && Run(cs).ok
    ensures var j := Run(cs).journal;
      At(j.added, c) == At(j.taken, c) + Pending(j.events, c)
      && (c in j.emitted ==> At(j.added, c) == At(j.taken, c) && c !in j.events)
  {
    RunKeeps(cs);
    var j := Run(cs).journal;
    assert At(j.added, c) == At(j.taken, c) + Pending(j.events, c);
  }

  /** The cycle deltas written sum to the last cycle announced, counted from the initial one. */
  lemma DeltasSum(cs: seq<Command>)
    requires Forward(cs)
    ensures var j := Parse(cs).journal;
      Clock(j.kanata.lines) == if j.emitted == [] then INITIAL_CYCLE else j.emitted[|j.emitted| - 1]
  {
    ParseKeeps(cs);
  }
}
