/** RSD_Parser and KanataGenerator as the objects they are: fields updated line by line and event by event. */
module TraceUnits {
  import opened Common
  import TraceIds
  import opened TraceModel

  class KanataGenerator {
    var currentCycle: int
    var opMap: set<int>
    var file: seq<Line>

    function State(): Kanata
      reads this
    {
      Kanata(currentCycle, opMap, file)
    }

    constructor ()
      ensures State() == Kanata(INITIAL_CYCLE, {}, [])
    {
      currentCycle, opMap, file := INITIAL_CYCLE, {}, [];
    }

    method OnCycle(cycle: int)
      modifies this
      ensures State() == TraceModel.OnCycle(old(State()), cycle)
    {
      if cycle > currentCycle {
        file := file + [CycleLine(cycle - currentCycle)];
      }
      currentCycle := cycle;
    }

    /** A retired op leaves the map; every 64th one takes all older ones with it. */
    method OnRetire(e: Event)
      requires e.kind.Retire?
      modifies `opMap
      ensures opMap == NextKnown(old(opMap), e)
    {
      opMap := opMap - {e.gid};
      if e.gid % COLLECT_EVERY == 0 {
        ghost var start := opMap;
        var rest := opMap;
        while rest != {}
          invariant ForgetOlder(opMap, rest, e.gid) == ForgetOlder(start, start, e.gid)
          decreases |rest|
        {
          var g := Least(rest);
          if g < e.gid {
            opMap := opMap - {g};
          }
          rest := rest - {g};
        }
      }
    }

    /** Fails where the event's stage has no name. */
    method OnEvent(e: Event) returns (ok: bool)
      modifies this
      ensures State() == TraceModel.OnEvent(old(State()), e) && ok == !Raises(old(State()), e)
    {
      if e.gid !in opMap && !e.kind.Init? {
        return true;
      }
      if !Printable(e) {
        return false;
      }
      if e.kind.Init? {
        opMap := opMap + {e.gid};
      }
      file := file + [EventLine(e)];
      if e.kind.Retire? {
        OnRetire(e);
      }
      ok := true;
    }
  }

  lemma AddAllSnoc(j: Journal, es: seq<Entry>, e: Entry)
    ensures AddAll(j, es + [e]) == AddEvent(AddAll(j, es), e)
  {
    assert (es + [e])[..|es|] == es;
  }

  lemma {:induction false} AddAllBoth(j: Journal, es: seq<Entry>, fs: seq<Entry>)
    ensures AddAll(j, es + fs) == AddAll(AddAll(j, es), fs)
    decreases |fs|
  {
    if fs == [] {
      assert es + fs == es;
    } else {
      var before, last := fs[..|fs| - 1], fs[|fs| - 1];
      assert fs == before + [last] && es + fs == (es + before) + [last];
      AddAllSnoc(j, es + before, last);
      AddAllSnoc(AddAll(j, es), before, last);
      AddAllBoth(j, es, before);
    }
  }

  /** Up to four entries, added one after the other. */
  lemma AddAllFew(j: Journal, es: seq<Entry>)
    ensures |es| == 0 ==> AddAll(j, es) == j
    ensures |es| == 1 ==> AddAll(j, es) == AddEvent(j, es[0])
    ensures |es| == 2 ==> AddAll(j, es) == AddEvent(AddEvent(j, es[0]), es[1])
    ensures |es| == 3 ==> AddAll(j, es) == AddEvent(AddEvent(AddEvent(j, es[0]), es[1]), es[2])
    ensures |es| == 4 ==> AddAll(j, es) == AddEvent(AddEvent(AddEvent(AddEvent(j, es[0]), es[1]), es[2]), es[3])
  {
    if 0 < |es| <= 4 {
      AddAllSnoc(j, es[..|es| - 1], es[|es| - 1]);
      AddAllFew(j, es[..|es| - 1]);
      assert es == es[..|es| - 1] + [es[|es| - 1]];
    }
  }

  lemma TakeAllSnoc(p: Parser, cycle: int, es: seq<Event>, e: Event)
    ensures TakeAll(p, cycle, es + [e])
         == if TakeAll(p, cycle, es).ok then TakeEvent(TakeAll(p, cycle, es), Entry(cycle, e))
           else TakeAll(p, cycle, es)
    decreases |es|
  {
    if es == [] {
      assert es + [e] == [e];
    } else {
      assert (es + [e])[0] == es[0] && (es + [e])[1..] == es[1..] + [e];
      if p.ok {
        TakeAllSnoc(TakeEvent(p, Entry(cycle, es[0])), cycle, es[1..], e);
      }
    }
  }

  class RsdParser {
    const generator: KanataGenerator
    var currentCycle: int
    var ops: map<int, Op>
    var events: map<int, seq<Event>>
    var flushedOpGids: set<int>
    var maxRetiredOp: nat
    var committedOpNum: nat
    // History: what was added, taken out, handed to the generator, written by it, announced, and
    // whether an exception has ended the run.
    ghost var added: seq<Entry>
    ghost var taken: seq<Entry>
    ghost var handed: seq<bool>
    ghost var written: seq<bool>
    ghost var emitted: seq<int>
    ghost var running: bool

    ghost function Buffer(): Journal
      reads this, generator
    {
      Journal(events, generator.State(), added, taken, handed, written, emitted)
    }

    ghost function State(): Parser
      reads this, generator
    {
      Parser(currentCycle, ops, flushedOpGids, maxRetiredOp, committedOpNum, Buffer(), running)
    }

    constructor ()
      ensures State() == INITIAL_PARSER && fresh(generator)
    {
      var g := new KanataGenerator();
      generator := g;
      currentCycle, ops, events, flushedOpGids, maxRetiredOp, committedOpNum := INITIAL_CYCLE, map[], map[], {}, 0, 0;
      added, taken, handed, written, emitted, running := [], [], [], [], [], true;
    }

    method AddEvent(cycle: int, event: Event)
      modifies `events, `added
      ensures Buffer() == TraceModel.AddEvent(old(Buffer()), Entry(cycle, event))
    {
      if cycle !in events {
        events := events[cycle := []];
      }
      events := events[cycle := events[cycle] + [event]];
      added := added + [Entry(cycle, event)];
    }

    /** The newest retired op, and no flushed op older than it. */
    method RetireOp(gid: int)
      modifies `maxRetiredOp, `flushedOpGids, `committedOpNum
      ensures State() == TraceModel.RetireOp(old(State()), gid)
    {
      if gid > maxRetiredOp {
        maxRetiredOp := gid;
      }
      var rest := flushedOpGids;
      while rest != {}
        modifies `flushedOpGids
        invariant ForgetOlder(flushedOpGids, rest, maxRetiredOp)
               == ForgetOlder(old(flushedOpGids), old(flushedOpGids), maxRetiredOp)
        decreases |rest|
      {
        var g := Least(rest);
        if g < maxRetiredOp {
          flushedOpGids := flushedOpGids - {g};
        }
        rest := rest - {g};
      }
      committedOpNum := committedOpNum + 1;
    }

    method AddInit(op: Op, gid: int, comment: string)
      modifies `events, `added
      ensures Buffer() == AddAll(old(Buffer()), InitEntries(op, gid, currentCycle, comment))
    {
      AddEvent(currentCycle, Event(gid, Init, op.stageId, ""));
      AddEvent(currentCycle, Event(gid, StageBegin, op.stageId, comment));
      if op.stall {
        AddEvent(currentCycle, Event(gid, StallBegin, op.stageId, ""));
      }
      AddAllFew(old(Buffer()), InitEntries(op, gid, currentCycle, comment));
    }

    method AddStall(prev: Op, op: Op, gid: int, comment: string)
      modifies `events, `added
      ensures Buffer() == AddAll(old(Buffer()), StallEntries(prev, op, gid, currentCycle, comment))
    {
      if prev.stall && !op.stall {
        AddEvent(currentCycle, Event(gid, StallEnd, prev.stageId, ""));
        AddEvent(currentCycle, Event(gid, StageEnd, prev.stageId, ""));
        AddEvent(currentCycle, Event(gid, StageBegin, op.stageId, comment));
      }
      if !prev.stall && op.stall {
        AddEvent(currentCycle, Event(gid, StallBegin, op.stageId, comment));
      }
      AddAllFew(old(Buffer()), StallEntries(prev, op, gid, currentCycle, comment));
    }

    method AddMove(prev: Op, op: Op, gid: int, comment: string)
      modifies `events, `added
      ensures Buffer() == AddAll(old(Buffer()), MoveEntries(prev, op, gid, currentCycle, comment))
    {
      if prev.stageId != op.stageId {
        AddEvent(currentCycle, Event(gid, StageEnd, prev.stageId, ""));
        AddEvent(currentCycle, Event(gid, StageBegin, op.stageId, comment));
        if op.stageId == RETIREMENT_STAGE {
          AddEvent(currentCycle + 1, Event(gid, StageEnd, op.stageId, ""));
          AddEvent(currentCycle + 1, Event(gid, Retire, op.stageId, ""));
        }
      }
      AddAllFew(old(Buffer()), MoveEntries(prev, op, gid, currentCycle, comment));
    }

    method AddFlush(op: Op, gid: int, comment: string)
      modifies `events, `added
      ensures Buffer() == AddAll(old(Buffer()), FlushEntries(op, gid, currentCycle, comment))
    {
      AddEvent(currentCycle, Event(gid, StageEnd, op.stageId, ""));
      AddEvent(currentCycle, Event(gid, Flush, op.stageId, comment));
      AddAllFew(old(Buffer()), FlushEntries(op, gid, currentCycle, comment));
    }

    /** The events of a stage line, other than those of a flush. */
    method AddStageEvents(prev: Option<Op>, op: Op, gid: int, comment: string)
      modifies `events, `added
      ensures Buffer() == AddAll(old(Buffer()), StageEntries(prev, op, gid, currentCycle, comment))
    {
      if prev.Some? {
        AddStall(prev.value, op, gid, comment);
        AddMove(prev.value, op, gid, comment);
        AddAllBoth(old(Buffer()), StallEntries(prev.value, op, gid, currentCycle, comment),
                   MoveEntries(prev.value, op, gid, currentCycle, comment));
      } else {
        AddInit(op, gid, comment);
      }
    }

    method FlushOp(gid: int, prev: Option<Op>, op: Op, comment: string) returns (ok: bool)
      requires running && (prev.Some? ==> gid in ops)
      modifies `ops, `events, `added, `flushedOpGids, `running
      ensures State() == TraceModel.FlushOp(old(State()), gid, prev, op, comment) && ok == running
    {
      if prev.None? {
        running := false;
        return false;
      }
      if prev.value.stageId == 0 {
        ops := ops - {gid};
      } else {
        AddFlush(op, gid, comment);
        flushedOpGids := flushedOpGids + {gid};
        ops := ops - {gid};
        ops := ops[gid := op];
      }
      ok := true;
    }

    /** The events of a stage line, and the retirement of an op that enters the last stage. */
    method Track(gid: int, prev: Option<Op>, op: Op, comment: string)
      modifies `events, `added, `maxRetiredOp, `flushedOpGids, `committedOpNum
      ensures State() == TrackOp(old(State()), gid, prev, op, comment)
    {
      AddStageEvents(prev, op, gid, comment);
      if prev.Some? && prev.value.stageId != op.stageId && op.stageId == RETIREMENT_STAGE {
        RetireOp(gid);
      }
    }

    method OnStage(c: Command) returns (ok: bool)
      requires c.Stage? && running
      modifies this
      ensures State() == TraceModel.OnStage(old(State()), c) && ok == running
      ensures generator.State() == old(generator.State())
    {
      if !c.valid {
        return true;
      }
      var id := TraceIds.CreateGid(maxRetiredOp, c.iid, c.mid);
      if id.None? {
        running := false;
        return false;
      }
      var gid, flush := id.value, c.clear && !c.stall;
      if gid in flushedOpGids && flush {
        return true;
      }
      var prev := if gid in ops then Some(ops[gid]) else None;
      var op := Op(c.stall, c.clear, c.stageId, prev.Some? && prev.value.labelOutputted);
      Track(gid, prev, op, c.comment);
      if flush {
        ok := FlushOp(gid, prev, op, c.comment);
      } else {
        ops := ops[gid := op];
        ok := true;
      }
    }

    method OnLabel(c: Command) returns (ok: bool)
      requires c.LabelOp? && running
      modifies this
      ensures State() == TraceModel.OnLabel(old(State()), c) && ok == running
    {
      var id := TraceIds.CreateGid(maxRetiredOp, c.iid, c.mid);
      if id.None? || id.value !in ops {
        running := false;
        return false;
      }
      var op := ops[id.value];
      if !op.labelOutputted {
        ops := ops[id.value := op.(labelOutputted := true)];
        AddEvent(currentCycle, Event(id.value, Label, -1, c.comment));
      }
      ok := true;
    }

    /** Retires gid, and every 64th time forgets all older ops. */
    method CollectOps(gid: int)
      requires gid in ops
      modifies `ops
      ensures ops == Collect(old(ops), gid)
    {
      ops := ops - {gid};
      if gid % COLLECT_EVERY == 0 {
        ghost var start := ops;
        var rest := ops.Keys;
        while rest != {}
          invariant DropOlder(ops, rest, gid) == DropOlder(start, start.Keys, gid)
          decreases |rest|
        {
          var g := Least(rest);
          if g < gid {
            ops := ops - {g};
          }
          rest := rest - {g};
        }
      }
    }

    method TakeEvent(cycle: int, e: Event) returns (ok: bool)
      requires running
      modifies `ops, `taken, `handed, `written, `running, generator
      ensures State() == TraceModel.TakeEvent(old(State()), Entry(cycle, e)) && ok == running
    {
      taken, handed := taken + [Entry(cycle, e)], handed + [e.gid in ops];
      written := written + [e.gid in ops && Writes(generator.State(), e)];
      if e.gid in ops {
        ok := generator.OnEvent(e);
        if !ok {
          running := false;
          return;
        }
      }
      if e.kind.Retire? {
        if e.gid !in ops {
          running := false;
          return false;
        }
        CollectOps(e.gid);
      }
      ok := true;
    }

    method ProcessCycle(cycle: int) returns (ok: bool)
      requires running && cycle in events
      modifies this, generator
      ensures State() == TraceModel.ProcessCycle(old(State()), cycle) && ok == running
    {
      generator.OnCycle(cycle);
      emitted := emitted + [cycle];
      var es := events[cycle];
      ghost var start := State();
      ok := TakeEvents(cycle, es);
      assert State() == TakeAll(start, cycle, es);
      if ok {
        events := events - {cycle};
      }
    }

    method TakeEvents(cycle: int, es: seq<Event>) returns (ok: bool)
      requires running
      modifies `ops, `taken, `handed, `written, `running, generator
      ensures State() == TakeAll(old(State()), cycle, es) && ok == running
    {
      ghost var start := State();
      ok := true;
      var i := 0;
      while i < |es|
        invariant 0 <= i <= |es| && running && ok
        invariant State() == TakeAll(start, cycle, es[..i])
        invariant unchanged(`currentCycle) && unchanged(`events)
      {
        TakeAllSnoc(start, cycle, es[..i], es[i]);
        assert es[..i + 1] == es[..i] + [es[i]];
        ok := TakeEvent(cycle, es[i]);
        if !ok {
          TakeAllStops(start, cycle, es, i + 1);
          return;
        }
        i := i + 1;
      }
      assert es[..i] == es;
    }

    /** One turn of the loop: towards the goal, or an exception that ends there. */
    method ProcessNext(cycles: seq<int>, i: nat, dispose: bool, ghost goal: Parser) returns (ok: bool)
      requires running && i < |cycles| && Due(State(), cycles[i], dispose)
      requires Remaining(State(), cycles, i, dispose, goal)
      modifies this, generator
      ensures ok == running
      ensures if ok then Remaining(State(), cycles, i + 1, dispose, goal) else goal == State()
    {
      ProcessCyclesStep(State(), cycles, i, dispose);
      ok := ProcessCycle(cycles[i]);
    }

    method ProcessEvents(dispose: bool) returns (ok: bool)
      requires running
      modifies this, generator
      ensures State() == TraceModel.ProcessEvents(old(State()), dispose) && ok == running
    {
      var cycles := Sorted(events.Keys);
      ghost var goal := TraceModel.ProcessEvents(State(), dispose);
      ok := true;
      var i := 0;
      RemainingFirst(State(), dispose);
      while i < |cycles|
        invariant 0 <= i <= |cycles| && ok && running
        invariant Remaining(State(), cycles, i, dispose, goal)
      {
        if !dispose && cycles[i] > currentCycle - BUFFERED_CYCLES {
          break;
        }
        ok := ProcessNext(cycles, i, dispose, goal);
        if !ok {
          return;
        }
        i := i + 1;
      }
      RemainingLast(State(), cycles, i, dispose, goal);
    }

    method Advance(increment: int)
      modifies `currentCycle
      ensures State() == old(State()).(currentCycle := old(currentCycle) + increment)
    {
      currentCycle := currentCycle + increment;
    }

    method OnCycleLine(c: Command) returns (ok: bool)
      requires c.Cycle? && running
      modifies this, generator
      ensures State() == TraceModel.OnCycleLine(old(State()), c) && ok == running
    {
      ghost var start := State();
      Advance(c.increment);
      ghost var later := State();
      ok := ProcessEvents(false);
      assert State() == TraceModel.ProcessEvents(later, false);
      assert TraceModel.OnCycleLine(start, c) == TraceModel.ProcessEvents(later, false);
    }

    method ProcessLine(c: Command) returns (ok: bool)
      requires running
      modifies this, generator
      ensures State() == TraceModel.ProcessLine(old(State()), c) && ok == running
    {
      if c.Stage? {
        ok := OnStage(c);
      } else if c.LabelOp? {
        ok := OnLabel(c);
      } else {
        ok := OnCycleLine(c);
      }
    }

    /** The whole file. An exception ends it where it is raised. */
    method Parse(cs: seq<Command>) returns (ok: bool)
      requires State() == INITIAL_PARSER
      modifies this, generator
      ensures State() == TraceModel.Parse(cs) && ok == running
    {
      ok := true;
      var i := 0;
      while i < |cs|
        invariant 0 <= i <= |cs| && running && ok
        invariant State() == Run(cs[..i])
      {
        assert cs[..i + 1][..i] == cs[..i];
        ok := ProcessLine(cs[i]);
        if !ok {
          RunStops(cs, i + 1);
          return;
        }
        i := i + 1;
      }
      assert cs[..i] == cs;
      ok := ProcessEvents(true);
    }
  }

  lemma {:induction false} TakeAllStops(p: Parser, cycle: int, es: seq<Event>, i: nat)
    requires i <= |es| && !TakeAll(p, cycle, es[..i]).ok
    ensures TakeAll(p, cycle, es) == TakeAll(p, cycle, es[..i])
    decreases |es| - i
  {
    if i == |es| {
      assert es[..i] == es;
    } else {
      assert es[..i + 1] == es[..i] + [es[i]];
      TakeAllSnoc(p, cycle, es[..i], es[i]);
      TakeAllStops(p, cycle, es, i + 1);
    }
  }

  lemma {:induction false} TakeAllEvents(p: Parser, cycle: int, es: seq<Event>)
    ensures TakeAll(p, cycle, es).journal.events == p.journal.events
    decreases |es|
  {
    if es != [] && p.ok {
      TakeAllEvents(TraceModel.TakeEvent(p, Entry(cycle, es[0])), cycle, es[1..]);
    }
  }

  /** Every cycle from the i-th on is buffered still. */
  ghost predicate AllBuffered(p: Parser, cycles: seq<int>, i: nat) {
    forall k :: i <= k < |cycles| ==> cycles[k] in p.journal.events
  }

  /** One turn of the loop over the buffered cycles. */
  lemma ProcessCyclesStep(p: Parser, cycles: seq<int>, i: nat, dispose: bool)
    requires i < |cycles| && p.ok && Ascending(cycles) && AllBuffered(p, cycles, i)
    ensures cycles[i] in p.journal.events
    ensures !Due(p, cycles[i], dispose) ==> ProcessCycles(p, cycles[i..], dispose) == p
    ensures var q := TraceModel.ProcessCycle(p, cycles[i]);
      Due(p, cycles[i], dispose) ==>
        && ProcessCycles(p, cycles[i..], dispose) == ProcessCycles(q, cycles[i + 1..], dispose)
        && (!q.ok ==> ProcessCycles(p, cycles[i..], dispose) == q)
        && (q.ok ==> AllBuffered(q, cycles, i + 1))
  {
    assert cycles[i..][0] == cycles[i] && cycles[i..][1..] == cycles[i + 1..];
    TakeAllEvents(p.(journal := Announce(p.journal, cycles[i])), cycles[i], Pending(p.journal.events, cycles[i]));
  }

  /** Processing the cycles from the i-th on leads to the goal. */
  ghost predicate Remaining(p: Parser, cycles: seq<int>, i: nat, dispose: bool, goal: Parser) {
    && i <= |cycles| && p.ok && Ascending(cycles) && AllBuffered(p, cycles, i)
    && goal == ProcessCycles(p, cycles[i..], dispose)
  }

  lemma RemainingFirst(p: Parser, dispose: bool)
    requires p.ok
    ensures Remaining(p, Sorted(p.journal.events.Keys), 0, dispose, TraceModel.ProcessEvents(p, dispose))
  {
    var cycles := Sorted(p.journal.events.Keys);
    assert cycles[0..] == cycles;
  }

  lemma RemainingLast(p: Parser, cycles: seq<int>, i: nat, dispose: bool, goal: Parser)
    requires Remaining(p, cycles, i, dispose, goal) && (i < |cycles| ==> !Due(p, cycles[i], dispose))
    ensures goal == p
  {
    if i < |cycles| {
      ProcessCyclesStep(p, cycles, i, dispose);
    }
  }

  lemma {:induction false} RunStops(cs: seq<Command>, i: nat)
    requires i <= |cs| && !Run(cs[..i]).ok
    ensures Run(cs) == Run(cs[..i]) && TraceModel.Parse(cs) == Run(cs[..i])
    decreases |cs| - i
  {
    if i == |cs| {
      assert cs[..i] == cs;
    } else {
      assert cs[..i + 1][..i] == cs[..i];
      RunStops(cs, i + 1);
    }
  }
}
