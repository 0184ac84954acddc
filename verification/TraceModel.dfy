/** How RSD_Parser.py buffers events by cycle and hands them, in cycle order, to KanataGenerator.py. */
module TraceModel {
  import opened Common
  import opened TraceIds

  const INITIAL_CYCLE: int := -1
  const RETIREMENT_STAGE: nat := 14
  /** How many cycles an event stays buffered, so that a cancelled op is never shown. */
  const BUFFERED_CYCLES: int := 3
  const COLLECT_EVERY: int := 64
  const STAGE_NAMES: int := 15

  datatype EventKind = Init | StageBegin | StageEnd | StallBegin | StallEnd | Retire | Flush | Label
  datatype Event = Event(gid: int, kind: EventKind, stageId: int, comment: string)
  datatype Entry = Entry(cycle: int, event: Event)
  datatype Op = Op(stall: bool, clear: bool, stageId: nat, labelOutputted: bool)

  /** One line of the input. */
  datatype Command =
    | Stage(valid: bool, stall: bool, clear: bool, stageId: nat, iid: nat, mid: nat, comment: string)
    | LabelOp(iid: nat, mid: nat, comment: string)
    | Cycle(increment: int)

  // -------- The generator --------

  /** What the generator writes: the cycles that pass, and the events. */
  datatype Line = CycleLine(delta: int) | EventLine(event: Event)

  /** known: the ids that have been initialized and not retired. */
  datatype Kanata = Kanata(currentCycle: int, known: set<int>, lines: seq<Line>)

  function OnCycle(k: Kanata, cycle: int): Kanata {
    k.(currentCycle := cycle,
       lines := k.lines + if cycle > k.currentCycle then [CycleLine(cycle - k.currentCycle)] else [])
  }

  /** Events of other ops are dropped with a message. */
  predicate Accepts(k: Kanata, e: Event) { e.gid in k.known || e.kind.Init? }

  /** The events that are printed with the name of their stage need one. */
  predicate Printable(e: Event) {
    e.kind.StageBegin? || e.kind.StageEnd? ==> -STAGE_NAMES <= e.stageId < STAGE_NAMES
  }

  /** Printing fails: the table of stage names has no such index. */
  predicate Raises(k: Kanata, e: Event) { Accepts(k, e) && !Printable(e) }

  predicate Writes(k: Kanata, e: Event) { Accepts(k, e) && Printable(e) }

  /** A retired op is no longer known, and every 64th one takes all older ones with it. */
  function NextKnown(known: set<int>, e: Event): set<int> {
    if e.kind.Init? then known + {e.gid}
    else if e.kind.Retire? then
      var rest := known - {e.gid};
      if e.gid % COLLECT_EVERY == 0 then ForgetOlder(rest, rest, e.gid) else rest
    else known
  }

  function OnEvent(k: Kanata, e: Event): Kanata {
    if Writes(k, e) then k.(known := NextKnown(k.known, e), lines := k.lines + [EventLine(e)]) else k
  }

  /** The cycle a reader of these lines has reached: the header's cycle plus every delta. */
  function Clock(lines: seq<Line>): int {
    if lines == [] then INITIAL_CYCLE
    else
      var last := lines[|lines| - 1];
      Clock(lines[..|lines| - 1]) + if last.CycleLine? then last.delta else 0
  }

  /** The events a reader of these lines sees, each at the cycle the reader has reached. */
  function Timeline(lines: seq<Line>): seq<Entry> {
    if lines == [] then []
    else
      var before, last := lines[..|lines| - 1], lines[|lines| - 1];
      Timeline(before) + if last.EventLine? then [Entry(Clock(before), last.event)] else []
  }

  // -------- The parser --------

  /**
   * The event buffer and the generator, with their history: every event added, every event taken
   * out (handed: whether the generator got it; written: whether it wrote it), every cycle announced.
   */
  datatype Journal = Journal(
    events: map<int, seq<Event>>,
    kanata: Kanata,
    added: seq<Entry>,
    taken: seq<Entry>,
    handed: seq<bool>,
    written: seq<bool>,
    emitted: seq<int>)

  /** ok turns false where the source raises an exception, which ends the run. */
  datatype Parser = Parser(
    currentCycle: int,
    ops: map<int, Op>,
    flushed: set<int>,
    maxRetired: nat,
    committed: nat,
    journal: Journal,
    ok: bool)

  const INITIAL_JOURNAL := Journal(map[], Kanata(INITIAL_CYCLE, {}, []), [], [], [], [], [])
  const INITIAL_PARSER := Parser(INITIAL_CYCLE, map[], {}, 0, 0, INITIAL_JOURNAL, true)

  /** The events buffered for a cycle, in the order in which they were added. */
  function Pending(events: map<int, seq<Event>>, cycle: int): seq<Event> {
    if cycle in events then events[cycle] else []
  }

  function AddEvent(j: Journal, e: Entry): Journal {
    j.(events := j.events[e.cycle := Pending(j.events, e.cycle) + [e.event]], added := j.added + [e])
  }

  function AddAll(j: Journal, es: seq<Entry>): Journal {
    if es == [] then j else AddEvent(AddAll(j, es[..|es| - 1]), es[|es| - 1])
  }

  function Failed(p: Parser): Parser { p.(ok := false) }

  /** A new op. */
  function InitEntries(op: Op, gid: int, now: int, comment: string): seq<Entry> {
    [Entry(now, Event(gid, Init, op.stageId, "")), Entry(now, Event(gid, StageBegin, op.stageId, comment))]
    + if op.stall then [Entry(now, Event(gid, StallBegin, op.stageId, ""))] else []
  }

  /** A stall that ends or begins. */
  function StallEntries(prev: Op, op: Op, gid: int, now: int, comment: string): seq<Entry> {
    if prev.stall && !op.stall then
      [Entry(now, Event(gid, StallEnd, prev.stageId, "")), Entry(now, Event(gid, StageEnd, prev.stageId, "")),
       Entry(now, Event(gid, StageBegin, op.stageId, comment))]
    else if !prev.stall && op.stall then [Entry(now, Event(gid, StallBegin, op.stageId, comment))]
    else []
  }

  /** A move to another stage; one to the last stage ends in the next cycle. */
  function MoveEntries(prev: Op, op: Op, gid: int, now: int, comment: string): seq<Entry> {
    if prev.stageId == op.stageId then []
    else
      [Entry(now, Event(gid, StageEnd, prev.stageId, "")), Entry(now, Event(gid, StageBegin, op.stageId, comment))]
      + if op.stageId == RETIREMENT_STAGE then
          [Entry(now + 1, Event(gid, StageEnd, op.stageId, "")), Entry(now + 1, Event(gid, Retire, op.stageId, ""))]
        else []
  }

  /** The events that a stage line adds, before those of a flush. */
  function StageEntries(prev: Option<Op>, op: Op, gid: int, now: int, comment: string): seq<Entry> {
    if prev.None? then InitEntries(op, gid, now, comment)
    else StallEntries(prev.value, op, gid, now, comment) + MoveEntries(prev.value, op, gid, now, comment)
  }

  function FlushEntries(op: Op, gid: int, now: int, comment: string): seq<Entry> {
    [Entry(now, Event(gid, StageEnd, op.stageId, "")), Entry(now, Event(gid, Flush, op.stageId, comment))]
  }

  /** A retired op moves the newest retired id on and forgets older flushed ids. */
  function RetireOp(p: Parser, gid: int): Parser {
    var newest := if gid > p.maxRetired then gid else p.maxRetired;
    p.(maxRetired := newest, flushed := ForgetOlder(p.flushed, p.flushed, newest), committed := p.committed + 1)
  }

  /** The ids without those in rest that are older than newest. */
  function ForgetOlder(ids: set<int>, rest: set<int>, newest: int): (r: set<int>)
    ensures forall g :: g in r <==> g in ids && !(g in rest && g < newest)
    decreases |rest|
  {
    if rest == {} then ids
    else
      var g := Least(rest);
      ForgetOlder(if g < newest then ids - {g} else ids, rest - {g}, newest)
  }

  /** What a stage line does once its op is known. */
  function TrackOp(p: Parser, gid: int, prev: Option<Op>, op: Op, comment: string): Parser {
    var retires := prev.Some? && prev.value.stageId != op.stageId && op.stageId == RETIREMENT_STAGE;
    var q := if retires then RetireOp(p, gid) else p;
    q.(journal := AddAll(p.journal, StageEntries(prev, op, gid, p.currentCycle, comment)))
  }

  /** The flush signal of a stage line. An op flushed in the first stage is forgotten, so it is not shown. */
  function FlushOp(p: Parser, gid: int, prev: Option<Op>, op: Op, comment: string): Parser {
    if prev.None? then Failed(p)
    else if prev.value.stageId == 0 then p.(ops := p.ops - {gid})
    else p.(journal := AddAll(p.journal, FlushEntries(op, gid, p.currentCycle, comment)),
            flushed := p.flushed + {gid},
            ops := (p.ops - {gid})[gid := op])
  }

  function OnStage(p: Parser, c: Command): Parser
    requires c.Stage?
  {
    var id := CreateGid(p.maxRetired, c.iid, c.mid);
    if !c.valid then p
    else if id.None? then Failed(p)
    else
      var gid, flush := id.value, c.clear && !c.stall;
      if gid in p.flushed && flush then p
      else
        var prev := if gid in p.ops then Some(p.ops[gid]) else None;
        var op := Op(c.stall, c.clear, c.stageId, prev.Some? && prev.value.labelOutputted);
        var q := TrackOp(p, gid, prev, op, c.comment);
        if flush then FlushOp(q, gid, prev, op, c.comment) else q.(ops := q.ops[gid := op])
  }

  function OnLabel(p: Parser, c: Command): Parser
    requires c.LabelOp?
  {
    var id := CreateGid(p.maxRetired, c.iid, c.mid);
    if id.None? || id.value !in p.ops then Failed(p)
    else
      var gid, op := id.value, p.ops[id.value];
      if op.labelOutputted then p
      else p.(ops := p.ops[gid := op.(labelOutputted := true)],
              journal := AddEvent(p.journal, Entry(p.currentCycle, Event(gid, Label, -1, c.comment))))
  }

  // -------- Taking events out --------

  /** The ops left when gid retires: every 64th id also drops all older ones. */
  function Collect(ops: map<int, Op>, gid: int): map<int, Op> {
    var rest := ops - {gid};
    if gid % COLLECT_EVERY == 0 then DropOlder(rest, rest.Keys, gid) else rest
  }

  /** The ops without those in rest that are older than gid. */
  function DropOlder(ops: map<int, Op>, rest: set<int>, gid: int): (r: map<int, Op>)
    ensures forall g :: g in r <==> g in ops && !(g in rest && g < gid)
    ensures forall g :: g in r ==> r[g] == ops[g]
    decreases |rest|
  {
    if rest == {} then ops
    else
      var g := Least(rest);
      DropOlder(if g < gid then ops - {g} else ops, rest - {g}, gid)
  }

  function Take(j: Journal, e: Entry, shown: bool): Journal {
    j.(kanata := if shown then OnEvent(j.kanata, e.event) else j.kanata,
       taken := j.taken + [e],
       handed := j.handed + [shown],
       written := j.written + [shown && Writes(j.kanata, e.event)])
  }

  /**
   * One buffered event. An exception ends the run where an event cannot be printed, and where an op that
   * is already gone retires.
   */
  function TakeEvent(p: Parser, e: Entry): Parser {
    var gid := e.event.gid;
    var q := p.(journal := Take(p.journal, e, gid in p.ops));
    if gid in p.ops && Raises(p.journal.kanata, e.event) then Failed(q)
    else if !e.event.kind.Retire? then q
    else if gid !in p.ops then Failed(q)
    else q.(ops := Collect(p.ops, gid))
  }

  function TakeAll(p: Parser, cycle: int, es: seq<Event>): Parser
    decreases |es|
  {
    if es == [] || !p.ok then p
    else TakeAll(TakeEvent(p, Entry(cycle, es[0])), cycle, es[1..])
  }

  function Announce(j: Journal, cycle: int): Journal {
    j.(kanata := OnCycle(j.kanata, cycle), emitted := j.emitted + [cycle])
  }

  function Drop(j: Journal, cycle: int): Journal {
    j.(events := j.events - {cycle})
  }

  function ProcessCycle(p: Parser, cycle: int): Parser {
    var q := TakeAll(p.(journal := Announce(p.journal, cycle)), cycle, Pending(p.journal.events, cycle));
    if q.ok then q.(journal := Drop(q.journal, cycle)) else q
  }

  predicate Due(p: Parser, cycle: int, dispose: bool) {
    dispose || cycle <= p.currentCycle - BUFFERED_CYCLES
  }

  function ProcessCycles(p: Parser, cycles: seq<int>, dispose: bool): Parser
    decreases |cycles|
  {
    if cycles == [] || !p.ok || !Due(p, cycles[0], dispose) then p
    else ProcessCycles(ProcessCycle(p, cycles[0]), cycles[1..], dispose)
  }

  function ProcessEvents(p: Parser, dispose: bool): Parser {
    ProcessCycles(p, Sorted(p.journal.events.Keys), dispose)
  }

  function OnCycleLine(p: Parser, c: Command): Parser
    requires c.Cycle?
  {
    ProcessEvents(p.(currentCycle := p.currentCycle + c.increment), false)
  }

  // -------- Runs --------

  function ProcessLine(p: Parser, c: Command): Parser {
    if !p.ok then p
    else if c.Stage? then OnStage(p, c)
    else if c.LabelOp? then OnLabel(p, c)
    else OnCycleLine(p, c)
  }

  function Run(cs: seq<Command>): Parser {
    if cs == [] then INITIAL_PARSER else ProcessLine(Run(cs[..|cs| - 1]), cs[|cs| - 1])
  }

  /** The whole file: every line, then whatever is still buffered. */
  function Parse(cs: seq<Command>): Parser {
    var p := Run(cs);
    if p.ok then ProcessEvents(p, true) else p
  }

  /** Time never goes back. */
  predicate Forward(cs: seq<Command>) {
    forall i :: 0 <= i < |cs| && cs[i].Cycle? ==> cs[i].increment >= 0
  }

  // -------- Sorting --------

  lemma Member<T>(s: set<T>) returns (y: T)
    requires s != {}
    ensures y in s
  {
    y :| y in s;
  }

  lemma {:induction false} LeastExists(s: set<int>)
    requires s != {}
    ensures exists m :: m in s && forall x :: x in s ==> m <= x
    decreases |s|
  {
    var y := Member(s);
    var rest := s - {y};
    if rest == {} {
      assert forall x :: x in s ==> x == y || x in rest;
      assert y in s && forall x :: x in s ==> y <= x;
    } else {
      LeastExists(rest);
      var m :| m in rest && forall x :: x in rest ==> m <= x;
      var least := if m < y then m else y;
      assert forall x :: x in s ==> x == y || x in rest;
      assert least in s && forall x :: x in s ==> least <= x;
    }
  }

  function Least(s: set<int>): (m: int)
    requires s != {}
    ensures m in s && forall x :: x in s ==> m <= x
  {
    LeastExists(s);
    var m :| m in s && forall x :: x in s ==> m <= x;
    m
  }

  ghost predicate Ascending(s: seq<int>) { forall i, k :: 0 <= i < k < |s| ==> s[i] < s[k] }

  function Sorted(s: set<int>): (r: seq<int>)
    ensures Ascending(r)
    ensures forall x :: x in s <==> x in r
    decreases |s|
  {
    if s == {} then []
    else
      var m := Least(s);
      [m] + Sorted(s - {m})
  }
}
