/** What the events of an op mean: replayed as brackets, they give the op's history as its lines tell it. */
module TraceReplay {
  import opened Common
  import opened TraceModel
  import TraceIds

  // -------- Replaying events --------

  /**
   * What a reader knows of an op after its events, since it was last initialized: the stage that is open,
   * whether a stall is open, whether it has its label, and how it ended. Broken: something open was opened,
   * something closed was closed, a label came twice, or an op without a beginning had a history.
   */
  datatype Replayed =
    | Unborn
    | Broken
    | Life(stage: Option<int>, stalled: bool, labelled: bool, retired: bool, flushed: bool)

  function Step(r: Replayed, e: Event): Replayed {
    if e.kind.Init? then Life(None, false, false, false, false)
    else if !r.Life? then Broken
    else
      match e.kind
      case StageBegin => if r.stage.None? then r.(stage := Some(e.stageId)) else Broken
      case StageEnd => if r.stage == Some(e.stageId) then r.(stage := None) else Broken
      case StallBegin => if r.stalled then Broken else r.(stalled := true)
      case StallEnd => if r.stalled then r.(stalled := false) else Broken
      case Retire => if r.stage.None? && !r.retired then r.(retired := true) else Broken
      case Flush => if r.stage.None? && !r.flushed then r.(flushed := true) else Broken
      case Label => if r.labelled then Broken else r.(labelled := true)
  }

  /** The events of one op among these entries, in their order. */
  function Play(r: Replayed, es: seq<Entry>, gid: int): Replayed {
    if es == [] then r
    else
      var before, e := Play(r, es[..|es| - 1], gid), es[|es| - 1].event;
      if e.gid == gid then Step(before, e) else before
  }

  function Replay(es: seq<Entry>, gid: int): Replayed { Play(Unborn, es, gid) }

  // -------- What the lines say --------

  /**
   * What an op's lines say of it: its last stage and stall bit, whether a label line came, how it ended, and
   * whether its brackets are sound.
   */
  datatype Account =
    | Untracked
    | Tracked(stage: nat, stalled: bool, labelled: bool, retired: bool, flushed: bool, sound: bool)

  predicate Flushes(c: Command)
    requires c.Stage?
  {
    c.clear && !c.stall
  }

  /**
   * The lines whose events do not nest: one that ends a stall and moves the op at once, one that both
   * retires and flushes it, and one that moves, flushes or stops stalling an op that has ended.
   */
  predicate Breaks(a: Account, c: Command)
    requires a.Tracked? && c.Stage?
  {
    var resumes, moves := a.stalled && !c.stall, a.stage != c.stageId;
    || (resumes && moves)
    || (moves && c.stageId == RETIREMENT_STAGE && Flushes(c))
    || ((a.retired || a.flushed) && (moves || resumes || Flushes(c)))
  }

  /** The op moves into the last stage. */
  predicate Enters(a: Account, c: Command)
    requires c.Stage?
  {
    a.Tracked? && a.stage != c.stageId && c.stageId == RETIREMENT_STAGE
  }

  /** The op is flushed while it is still in the first stage. */
  predicate Forgets(a: Account, c: Command)
    requires c.Stage?
  {
    a.Tracked? && Flushes(c) && a.stage == 0
  }

  function AfterLine(a: Account, c: Command): Account
    requires c.Stage?
  {
    if a.Untracked? then Tracked(c.stageId, c.stall, false, false, false, true)
    else if Forgets(a, c) then Untracked
    else Tracked(c.stageId, c.stall, a.labelled, a.retired || Enters(a, c), a.flushed || Flushes(c),
                 a.sound && !Breaks(a, c))
  }

  /** This line is about the op, and is not one of the repeated flush lines that are ignored. */
  predicate Concerns(p: Parser, c: Command, gid: int) {
    && c.Stage? && c.valid && TraceIds.CreateGid(p.maxRetired, c.iid, c.mid) == Some(gid)
    && !(gid in p.flushed && Flushes(c))
  }

  /** A label line for an op that is kept. */
  predicate Labels(p: Parser, c: Command, gid: int) {
    c.LabelOp? && TraceIds.CreateGid(p.maxRetired, c.iid, c.mid) == Some(gid) && gid in p.ops
  }

  function WithLabel(a: Account): Account { if a.Tracked? then a.(labelled := true) else a }

  /** The account of an op after these lines. A line for an op that is no longer kept begins a new one. */
  function AccountOf(cs: seq<Command>, gid: int): Account
    decreases |cs|, 0
  {
    if cs == [] then Untracked
    else
      var before, c := cs[..|cs| - 1], cs[|cs| - 1];
      if Run(before).ok && Concerns(Run(before), c, gid) then AfterLine(Current(before, gid), c)
      else if Run(before).ok && Labels(Run(before), c, gid) then WithLabel(AccountOf(before, gid))
      else AccountOf(before, gid)
  }

  /** The account that a further line continues. */
  function Current(cs: seq<Command>, gid: int): Account
    decreases |cs|, 1
  {
    if gid in Run(cs).ops then AccountOf(cs, gid) else Untracked
  }

  /** The replay that an account calls for: an op that has ended has no stage open. */
  function Meaning(a: Account): Replayed {
    if a.Untracked? then Unborn
    else if !a.sound then Broken
    else Life(if a.retired || a.flushed then None else Some(a.stage), a.stalled, a.labelled, a.retired, a.flushed)
  }

  // -------- Playing lists --------

  lemma PlaySnoc(r: Replayed, es: seq<Entry>, e: Entry, gid: int)
    ensures Play(r, es + [e], gid) == if e.event.gid == gid then Step(Play(r, es, gid), e.event) else Play(r, es, gid)
  {
    assert (es + [e])[..|es|] == es;
  }

  lemma {:induction false} PlayBoth(r: Replayed, es: seq<Entry>, fs: seq<Entry>, gid: int)
    ensures Play(r, es + fs, gid) == Play(Play(r, es, gid), fs, gid)
    decreases |fs|
  {
    if fs == [] {
      assert es + fs == es;
    } else {
      var before, last := fs[..|fs| - 1], fs[|fs| - 1];
      assert es + fs == (es + before) + [last];
      PlaySnoc(r, es + before, last, gid);
      PlayBoth(r, es, before, gid);
    }
  }

  ghost predicate AllOf(es: seq<Entry>, gid: int) { forall e :: e in es ==> e.event.gid == gid }

  lemma {:induction false} PlayOthers(r: Replayed, es: seq<Entry>, gid: int, other: int)
    requires AllOf(es, other) && other != gid
    ensures Play(r, es, gid) == r
    decreases |es|
  {
    if es != [] {
      assert es[|es| - 1] in es;
      PlayOthers(r, es[..|es| - 1], gid, other);
    }
  }

  /** Up to four events of one op, one after the other. */
  lemma PlayFew(r: Replayed, es: seq<Entry>, gid: int)
    requires AllOf(es, gid)
    ensures |es| == 0 ==> Play(r, es, gid) == r
    ensures |es| == 1 ==> Play(r, es, gid) == Step(r, es[0].event)
    ensures |es| == 2 ==> Play(r, es, gid) == Step(Step(r, es[0].event), es[1].event)
    ensures |es| == 3 ==> Play(r, es, gid) == Step(Step(Step(r, es[0].event), es[1].event), es[2].event)
    ensures |es| == 4 ==>
      Play(r, es, gid) == Step(Step(Step(Step(r, es[0].event), es[1].event), es[2].event), es[3].event)
  {
    if 0 < |es| <= 4 {
      assert es[|es| - 1] in es;
      PlayFew(r, es[..|es| - 1], gid);
    }
  }

  // -------- The events of one line --------

  lemma InitPlays(r: Replayed, op: Op, gid: int, now: int, comment: string)
    ensures Play(r, InitEntries(op, gid, now, comment), gid) == Life(Some(op.stageId), op.stall, false, false, false)
  {
    PlayFew(r, InitEntries(op, gid, now, comment), gid);
  }

  lemma StallPlays(r: Replayed, prev: Op, op: Op, gid: int, now: int, comment: string)
    requires r.Life? && r.stalled == prev.stall
    ensures Play(r, StallEntries(prev, op, gid, now, comment), gid) ==
      if !(prev.stall && !op.stall) then r.(stalled := op.stall)
      else if r.stage == Some(prev.stageId) then r.(stalled := false, stage := Some(op.stageId))
      else Broken
  {
    PlayFew(r, StallEntries(prev, op, gid, now, comment), gid);
  }

  lemma MovePlays(r: Replayed, prev: Op, op: Op, gid: int, now: int, comment: string)
    requires r.Life?
    ensures Play(r, MoveEntries(prev, op, gid, now, comment), gid) ==
      if prev.stageId == op.stageId then r
      else if r.stage != Some(prev.stageId) then Broken
      else if op.stageId != RETIREMENT_STAGE then r.(stage := Some(op.stageId))
      else if r.retired then Broken
      else r.(stage := None, retired := true)
  {
    PlayFew(r, MoveEntries(prev, op, gid, now, comment), gid);
  }

  lemma FlushPlays(r: Replayed, op: Op, gid: int, now: int, comment: string)
    requires r.Life?
    ensures Play(r, FlushEntries(op, gid, now, comment), gid) ==
      if r.stage == Some(op.stageId) && !r.flushed then r.(stage := None, flushed := true) else Broken
  {
    PlayFew(r, FlushEntries(op, gid, now, comment), gid);
  }

  lemma {:induction false} BrokenStays(es: seq<Entry>, gid: int)
    requires forall e :: e in es ==> !e.event.kind.Init?
    ensures Play(Broken, es, gid) == Broken
    decreases |es|
  {
    if es != [] {
      assert es[|es| - 1] in es;
      BrokenStays(es[..|es| - 1], gid);
    }
  }

  lemma LineEntriesOf(prev: Option<Op>, op: Op, gid: int, now: int, comment: string)
    ensures AllOf(StageEntries(prev, op, gid, now, comment), gid) && AllOf(FlushEntries(op, gid, now, comment), gid)
    ensures prev.Some? ==> forall e :: e in StageEntries(prev, op, gid, now, comment) ==> !e.event.kind.Init?
    ensures forall e :: e in FlushEntries(op, gid, now, comment) ==> !e.event.kind.Init?
  {
  }

  /** What the tracked op's last line said. */
  predicate Recalls(prev: Op, a: Account) {
    a.Tracked? && prev.stageId == a.stage && prev.stall == a.stalled && prev.labelOutputted == a.labelled
  }

  /** The account of the line without its flush. */
  function BeforeFlush(a: Account, op: Op): Account
    requires a.Tracked?
  {
    var resumes, moves := a.stalled && !op.stall, a.stage != op.stageId;
    Tracked(op.stageId, op.stall, a.labelled, a.retired || (moves && op.stageId == RETIREMENT_STAGE), a.flushed,
            a.sound && !(resumes && moves) && !((a.retired || a.flushed) && (moves || resumes)))
  }

  lemma TrackPlays(a: Account, prev: Op, op: Op, gid: int, now: int, comment: string)
    requires Recalls(prev, a)
    ensures Play(Meaning(a), StageEntries(Some(prev), op, gid, now, comment), gid) == Meaning(BeforeFlush(a, op))
  {
    var stalls, moves := StallEntries(prev, op, gid, now, comment), MoveEntries(prev, op, gid, now, comment);
    LineEntriesOf(Some(prev), op, gid, now, comment);
    if a.sound {
      var r := Meaning(a);
      PlayBoth(r, stalls, moves, gid);
      StallPlays(r, prev, op, gid, now, comment);
      if Play(r, stalls, gid).Life? { MovePlays(Play(r, stalls, gid), prev, op, gid, now, comment); }
      else { BrokenStays(moves, gid); }
    } else {
      BrokenStays(stalls + moves, gid);
    }
  }

  lemma FlushedPlays(a: Account, op: Op, gid: int, now: int, comment: string)
    requires a.Tracked? && op.stageId == a.stage
    ensures Play(Meaning(a), FlushEntries(op, gid, now, comment), gid) ==
      Meaning(a.(flushed := true, sound := a.sound && !a.retired && !a.flushed))
  {
    LineEntriesOf(None, op, gid, now, comment);
    if a.sound {
      FlushPlays(Meaning(a), op, gid, now, comment);
    } else {
      BrokenStays(FlushEntries(op, gid, now, comment), gid);
    }
  }

  // -------- One line --------

  lemma {:induction false} AddAllAdded(j: Journal, es: seq<Entry>)
    ensures AddAll(j, es).added == j.added + es
    decreases |es|
  {
    if es != [] {
      AddAllAdded(j, es[..|es| - 1]);
      assert es == es[..|es| - 1] + [es[|es| - 1]];
    }
  }

  /** The replay of every account that is open, and what is kept of an op, are those of its lines. */
  ghost predicate Faithful(p: Parser, gid: int, a: Account) {
    && (a.Tracked? ==> Replay(p.journal.added, gid) == Meaning(a))
    && (gid in p.ops ==> Recalls(p.ops[gid], a))
  }

  lemma AddsPlay(p: Parser, q: Parser, es: seq<Entry>, gid: int)
    requires q.journal.added == p.journal.added + es
    ensures Replay(q.journal.added, gid) == Play(Replay(p.journal.added, gid), es, gid)
  {
    PlayBoth(Unborn, p.journal.added, es, gid);
  }

  lemma TrackedOp(p: Parser, gid: int, prev: Option<Op>, op: Op, comment: string, other: int)
    ensures var q := TrackOp(p, gid, prev, op, comment);
      && q.ops == p.ops && q.ok == p.ok && q.currentCycle == p.currentCycle
      && Replay(q.journal.added, other) ==
         Play(Replay(p.journal.added, other), StageEntries(prev, op, gid, p.currentCycle, comment), other)
  {
    var es := StageEntries(prev, op, gid, p.currentCycle, comment);
    AddAllAdded(p.journal, es);
    AddsPlay(p, TrackOp(p, gid, prev, op, comment), es, other);
  }

  lemma FlushedOp(p: Parser, gid: int, prev: Option<Op>, op: Op, comment: string, other: int)
    requires prev.Some? && prev.value.stageId != 0
    ensures Replay(FlushOp(p, gid, prev, op, comment).journal.added, other) ==
      Play(Replay(p.journal.added, other), FlushEntries(op, gid, p.currentCycle, comment), other)
  {
    var es := FlushEntries(op, gid, p.currentCycle, comment);
    AddAllAdded(p.journal, es);
    AddsPlay(p, FlushOp(p, gid, prev, op, comment), es, other);
  }

  /** The op that the line is about. */
  lemma OwnLine(p: Parser, c: Command, gid: int, a: Account)
    requires Concerns(p, c, gid) && Faithful(p, gid, a)
    ensures Faithful(OnStage(p, c), gid, AfterLine(if gid in p.ops then a else Untracked, c))
  {
    var prev := if gid in p.ops then Some(p.ops[gid]) else None;
    var op := Op(c.stall, c.clear, c.stageId, prev.Some? && prev.value.labelOutputted);
    var q := TrackOp(p, gid, prev, op, c.comment);
    TrackedOp(p, gid, prev, op, c.comment, gid);
    if prev.None? {
      InitPlays(Replay(p.journal.added, gid), op, gid, p.currentCycle, c.comment);
    } else {
      TrackPlays(a, prev.value, op, gid, p.currentCycle, c.comment);
      if Flushes(c) && prev.value.stageId != 0 {
        FlushedOp(q, gid, prev, op, c.comment, gid);
        FlushedPlays(BeforeFlush(a, op), op, gid, p.currentCycle, c.comment);
      }
    }
  }

  /** Every other op. */
  lemma OthersLine(p: Parser, c: Command, gid: int, other: int, a: Account)
    requires Concerns(p, c, gid) && other != gid && Faithful(p, other, a)
    ensures Faithful(OnStage(p, c), other, a)
  {
    var prev := if gid in p.ops then Some(p.ops[gid]) else None;
    var op := Op(c.stall, c.clear, c.stageId, prev.Some? && prev.value.labelOutputted);
    var q := TrackOp(p, gid, prev, op, c.comment);
    TrackedOp(p, gid, prev, op, c.comment, other);
    LineEntriesOf(prev, op, gid, p.currentCycle, c.comment);
    PlayOthers(Replay(p.journal.added, other), StageEntries(prev, op, gid, p.currentCycle, c.comment), other, gid);
    if Flushes(c) && prev.Some? && prev.value.stageId != 0 {
      FlushedOp(q, gid, prev, op, c.comment, other);
      PlayOthers(Replay(q.journal.added, other), FlushEntries(op, gid, p.currentCycle, c.comment), other, gid);
    }
  }

  /** A stage line that changes nothing but, at most, whether the run goes on. */
  lemma IdleLine(p: Parser, c: Command)
    requires c.Stage? && forall gid :: !Concerns(p, c, gid)
    ensures OnStage(p, c).journal == p.journal && OnStage(p, c).ops == p.ops
  {
    var id := TraceIds.CreateGid(p.maxRetired, c.iid, c.mid);
    if c.valid && id.Some? { assert !Concerns(p, c, id.value); }
  }

  lemma StageLine(p: Parser, c: Command, gid: int, a: Account)
    requires c.Stage? && Faithful(p, gid, a)
    ensures Faithful(OnStage(p, c), gid,
                     if Concerns(p, c, gid) then AfterLine(if gid in p.ops then a else Untracked, c) else a)
  {
    if Concerns(p, c, gid) {
      OwnLine(p, c, gid, a);
    } else if exists g :: Concerns(p, c, g) {
      var g :| Concerns(p, c, g);
      OthersLine(p, c, g, gid, a);
    } else {
      IdleLine(p, c);
    }
  }

  lemma LabelLine(p: Parser, c: Command, gid: int, a: Account)
    requires c.LabelOp? && Faithful(p, gid, a)
    ensures Faithful(OnLabel(p, c), gid, if Labels(p, c, gid) then WithLabel(a) else a)
  {
    var id := TraceIds.CreateGid(p.maxRetired, c.iid, c.mid);
    if id.Some? && id.value in p.ops && !p.ops[id.value].labelOutputted {
      PlaySnoc(Unborn, p.journal.added, Entry(p.currentCycle, Event(id.value, Label, -1, c.comment)), gid);
    }
  }

  // -------- Taking events out --------

  /** Ops may go, and nothing is added. */
  ghost predicate OnlyTakes(p: Parser, q: Parser) {
    && q.journal.added == p.journal.added
    && q.maxRetired == p.maxRetired && q.committed == p.committed && q.flushed == p.flushed
    && forall g :: g in q.ops ==> g in p.ops && q.ops[g] == p.ops[g]
  }

  lemma TakeOnly(p: Parser, e: Entry)
    ensures OnlyTakes(p, TakeEvent(p, e))
  {
  }

  lemma {:induction false} TakeAllOnly(p: Parser, cycle: int, es: seq<Event>)
    ensures OnlyTakes(p, TakeAll(p, cycle, es))
    decreases |es|
  {
    if es != [] && p.ok {
      var q := TakeEvent(p, Entry(cycle, es[0]));
      TakeOnly(p, Entry(cycle, es[0]));
      TakeAllOnly(q, cycle, es[1..]);
    }
  }

  lemma ProcessCycleOnly(p: Parser, cycle: int)
    ensures OnlyTakes(p, ProcessCycle(p, cycle))
  {
    TakeAllOnly(p.(journal := Announce(p.journal, cycle)), cycle, Pending(p.journal.events, cycle));
  }

  lemma {:induction false} ProcessCyclesOnly(p: Parser, cycles: seq<int>, dispose: bool)
    ensures OnlyTakes(p, ProcessCycles(p, cycles, dispose))
    decreases |cycles|
  {
    if cycles != [] && p.ok && Due(p, cycles[0], dispose) {
      ProcessCycleOnly(p, cycles[0]);
      ProcessCyclesOnly(ProcessCycle(p, cycles[0]), cycles[1..], dispose);
    }
  }

  lemma CycleLineOnly(p: Parser, c: Command)
    requires c.Cycle?
    ensures OnlyTakes(p, OnCycleLine(p, c))
  {
    var r := p.(currentCycle := p.currentCycle + c.increment);
    ProcessCyclesOnly(r, Sorted(r.journal.events.Keys), false);
  }

  // -------- Whole runs --------

  lemma LineFaithful(p: Parser, c: Command, gid: int, a: Account)
    requires p.ok && Faithful(p, gid, a)
    ensures Faithful(ProcessLine(p, c), gid,
                     if Concerns(p, c, gid) then AfterLine(if gid in p.ops then a else Untracked, c)
                     else if Labels(p, c, gid) then WithLabel(a)
                     else a)
  {
    if c.Stage? {
      StageLine(p, c, gid, a);
    } else if c.LabelOp? {
      LabelLine(p, c, gid, a);
    } else {
      CycleLineOnly(p, c);
    }
  }

  lemma {:induction false} RunFaithful(cs: seq<Command>, gid: int)
    ensures Faithful(Run(cs), gid, AccountOf(cs, gid))
    decreases |cs|
  {
    if cs != [] {
      var before, c := cs[..|cs| - 1], cs[|cs| - 1];
      RunFaithful(before, gid);
      if Run(before).ok { LineFaithful(Run(before), c, gid, AccountOf(before, gid)); }
    }
  }

  /**
   * In every run, and whatever ends it, the events of an op mean what its lines say. Replayed since it was
   * last initialized, they nest exactly if no line of it breaks them; and then the open stage and stall
   * are those of its last line, it is retired exactly if it moved into the last stage, and flushed
   * exactly if a flush reached it beyond the first stage, each once, with no stage open afterwards; and it
   * has a label exactly if a label line came, and only one.
   */
  lemma EventsTellLines(cs: seq<Command>, gid: int)
    requires AccountOf(cs, gid).Tracked?
    ensures var a, r := AccountOf(cs, gid), Replay(Run(cs).journal.added, gid);
      && (r.Life? <==> a.sound)
      && (r.Life? ==>
            && r.stage == (if a.retired || a.flushed then None else Some(a.stage))
            && r.stalled == a.stalled && r.labelled == a.labelled
            && r.retired == a.retired && r.flushed == a.flushed)
  {
    RunFaithful(cs, gid);
  }

  /** The final disposal adds no event. */
  lemma ParseAdds(cs: seq<Command>)
    ensures Parse(cs).journal.added == Run(cs).journal.added
  {
    var p := Run(cs);
    if p.ok { ProcessCyclesOnly(p, Sorted(p.journal.events.Keys), true); }
  }

  // -------- A line that breaks the brackets --------

  /** An op stalls in stage 5 and is in stage 6, no longer stalled, in its next line. */
  function MovedAfterStall(): seq<Command> {
    [Stage(true, true, false, 5, 1, 0, ""), Stage(true, false, false, 6, 1, 0, "")]
  }

  lemma FirstOfTwo()
    ensures var cs := MovedAfterStall()[..1]; Run(cs).ok && 4 in Run(cs).ops && Run(cs).maxRetired == 0
    ensures var cs := MovedAfterStall()[..1];
      Run(cs).flushed == {} && AccountOf(cs, 4) == Tracked(5, true, false, false, false, true)
  {
    var cs := MovedAfterStall()[..1];
    assert cs == [MovedAfterStall()[0]] && cs[..0] == [];
    assert Run(cs) == ProcessLine(INITIAL_PARSER, cs[0]);
    assert TraceIds.CreateGid(0, 1, 0) == Some(4);
  }

  /** Stage 5 is closed and stage 6 opened twice. */
  lemma MoveAfterStallBreaks()
    ensures Replay(Run(MovedAfterStall()).journal.added, 4) == Broken
  {
    var cs := MovedAfterStall();
    FirstOfTwo();
    assert TraceIds.CreateGid(0, 1, 0) == Some(4);
    assert Concerns(Run(cs[..1]), cs[1], 4);
    RunFaithful(cs, 4);
  }

  // -------- Which cycle an event is for --------

  /** The retirement itself, or the end of the last stage right before it. */
  predicate Closing(es: seq<Entry>, i: nat)
    requires i < |es|
  {
    es[i].event.kind.Retire? || (i + 1 < |es| && es[i + 1].event.kind.Retire?)
  }

  /** Every entry is for this cycle, except that an op leaves the last stage one cycle later. */
  ghost predicate Timely(es: seq<Entry>, now: int) {
    forall i: nat :: i < |es| ==> es[i].cycle == now + if Closing(es, i) then 1 else 0
  }

  lemma TimelyBoth(es: seq<Entry>, fs: seq<Entry>, now: int)
    requires Timely(es, now) && Timely(fs, now) && (fs != [] ==> !fs[0].event.kind.Retire?)
    ensures Timely(es + fs, now)
  {
    var gs := es + fs;
    forall i: nat | i < |gs|
      ensures gs[i].cycle == now + if Closing(gs, i) then 1 else 0
    {
      if i < |es| { assert Closing(gs, i) == Closing(es, i); } else { assert Closing(gs, i) == Closing(fs, i - |es|); }
    }
  }

  lemma EntriesTimely(prev: Option<Op>, op: Op, gid: int, now: int, comment: string)
    ensures Timely(StageEntries(prev, op, gid, now, comment), now) && Timely(FlushEntries(op, gid, now, comment), now)
  {
    if prev.Some? {
      TimelyBoth(StallEntries(prev.value, op, gid, now, comment), MoveEntries(prev.value, op, gid, now, comment), now);
    }
  }

  /**
   * The events that a stage line adds are for the current cycle; the end and the retirement of an op that
   * enters the last stage are for the next one.
   */
  lemma StageLineTimely(p: Parser, c: Command) returns (es: seq<Entry>)
    requires c.Stage?
    ensures OnStage(p, c).journal.added == p.journal.added + es && Timely(es, p.currentCycle)
  {
    es := [];
    if exists gid :: Concerns(p, c, gid) {
      var gid :| Concerns(p, c, gid);
      var prev := if gid in p.ops then Some(p.ops[gid]) else None;
      var op := Op(c.stall, c.clear, c.stageId, prev.Some? && prev.value.labelOutputted);
      EntriesTimely(prev, op, gid, p.currentCycle, c.comment);
      es := StageEntries(prev, op, gid, p.currentCycle, c.comment);
      AddAllAdded(p.journal, es);
      if Flushes(c) && prev.Some? && prev.value.stageId != 0 {
        var fs := FlushEntries(op, gid, p.currentCycle, c.comment);
        AddAllAdded(TrackOp(p, gid, prev, op, c.comment).journal, fs);
        TimelyBoth(es, fs, p.currentCycle);
        es := es + fs;
      }
    } else {
      IdleLine(p, c);
    }
  }

  // -------- What decides which lines count --------

  /** The op that the last of these lines is about, if any. */
  function Subject(cs: seq<Command>): Option<int> {
    if cs == [] then None
    else
      var p, c := Run(cs[..|cs| - 1]), cs[|cs| - 1];
      if !p.ok || !c.Stage? || !c.valid then None
      else
        var id := TraceIds.CreateGid(p.maxRetired, c.iid, c.mid);
        if id.None? || (id.value in p.flushed && Flushes(c)) then None else id
  }

  /** The last of these lines moves its op into the last stage. */
  predicate Retires(cs: seq<Command>) {
    Subject(cs).Some? && Enters(Current(cs[..|cs| - 1], Subject(cs).value), cs[|cs| - 1])
  }

  /** The last of these lines flushes this op beyond the first stage. */
  predicate FlushesOp(cs: seq<Command>, gid: int) {
    && Subject(cs) == Some(gid) && Flushes(cs[|cs| - 1])
    && Current(cs[..|cs| - 1], gid).Tracked? && !Forgets(Current(cs[..|cs| - 1], gid), cs[|cs| - 1])
  }

  /** The newest op that has moved into the last stage, and how often one did. */
  function Newest(cs: seq<Command>): nat {
    if cs == [] then 0
    else
      var before := Newest(cs[..|cs| - 1]);
      if Retires(cs) && Subject(cs).value > before then Subject(cs).value else before
  }

  function Commits(cs: seq<Command>): nat {
    if cs == [] then 0 else Commits(cs[..|cs| - 1]) + if Retires(cs) then 1 else 0
  }

  /** Flushed beyond the first stage, and no op has entered the last stage since while a newer one had. */
  predicate Remembered(cs: seq<Command>, gid: int) {
    cs != []
    && (FlushesOp(cs, gid) || (Remembered(cs[..|cs| - 1], gid) && !(Retires(cs) && gid < Newest(cs))))
  }

  ghost predicate Kept(p: Parser, cs: seq<Command>) {
    && p.maxRetired == Newest(cs) && p.committed == Commits(cs)
    && forall gid :: gid in p.flushed <==> Remembered(cs, gid)
  }

  lemma SameBooks(p: Parser, q: Parser, before: seq<Command>, c: Command)
    requires Kept(p, before) && Subject(before + [c]) == None
    requires q.maxRetired == p.maxRetired && q.committed == p.committed && q.flushed == p.flushed
    ensures Kept(q, before + [c])
  {
    var cs := before + [c];
    assert cs[..|cs| - 1] == before;
    forall gid ensures gid in q.flushed <==> Remembered(cs, gid)
    {
      assert gid in p.flushed <==> Remembered(before, gid);
    }
  }

  /** A stage line in terms of its op's account: the newest retired op, the count and the flushed ops. */
  lemma LineBooks(p: Parser, c: Command, gid: int, a: Account)
    requires p.ok && Concerns(p, c, gid)
    requires (gid in p.ops <==> a.Tracked?) && (a.Tracked? ==> Recalls(p.ops[gid], a))
    ensures var q := OnStage(p, c);
      var newest := if Enters(a, c) && gid > p.maxRetired then gid else p.maxRetired;
      && q.maxRetired == newest
      && q.committed == p.committed + (if Enters(a, c) then 1 else 0)
      && forall g :: g in q.flushed <==>
           || (g == gid && Flushes(c) && a.Tracked? && a.stage != 0)
           || (g in p.flushed && !(Enters(a, c) && g < newest))
  {
  }

  lemma StageBooks(p: Parser, before: seq<Command>, c: Command, gid: int)
    requires p == Run(before) && p.ok && Kept(p, before) && Concerns(p, c, gid)
    ensures Kept(OnStage(p, c), before + [c])
  {
    var cs, a, q := before + [c], Current(before, gid), OnStage(p, c);
    RunFaithful(before, gid);
    LineBooks(p, c, gid, a);
    assert cs[..|cs| - 1] == before && Subject(cs) == Some(gid);
    assert Retires(cs) == Enters(a, c);
    assert Newest(cs) == q.maxRetired;
    forall g ensures g in q.flushed <==> Remembered(cs, g)
    {
      assert g in p.flushed <==> Remembered(before, g);
      assert FlushesOp(cs, g) <==> g == gid && Flushes(c) && a.Tracked? && a.stage != 0;
    }
  }

  lemma IdleBooks(p: Parser, c: Command)
    requires c.Stage? && forall gid :: !Concerns(p, c, gid)
    ensures var q := OnStage(p, c);
      q.maxRetired == p.maxRetired && q.committed == p.committed && q.flushed == p.flushed
  {
    var id := TraceIds.CreateGid(p.maxRetired, c.iid, c.mid);
    if c.valid && id.Some? { assert !Concerns(p, c, id.value); }
  }

  lemma LineKept(p: Parser, before: seq<Command>, c: Command)
    requires p == Run(before) && p.ok && Kept(p, before)
    ensures Kept(ProcessLine(p, c), before + [c])
  {
    var cs := before + [c];
    assert cs[..|cs| - 1] == before;
    if exists gid :: Concerns(p, c, gid) {
      var gid :| Concerns(p, c, gid);
      StageBooks(p, before, c, gid);
    } else {
      if Subject(cs).Some? { assert Concerns(p, c, Subject(cs).value); }
      if c.Stage? { IdleBooks(p, c); } else if c.Cycle? { CycleLineOnly(p, c); }
      SameBooks(p, ProcessLine(p, c), before, c);
    }
  }

  lemma StoppedKept(p: Parser, before: seq<Command>, c: Command)
    requires p == Run(before) && !p.ok && Kept(p, before)
    ensures Kept(p, before + [c])
  {
    var cs := before + [c];
    assert cs[..|cs| - 1] == before;
    SameBooks(p, p, before, c);
  }

  /**
   In every run, the parser's books follow from the lines: the newest retired op, how many ops moved into
   the last stage, and of which ops further flush lines are ignored.
   */
  lemma {:induction false} BooksTellLines(cs: seq<Command>)
    ensures Kept(Run(cs), cs)
    decreases |cs|
  {
    if cs == [] {
    } else {
      var before, c := cs[..|cs| - 1], cs[|cs| - 1];
      assert cs == before + [c];
      BooksTellLines(before);
      if Run(before).ok { LineKept(Run(before), before, c); } else { StoppedKept(Run(before), before, c); }
    }
  }
}
