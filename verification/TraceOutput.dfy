/** What the trace parser's output shows: which events are written, and which ops never appear. */
module TraceOutput {
  import opened Common
  import opened TraceModel
  import opened TraceTheorems
  import TraceIds

  // -------- What is written --------

  /** The retirement e takes gid out of the generator. */
  predicate Closes(e: Event, gid: int) {
    e.kind.Retire? && (e.gid == gid || (e.gid % COLLECT_EVERY == 0 && gid < e.gid))
  }

  /**
   * In this history gid has been initialized, and no op has retired since that takes it out. Only what
   * was handed to the generator counts, and a retirement only of an op that is open itself.
   */
  ghost predicate Opened(es: seq<Entry>, handed: seq<bool>, gid: int)
    requires |handed| == |es|
    decreases |es|
  {
    if es == [] then false
    else
      var n := |es| - 1;
      var e, before, marks := es[n].event, es[..n], handed[..n];
      if !handed[n] then Opened(before, marks, gid)
      else if e.kind.Init? then e.gid == gid || Opened(before, marks, gid)
      else Opened(before, marks, gid) && !(Closes(e, gid) && Opened(before, marks, e.gid))
  }

  /** The i-th event taken can be written: its op is open, or it opens it, and its stage has a name. */
  ghost predicate Writable(es: seq<Entry>, handed: seq<bool>, i: nat)
    requires |handed| == |es| && i < |es|
  {
    Printable(es[i].event) && (es[i].event.kind.Init? || Opened(es[..i], handed[..i], es[i].event.gid))
  }

  ghost predicate WrittenAt(j: Journal, i: nat)
    requires |j.handed| == |j.written| == |j.taken| && i < |j.taken|
  {
    j.written[i] <==> j.handed[i] && Writable(j.taken, j.handed, i)
  }

  /** The generator knows exactly the open ops, and what it wrote is what could be written. */
  ghost predicate Tracks(j: Journal) {
    && |j.handed| == |j.written| == |j.taken|
    && (forall g :: g in j.kanata.known <==> Opened(j.taken, j.handed, g))
    && forall i: nat :: i < |j.taken| ==> WrittenAt(j, i)
  }

  lemma OpenedSnoc(es: seq<Entry>, handed: seq<bool>, e: Entry, h: bool, gid: int)
    requires |handed| == |es|
    ensures Opened(es + [e], handed + [h], gid) <==>
      if !h then Opened(es, handed, gid)
      else if e.event.kind.Init? then e.event.gid == gid || Opened(es, handed, gid)
      else Opened(es, handed, gid) && !(Closes(e.event, gid) && Opened(es, handed, e.event.gid))
  {
    assert (es + [e])[..|es|] == es;
    assert (handed + [h])[..|es|] == handed;
  }

  lemma NextKnownIs(known: set<int>, e: Event, gid: int)
    requires e.gid in known || e.kind.Init?
    ensures gid in NextKnown(known, e) <==>
      if e.kind.Init? then e.gid == gid || gid in known else gid in known && !Closes(e, gid)
  {
  }

  lemma KnownStep(j: Journal, e: Entry, h: bool, gid: int)
    requires Tracks(j) && (e.event.kind.Init? || e.event.kind.Retire? ==> Printable(e.event))
    ensures gid in Take(j, e, h).kanata.known <==> Opened(j.taken + [e], j.handed + [h], gid)
  {
    OpenedSnoc(j.taken, j.handed, e, h, gid);
    if h && Writes(j.kanata, e.event) { NextKnownIs(j.kanata.known, e.event, gid); }
  }

  lemma WrittenStep(j: Journal, e: Entry, h: bool, i: nat)
    requires Tracks(j) && i <= |j.taken|
    ensures WrittenAt(Take(j, e, h), i)
  {
    var k := Take(j, e, h);
    if i < |j.taken| {
      assert WrittenAt(j, i);
      assert k.taken[..i] == j.taken[..i] && k.handed[..i] == j.handed[..i];
    } else {
      assert k.taken[..i] == j.taken && k.handed[..i] == j.handed;
    }
  }

  lemma TakeTracks(j: Journal, e: Entry, h: bool)
    requires Tracks(j)
    ensures Tracks(Take(j, e, h))
  {
    var k := Take(j, e, h);
    forall g ensures g in k.kanata.known <==> Opened(k.taken, k.handed, g) { KnownStep(j, e, h, g); }
    forall i: nat | i < |k.taken| ensures WrittenAt(k, i) { WrittenStep(j, e, h, i); }
  }

  lemma {:induction false} TakeAllTracks(p: Parser, cycle: int, es: seq<Event>)
    requires Tracks(p.journal)
    ensures Tracks(TakeAll(p, cycle, es).journal)
    decreases |es|
  {
    if es != [] && p.ok {
      var e := Entry(cycle, es[0]);
      TakeEventJournal(p, e);
      TakeTracks(p.journal, e, e.event.gid in p.ops);
      TakeAllTracks(TakeEvent(p, e), cycle, es[1..]);
    }
  }

  /** What the generator has done is the same. */
  ghost predicate SameOutput(j: Journal, k: Journal) {
    k.taken == j.taken && k.handed == j.handed && k.written == j.written && k.kanata.known == j.kanata.known
  }

  lemma SameTracks(j: Journal, k: Journal)
    requires Tracks(j) && SameOutput(j, k)
    ensures Tracks(k)
  {
    forall i: nat | i < |k.taken| ensures WrittenAt(k, i) { assert WrittenAt(j, i); }
  }

  lemma ProcessCycleTracks(p: Parser, cycle: int)
    requires Tracks(p.journal)
    ensures Tracks(ProcessCycle(p, cycle).journal)
  {
    var r := p.(journal := Announce(p.journal, cycle));
    var es := Pending(p.journal.events, cycle);
    SameTracks(p.journal, r.journal);
    TakeAllTracks(r, cycle, es);
    SameTracks(TakeAll(r, cycle, es).journal, Drop(TakeAll(r, cycle, es).journal, cycle));
  }

  lemma {:induction false} ProcessCyclesTracks(p: Parser, cycles: seq<int>, dispose: bool)
    requires Tracks(p.journal)
    ensures Tracks(ProcessCycles(p, cycles, dispose).journal)
    decreases |cycles|
  {
    if cycles != [] && p.ok && Due(p, cycles[0], dispose) {
      ProcessCycleTracks(p, cycles[0]);
      ProcessCyclesTracks(ProcessCycle(p, cycles[0]), cycles[1..], dispose);
    }
  }

  lemma {:induction false} AddAllSameOutput(j: Journal, es: seq<Entry>)
    ensures SameOutput(j, AddAll(j, es))
    decreases |es|
  {
    if es != [] { AddAllSameOutput(j, es[..|es| - 1]); }
  }

  lemma FlushSameOutput(p: Parser, gid: int, prev: Option<Op>, op: Op, comment: string)
    ensures SameOutput(p.journal, FlushOp(p, gid, prev, op, comment).journal)
  {
    AddAllSameOutput(p.journal, FlushEntries(op, gid, p.currentCycle, comment));
  }

  lemma StageSameOutput(p: Parser, c: Command)
    requires c.Stage?
    ensures SameOutput(p.journal, OnStage(p, c).journal)
  {
    var id := TraceIds.CreateGid(p.maxRetired, c.iid, c.mid);
    if c.valid && id.Some? {
      var gid := id.value;
      var prev := if gid in p.ops then Some(p.ops[gid]) else None;
      var op := Op(c.stall, c.clear, c.stageId, prev.Some? && prev.value.labelOutputted);
      AddAllSameOutput(p.journal, StageEntries(prev, op, gid, p.currentCycle, c.comment));
      FlushSameOutput(TrackOp(p, gid, prev, op, c.comment), gid, prev, op, c.comment);
    }
  }

  lemma {:induction false} RunTracks(cs: seq<Command>)
    ensures Tracks(Run(cs).journal)
    decreases |cs|
  {
    if cs != [] {
      var p, c := Run(cs[..|cs| - 1]), cs[|cs| - 1];
      RunTracks(cs[..|cs| - 1]);
      if p.ok { LineTracks(p, c); }
    }
  }

  lemma LineTracks(p: Parser, c: Command)
    requires Tracks(p.journal) && p.ok
    ensures Tracks(ProcessLine(p, c).journal)
  {
    if c.Stage? {
      StageSameOutput(p, c);
      SameTracks(p.journal, OnStage(p, c).journal);
    } else if c.LabelOp? {
      SameTracks(p.journal, OnLabel(p, c).journal);
    } else {
      var r := p.(currentCycle := p.currentCycle + c.increment);
      ProcessCyclesTracks(r, Sorted(r.journal.events.Keys), false);
    }
  }

  lemma ParseTracks(cs: seq<Command>)
    ensures Tracks(Parse(cs).journal)
  {
    RunTracks(cs);
    var p := Run(cs);
    ProcessCyclesTracks(p, Sorted(p.journal.events.Keys), true);
  }

  lemma {:induction false} ShownLength(es: seq<Entry>, marks: seq<bool>, fewer: seq<bool>)
    requires |marks| == |fewer| == |es| && forall i :: 0 <= i < |es| && fewer[i] ==> marks[i]
    ensures |Shown(es, fewer)| <= |Shown(es, marks)|
    ensures |Shown(es, fewer)| == |Shown(es, marks)| ==> fewer == marks
    decreases |es|
  {
    if es != [] {
      var n := |es| - 1;
      ShownLength(es[..n], marks[..n], fewer[..n]);
      assert marks == marks[..n] + [marks[n]] && fewer == fewer[..n] + [fewer[n]];
    }
  }

  /**
   * A reader that adds up the deltas sees every event written at the cycle it was recorded for, in the
   * order taken. Written is exactly what was handed to the generator for an open op, and printable.
   */
  lemma ReaderSeesEvents(cs: seq<Command>)
    requires Forward(cs)
    ensures var j := Parse(cs).journal;
      |j.written| == |j.handed| == |j.taken| && Timeline(j.kanata.lines) == Shown(j.taken, j.written)
      && forall i: nat :: i < |j.taken| ==> WrittenAt(j, i)
  {
    ParseKeeps(cs);
    ParseTracks(cs);
  }

  /** The reader sees everything that was handed over if and only if all of it could be written. */
  lemma ReaderSeesAllHanded(cs: seq<Command>)
    requires Forward(cs)
    ensures var j := Parse(cs).journal;
      |j.handed| == |j.taken|
      && (Timeline(j.kanata.lines) == Shown(j.taken, j.handed) <==>
          forall i: nat :: i < |j.taken| && j.handed[i] ==> Writable(j.taken, j.handed, i))
  {
    ReaderSeesEvents(cs);
    var j := Parse(cs).journal;
    forall i: nat | i < |j.taken| ensures j.written[i] <==> j.handed[i] && Writable(j.taken, j.handed, i)
    {
      assert WrittenAt(j, i);
    }
    ShownLength(j.taken, j.handed, j.written);
    if forall i: nat :: i < |j.taken| && j.handed[i] ==> Writable(j.taken, j.handed, i) {
      assert j.written == j.handed;
    }
  }

  // -------- Cancelled ops --------

  /** No event of this op is shown from the n-th one taken on. */
  ghost predicate Hidden(j: Journal, n: nat, gid: int) {
    |j.handed| == |j.written| == |j.taken|
    && forall i :: n <= i < |j.taken| && j.taken[i].event.gid == gid ==> !j.handed[i] && !j.written[i]
  }

  lemma {:induction false} TakeAllHides(p: Parser, cycle: int, es: seq<Event>, gid: int, n: nat)
    requires Hidden(p.journal, n, gid) && gid !in p.ops
    ensures var q := TakeAll(p, cycle, es); Hidden(q.journal, n, gid) && gid !in q.ops
    decreases |es|
  {
    if es == [] || !p.ok {
    } else {
      var e := Entry(cycle, es[0]);
      TakeEventJournal(p, e);
      TakeAllHides(TakeEvent(p, e), cycle, es[1..], gid, n);
    }
  }

  lemma {:induction false} ProcessCyclesHides(p: Parser, cycles: seq<int>, dispose: bool, gid: int, n: nat)
    requires Hidden(p.journal, n, gid) && gid !in p.ops
    ensures var q := ProcessCycles(p, cycles, dispose); Hidden(q.journal, n, gid) && gid !in q.ops
    decreases |cycles|
  {
    if cycles == [] || !p.ok || !Due(p, cycles[0], dispose) {
    } else {
      var r := p.(journal := Announce(p.journal, cycles[0]));
      TakeAllHides(r, cycles[0], Pending(p.journal.events, cycles[0]), gid, n);
      ProcessCyclesHides(ProcessCycle(p, cycles[0]), cycles[1..], dispose, gid, n);
    }
  }

  lemma LineHides(p: Parser, c: Command, gid: int, n: nat)
    requires Hidden(p.journal, n, gid) && gid !in p.ops
    ensures Hidden(ProcessLine(p, c).journal, n, gid)
  {
    if p.ok && c.Stage? {
      StageSameOutput(p, c);
    } else if p.ok && c.Cycle? {
      var r := p.(currentCycle := p.currentCycle + c.increment);
      ProcessCyclesHides(r, Sorted(r.journal.events.Keys), false, gid, n);
    }
  }

  /** A flush that reaches an op still in the first stage. */
  predicate Cancels(p: Parser, c: Command, gid: int) {
    && p.ok && c.Stage? && c.valid && c.clear && !c.stall
    && TraceIds.CreateGid(p.maxRetired, c.iid, c.mid) == Some(gid)
    && gid !in p.flushed && gid in p.ops && p.ops[gid].stageId == 0
  }

  /** Every event of the op is recent enough to be buffered still. */
  ghost predicate Recent(p: Parser, gid: int) {
    forall e :: e in p.journal.added && e.event.gid == gid ==> e.cycle > p.currentCycle - BUFFERED_CYCLES
  }

  lemma RecentNotTaken(p: Parser, gid: int)
    requires Inv(p) && p.ok && Recent(p, gid)
    ensures Hidden(p.journal, 0, gid)
  {
    var j := p.journal;
    forall i | 0 <= i < |j.taken|
      ensures j.taken[i].event.gid != gid
    {
      var e := j.taken[i];
      assert e in j.taken;
      assert e.cycle <= p.currentCycle - BUFFERED_CYCLES;
      AtHolds(j.taken, i);
      assert At(j.added, e.cycle) == At(j.taken, e.cycle) + Pending(j.events, e.cycle);
      assert e.event in At(j.added, e.cycle);
      AtFrom(j.added, e.cycle, e.event);
      assert e in j.added;
    }
  }

  lemma {:induction false} AtHolds(es: seq<Entry>, i: nat)
    requires i < |es|
    ensures es[i].event in At(es, es[i].cycle)
  {
    if i < |es| - 1 {
      AtHolds(es[..|es| - 1], i);
    }
  }

  lemma {:induction false} AtFrom(es: seq<Entry>, cycle: int, event: Event)
    requires event in At(es, cycle)
    ensures Entry(cycle, event) in es
  {
    var before := es[..|es| - 1];
    if event in At(before, cycle) {
      AtFrom(before, cycle, event);
    }
  }

  /** The op stays unknown after each of these lines. */
  ghost predicate StaysUnknown(cs: seq<Command>, ds: seq<Command>, gid: int) {
    forall k :: 0 < k <= |ds| ==> gid !in Run(cs + ds[..k]).ops
  }

  lemma {:induction false} UnknownHides(cs: seq<Command>, ds: seq<Command>, gid: int)
    requires Hidden(Run(cs).journal, 0, gid) && gid !in Run(cs).ops && StaysUnknown(cs, ds, gid)
    ensures Hidden(Run(cs + ds).journal, 0, gid) && gid !in Run(cs + ds).ops
    decreases |ds|
  {
    if ds == [] {
      assert cs + ds == cs;
    } else {
      var before, last := ds[..|ds| - 1], ds[|ds| - 1];
      forall k | 0 < k <= |before|
        ensures gid !in Run(cs + before[..k]).ops
      {
        assert before[..k] == ds[..k];
      }
      UnknownHides(cs, before, gid);
      assert ds[..|ds|] == ds;
      assert (cs + ds)[..|cs + ds| - 1] == cs + before;
      LineHides(Run(cs + before), last, gid, 0);
    }
  }

  lemma CancelledIsUnknown(p: Parser, c: Command, gid: int)
    requires Cancels(p, c, gid)
    ensures OnStage(p, c).ok && gid !in OnStage(p, c).ops && gid !in OnStage(p, c).flushed
  {
  }

  lemma EndHides(p: Parser, gid: int)
    requires Hidden(p.journal, 0, gid) && gid !in p.ops
    ensures Hidden((if p.ok then ProcessEvents(p, true) else p).journal, 0, gid)
  {
    ProcessCyclesHides(p, Sorted(p.journal.events.Keys), true, gid, 0);
  }

  /**
   * What the buffer is for: an op cancelled in the first stage, within three cycles of its first event
   * and not seen again, never shows up in the output, not even at the end of the file.
   */
  lemma CancelledOpHidden(cs: seq<Command>, c: Command, ds: seq<Command>, gid: int)
    requires Forward(cs) && Cancels(Run(cs), c, gid) && Recent(Run(cs), gid)
    requires StaysUnknown(cs + [c], ds, gid)
    ensures Hidden(Parse(cs + [c] + ds).journal, 0, gid)
  {
    RunKeeps(cs);
    var p := Run(cs);
    RecentNotTaken(p, gid);
    assert (cs + [c])[..|cs|] == cs;
    StageSameOutput(p, c);
    CancelledIsUnknown(p, c, gid);
    UnknownHides(cs + [c], ds, gid);
    EndHides(Run(cs + [c] + ds), gid);
  }
}
