/** How long the parser keeps an op, and so which events it hands to the generator. */
module TraceKeeping {
  import opened Common
  import opened TraceModel
  import opened TraceOutput

  /** None of these events is a retirement that takes the op out. */
  ghost predicate Unclosed(es: seq<Entry>, j: nat, k: nat, gid: int)
    requires j <= k <= |es|
  {
    forall n :: j <= n < k ==> !Closes(es[n].event, gid)
  }

  /** The events that q has taken beyond those of p, and which of them it handed over. */
  ghost predicate TakesMore(p: Journal, q: Journal) {
    |p.handed| == |p.taken| && |q.handed| == |q.taken| && p.taken <= q.taken && p.handed <= q.handed
  }

  /** An op is kept until a retirement that takes it out, and an event is handed over exactly while its op is kept. */
  ghost predicate KeepsOps(p: Parser, q: Parser) {
    var j, k := p.journal, q.journal;
    && TakesMore(j, k)
    && (q.ok ==> forall g :: g in q.ops <==> g in p.ops && Unclosed(k.taken, |j.taken|, |k.taken|, g))
    && forall i :: |j.taken| <= i < |k.taken| ==>
         (k.handed[i] <==> k.taken[i].event.gid in p.ops && Unclosed(k.taken, |j.taken|, i, k.taken[i].event.gid))
  }

  lemma KeepsSame(p: Parser, q: Parser)
    requires |p.journal.handed| == |p.journal.taken| && q.ops == p.ops
    requires q.journal.taken == p.journal.taken && q.journal.handed == p.journal.handed
    ensures KeepsOps(p, q)
  {
  }

  lemma CollectIs(ops: map<int, Op>, e: Event, g: int)
    requires e.kind.Retire?
    ensures g in Collect(ops, e.gid) <==> g in ops && !Closes(e, g)
  {
  }

  lemma TakeKeeps(p: Parser, e: Entry)
    requires p.ok && |p.journal.handed| == |p.journal.taken|
    ensures KeepsOps(p, TakeEvent(p, e))
  {
    var q := TakeEvent(p, e);
    var n := |p.journal.taken|;
    assert q.journal.taken[n] == e;
    if q.ok {
      forall g ensures g in q.ops <==> g in p.ops && Unclosed(q.journal.taken, n, n + 1, g)
      {
        assert Unclosed(q.journal.taken, n, n + 1, g) <==> !Closes(e.event, g);
        if e.event.kind.Retire? { CollectIs(p.ops, e.event, g); }
      }
    }
  }

  lemma UnclosedOn(es: seq<Entry>, fs: seq<Entry>, j: nat, k: nat, gid: int)
    requires j <= k <= |es| && es <= fs
    ensures Unclosed(fs, j, k, gid) <==> Unclosed(es, j, k, gid)
  {
    forall n | j <= n < k ensures fs[n] == es[n] { }
  }

  lemma UnclosedBoth(es: seq<Entry>, j: nat, k: nat, l: nat, gid: int)
    requires j <= k <= l <= |es|
    ensures Unclosed(es, j, l, gid) <==> Unclosed(es, j, k, gid) && Unclosed(es, k, l, gid)
  {
  }

  lemma KeepsBoth(p: Parser, q: Parser, r: Parser)
    requires KeepsOps(p, q) && KeepsOps(q, r) && q.ok
    ensures KeepsOps(p, r)
  {
    var i, j, k := p.journal.taken, q.journal.taken, r.journal.taken;
    forall g, n | |j| <= n <= |k|
      ensures g in q.ops && Unclosed(k, |j|, n, g) <==> g in p.ops && Unclosed(k, |i|, n, g)
    {
      UnclosedBoth(k, |i|, |j|, n, g);
      UnclosedOn(j, k, |i|, |j|, g);
    }
    forall n | |i| <= n < |j|
      ensures r.journal.handed[n] <==> k[n].event.gid in p.ops && Unclosed(k, |i|, n, k[n].event.gid)
    {
      UnclosedOn(j, k, |i|, n, k[n].event.gid);
      assert r.journal.handed[n] == q.journal.handed[n] && k[n] == j[n];
    }
  }

  lemma {:induction false} TakeAllKeepsOps(p: Parser, cycle: int, es: seq<Event>)
    requires |p.journal.handed| == |p.journal.taken|
    ensures KeepsOps(p, TakeAll(p, cycle, es)) || !p.ok
    ensures |TakeAll(p, cycle, es).journal.handed| == |TakeAll(p, cycle, es).journal.taken|
    decreases |es|
  {
    if es == [] || !p.ok {
      KeepsSame(p, p);
    } else {
      var q := TakeEvent(p, Entry(cycle, es[0]));
      TakeKeeps(p, Entry(cycle, es[0]));
      TakeAllKeepsOps(q, cycle, es[1..]);
      if q.ok { KeepsBoth(p, q, TakeAll(q, cycle, es[1..])); }
    }
  }

  lemma ProcessCycleKeepsOps(p: Parser, cycle: int)
    requires p.ok && |p.journal.handed| == |p.journal.taken|
    ensures KeepsOps(p, ProcessCycle(p, cycle))
  {
    TakeAllKeepsOps(p.(journal := Announce(p.journal, cycle)), cycle, Pending(p.journal.events, cycle));
  }

  lemma {:induction false} ProcessCyclesKeepsOps(p: Parser, cycles: seq<int>, dispose: bool)
    requires p.ok && |p.journal.handed| == |p.journal.taken|
    ensures KeepsOps(p, ProcessCycles(p, cycles, dispose))
    decreases |cycles|
  {
    if cycles == [] || !Due(p, cycles[0], dispose) {
      KeepsSame(p, p);
    } else {
      var q := ProcessCycle(p, cycles[0]);
      ProcessCycleKeepsOps(p, cycles[0]);
      if q.ok {
        ProcessCyclesKeepsOps(q, cycles[1..], dispose);
        KeepsBoth(p, q, ProcessCycles(q, cycles[1..], dispose));
      }
    }
  }

  /**
   In every run, when events are taken out an op is kept until the first retirement that takes it out - its
   own, or that of a newer op with every 64th id - and an event reaches the generator exactly if its op
   is still kept.
   */
  lemma OpsKeptUntilRetired(cs: seq<Command>, r: Parser, dispose: bool)
    requires Run(cs).ok && r == Run(cs).(currentCycle := r.currentCycle)
    ensures KeepsOps(r, ProcessEvents(r, dispose))
  {
    RunTracks(cs);
    ProcessCyclesKeepsOps(r, Sorted(r.journal.events.Keys), dispose);
  }
}
