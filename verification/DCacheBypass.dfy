/** Exactly which data a load that bypasses a miss register receives. */
module DCacheBypass {
  import opened Common
  import opened CacheTypes
  import opened DCacheModel
  import opened DCacheSystem
  import opened DCacheInvariant
  import opened DCacheTheorems
  import opened DCacheProgress

  /** The early exit: the victim was never requested and the load that allocated the entry is flushed. */
  predicate GivesUp(e: Mshr, v: MshrView) { e.phase.VictimRequest? && !v.grant && e.isAllocatorLoadFlushed }

  /** The history of one miss register: what it was, and what it saw. */
  ghost predicate History(es: seq<Mshr>, vs: seq<MshrView>)
  {
    && |es| == |vs| + 1 && !Missing(es[0])
    && forall t: nat :: t < |vs| ==> Follows(es, vs, t)
  }

  ghost predicate Follows(es: seq<Mshr>, vs: seq<MshrView>, t: nat)
    requires |es| == |vs| + 1 && t < |vs|
  {
    EntryOk(es[t]) && es[t + 1] == NextMshr(es[t], vs[t])
  }

  ghost predicate GaveUp(es: seq<Mshr>, vs: seq<MshrView>, j: nat, k: nat)
    requires j <= k <= |vs| <= |es|
  {
    exists t: nat :: j <= t < k && GivesUp(es[t], vs[t])
  }

  /** What is known of an entry that held line when it was allocated. */
  predicate HoldsAfter(e: Mshr, line: Line, gaveUp: bool)
  {
    && (e.phase.MissHandlingComplete? ==> e.newValid == !gaveUp && (gaveUp ==> e.line == line))
    && (!e.phase.MissHandlingComplete? ==> !gaveUp)
    && (e.phase.VictimRequest? ==> e.line == line)
  }

  lemma AllocatedHolds(e: Mshr, v: MshrView)
    requires e.phase.Invalid? && Missing(NextMshr(e, v))
    ensures HoldsAfter(NextMshr(e, v), e.line, false)
  {
  }

  lemma GivingUpStep(e: Mshr, v: MshrView, line: Line)
    requires EntryOk(e) && HoldsAfter(e, line, false) && GivesUp(e, v)
    ensures HoldsAfter(NextMshr(e, v), line, true)
  {
  }

  lemma HoldingStep(e: Mshr, v: MshrView, line: Line, gaveUp: bool)
    requires EntryOk(e) && Missing(e) && HoldsAfter(e, line, gaveUp) && !GivesUp(e, v) && Missing(NextMshr(e, v))
    ensures HoldsAfter(NextMshr(e, v), line, gaveUp)
  {
  }

  lemma HoldsStep(e: Mshr, v: MshrView, line: Line, gaveUp: bool)
    requires EntryOk(e) && Missing(e) && HoldsAfter(e, line, gaveUp) && Missing(NextMshr(e, v))
    ensures HoldsAfter(NextMshr(e, v), line, gaveUp || GivesUp(e, v))
  {
    if GivesUp(e, v) { GivingUpStep(e, v, line); } else { HoldingStep(e, v, line, gaveUp); }
  }

  /** The entry is allocated in cycle j and still handles that miss in cycle k. */
  ghost predicate Handles(es: seq<Mshr>, j: nat, k: nat)
  {
    j < k < |es| && es[j].phase.Invalid? && forall t: nat :: j < t <= k ==> Missing(es[t])
  }

  lemma LaterGaveUp(es: seq<Mshr>, vs: seq<MshrView>, j: nat, k: nat)
    requires j <= k < |vs| <= |es|
    ensures GaveUp(es, vs, j, k + 1) <==> GaveUp(es, vs, j, k) || GivesUp(es[k], vs[k])
  {
  }

  lemma {:induction false} HoldsThroughout(es: seq<Mshr>, vs: seq<MshrView>, j: nat, k: nat)
    requires History(es, vs) && Handles(es, j, k)
    ensures HoldsAfter(es[k], es[j].line, GaveUp(es, vs, j + 1, k))
    decreases k
  {
    assert Follows(es, vs, k - 1) && Missing(es[k]);
    if j + 1 == k {
      AllocatedHolds(es[j], vs[j]);
    } else {
      assert Missing(es[k - 1]);
      HoldsThroughout(es, vs, j, k - 1);
      LaterGaveUp(es, vs, j + 1, k - 1);
      HoldsStep(es[k - 1], vs[k - 1], es[j].line, GaveUp(es, vs, j + 1, k - 1));
    }
  }

  lemma StartsInvalid(e: Mshr, v: MshrView)
    requires EntryOk(e) && !Missing(e) && Missing(NextMshr(e, v))
    ensures e.phase.Invalid?
  {
  }

  /** Every miss was allocated in some cycle. */
  lemma {:induction false} AllocatedIn(es: seq<Mshr>, vs: seq<MshrView>, k: nat) returns (j: nat)
    requires History(es, vs) && k < |es| && Missing(es[k])
    ensures Handles(es, j, k)
  {
    assert Follows(es, vs, k - 1);
    if Missing(es[k - 1]) {
      j := AllocatedIn(es, vs, k - 1);
    } else {
      StartsInvalid(es[k - 1], vs[k - 1]);
      j := k - 1;
    }
  }

  // ------------------------------------------------------------------ runs of the whole cache

  function Entries(ys: seq<Sys>, m: MshrId): (es: seq<Mshr>)
    ensures |es| == |ys| && forall t: nat :: t < |ys| ==> es[t] == ys[t].s.mshr(m)
  {
    seq(|ys|, t requires 0 <= t < |ys| => ys[t].s.mshr(m))
  }

  function Seen(ys: seq<Sys>, inputs: seq<Input>, m: MshrId): (vs: seq<MshrView>)
    requires |ys| == |inputs| + 1
    ensures |vs| == |inputs| && forall t: nat :: t < |inputs| ==> vs[t] == ViewOf(ys[t].s, inputs[t], m)
  {
    seq(|inputs|, t requires 0 <= t < |inputs| => ViewOf(ys[t].s, inputs[t], m))
  }

  lemma RunHistory(ys: seq<Sys>, inputs: seq<Input>, m: MshrId)
    requires Run(ys, inputs)
    ensures History(Entries(ys, m), Seen(ys, inputs, m))
  {
    var es, vs := Entries(ys, m), Seen(ys, inputs, m);
    forall t: nat | t < |inputs| ensures Follows(es, vs, t) { EntryRun(ys, inputs, m, t); }
    assert es[0] == ys[0].s.mshr(m);
  }

  /**
   A miss that completes has no line if and only if it gave up in VictimRequest, ungranted and with its
   load flushed; it then still has the line that its register held when it was allocated.
   */
  lemma CompleteWithoutLine(ys: seq<Sys>, inputs: seq<Input>, m: MshrId, k: nat) returns (j: nat)
    requires Run(ys, inputs) && k < |ys| && ys[k].s.mshr(m).phase.MissHandlingComplete?
    ensures Handles(Entries(ys, m), j, k)
    ensures !ys[k].s.mshr(m).newValid <==> GaveUp(Entries(ys, m), Seen(ys, inputs, m), j + 1, k)
    ensures !ys[k].s.mshr(m).newValid ==> ys[k].s.mshr(m).line == ys[j].s.mshr(m).line
  {
    var es, vs := Entries(ys, m), Seen(ys, inputs, m);
    RunHistory(ys, inputs, m);
    j := AllocatedIn(es, vs, k);
    HoldsThroughout(es, vs, j, k);
  }

  /**
   Exactly what a bypassing load receives: the flat line, unless the miss whose register it reads gave
   up, and then whatever that register held before the miss.
   */
  lemma BypassExact(ys: seq<Sys>, inputs: seq<Input>, k: nat, a: LineAddr) returns (j: nat)
    requires Run(ys, inputs) && k < |ys| && MshrReadHit(ys[k].s, a)
    ensures Handles(Entries(ys, MshrHitId(ys[k].s, a)), j, k)
    ensures var m := MshrHitId(ys[k].s, a);
            MshrReadData(ys[k].s, a) ==
            if GaveUp(Entries(ys, m), Seen(ys, inputs, m), j + 1, k) then ys[j].s.mshr(m).line else ys[k].flat(a)
  {
    var m := MshrHitId(ys[k].s, a);
    var es, vs := Entries(ys, m), Seen(ys, inputs, m);
    RunHistory(ys, inputs, m);
    RunInv(ys, inputs, k);
    BypassEntry(ys[k].s, a);
    BypassReturnsFlat(ys, inputs, k, a);
    j := AllocatedIn(es, vs, k);
    HoldsThroughout(es, vs, j, k);
  }

  /** Register m handles a miss for this line, and its line is ready: stored bytes are merged in. */
  predicate Ready(e: Mshr, a: LineAddr)
  {
    && Missing(e) && e.newAddr == a
    && (e.phase.MissHandlingComplete? || if e.isAllocatedByStore then e.phase.MissWriteCacheRequest? else e.newValid)
  }

  lemma ReadyIffHeld(e: Mshr, a: LineAddr)
    requires EntryOk(e)
    ensures Ready(e, a) <==> e.valid && e.newAddr == a && e.phase.HoldsFetchedLine()
  {
  }

  /**
   In every run a load is answered from the miss registers exactly when one of them has the line of its address:
   from the cycle after the line arrived, and for a store's miss from the cycle after the merge.
   */
  lemma BypassIffReady(ys: seq<Sys>, inputs: seq<Input>, k: nat, a: LineAddr)
    requires Run(ys, inputs) && k < |ys|
    ensures MshrReadHit(ys[k].s, a) <==> exists m: MshrId :: Ready(ys[k].s.mshr(m), a)
  {
    RunInv(ys, inputs, k);
    var s := ys[k].s;
    forall m: MshrId ensures MshrHoldsFetched(s, a)(m) <==> Ready(s.mshr(m), a) { ReadyIffHeld(s.mshr(m), a); }
    if MshrReadHit(s, a) {
      var m: nat :| m < MSHR_NUM && MshrHoldsFetched(s, a)(m);
      var n: MshrId := m;
      assert Ready(s.mshr(n), a);
    }
  }
}
