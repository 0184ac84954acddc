/**
 The registers of DCacheMissHandler and their clock edge.
 */
module DCacheMissHandlerUnit {
  import opened CacheTypes
  import opened DCacheModel
  import opened DCacheMissEntry

  ghost predicate Becomes(s: DCacheState, inp: Input, next: MshrId -> Mshr, m: MshrId)
  {
    next(m) == NextMshr(s.mshr(m), ViewOf(s, inp, m))
  }

  method LatchOne(e: Mshr, s: DCacheState, inp: Input, m: MshrId, ghost next: MshrId -> Mshr) returns (n: Mshr)
    requires e == s.mshr(m) && Becomes(s, inp, next, m)
    ensures n == next(m)
  {
    n := NextEntry(e, ViewOf(s, inp, m));
  }

  class DCacheMissHandler {
    const mshr: array<Mshr>

    ghost predicate Holds(s: DCacheState)
      reads mshr
    {
      mshr.Length == MSHR_NUM && forall m: MshrId :: mshr[m] == s.mshr(m)
    }

    /** The clock edge, given the values that the entries are to take. */
    method Latch(s: DCacheState, inp: Input, ghost next: MshrId -> Mshr)
      requires Holds(s) && forall m: MshrId :: Becomes(s, inp, next, m)
      modifies mshr
      ensures forall m: MshrId :: mshr[m] == next(m)
    {
      for i := 0 to MSHR_NUM
        invariant forall m: MshrId :: mshr[m] == if m < i then next(m) else s.mshr(m)
      {
        var n := LatchOne(mshr[i], s, inp, i, next);
        mshr[i] := n;
      }
    }

    method Clock(s: DCacheState, inp: Input)
      requires Holds(s)
      modifies mshr
      ensures Holds(Next(s, inp))
    {
      Latch(s, inp, Next(s, inp).mshr);
    }
  }
}
