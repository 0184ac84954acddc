/** The arbiters of DCache.sv, for any number of requesters and ports. */
module PortArbiter {
  import opened Common

  /** How many requesters below r ask for a port. */
  function Before(req: seq<bool>, r: nat): (n: nat)
    requires r <= |req|
    ensures n <= r
  {
    if r == 0 then 0 else Before(req, r - 1) + (if req[r - 1] then 1 else 0)
  }

  /** Requester r obtains one of `ports` ports. */
  predicate Granted(req: seq<bool>, ports: nat, r: nat)
  {
    r < |req| && req[r] && Before(req, r) < ports
  }

  function HasRank(req: seq<bool>, p: nat): nat -> bool
  {
    (r: nat) => r < |req| && req[r] && Before(req, r) == p
  }

  /** Port p is given to some requester. */
  predicate InGrant(req: seq<bool>, p: nat)
  {
    FirstIndex(HasRank(req, p), |req|) < |req|
  }

  /** The requester that port p is connected to; 0 when the port is not granted. */
  function InSel(req: seq<bool>, p: nat): (r: nat)
    ensures InGrant(req, p) ==> r < |req| && req[r] && Before(req, r) == p
    ensures !InGrant(req, p) ==> r == 0
  {
    var r := FirstIndex(HasRank(req, p), |req|);
    if r < |req| then r else 0
  }

  /** The port that requester r is connected to; 0 when it is not granted. */
  function OutSel(req: seq<bool>, ports: nat, r: nat): (p: nat)
    requires ports > 0
    ensures p < ports
  {
    if Granted(req, ports, r) then Before(req, r) else 0
  }

  lemma {:induction false} BeforeMonotone(req: seq<bool>, r: nat, q: nat)
    requires r < q <= |req|
    ensures Before(req, r) + (if req[r] then 1 else 0) <= Before(req, q)
    decreases q
  {
    if r < q - 1 { BeforeMonotone(req, r, q - 1); }
  }

  /** The two selection maps are mutually inverse on grants. */
  lemma SelectionInverse(req: seq<bool>, ports: nat, r: nat)
    requires ports > 0 && Granted(req, ports, r)
    ensures InGrant(req, OutSel(req, ports, r)) && InSel(req, OutSel(req, ports, r)) == r
  {
    var p := Before(req, r);
    assert HasRank(req, p)(r);
    var q := FirstIndex(HasRank(req, p), |req|);
    assert !(r < q);
    if q < r { BeforeMonotone(req, q, r); }
  }

  lemma GrantedSelection(req: seq<bool>, ports: nat, p: nat)
    requires p < ports && InGrant(req, p)
    ensures Granted(req, ports, InSel(req, p)) && OutSel(req, ports, InSel(req, p)) == p
  {
  }

  /** Grants go to the lowest-numbered requests: whoever is denied sees every port taken below it. */
  lemma LowestFirst(req: seq<bool>, ports: nat, r: nat, q: nat)
    requires r < q && Granted(req, ports, q) && req[r]
    ensures Granted(req, ports, r)
  {
    BeforeMonotone(req, r, q);
  }

  /** How many of the requesters below r are granted. */
  function GrantCount(req: seq<bool>, ports: nat, r: nat): nat
    requires r <= |req|
  {
    if r == 0 then 0 else GrantCount(req, ports, r - 1) + (if Granted(req, ports, r - 1) then 1 else 0)
  }

  /** No port is wasted: the number of grants is the smaller of requests and ports. */
  lemma {:induction false} GrantsExactlyPorts(req: seq<bool>, ports: nat, r: nat)
    requires r <= |req|
    ensures GrantCount(req, ports, r) == if Before(req, r) < ports then Before(req, r) else ports
  {
    if r > 0 { GrantsExactlyPorts(req, ports, r - 1); }
  }

  // ------------------------------------------------------------------ the loops of the source

  lemma {:induction false} BeforeBound(req: seq<bool>, r: nat, p: nat)
    requires r <= |req| && forall q: nat :: q < r && req[q] ==> Before(req, q) < p
    ensures Before(req, r) <= p
  {
    if r > 0 { BeforeBound(req, r - 1, p); }
  }

  lemma NoRank(req: seq<bool>, p: nat)
    requires forall q: nat :: q < |req| && req[q] ==> Before(req, q) < p
    ensures !InGrant(req, p)
  {
  }

  lemma RankFound(req: seq<bool>, p: nat, r: nat)
    requires r < |req| && req[r] && Before(req, r) >= p
    requires forall q: nat :: q < r && req[q] ==> Before(req, q) < p
    ensures Before(req, r) == p && InGrant(req, p) && InSel(req, p) == r
  {
    BeforeBound(req, r, p);
    SelectionInverse(req, p + 1, r);
  }

  /** The arbiter of the array ports: each port in turn takes the first request still waiting. */
  method Arbitrate(requests: seq<bool>, ports: nat)
    returns (grant: seq<bool>, inSel: seq<nat>, inGrant: seq<bool>, outSel: seq<nat>)
    requires ports > 0
    ensures |grant| == |requests| == |outSel| && |inSel| == |inGrant| == ports
    ensures forall r: nat :: r < |requests| ==> grant[r] == Granted(requests, ports, r)
    ensures forall r: nat :: r < |requests| ==> outSel[r] == OutSel(requests, ports, r)
    ensures forall p: nat :: p < ports ==> inGrant[p] == InGrant(requests, p) && inSel[p] == InSel(requests, p)
  {
    var req := requests;
    var n := |requests|;
    grant := seq(n, _ => false);
    outSel := seq(n, _ => 0);
    inSel := seq(ports, _ => 0);
    inGrant := seq(ports, _ => false);
    for p := 0 to ports
      invariant |grant| == |outSel| == |req| == n && |inSel| == |inGrant| == ports
      invariant forall r: nat :: r < n ==> req[r] == (requests[r] && Before(requests, r) >= p)
      invariant forall r: nat :: r < n ==> grant[r] == (requests[r] && Before(requests, r) < p)
      invariant forall r: nat :: r < n ==> outSel[r] == if grant[r] then Before(requests, r) else 0
      invariant forall q: nat :: q < p ==> inGrant[q] == InGrant(requests, q) && inSel[q] == InSel(requests, q)
      invariant forall q: nat :: p <= q < ports ==> !inGrant[q] && inSel[q] == 0
    {
      var r := 0;
      while r < n && !req[r]
        invariant r <= n && forall q: nat :: q < r ==> !req[q]
      {
        r := r + 1;
      }
      if r < n {
        RankFound(requests, p, r);
        req := req[r := false];
        grant := grant[r := true];
        inSel := inSel[p := r];
        outSel := outSel[r := p];
        inGrant := inGrant[p := true];
        forall q: nat | q < n && q != r && requests[q] ensures Before(requests, q) != p
        {
          if q < r { BeforeMonotone(requests, q, r); } else { BeforeMonotone(requests, r, q); }
        }
      } else {
        NoRank(requests, p);
        assert forall q: nat :: q < n && requests[q] ==> Before(requests, q) != p;
      }
    }
  }

  /** The arbiter of the memory port: the first request wins. */
  method ArbitrateMemory(req: seq<bool>) returns (grant: seq<bool>, memInSel: nat, memValid: bool)
    ensures |grant| == |req|
    ensures memValid <==> exists r: nat :: r < |req| && req[r]
    ensures memValid ==> memInSel < |req| && req[memInSel] && forall r: nat :: r < memInSel ==> !req[r]
    ensures forall r: nat :: r < |req| ==> grant[r] == (memValid && r == memInSel)
  {
    grant := seq(|req|, _ => false);
    memInSel, memValid := 0, false;
    for r := 0 to |req|
      invariant |grant| == |req| && memInSel == 0 && !memValid
      invariant forall q: nat :: q < r ==> !req[q]
      invariant forall q: nat :: q < |req| ==> !grant[q]
    {
      if req[r] {
        grant := grant[r := true];
        memInSel := r;
        memValid := true;
        break;
      }
    }
  }
}
