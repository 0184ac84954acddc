/** Arithmetic and search helpers shared by every model. */
module Common {

  datatype Option<+T> = None | Some(value: T)

  type Positive = n: nat | n > 0 witness 1

  /** 2^n. */
  function Pow2(n: nat): (r: nat)
    ensures r > 0
  {
    if n == 0 then 1 else 2 * Pow2(n - 1)
  }

  /** The least index below n that satisfies f, or n: a loop with a `break`. */
  function FirstIndex(f: nat -> bool, n: nat): (r: nat)
    ensures r <= n
    ensures r < n ==> f(r)
    ensures forall j: nat :: j < r ==> !f(j)
  {
    if n == 0 then 0
    else
      var r := FirstIndex(f, n - 1);
      if r < n - 1 then r else if f(n - 1) then n - 1 else n
  }

  lemma FirstIndexIs(f: nat -> bool, n: nat, r: nat)
    requires r <= n && (r < n ==> f(r)) && forall j: nat :: j < r ==> !f(j)
    ensures FirstIndex(f, n) == r
  {
  }

  /** Whether some index below n satisfies f. */
  predicate AnyIndex(f: nat -> bool, n: nat)
    ensures AnyIndex(f, n) <==> exists j: nat :: j < n && f(j)
  {
    n > 0 && (f(n - 1) || AnyIndex(f, n - 1))
  }

  /** The greatest index below n that satisfies f, or 0: a loop whose last assignment wins. */
  function LastIndex(f: nat -> bool, n: nat): (r: nat)
    ensures AnyIndex(f, n) ==> r < n && f(r)
    ensures AnyIndex(f, n) ==> forall j: nat :: r < j < n ==> !f(j)
    ensures !AnyIndex(f, n) ==> r == 0
  {
    if n == 0 then 0 else if f(n - 1) then n - 1 else LastIndex(f, n - 1)
  }

  /** How many indices from j below k satisfy f. */
  function Count(f: nat -> bool, j: nat, k: nat): nat
    requires j <= k
    decreases k
  {
    if j == k then 0 else Count(f, j, k - 1) + (if f(k - 1) then 1 else 0)
  }

  /** In cycle t the rank drops by at least one, or the cycle is a wait and the rank does not grow. */
  predicate Drops(rank: nat -> nat, waits: nat -> bool, t: nat)
  {
    rank(t + 1) + 1 <= rank(t) + if waits(t) then 1 else 0
  }

  /** A rank that drops in every cycle that is not a wait bounds the number of cycles. */
  lemma {:induction false} RankBound(rank: nat -> nat, waits: nat -> bool, j: nat, k: nat)
    requires j <= k && forall t: nat :: j <= t < k ==> Drops(rank, waits, t)
    ensures k - j + rank(k) <= rank(j) + Count(waits, j, k)
    decreases k
  {
    if j < k {
      RankBound(rank, waits, j, k - 1);
      assert Drops(rank, waits, k - 1);
    }
  }

  lemma SmallMod(x: nat, m: nat)
    requires x < m
    ensures x % m == x
  {
  }
}
