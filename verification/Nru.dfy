/** Not-recently-used replacement of ICache.sv on bit vectors of any width, least significant bit first. */
module Nru {
  import opened Common

  function AllOnes(w: nat): seq<bool> { seq(w, _ => true) }

  /** 1 << way */
  function OneHot(w: nat, way: nat): (s: seq<bool>)
    ensures |s| == w
  {
    seq(w, i => i == way)
  }

  function Or(a: seq<bool>, b: seq<bool>): (s: seq<bool>)
    requires |a| == |b|
    ensures |s| == |a|
  {
    seq(|a|, i requires 0 <= i < |a| => a[i] || b[i])
  }

  function Xor(a: seq<bool>, b: seq<bool>): (s: seq<bool>)
    requires |a| == |b|
    ensures |s| == |a|
  {
    seq(|a|, i requires 0 <= i < |a| => a[i] != b[i])
  }

  function Value(s: seq<bool>): nat
  {
    if s == [] then 0 else (if s[0] then 1 else 0) + 2 * Value(s[1..])
  }

  /** s + 1, cut to the width of s. */
  function Increment(s: seq<bool>): (r: seq<bool>)
    ensures |r| == |s|
  {
    if s == [] then [] else if s[0] then [false] + Increment(s[1..]) else [true] + s[1..]
  }

  lemma {:induction false} IncrementIsPlusOne(s: seq<bool>)
    ensures Value(Increment(s)) == if Value(s) + 1 == Pow2(|s|) then 0 else Value(s) + 1
    ensures Value(s) < Pow2(|s|)
  {
    if s != [] {
      IncrementIsPlusOne(s[1..]);
      assert Increment(s)[1..] == if s[0] then Increment(s[1..]) else s[1..];
    }
  }

  /** The state after an access to way; when every bit would be set only the new one stays. */
  function UpdateNruState(state: seq<bool>, way: nat): (next: seq<bool>)
    ensures |next| == |state|
  {
    var marked := Or(state, OneHot(|state|, way));
    if marked == AllOnes(|state|) then OneHot(|state|, way) else marked
  }

  function DecideWayToEvict(state: seq<bool>): (oneHot: seq<bool>)
    ensures |oneHot| == |state|
  {
    Xor(Or(state, Increment(state)), state)
  }

  function BitAt(s: seq<bool>): nat -> bool { (i: nat) => i < |s| && s[i] }

  function ZeroAt(s: seq<bool>): nat -> bool { (i: nat) => i < |s| && !s[i] }

  /** The way that the fill goes to: the first set bit, way 0 when there is none. */
  function WayToEvict(state: seq<bool>): (way: nat)
    requires |state| > 0
    ensures way < |state|
  {
    var first := FirstIndex(BitAt(DecideWayToEvict(state)), |state|);
    if first < |state| then first else 0
  }

  lemma {:induction false} IncrementBits(s: seq<bool>, i: nat)
    requires i < |s|
    ensures Increment(s)[i] == if i < FirstIndex(ZeroAt(s), |s|) then false
                               else if i == FirstIndex(ZeroAt(s), |s|) then true else s[i]
    decreases |s|
  {
    if s[0] {
      var y := FirstIndex(ZeroAt(s[1..]), |s| - 1);
      if y < |s| - 1 { assert ZeroAt(s)(y + 1); }
      forall j: nat | j < y + 1 ensures !ZeroAt(s)(j) { if j > 0 { assert !ZeroAt(s[1..])(j - 1); } }
      FirstIndexIs(ZeroAt(s), |s|, y + 1);
      if i > 0 { IncrementBits(s[1..], i - 1); }
    } else {
      assert ZeroAt(s)(0);
      FirstIndexIs(ZeroAt(s), |s|, 0);
    }
  }

  /** The evicted way is the lowest one that was not used; with every bit set no way is designated. */
  lemma EvictsLowestZero(state: seq<bool>, i: nat)
    requires i < |state|
    ensures DecideWayToEvict(state)[i] <==> !state[i] && forall j: nat :: j < i ==> state[j]
  {
    IncrementBits(state, i);
    var z := FirstIndex(ZeroAt(state), |state|);
    if !state[i] { assert ZeroAt(state)(i); }
    if i == z { forall j: nat | j < i ensures state[j] { assert !ZeroAt(state)(j); } }
    if z < i { assert ZeroAt(state)(z) && !state[z]; }
  }

  /** Exactly one way is evicted as long as some bit is clear. */
  lemma EvictsExactlyOne(state: seq<bool>)
    requires |state| > 0 && state != AllOnes(|state|)
    ensures DecideWayToEvict(state) == OneHot(|state|, WayToEvict(state)) && !state[WayToEvict(state)]
  {
    var z :| 0 <= z < |state| && !state[z];
    assert ZeroAt(state)(z);
    var f := FirstIndex(ZeroAt(state), |state|);
    assert ZeroAt(state)(f);
    forall j: nat | j < f ensures state[j] { assert !ZeroAt(state)(j); }
    forall i: nat | i < |state| ensures DecideWayToEvict(state)[i] == (i == f)
    {
      EvictsLowestZero(state, i);
    }
    assert BitAt(DecideWayToEvict(state))(f);
    FirstIndexIs(BitAt(DecideWayToEvict(state)), |state|, f);
  }

  /** With more than one way an update never leaves every bit set; with one way it always does. */
  lemma NeverAllOnes(state: seq<bool>, way: nat)
    requires way < |state|
    ensures UpdateNruState(state, way)[way]
    ensures UpdateNruState(state, way) == AllOnes(|state|) <==> |state| == 1
  {
    if |state| > 1 {
      var other := if way == 0 then 1 else 0;
      assert !OneHot(|state|, way)[other];
    } else {
      assert OneHot(1, way)[0] && AllOnes(1)[0];
      assert OneHot(1, way) == AllOnes(1);
    }
  }
}
