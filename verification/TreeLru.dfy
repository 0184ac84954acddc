/** Tree pseudo-LRU of DCache.sv on the flat bit vector of a tree with k levels (2^k ways). */
module TreeLru {
  import opened Common

  /** First bit of a level: the levels above it hold 2^level - 1 bits. */
  function LevelPos(level: nat): nat { Pow2(level) - 1 }

  /** The node of `level` on the path to way: its leading `level` bits. */
  function Prefix(k: nat, way: nat, level: nat): (c: nat)
    requires way < Pow2(k) && level <= k
    ensures c < Pow2(level)
    decreases k - level
  {
    if level == k then way else Prefix(k, way, level + 1) / 2
  }

  /** The way bit that chooses the child below `level` (bit k-1-level of the number). */
  predicate Turn(k: nat, way: nat, level: nat)
    requires way < Pow2(k) && level < k
  {
    Prefix(k, way, level + 1) % 2 == 1
  }

  lemma PrefixStep(k: nat, way: nat, level: nat)
    requires way < Pow2(k) && level < k
    ensures Prefix(k, way, level + 1) == 2 * Prefix(k, way, level) + (if Turn(k, way, level) then 1 else 0)
  {
  }

  lemma NodeInRange(k: nat, level: nat, c: nat)
    requires level < k && c < Pow2(level)
    ensures LevelPos(level) + c < Pow2(k) - 1
    decreases k
  {
    if level < k - 1 { NodeInRange(k - 1, level, c); }
  }

  /** Follows the tree from `level` with prefix c: a set bit leads to child 0. */
  function EvictFrom(k: nat, state: seq<bool>, level: nat, c: nat): (way: nat)
    requires |state| == Pow2(k) - 1 && level <= k && c < Pow2(level)
    ensures way < Pow2(k)
    decreases k - level
  {
    if level == k then c
    else
      NodeInRange(k, level, c);
      EvictFrom(k, state, level + 1, 2 * c + (if state[LevelPos(level) + c] then 0 else 1))
  }

  /** The way that the replacement state designates. */
  function Evicted(k: nat, state: seq<bool>): (way: nat)
    requires |state| == Pow2(k) - 1
    ensures way < Pow2(k)
  {
    EvictFrom(k, state, 0, 0)
  }

  /** The level of a bit position. */
  function LevelOf(k: nat, b: nat): (level: nat)
    requires b < Pow2(k) - 1
    ensures level < k && LevelPos(level) <= b < LevelPos(level + 1)
  {
    if b < Pow2(k - 1) - 1 then LevelOf(k - 1, b) else k - 1
  }

  /** Write enable of bit b when way is recorded: the bit lies on the path to way. */
  predicate Enabled(k: nat, way: nat, b: nat)
    requires way < Pow2(k) && b < Pow2(k) - 1
  {
    b - LevelPos(LevelOf(k, b)) == Prefix(k, way, LevelOf(k, b))
  }

  /** New value of bit b when way is recorded. */
  predicate NewBit(k: nat, way: nat, b: nat)
    requires way < Pow2(k) && b < Pow2(k) - 1
  {
    Turn(k, way, LevelOf(k, b))
  }

  /** The state after way has been recorded as the most recent one. */
  function Touch(k: nat, state: seq<bool>, way: nat): (next: seq<bool>)
    requires |state| == Pow2(k) - 1 && way < Pow2(k)
    ensures |next| == |state|
  {
    seq(Pow2(k) - 1, b requires 0 <= b < Pow2(k) - 1 =>
      if Enabled(k, way, b) then NewBit(k, way, b) else state[b])
  }

  // ------------------------------------------------------------------ protection of a recent way

  /** At `level` the tree leads towards way, from the node on its path. */
  predicate Towards(k: nat, state: seq<bool>, way: nat, level: nat)
    requires |state| == Pow2(k) - 1 && way < Pow2(k) && level < k
  {
    NodeInRange(k, level, Prefix(k, way, level));
    state[LevelPos(level) + Prefix(k, way, level)] != Turn(k, way, level)
  }

  /** How many levels from `level` down lead towards way. */
  function Danger(k: nat, state: seq<bool>, way: nat, level: nat): (d: nat)
    requires |state| == Pow2(k) - 1 && way < Pow2(k) && level <= k
    ensures d <= k - level
    decreases k - level
  {
    if level == k then 0
    else Danger(k, state, way, level + 1) + (if Towards(k, state, way, level) then 1 else 0)
  }

  lemma LevelOfNode(k: nat, level: nat, c: nat)
    requires level < k && c < Pow2(level)
    ensures LevelPos(level) + c < Pow2(k) - 1 && LevelOf(k, LevelPos(level) + c) == level
    decreases k
  {
    NodeInRange(k, level, c);
    if level < k - 1 { LevelOfNode(k - 1, level, c); }
    else { assert Pow2(k) == 2 * Pow2(k - 1); }
  }

  /** A way is designated exactly when every level leads towards it. */
  lemma {:induction false} EvictedIffAllTowards(k: nat, state: seq<bool>, way: nat, level: nat)
    requires |state| == Pow2(k) - 1 && way < Pow2(k) && level <= k
    ensures Danger(k, state, way, level) == k - level <==> EvictFrom(k, state, level, Prefix(k, way, level)) == way
    decreases k - level
  {
    if level < k {
      var c := Prefix(k, way, level);
      NodeInRange(k, level, c);
      PrefixStep(k, way, level);
      if Towards(k, state, way, level) { EvictedIffAllTowards(k, state, way, level + 1); }
      else {
        var d := 2 * c + (if state[LevelPos(level) + c] then 0 else 1);
        EvictFromPrefix(k, state, level + 1, d);
        assert d != Prefix(k, way, level + 1);
      }
    }
  }

  /** The designated way lies below the node that the search starts from. */
  lemma {:induction false} EvictFromPrefix(k: nat, state: seq<bool>, level: nat, c: nat)
    requires |state| == Pow2(k) - 1 && level <= k && c < Pow2(level)
    ensures Prefix(k, EvictFrom(k, state, level, c), level) == c
    decreases k - level
  {
    if level < k {
      NodeInRange(k, level, c);
      EvictFromPrefix(k, state, level + 1, 2 * c + (if state[LevelPos(level) + c] then 0 else 1));
    }
  }

  lemma TouchedBit(k: nat, state: seq<bool>, way: nat, level: nat, c: nat)
    requires |state| == Pow2(k) - 1 && way < Pow2(k) && level < k && c < Pow2(level)
    ensures LevelPos(level) + c < |state|
    ensures Touch(k, state, way)[LevelPos(level) + c] ==
            if c == Prefix(k, way, level) then Turn(k, way, level) else state[LevelPos(level) + c]
  {
    LevelOfNode(k, level, c);
  }

  /** Recording a way turns every level on its path away from it. */
  lemma {:induction false} TouchProtects(k: nat, state: seq<bool>, way: nat, level: nat)
    requires |state| == Pow2(k) - 1 && way < Pow2(k) && level <= k
    ensures Danger(k, Touch(k, state, way), way, level) == 0
    decreases k - level
  {
    if level < k {
      TouchedBit(k, state, way, level, Prefix(k, way, level));
      TouchProtects(k, state, way, level + 1);
    }
  }

  lemma {:induction false} DangerBelowFork(k: nat, state: seq<bool>, other: nat, way: nat, level: nat)
    requires |state| == Pow2(k) - 1 && way < Pow2(k) && other < Pow2(k) && level <= k
    requires Prefix(k, other, level) != Prefix(k, way, level)
    ensures Danger(k, Touch(k, state, other), way, level) == Danger(k, state, way, level)
    decreases k - level
  {
    if level < k {
      TouchedBit(k, state, other, level, Prefix(k, way, level));
      DangerBelowFork(k, state, other, way, level + 1);
    }
  }

  lemma SharedTurn(k: nat, state: seq<bool>, other: nat, way: nat, level: nat)
    requires |state| == Pow2(k) - 1 && way < Pow2(k) && other < Pow2(k) && level < k
    requires Prefix(k, other, level + 1) == Prefix(k, way, level + 1)
    ensures !Towards(k, Touch(k, state, other), way, level)
  {
    TouchedBit(k, state, other, level, Prefix(k, way, level));
  }

  /** Recording any way brings another one at most one level closer to eviction. */
  lemma {:induction false} DangerGrowsByOne(k: nat, state: seq<bool>, other: nat, way: nat, level: nat)
    requires |state| == Pow2(k) - 1 && way < Pow2(k) && other < Pow2(k) && level <= k
    ensures Danger(k, Touch(k, state, other), way, level) <= Danger(k, state, way, level) + 1
    decreases k - level
  {
    if level < k {
      if Prefix(k, other, level + 1) == Prefix(k, way, level + 1) {
        DangerGrowsByOne(k, state, other, way, level + 1);
        SharedTurn(k, state, other, way, level);
      } else {
        DangerBelowFork(k, state, other, way, level + 1);
      }
    }
  }

  /** Without danger no level leads towards the way. */
  lemma {:induction false} NoDangerAt(k: nat, state: seq<bool>, way: nat, from: nat, level: nat)
    requires |state| == Pow2(k) - 1 && way < Pow2(k) && from <= level < k
    requires Danger(k, state, way, from) == 0
    ensures !Towards(k, state, way, level)
    decreases k - from
  {
    if from < level { NoDangerAt(k, state, way, from + 1, level); }
  }

  predicate Ways(k: nat, ways: seq<nat>) { forall i :: 0 <= i < |ways| ==> ways[i] < Pow2(k) }

  function TouchAll(k: nat, state: seq<bool>, ways: seq<nat>): (next: seq<bool>)
    requires |state| == Pow2(k) - 1 && Ways(k, ways)
    ensures |next| == |state|
  {
    if ways == [] then state
    else Touch(k, TouchAll(k, state, ways[..|ways| - 1]), ways[|ways| - 1])
  }

  lemma {:induction false} DangerAfter(k: nat, state: seq<bool>, ways: seq<nat>, way: nat)
    requires |state| == Pow2(k) - 1 && Ways(k, ways) && way < Pow2(k)
    ensures Danger(k, TouchAll(k, state, ways), way, 0) <= Danger(k, state, way, 0) + |ways|
  {
    if ways != [] {
      var last := |ways| - 1;
      DangerAfter(k, state, ways[..last], way);
      DangerGrowsByOne(k, TouchAll(k, state, ways[..last]), ways[last], way, 0);
    }
  }

  /** After a way is recorded, fewer than k further records can never make it the evicted way. */
  lemma RecentWaySurvives(k: nat, state: seq<bool>, way: nat, ways: seq<nat>)
    requires |state| == Pow2(k) - 1 && way < Pow2(k) && Ways(k, ways) && |ways| < k
    ensures Evicted(k, TouchAll(k, Touch(k, state, way), ways)) != way
  {
    TouchProtects(k, state, way, 0);
    DangerAfter(k, Touch(k, state, way), ways, way);
    EvictedIffAllTowards(k, TouchAll(k, Touch(k, state, way), ways), way, 0);
  }

  /** A way that leaves the path to way at this level. */
  lemma Leaves(k: nat, state: seq<bool>, way: nat, level: nat) returns (other: nat)
    requires |state| == Pow2(k) - 1 && way < Pow2(k) && level < k
    ensures other < Pow2(k) && Prefix(k, other, level) == Prefix(k, way, level)
    ensures Prefix(k, other, level + 1) != Prefix(k, way, level + 1) && Turn(k, other, level) != Turn(k, way, level)
  {
    var d := 2 * Prefix(k, way, level) + (if Turn(k, way, level) then 0 else 1);
    other := EvictFrom(k, state, level + 1, d);
    EvictFromPrefix(k, state, level + 1, d);
    PrefixStep(k, other, level);
  }

  /** Some other way turns one level of the path towards way and leaves the deeper levels alone. */
  lemma TurnedTowards(k: nat, state: seq<bool>, way: nat, level: nat) returns (other: nat)
    requires |state| == Pow2(k) - 1 && way < Pow2(k) && level < k
    ensures other < Pow2(k)
    ensures Danger(k, Touch(k, state, other), way, level) == Danger(k, state, way, level + 1) + 1
  {
    other := Leaves(k, state, way, level);
    TouchedBit(k, state, other, level, Prefix(k, way, level));
    DangerBelowFork(k, state, other, way, level + 1);
  }

  lemma TouchOneMore(k: nat, state: seq<bool>, ways: seq<nat>, other: nat)
    requires |state| == Pow2(k) - 1 && Ways(k, ways) && other < Pow2(k)
    ensures Ways(k, ways + [other])
    ensures TouchAll(k, state, ways + [other]) == Touch(k, TouchAll(k, state, ways), other)
  {
    assert (ways + [other])[..|ways|] == ways;
  }

  lemma {:induction false} Surrounded(k: nat, state: seq<bool>, way: nat, level: nat) returns (ways: seq<nat>)
    requires |state| == Pow2(k) - 1 && way < Pow2(k) && level <= k
    ensures Ways(k, ways) && |ways| == k - level
    ensures Danger(k, TouchAll(k, state, ways), way, level) == k - level
    decreases k - level
  {
    if level == k { ways := []; }
    else {
      var deeper := Surrounded(k, state, way, level + 1);
      var other := TurnedTowards(k, TouchAll(k, state, deeper), way, level);
      TouchOneMore(k, state, deeper, other);
      ways := deeper + [other];
    }
  }

  /** The bound is tight: k well-chosen records make the way the evicted one. */
  lemma RecentWayEvictable(k: nat, state: seq<bool>, way: nat) returns (ways: seq<nat>)
    requires |state| == Pow2(k) - 1 && way < Pow2(k)
    ensures Ways(k, ways) && |ways| == k && Evicted(k, TouchAll(k, Touch(k, state, way), ways)) == way
  {
    ways := Surrounded(k, Touch(k, state, way), way, 0);
    EvictedIffAllTowards(k, TouchAll(k, Touch(k, state, way), ways), way, 0);
  }

  // ------------------------------------------------------------------ every way gets its turn

  datatype Tree = Leaf(way: nat) | Node(bit: bool, left: Tree, right: Tree)

  /** The tree below node c of `level` in the flat vector. */
  function TreeAt(k: nat, state: seq<bool>, level: nat, c: nat): Tree
    requires |state| == Pow2(k) - 1 && level <= k && c < Pow2(level)
    decreases k - level
  {
    if level == k then Leaf(c)
    else
      NodeInRange(k, level, c);
      Node(state[LevelPos(level) + c], TreeAt(k, state, level + 1, 2 * c), TreeAt(k, state, level + 1, 2 * c + 1))
  }

  function Designated(t: Tree): nat
  {
    match t
    case Leaf(w) => w
    case Node(bit, l, r) => if bit then Designated(l) else Designated(r)
  }

  /** The tree after its designated way has been evicted and recorded: every bit on the path flips. */
  function Renewed(t: Tree): Tree
  {
    match t
    case Leaf(w) => t
    case Node(bit, l, r) => if bit then Node(false, Renewed(l), r) else Node(true, l, Renewed(r))
  }

  lemma {:induction false} DesignatedEvicted(k: nat, state: seq<bool>, level: nat, c: nat)
    requires |state| == Pow2(k) - 1 && level <= k && c < Pow2(level)
    ensures Designated(TreeAt(k, state, level, c)) == EvictFrom(k, state, level, c)
    decreases k - level
  {
    if level < k {
      NodeInRange(k, level, c);
      DesignatedEvicted(k, state, level + 1, 2 * c + (if state[LevelPos(level) + c] then 0 else 1));
    }
  }

  lemma {:induction false} UntouchedTree(k: nat, state: seq<bool>, way: nat, level: nat, c: nat)
    requires |state| == Pow2(k) - 1 && level <= k && c < Pow2(level) && way < Pow2(k)
    requires Prefix(k, way, level) != c
    ensures TreeAt(k, Touch(k, state, way), level, c) == TreeAt(k, state, level, c)
    decreases k - level
  {
    if level < k {
      TouchedBit(k, state, way, level, c);
      UntouchedTree(k, state, way, level + 1, 2 * c);
      UntouchedTree(k, state, way, level + 1, 2 * c + 1);
    }
  }

  /** The child of node c that the search takes, and the other one. */
  function Taken(k: nat, state: seq<bool>, level: nat, c: nat): (d: nat)
    requires |state| == Pow2(k) - 1 && level < k && c < Pow2(level)
    ensures d < Pow2(level + 1)
  {
    NodeInRange(k, level, c);
    2 * c + (if state[LevelPos(level) + c] then 0 else 1)
  }

  lemma TakenPath(k: nat, state: seq<bool>, level: nat, c: nat)
    requires |state| == Pow2(k) - 1 && level < k && c < Pow2(level)
    ensures var w := EvictFrom(k, state, level, c);
            && w == EvictFrom(k, state, level + 1, Taken(k, state, level, c))
            && Prefix(k, w, level + 1) == Taken(k, state, level, c) && Prefix(k, w, level) == c
            && LevelPos(level) + c < |state|
            && Touch(k, state, w)[LevelPos(level) + c] != state[LevelPos(level) + c]
  {
    NodeInRange(k, level, c);
    EvictFromPrefix(k, state, level, c);
    EvictFromPrefix(k, state, level + 1, Taken(k, state, level, c));
    TouchedBit(k, state, EvictFrom(k, state, level, c), level, c);
  }

  /** The child of node c that the search leaves aside. */
  function Spared(k: nat, state: seq<bool>, level: nat, c: nat): (d: nat)
    requires |state| == Pow2(k) - 1 && level < k && c < Pow2(level)
    ensures d < Pow2(level + 1)
  {
    NodeInRange(k, level, c);
    2 * c + (if state[LevelPos(level) + c] then 1 else 0)
  }

  /** A node is renewed when its bit is flipped, the child it led to is renewed and the other one is kept. */
  lemma NodeRenews(k: nat, state: seq<bool>, next: seq<bool>, level: nat, c: nat)
    requires |state| == |next| == Pow2(k) - 1 && level < k && c < Pow2(level)
    requires LevelPos(level) + c < |state| && next[LevelPos(level) + c] != state[LevelPos(level) + c]
    requires var d := Taken(k, state, level, c);
             TreeAt(k, next, level + 1, d) == Renewed(TreeAt(k, state, level + 1, d))
    requires var d := Spared(k, state, level, c); TreeAt(k, next, level + 1, d) == TreeAt(k, state, level + 1, d)
    ensures TreeAt(k, next, level, c) == Renewed(TreeAt(k, state, level, c))
  {
  }

  /** Recording the evicted way in the flat vector renews the tree. */
  lemma {:induction false} TouchRenews(k: nat, state: seq<bool>, level: nat, c: nat)
    requires |state| == Pow2(k) - 1 && level <= k && c < Pow2(level)
    ensures var w := EvictFrom(k, state, level, c);
            TreeAt(k, Touch(k, state, w), level, c) == Renewed(TreeAt(k, state, level, c))
    decreases k - level
  {
    if level < k {
      var w := EvictFrom(k, state, level, c);
      TakenPath(k, state, level, c);
      TouchRenews(k, state, level + 1, Taken(k, state, level, c));
      UntouchedTree(k, state, w, level + 1, Spared(k, state, level, c));
      NodeRenews(k, state, Touch(k, state, w), level, c);
    }
  }

  /** How often the first n renewals of a tree evict way. */
  function Turns(t: Tree, n: nat, way: nat): nat
    decreases n
  {
    if n == 0 then 0 else (if Designated(t) == way then 1 else 0) + Turns(Renewed(t), n - 1, way)
  }

  /** The renewals of a node alternate between its children. */
  lemma {:induction false} TurnsAlternate(t: Tree, n: nat, way: nat)
    requires t.Node?
    ensures var (l, r) := if t.bit then ((n + 1) / 2, n / 2) else (n / 2, (n + 1) / 2);
            Turns(t, n, way) == Turns(t.left, l, way) + Turns(t.right, r, way)
    decreases n
  {
    if n > 0 { TurnsAlternate(Renewed(t), n - 1, way); }
  }

  function Occurs(t: Tree, way: nat): nat
  {
    match t
    case Leaf(w) => if w == way then 1 else 0
    case Node(_, l, r) => Occurs(l, way) + Occurs(r, way)
  }

  predicate Perfect(t: Tree, height: nat)
  {
    match t
    case Leaf(_) => height == 0
    case Node(_, l, r) => height > 0 && Perfect(l, height - 1) && Perfect(r, height - 1)
  }

  lemma {:induction false} TurnsOfPerfect(t: Tree, height: nat, way: nat)
    requires Perfect(t, height)
    ensures Turns(t, Pow2(height), way) == Occurs(t, way)
    decreases height
  {
    if t.Leaf? {
      assert Turns(t, 1, way) == (if t.way == way then 1 else 0) + Turns(t, 0, way);
    } else {
      TurnsAlternate(t, Pow2(height), way);
      TurnsOfPerfect(t.left, height - 1, way);
      TurnsOfPerfect(t.right, height - 1, way);
    }
  }

  lemma {:induction false} LeavesOfTree(k: nat, state: seq<bool>, level: nat, c: nat, way: nat)
    requires |state| == Pow2(k) - 1 && level <= k && c < Pow2(level) && way < Pow2(k)
    ensures Perfect(TreeAt(k, state, level, c), k - level)
    ensures Occurs(TreeAt(k, state, level, c), way) == if Prefix(k, way, level) == c then 1 else 0
    decreases k - level
  {
    if level < k {
      LeavesOfTree(k, state, level + 1, 2 * c, way);
      LeavesOfTree(k, state, level + 1, 2 * c + 1, way);
    }
  }

  /** How often way is evicted in n consecutive evict-then-record steps. */
  function Evictions(k: nat, state: seq<bool>, n: nat, way: nat): nat
    requires |state| == Pow2(k) - 1
    decreases n
  {
    if n == 0 then 0
    else (if Evicted(k, state) == way then 1 else 0) + Evictions(k, Touch(k, state, Evicted(k, state)), n - 1, way)
  }

  lemma {:induction false} EvictionsAreTurns(k: nat, state: seq<bool>, n: nat, way: nat)
    requires |state| == Pow2(k) - 1
    ensures Evictions(k, state, n, way) == Turns(TreeAt(k, state, 0, 0), n, way)
    decreases n
  {
    if n > 0 {
      DesignatedEvicted(k, state, 0, 0);
      TouchRenews(k, state, 0, 0);
      EvictionsAreTurns(k, Touch(k, state, Evicted(k, state)), n - 1, way);
    }
  }

  /** From any state, as many evict-then-record steps as there are ways evict every way exactly once. */
  lemma EveryWayOnce(k: nat, state: seq<bool>, way: nat)
    requires |state| == Pow2(k) - 1 && way < Pow2(k)
    ensures Evictions(k, state, Pow2(k), way) == 1
  {
    EvictionsAreTurns(k, state, Pow2(k), way);
    LeavesOfTree(k, state, 0, 0, way);
    TurnsOfPerfect(TreeAt(k, state, 0, 0), k, way);
  }

  // ------------------------------------------------------------------ the loops of the source

  /** way >> n */
  function ShiftRight(way: nat, n: nat): nat
  {
    if n == 0 then way else ShiftRight(way, n - 1) / 2
  }

  /** Bit i of a way number. */
  predicate WayBit(way: nat, i: nat) { ShiftRight(way, i) % 2 == 1 }

  lemma {:induction false} PrefixIsShift(k: nat, way: nat, level: nat)
    requires way < Pow2(k) && level <= k
    ensures Prefix(k, way, level) == ShiftRight(way, k - level)
    decreases k - level
  {
    if level < k { PrefixIsShift(k, way, level + 1); }
  }

  lemma TurnIsBit(k: nat, way: nat, level: nat)
    requires way < Pow2(k) && level < k
    ensures Turn(k, way, level) == WayBit(way, k - 1 - level)
  {
    PrefixIsShift(k, way, level + 1);
  }

  lemma LevelRange(k: nat, level: nat, b: nat)
    requires level < k && LevelPos(level) <= b < LevelPos(level + 1)
    ensures b < Pow2(k) - 1 && LevelOf(k, b) == level
  {
    LevelOfNode(k, level, b - LevelPos(level));
  }

  lemma LevelEnd(k: nat, level: nat)
    requires level < k
    ensures LevelPos(level + 1) <= Pow2(k) - 1
  {
    NodeInRange(k, level, Pow2(level) - 1);
  }

  method CalcEvictedWay(k: nat, state: seq<bool>) returns (evicted: nat)
    requires |state| == Pow2(k) - 1
    ensures evicted == Evicted(k, state)
  {
    evicted := 0;
    var pos := 0;
    for i := 0 to k
      invariant evicted < Pow2(i) && pos == LevelPos(i)
      invariant EvictFrom(k, state, i, evicted) == Evicted(k, state)
    {
      NodeInRange(k, i, evicted);
      evicted := 2 * evicted + (if state[pos + evicted] then 0 else 1);
      pos := pos + Pow2(i);
    }
  }

  method CalcUpdatedState(k: nat, way: nat) returns (next: seq<bool>)
    requires way < Pow2(k)
    ensures |next| == Pow2(k) - 1
    ensures forall b :: 0 <= b < Pow2(k) - 1 ==> next[b] == NewBit(k, way, b)
  {
    next := seq(Pow2(k) - 1, _ => false);
    var pos := 0;
    for i := 0 to k
      invariant |next| == Pow2(k) - 1 && pos == LevelPos(i) <= |next|
      invariant forall b :: 0 <= b < pos ==> next[b] == NewBit(k, way, b)
    {
      for j := 0 to Pow2(i)
        invariant |next| == Pow2(k) - 1 && pos + j <= |next|
        invariant forall b :: 0 <= b < pos + j ==> next[b] == NewBit(k, way, b)
      {
        LevelOfNode(k, i, j);
        TurnIsBit(k, way, i);
        next := next[pos + j := WayBit(way, k - 1 - i)];
      }
      pos := pos + Pow2(i);
    }
  }

  method CalcWriteEnable(k: nat, weIn: bool, way: nat) returns (we: seq<bool>)
    requires way < Pow2(k)
    ensures |we| == Pow2(k) - 1
    ensures forall b :: 0 <= b < Pow2(k) - 1 ==> we[b] == (weIn && Enabled(k, way, b))
  {
    var pos, c := 0, 0;
    we := seq(Pow2(k) - 1, _ => false);
    for i := 0 to k
      invariant |we| == Pow2(k) - 1 && pos == LevelPos(i) <= |we|
      invariant c == Prefix(k, way, i)
      invariant forall b :: 0 <= b < pos ==> we[b] == (weIn && Enabled(k, way, b))
      invariant forall b :: pos <= b < |we| ==> !we[b]
    {
      LevelEnd(k, i);
      forall b | pos <= b < LevelPos(i + 1) ensures LevelOf(k, b) == i { LevelRange(k, i, b); }
      we := we[pos + c := weIn];
      TurnIsBit(k, way, i);
      PrefixStep(k, way, i);
      c := 2 * c + (if WayBit(way, k - 1 - i) then 1 else 0);
      pos := pos + Pow2(i);
    }
  }

  /** Records a way in the replacement array: one RAM per bit, each with its own write enable. */
  method Record(k: nat, state: array<bool>, way: nat)
    requires state.Length == Pow2(k) - 1 && way < Pow2(k)
    modifies state
    ensures state[..] == Touch(k, old(state[..]), way)
  {
    var next := CalcUpdatedState(k, way);
    var we := CalcWriteEnable(k, true, way);
    for b := 0 to state.Length
      invariant forall j :: 0 <= j < b ==> state[j] == if Enabled(k, way, j) then NewBit(k, way, j) else old(state[j])
      invariant forall j :: b <= j < state.Length ==> state[j] == old(state[j])
    {
      if we[b] { state[b] := next[b]; }
    }
  }
}
