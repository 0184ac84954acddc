/** How RSD_Parser.py rebuilds unbounded op ids from serials that wrap around. */
module TraceIds {
  import opened Common

  const OP_SERIAL_WIDTH: nat := 10
  const MAX_MICRO_OPS_PER_INSN: nat := 4
  const SERIALS: nat := 1024
  const GID_WRAP_AROUND: nat := SERIALS * MAX_MICRO_OPS_PER_INSN
  const QUARTER: nat := GID_WRAP_AROUND / 4

  /** The gid of a micro-op from its wrapped serial; None when mid is out of range. */
  function CreateGid(maxRetired: int, iid: nat, mid: nat): Option<int>
  {
    if mid >= MAX_MICRO_OPS_PER_INSN then None
    else
      var g := mid + iid * MAX_MICRO_OPS_PER_INSN;
      var r := maxRetired % GID_WRAP_AROUND;
      var n := maxRetired - r;
      var up := if r > QUARTER * 3 && g < QUARTER then n + GID_WRAP_AROUND else n;
      var down := if g > QUARTER * 3 && r < QUARTER then up - GID_WRAP_AROUND else up;
      Some(down + g)
  }

  /** What the hardware dumps of the micro-op with this true id. */
  function Serial(gid: nat): (iid: nat)
    ensures iid < SERIALS
  {
    gid / MAX_MICRO_OPS_PER_INSN % SERIALS
  }

  function MicroOp(gid: nat): (mid: nat)
    ensures mid < MAX_MICRO_OPS_PER_INSN
  {
    gid % MAX_MICRO_OPS_PER_INSN
  }

  lemma Remainder(x: nat, h: nat, r: nat)
    requires x == GID_WRAP_AROUND * h + r && r < GID_WRAP_AROUND
    ensures x % GID_WRAP_AROUND == r
  {
  }

  lemma WrappedGid(gid: nat)
    ensures MicroOp(gid) + Serial(gid) * MAX_MICRO_OPS_PER_INSN == gid % GID_WRAP_AROUND
  {
    var insn := gid / MAX_MICRO_OPS_PER_INSN;
    var h := insn / SERIALS;
    assert insn == SERIALS * h + Serial(gid);
    assert gid == MAX_MICRO_OPS_PER_INSN * insn + MicroOp(gid);
    Remainder(gid, h, MicroOp(gid) + Serial(gid) * MAX_MICRO_OPS_PER_INSN);
  }

  function Distance(a: int, b: int): nat { if a < b then b - a else a - b }

  /** The true id comes back when it is less than a quarter of the range from the newest retired one. */
  lemma CreateGidRecovers(maxRetired: nat, gid: nat)
    requires Distance(maxRetired, gid) < QUARTER
    ensures CreateGid(maxRetired, Serial(gid), MicroOp(gid)) == Some(gid)
  {
    WrappedGid(gid);
    var g, r := gid % GID_WRAP_AROUND, maxRetired % GID_WRAP_AROUND;
    var a, b := gid / GID_WRAP_AROUND, maxRetired / GID_WRAP_AROUND;
    assert gid == a * GID_WRAP_AROUND + g && maxRetired == b * GID_WRAP_AROUND + r;
    assert a == b || a == b + 1 || a + 1 == b;
  }

  ghost predicate RecoversWithin(d: nat)
  {
    forall maxRetired: nat, gid: nat :: Distance(maxRetired, gid) < d ==>
      CreateGid(maxRetired, Serial(gid), MicroOp(gid)) == Some(gid)
  }

  /** At exactly a quarter of the range the id can come back wrong. */
  lemma QuarterFails()
    ensures Distance(3 * QUARTER, GID_WRAP_AROUND) == QUARTER
    ensures CreateGid(3 * QUARTER, Serial(GID_WRAP_AROUND), MicroOp(GID_WRAP_AROUND)) == Some(0)
  {
  }

  /** The bound is tight: ids closer than d always come back if and only if d is at most a quarter of the range. */
  lemma QuarterIsTight(d: nat)
    ensures RecoversWithin(d) <==> d <= QUARTER
  {
    if d <= QUARTER {
      forall maxRetired: nat, gid: nat | Distance(maxRetired, gid) < d
        ensures CreateGid(maxRetired, Serial(gid), MicroOp(gid)) == Some(gid)
      {
        CreateGidRecovers(maxRetired, gid);
      }
    } else {
      QuarterFails();
    }
  }
}
