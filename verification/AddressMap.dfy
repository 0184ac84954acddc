/**
 The address slices of DCache.sv on bit vectors of any width (least significant bit first):
 byte offset, line index, tag. The pair (index, tag) is what LineAddr stands for.
 */
module AddressMap {
  import opened Common

  const OFFSET_WIDTH: nat
  const INDEX_WIDTH: nat
  const TAG_WIDTH: nat

  type FullAddr = a: seq<bool> | |a| == OFFSET_WIDTH + INDEX_WIDTH + TAG_WIDTH
    witness seq(OFFSET_WIDTH + INDEX_WIDTH + TAG_WIDTH, _ => false)
  type IndexBits = i: seq<bool> | |i| == INDEX_WIDTH witness seq(INDEX_WIDTH, _ => false)
  type TagBits = t: seq<bool> | |t| == TAG_WIDTH witness seq(TAG_WIDTH, _ => false)

  function Zeros(n: nat): seq<bool> { seq(n, _ => false) }

  function ToIndexPart(a: FullAddr): IndexBits { a[OFFSET_WIDTH..OFFSET_WIDTH + INDEX_WIDTH] }

  function ToTagPart(a: FullAddr): TagBits { a[OFFSET_WIDTH + INDEX_WIDTH..] }

  function ToLineAddr(a: FullAddr): FullAddr { Zeros(OFFSET_WIDTH) + a[OFFSET_WIDTH..] }

  function BuildFullAddr(index: IndexBits, tag: TagBits): FullAddr { Zeros(OFFSET_WIDTH) + index + tag }

  /** Rebuilding an address from its slices gives its line address, and slicing undoes building. */
  lemma SlicesRoundTrip(a: FullAddr, index: IndexBits, tag: TagBits)
    ensures BuildFullAddr(ToIndexPart(a), ToTagPart(a)) == ToLineAddr(a)
    ensures ToIndexPart(BuildFullAddr(index, tag)) == index && ToTagPart(BuildFullAddr(index, tag)) == tag
  {
    assert a[OFFSET_WIDTH..] == ToIndexPart(a) + ToTagPart(a);
    assert (Zeros(OFFSET_WIDTH) + index) + tag == Zeros(OFFSET_WIDTH) + (index + tag);
  }

  /** Two addresses lie in the same line exactly when their index and tag agree. */
  lemma SameLine(a: FullAddr, b: FullAddr)
    ensures ToLineAddr(a) == ToLineAddr(b) <==> ToIndexPart(a) == ToIndexPart(b) && ToTagPart(a) == ToTagPart(b)
  {
    SlicesRoundTrip(a, ToIndexPart(a), ToTagPart(a));
    SlicesRoundTrip(b, ToIndexPart(b), ToTagPart(b));
    if ToLineAddr(a) == ToLineAddr(b) {
      assert ToLineAddr(a)[OFFSET_WIDTH..] == a[OFFSET_WIDTH..];
      assert ToLineAddr(b)[OFFSET_WIDTH..] == b[OFFSET_WIDTH..];
      assert ToIndexPart(a) == a[OFFSET_WIDTH..][..INDEX_WIDTH] && ToTagPart(a) == a[OFFSET_WIDTH..][INDEX_WIDTH..];
      assert ToIndexPart(b) == b[OFFSET_WIDTH..][..INDEX_WIDTH] && ToTagPart(b) == b[OFFSET_WIDTH..][INDEX_WIDTH..];
    }
  }
}
