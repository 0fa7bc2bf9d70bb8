// Runs of consecutive indices, the order in which readNau's sampling loop
// writes the buffer and main's scan loop reads it (fftNau.c).

module Indices {

  /** The indices lo, lo + 1, ..., hi - 1 (none when lo >= hi). */
  function Ascending(lo: int, hi: int): (s: seq<int>)
    ensures |s| == if lo < hi then hi - lo else 0
    ensures forall k :: 0 <= k < |s| ==> s[k] == lo + k
    decreases hi - lo
  {
    if lo < hi then Ascending(lo, hi - 1) + [hi - 1] else []
  }

  /** Each index of [lo, hi) occurs once, in increasing order, and no other index occurs. */
  lemma {:induction false} AscendingDistinct(lo: int, hi: int)
    ensures var w := Ascending(lo, hi);
      && (forall a, c :: 0 <= a < c < |w| ==> w[a] < w[c])
      && (forall j :: j in w <==> lo <= j < hi)
  {
    var w := Ascending(lo, hi);
    forall j | lo <= j < hi
      ensures j in w
    {
      assert w[j - lo] == j;
    }
  }
}
