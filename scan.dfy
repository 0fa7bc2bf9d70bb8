// The peak scan at the end of main (fftNau.c): a window of printSize bins
// around the bin of the frequency the user typed in, each printed when its
// magnitude passes a threshold.  The centre bin comes in as an integer and
// the magnitude test as an abstract predicate on a bin's value.

module PeakScan {
  import opened Indices

  /** `printSize`: the number of bins printed around the centre bin. */
  const PrintSize: nat := 2000

  /** The first bin the scan visits: `temp3 - printSize/2 + 1`. */
  function First(centre: int, printSize: nat): int
  {
    centre - printSize / 2 + 1
  }

  /** The loop bound `temp3 + printSize/2 + 1`, which is not visited. */
  function Bound(centre: int, printSize: nat): int
  {
    centre + printSize / 2 + 1
  }

  /** The bins the scan visits, in visiting order. */
  function Bins(centre: int, printSize: nat): (s: seq<int>)
    ensures |s| == 2 * (printSize / 2)
    ensures |s| > 0 ==> s[0] == centre - printSize / 2 + 1 && s[|s| - 1] == centre + printSize / 2
  {
    Ascending(First(centre, printSize), Bound(centre, printSize))
  }

  /** Every index of `bins` reads inside a buffer of the given size. */
  predicate InBounds(bins: seq<int>, size: int)
  {
    forall k :: 0 <= k < |bins| ==> 0 <= bins[k] < size
  }

  /** The bins among `bins` whose value passes the test, in the order visited. */
  function Printed<T>(s: seq<T>, bins: seq<int>, loud: T -> bool): (r: seq<int>)
    requires InBounds(bins, |s|)
    ensures |r| <= |bins|
    ensures forall x :: x in r ==> x in bins && loud(s[x])
    ensures forall k :: 0 <= k < |bins| && loud(s[bins[k]]) ==> bins[k] in r
    decreases |bins|
  {
    if bins == [] then []
    else
      var last := bins[|bins| - 1];
      Printed(s, bins[..|bins| - 1], loud) + (if loud(s[last]) then [last] else [])
  }

  /**
   * The scan loop: visit the bins in order and report those whose value
   * passes the test.  The C code reads `buf[i]` for every visited bin
   * without a range check, so every visited bin must lie in the buffer.
   */
  method Scan<T>(buf: array<T>, centre: int, printSize: nat, loud: T -> bool)
      returns (printed: seq<int>, ghost visited: seq<int>)
    requires InBounds(Bins(centre, printSize), buf.Length)
    ensures printed == Printed(buf[..], Bins(centre, printSize), loud)
    ensures visited == Bins(centre, printSize)
  {
    var first := First(centre, printSize);
    ghost var bins := Bins(centre, printSize);
    printed := [];
    visited := [];
    var i := first;
    while i < centre + printSize / 2 + 1
      invariant first <= i <= Bound(centre, printSize)
      invariant visited == bins[..i - first]
      invariant printed == Printed(buf[..], visited, loud)
    {
      assert bins[..i - first + 1] == visited + [i];
      visited := visited + [i];
      if loud(buf[i]) {
        printed := printed + [i];
      }
      i := i + 1;
    }
    assert visited == bins;
  }

  // ---------------------------------------------------------------------
  // Properties of the scan.

  /** An even window size visits exactly that many bins, each once, in ascending order. */
  lemma VisitsWindow(centre: int, printSize: nat)
    requires printSize % 2 == 0
    ensures var b := Bins(centre, printSize);
      && |b| == printSize
      && (forall a, c :: 0 <= a < c < |b| ==> b[a] < b[c])
      && (forall j :: j in b <==> centre - printSize / 2 + 1 <= j <= centre + printSize / 2)
  {
    assert Bins(centre, printSize) == Ascending(First(centre, printSize), Bound(centre, printSize));
    AscendingDistinct(First(centre, printSize), Bound(centre, printSize));
  }

  /**
   * The scan stays inside a buffer of `size` entries exactly when the
   * centre bin is at least printSize/2 - 1 and centre + printSize/2 is
   * below the size.
   */
  lemma {:induction false} InBoundsIff(centre: int, printSize: nat, size: int)
    requires printSize >= 2
    ensures InBounds(Bins(centre, printSize), size) <==>
      centre >= printSize / 2 - 1 && centre + printSize / 2 < size
  {
    var b := Bins(centre, printSize);
    if InBounds(b, size) {
      assert 0 <= b[0] && b[|b| - 1] < size;
    }
  }

  /** The printed bins come out in ascending order when the visited bins do. */
  lemma {:induction false} PrintedAscending<T>(s: seq<T>, bins: seq<int>, loud: T -> bool)
    requires InBounds(bins, |s|)
    requires forall a, c :: 0 <= a < c < |bins| ==> bins[a] < bins[c]
    ensures forall a, c :: 0 <= a < c < |Printed(s, bins, loud)| ==>
      Printed(s, bins, loud)[a] < Printed(s, bins, loud)[c]
    decreases |bins|
  {
    if bins != [] {
      var front := bins[..|bins| - 1];
      var last := bins[|bins| - 1];
      PrintedAscending(s, front, loud);
      var p := Printed(s, front, loud);
      forall x | x in p
        ensures x < last
      {
        var k :| 0 <= k < |front| && front[k] == x;
        assert front[k] == bins[k];
      }
      var r := Printed(s, bins, loud);
      assert r == p + (if loud(s[last]) then [last] else []);
      forall a, c | 0 <= a < c < |r|
        ensures r[a] < r[c]
      {
        if c < |p| {
          assert r[a] == p[a] && r[c] == p[c];
          assert p[a] < p[c];
        } else {
          assert r[a] == p[a] && p[a] in p && r[c] == last;
          assert p[a] < last;
        }
      }
    }
  }

  /**
   * With main's printSize of 2000 and its 4096-entry buffer, the scan reads
   * inside the buffer exactly for centre bins 999 to 3095, and then prints,
   * in ascending order, exactly the bins of the window whose value passes
   * the test.
   */
  lemma MainScan<T>(s: seq<T>, centre: int, loud: T -> bool)
    requires |s| == 4096
    ensures InBounds(Bins(centre, PrintSize), |s|) <==> 999 <= centre <= 3095
    ensures InBounds(Bins(centre, PrintSize), |s|) ==>
      var r := Printed(s, Bins(centre, PrintSize), loud);
      && (forall a, c :: 0 <= a < c < |r| ==> r[a] < r[c])
      && (forall j :: j in r <==> centre - 999 <= j <= centre + 1000 && loud(s[j]))
  {
    InBoundsIff(centre, PrintSize, |s|);
    VisitsWindow(centre, PrintSize);
    if InBounds(Bins(centre, PrintSize), |s|) {
      PrintedAscending(s, Bins(centre, PrintSize), loud);
      var b := Bins(centre, PrintSize);
      forall j | centre - 999 <= j <= centre + 1000 && loud(s[j])
        ensures j in Printed(s, b, loud)
      {
        assert b[j - (centre - 999)] == j;
      }
    }
  }
}
