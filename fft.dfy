// The recursive decimation-in-time FFT of fftNau.c (`fft` and `_fft`), as
// its index skeleton.  `_fft(buf, out, n, step)` works on the elements
// buf[off], buf[off + step], buf[off + 2*step], ... of two arrays that are
// offset by the same amount `off` (C pointer arithmetic `buf + step`), and
// swaps the roles of the two arrays at each level.  The complex arithmetic
// is abstract: `add`, `sub` and `twiddle(i, n, x)`, the last standing for
// `cexp(-I * PI * i / n) * x`.

module Fft {
  import opened Powers

  /** The complex operations `_fft` uses, left abstract. */
  datatype Arith<!T> = Arith(add: (T, T) -> T, sub: (T, T) -> T, twiddle: (int, int, T) -> T)

  predicate IsPow2(n: nat)
  {
    n == 1 || (n > 1 && n % 2 == 0 && IsPow2(n / 2))
  }

  function Log2(m: nat): (r: nat)
    requires IsPow2(m)
  {
    if m == 1 then 0 else 1 + Log2(m / 2)
  }

  lemma {:induction false} Log2Inverse(m: nat)
    requires IsPow2(m)
    ensures Pow2(Log2(m)) == m
    decreases m
  {
    if m > 1 {
      Log2Inverse(m / 2);
    }
  }

  /** The even-indexed elements x[0], x[2], ... */
  function Evens<T>(x: seq<T>): seq<T>
  {
    seq(|x| / 2, k requires 0 <= k < |x| / 2 => x[2 * k])
  }

  /** The odd-indexed elements x[1], x[3], ... */
  function Odds<T>(x: seq<T>): seq<T>
  {
    seq(|x| / 2, k requires 0 <= k < |x| / 2 => x[2 * k + 1])
  }

  /** The even and odd subsequences together are x again, interleaved. */
  lemma EvensOddsInterleave<T>(x: seq<T>)
    requires |x| % 2 == 0
    ensures forall k :: 0 <= k < |x| ==> x[k] == if k % 2 == 0 then Evens(x)[k / 2] else Odds(x)[k / 2]
  {
    forall k | 0 <= k < |x|
      ensures x[k] == if k % 2 == 0 then Evens(x)[k / 2] else Odds(x)[k / 2]
    {
      if k % 2 == 0 {
        assert 2 * (k / 2) == k;
      } else {
        assert 2 * (k / 2) + 1 == k;
      }
    }
  }

  /**
   * One combine step at stride `step`: from the transforms e and o of the
   * even and odd halves, entry K < h is e[K] + w*o[K] and entry K + h is
   * e[K] - w*o[K], where w is the twiddle for loop index i = 2*step*K,
   * written Pos(0, 2 * step, K) below.
   */
  function CombineSpec<T>(ar: Arith<T>, e: seq<T>, o: seq<T>, n: int, step: int): (r: seq<T>)
    requires |e| == |o|
    ensures |r| == 2 * |e|
  {
    var h := |e|;
    seq(2 * h, K requires 0 <= K < 2 * h =>
      if K < h then ar.add(e[K], ar.twiddle(Pos(0, 2 * step, K), n, o[K]))
      else ar.sub(e[K - h], ar.twiddle(Pos(0, 2 * step, K - h), n, o[K - h])))
  }

  /**
   * The transform `_fft` computes of the subsequence x it is given at
   * stride `step`: the recursive Cooley-Tukey definition, in natural order.
   */
  function Transform<T>(ar: Arith<T>, x: seq<T>, n: int, step: int): (r: seq<T>)
    requires IsPow2(|x|)
    ensures |r| == |x|
    decreases |x|
  {
    if |x| == 1 then x
    else CombineSpec(ar, Transform(ar, Evens(x), n, 2 * step), Transform(ar, Odds(x), n, 2 * step), n, step)
  }

  // ---------------------------------------------------------------------
  // Index arithmetic.

  lemma MulMono(s: int, a: int, b: int)
    requires s >= 0 && a <= b
    ensures s * a <= s * b
  {
    assert s * b - s * a == s * (b - a);
  }

  lemma MulStrictMono(s: int, a: int, b: int)
    requires s > 0 && a < b
    ensures s * a < s * b
  {
    assert s * b - s * a == s * (b - a);
  }

  lemma DivModUnique(a: int, d: int, q: int, r: int)
    requires d > 0 && 0 <= r < d && a == d * q + r
    ensures a / d == q && a % d == r
  {
    var q' := a / d;
    assert a == d * q' + a % d;
    if q' < q {
      MulMono(d, q' + 1, q);
      assert false;
    } else if q < q' {
      MulMono(d, q + 1, q');
      assert false;
    }
  }

  /**
   * The k-th element `_fft` sees at offset `off` and stride `step`: C's
   * `(buf + off)[step * k]`, reached by stepping k times.
   */
  function Pos(off: int, step: int, k: nat): int
  {
    if k == 0 then off else Pos(off, step, k - 1) + step
  }

  lemma {:induction false} PosValue(off: int, step: int, k: nat)
    ensures Pos(off, step, k) == off + step * k
  {
    if k > 0 {
      PosValue(off, step, k - 1);
    }
  }

  lemma PosStrictMono(off: int, step: int, a: nat, b: nat)
    requires step > 0 && a < b
    ensures Pos(off, step, a) < Pos(off, step, b)
  {
    PosValue(off, step, a);
    PosValue(off, step, b);
    MulStrictMono(step, a, b);
  }

  lemma {:induction false} PosShift(off: int, step: int, k: nat)
    ensures Pos(off, step, k) == off + Pos(0, step, k)
  {
    if k > 0 {
      PosShift(off, step, k - 1);
    }
  }

  lemma {:induction false} PosAdd(off: int, step: int, a: nat, b: nat)
    ensures Pos(off, step, a + b) == Pos(Pos(off, step, a), step, b)
  {
    if b > 0 {
      PosAdd(off, step, a, b - 1);
    }
  }

  lemma {:induction false} PosDouble(step: int, k: nat)
    ensures Pos(0, 2 * step, k) == 2 * Pos(0, step, k)
  {
    if k > 0 {
      PosDouble(step, k - 1);
    }
  }

  lemma {:induction false} PosNonneg(step: nat, k: nat)
    ensures Pos(0, step, k) >= 0
  {
    if k > 0 {
      PosNonneg(step, k - 1);
    }
  }

  /** The first m elements of a class whose offset is below the stride lie below step * m. */
  lemma PosBelow(off: nat, step: nat, k: nat, m: nat)
    requires off < step && k < m
    ensures 0 <= Pos(off, step, k) < step * m
  {
    PosValue(off, step, k);
    MulMono(step, k + 1, m);
  }

  /** Element k of the stride-2*step subclasses is element 2k or 2k+1 of the stride-step class. */
  lemma PosSplit(off: int, step: int, k: nat)
    ensures Pos(off, 2 * step, k) == Pos(off, step, 2 * k)
    ensures Pos(off + step, 2 * step, k) == Pos(off, step, 2 * k + 1)
  {
    PosValue(off, 2 * step, k);
    PosValue(off + step, 2 * step, k);
    PosValue(off, step, 2 * k);
    PosValue(off, step, 2 * k + 1);
  }

  /**
   * The positions `_fft` at offset `off` and stride `step` works on: off,
   * off + step, off + 2*step, ... below n.
   */
  predicate InClass(j: int, off: nat, step: nat, n: nat)
    requires step > 0
    decreases j
  {
    0 <= j < n && (j == off || (j >= off + step && InClass(j - step, off, step, n)))
  }

  lemma SubStepMod(j: int, step: int)
    requires step > 0
    ensures (j - step) % step == j % step
  {
    var q := j / step;
    assert j == step * q + j % step;
    assert j - step == step * (q - 1) + j % step;
    DivModUnique(j - step, step, q - 1, j % step);
  }

  /** A class is a residue class modulo the stride, cut off at n. */
  lemma {:induction false} InClassMod(j: int, off: nat, step: nat, n: nat)
    requires off < step
    ensures InClass(j, off, step, n) <==> 0 <= j < n && j % step == off
    decreases if j < 0 then 0 else j
  {
    if 0 <= j < n {
      if j == off {
        DivModUnique(j, step, 0, off);
      } else if j >= off + step {
        InClassMod(j - step, off, step, n);
        SubStepMod(j, step);
      } else {
        var q := j / step;
        assert j == step * q + j % step;
        if j % step == off {
          if q >= 1 {
            MulMono(step, 1, q);
          } else if q <= -1 {
            MulMono(step, q, -1);
          }
        }
      }
    }
  }

  lemma {:induction false} PosInClass(off: nat, step: nat, k: nat, n: nat)
    requires off < step && Pos(off, step, k) < n
    ensures InClass(Pos(off, step, k), off, step, n)
  {
    if k > 0 {
      PosValue(off, step, k - 1);
      PosInClass(off, step, k - 1, n);
    }
  }

  /** The two stride-2*step classes inside a stride-step class lie in it. */
  lemma {:induction false} ClassesNest(j: int, off: nat, step: nat, n: nat)
    requires off < step
    ensures InClass(j, off, 2 * step, n) ==> InClass(j, off, step, n)
    ensures InClass(j, off + step, 2 * step, n) ==> InClass(j, off, step, n)
    decreases if j < 0 then 0 else j
  {
    if 0 <= j < n && j >= off + 2 * step {
      ClassesNest(j - 2 * step, off, step, n);
    }
  }

  /** The two stride-2*step subclasses of a class are disjoint. */
  lemma SubclassesDisjoint(j: int, off: nat, step: nat, n: nat)
    requires off < step
    ensures !(InClass(j, off, 2 * step, n) && InClass(j, off + step, 2 * step, n))
  {
    InClassMod(j, off, 2 * step, n);
    InClassMod(j, off + step, 2 * step, n);
  }

  /**
   * Iteration k of the combine loop, with loop index i = 2*step*k below
   * n = 2*step*h, writes buf[off + i/2] and buf[off + (i+n)/2]: elements k
   * and k + h of the class (off, step).
   */
  lemma WriteIndices(n: nat, step: nat, h: nat, off: nat, k: nat, i: int)
    requires n == Pos(0, 2 * step, h) && i == Pos(0, 2 * step, k)
    ensures off + i / 2 == Pos(off, step, k) && off + (i + n) / 2 == Pos(off, step, h + k)
  {
    var p, q := step * k, step * h;
    PosValue(0, 2 * step, h);
    PosValue(0, 2 * step, k);
    assert n == 2 * q && i == 2 * p;
    PosValue(off, step, k);
    PosValue(off, step, h + k);
    assert step * (h + k) == p + q;
  }

  /** Iteration k of the combine loop reads element k of each of out's two subclasses. */
  lemma ReadIndices(n: nat, step: nat, h: nat, off: nat, k: nat, i: int)
    requires off < step && n == Pos(0, 2 * step, h) && k < h && i == Pos(0, 2 * step, k)
    ensures off + i == Pos(off, 2 * step, k) && off + i + step == Pos(off + step, 2 * step, k)
    ensures i + 2 * step <= n
  {
    PosValue(0, 2 * step, h);
    PosValue(0, 2 * step, k);
    PosValue(off, 2 * step, k);
    PosValue(off + step, 2 * step, k);
    MulMono(2 * step, k + 1, h);
  }

  /** Elements k < h and k + h of a class of 2*h elements lie in the lower and upper halves of [0, n). */
  lemma HalvesBounds(n: nat, step: nat, h: nat, off: nat, k: nat)
    requires off < step && n == Pos(0, 2 * step, h) && k < h
    ensures 0 <= Pos(off, step, k) < Pos(off, step, h) <= Pos(off, step, h + k) < n
  {
    PosShift(off, step, k);
    PosShift(off, step, h);
    PosShift(off, step, h + k);
    PosAdd(0, step, h, k);
    PosShift(Pos(0, step, h), step, k);
    PosNonneg(step, k);
    PosStrictMono(0, step, k, h);
    if k + 1 < h {
      PosStrictMono(0, step, k + 1, h);
    }
    PosDouble(step, h);
  }

  /**
   * In `_fft`'s loop, with i = 2*step*k below n = 2*step*h, the two stores
   * `buf[i / 2]` and `buf[(i + n) / 2]` fall in the lower and the upper
   * half of [0, n) respectively, so they are in range and never collide.
   */
  lemma LoopStoresInHalves(n: nat, step: nat, h: nat, k: nat)
    requires step > 0 && k < h && n == 2 * step * h
    ensures var i := 2 * step * k; 0 <= i / 2 < n / 2 <= (i + n) / 2 < n
  {
    var i := 2 * step * k;
    PosValue(0, 2 * step, h);
    PosValue(0, 2 * step, k);
    WriteIndices(n, step, h, 0, k, i);
    HalvesBounds(n, step, h, 0, k);
    PosDouble(step, h);
  }

  /** Entries k and k + |e| of the butterflies share the twiddle of loop index Pos(0, 2*step, k). */
  lemma CombineEntries<T>(ar: Arith<T>, e: seq<T>, o: seq<T>, n: int, step: int, k: nat)
    requires |e| == |o| && k < |e|
    ensures var i := Pos(0, 2 * step, k);
      && CombineSpec(ar, e, o, n, step)[k] == ar.add(e[k], ar.twiddle(i, n, o[k]))
      && CombineSpec(ar, e, o, n, step)[k + |e|] == ar.sub(e[k], ar.twiddle(i, n, o[k]))
  {
    assert (k + |e|) - |e| == k;
  }

  /** Elements lo <= k < hi of the class (off, step) of s hold x[lo..hi]. */
  ghost predicate HoldsOn<T>(s: seq<T>, off: int, step: int, x: seq<T>, lo: nat, hi: nat)
  {
    forall k :: lo <= k < hi && k < |x| ==> 0 <= Pos(off, step, k) < |s| && s[Pos(off, step, k)] == x[k]
  }

  /** The class (off, step) of s holds x. */
  ghost predicate Holds<T>(s: seq<T>, off: int, step: int, x: seq<T>)
  {
    HoldsOn(s, off, step, x, 0, |x|)
  }

  /** s agrees with s0 outside the class (off, step) below n. */
  ghost predicate SameOutside<T>(s: seq<T>, s0: seq<T>, off: nat, step: nat, n: nat)
    requires step > 0
  {
    |s| == |s0| && forall j :: 0 <= j < |s| && !InClass(j, off, step, n) ==> s[j] == s0[j]
  }

  /** A class holding x splits into two subclasses holding its even and odd elements. */
  lemma HoldsSplit<T>(s: seq<T>, off: int, step: int, x: seq<T>)
    requires Holds(s, off, step, x) && |x| % 2 == 0
    ensures Holds(s, off, 2 * step, Evens(x)) && Holds(s, off + step, 2 * step, Odds(x))
  {
    var offOdd := off + step;
    forall k | 0 <= k < |x| / 2
      ensures 0 <= Pos(off, 2 * step, k) < |s| && s[Pos(off, 2 * step, k)] == Evens(x)[k]
      ensures 0 <= Pos(offOdd, 2 * step, k) < |s| && s[Pos(offOdd, 2 * step, k)] == Odds(x)[k]
    {
      PosSplit(off, step, k);
    }
  }

  /**
   * The recursive call on one stride-2*step subclass of the class
   * (off, step) leaves what the sibling subclass holds alone.
   */
  lemma SiblingKept<T>(s: seq<T>, s': seq<T>, off: nat, step: nat, n: nat, a: nat, b: nat, x: seq<T>)
    requires off < step && ((a == off && b == off + step) || (a == off + step && b == off))
    requires n == 2 * step * |x| && Holds(s, b, 2 * step, x) && SameOutside(s', s, a, 2 * step, n)
    ensures Holds(s', b, 2 * step, x)
  {
    forall k | 0 <= k < |x|
      ensures 0 <= Pos(b, 2 * step, k) < |s'| && s'[Pos(b, 2 * step, k)] == x[k]
    {
      PosBelow(b, 2 * step, k, |x|);
      PosInClass(b, 2 * step, k, n);
      SubclassesDisjoint(Pos(b, 2 * step, k), off, step, n);
    }
  }

  /**
   * One write of the combine loop, on values: with the elements a..b-1
   * and c..d-1 of the class (off, step) of s holding those entries of x,
   * and the two ranges apart from element b, writing x[b] at element b
   * extends the first range by one, keeps the second, and changes nothing
   * outside the class.
   */
  lemma WriteNext<T>(s: seq<T>, s0: seq<T>, off: nat, step: nat, n: nat, x: seq<T>, a: nat, b: nat, c: nat, d: nat)
    requires off < step && b < |x| && n <= |s| && 0 <= Pos(off, step, b) < n
    requires d <= b || b < c
    requires HoldsOn(s, off, step, x, a, b) && HoldsOn(s, off, step, x, c, d)
    requires SameOutside(s, s0, off, step, n)
    ensures var s' := s[Pos(off, step, b) := x[b]];
      && HoldsOn(s', off, step, x, a, b + 1) && HoldsOn(s', off, step, x, c, d) && SameOutside(s', s0, off, step, n)
  {
    PosInClass(off, step, b, n);
    forall K | a <= K < b
      ensures Pos(off, step, K) < Pos(off, step, b)
    {
      PosStrictMono(off, step, K, b);
    }
    forall K | c <= K < d
      ensures Pos(off, step, K) != Pos(off, step, b)
    {
      if K < b {
        PosStrictMono(off, step, K, b);
      } else {
        PosStrictMono(off, step, b, K);
      }
    }
  }

  /** Element k of a class holding x. */
  lemma HoldsAt<T>(s: seq<T>, off: int, step: int, x: seq<T>, k: nat)
    requires Holds(s, off, step, x) && k < |x|
    ensures 0 <= Pos(off, step, k) < |s| && s[Pos(off, step, k)] == x[k]
  {
  }

  /** The lower and upper written ranges together make up the whole of r. */
  lemma HoldsJoin<T>(s: seq<T>, off: int, step: int, x: seq<T>, h: nat)
    requires |x| == 2 * h && HoldsOn(s, off, step, x, 0, h) && HoldsOn(s, off, step, x, h, 2 * h)
    ensures Holds(s, off, step, x)
  {
  }

  // ---------------------------------------------------------------------
  // The in-place algorithm.

  /**
   * The body of `_fft`'s loop at index i = 2*step*k: the k-th butterfly
   * reads out[off + i] and out[off + i + step] and writes entry k of the
   * combined transform to buf[off + i/2] and entry k + h to
   * buf[off + (i+n)/2], which are elements k and h + k of buf's class.
   */
  method ButterflyStep<T>(ar: Arith<T>, buf: array<T>, out: array<T>, n: nat, step: nat, off: nat, i: int,
                      ghost e: seq<T>, ghost o: seq<T>, ghost k: nat)
    requires buf != out && buf.Length == out.Length && n <= buf.Length
    requires off < step && |e| == |o| && n == Pos(0, 2 * step, |e|) && k < |e| && i == Pos(0, 2 * step, k)
    requires 0 <= off + i && off + i + step < out.Length && out[off + i] == e[k] && out[off + i + step] == o[k]
    modifies buf
    ensures 0 <= Pos(off, step, k) < Pos(off, step, |e| + k) < n
    ensures buf[..] == old(buf[..])[Pos(off, step, k) := CombineSpec(ar, e, o, n, step)[k]]
                                   [Pos(off, step, |e| + k) := CombineSpec(ar, e, o, n, step)[|e| + k]]
  {
    WriteIndices(n, step, |e|, off, k, i);
    HalvesBounds(n, step, |e|, off, k);
    CombineEntries(ar, e, o, n, step, k);
    var even := out[off + i];
    var t := ar.twiddle(i, n, out[off + i + step]);
    buf[off + i / 2] := ar.add(even, t);
    buf[off + (i + n) / 2] := ar.sub(even, t);
  }

  /**
   * The combine loop's progress after k iterations: elements [0, k) and
   * [h, h + k) of the class (off, step) of s hold those of x.
   */
  ghost predicate Progress<T>(s: seq<T>, off: int, step: int, x: seq<T>, h: nat, k: nat)
  {
    HoldsOn(s, off, step, x, 0, k) && HoldsOn(s, off, step, x, h, h + k)
  }

  /** s0 after the first k butterflies have written entries j and h + j of x, for each j < k. */
  ghost function Partial<T>(s0: seq<T>, off: nat, step: nat, n: nat, x: seq<T>, h: nat, k: nat): (s: seq<T>)
    requires off < step && n == Pos(0, 2 * step, h) && n <= |s0| && |x| == 2 * h && k <= h
    ensures |s| == |s0|
  {
    if k == 0 then s0
    else
      var j := k - 1;
      HalvesBounds(n, step, h, off, j);
      Partial(s0, off, step, n, x, h, j)[Pos(off, step, j) := x[j]][Pos(off, step, h + j) := x[h + j]]
  }

  /** After k butterflies both written runs have k elements and nothing outside the class has changed. */
  lemma {:induction false} PartialProgress<T>(s0: seq<T>, off: nat, step: nat, n: nat, x: seq<T>, h: nat, k: nat)
    requires off < step && n == Pos(0, 2 * step, h) && n <= |s0| && |x| == 2 * h && k <= h
    ensures Progress(Partial(s0, off, step, n, x, h, k), off, step, x, h, k)
    ensures SameOutside(Partial(s0, off, step, n, x, h, k), s0, off, step, n)
  {
    if k > 0 {
      var j := k - 1;
      PartialProgress(s0, off, step, n, x, h, j);
      HalvesBounds(n, step, h, off, j);
      ButterflyStepWrites(Partial(s0, off, step, n, x, h, j), Partial(s0, off, step, n, x, h, k), s0, off, step, n, x, h, j);
    }
  }

  /**
   * What one butterfly's two writes do to the combine loop's invariant:
   * both written runs of the class grow by one element and nothing
   * outside the class changes.
   */
  lemma ButterflyStepWrites<T>(s: seq<T>, s': seq<T>, s0: seq<T>, off: nat, step: nat, n: nat, x: seq<T>, h: nat, k: nat)
    requires off < step && |x| == 2 * h && k < h && n <= |s|
    requires 0 <= Pos(off, step, k) < Pos(off, step, h + k) < n
    requires Progress(s, off, step, x, h, k) && SameOutside(s, s0, off, step, n)
    requires s' == s[Pos(off, step, k) := x[k]][Pos(off, step, h + k) := x[h + k]]
    ensures Progress(s', off, step, x, h, k + 1) && SameOutside(s', s0, off, step, n)
  {
    WriteNext(s, s0, off, step, n, x, 0, k, h, h + k);
    WriteNext(s[Pos(off, step, k) := x[k]], s0, off, step, n, x, h, h + k, 0, k + 1);
  }

  /**
   * The loop of `_fft`: with the transform of the even subsequence in
   * out's class (off, 2*step) and that of the odd subsequence in its class
   * (off + step, 2*step), write the butterflies into buf's class
   * (off, step).  Nothing else of buf is written.
   */
  method CombineLoop<T>(ar: Arith<T>, buf: array<T>, out: array<T>, n: nat, step: nat, off: nat,
                        ghost e: seq<T>, ghost o: seq<T>)
    requires buf != out && buf.Length == out.Length && n <= buf.Length
    requires off < step && |e| == |o| && n == Pos(0, 2 * step, |e|)
    requires Holds(out[..], off, 2 * step, e) && Holds(out[..], off + step, 2 * step, o)
    modifies buf
    ensures Holds(buf[..], off, step, CombineSpec(ar, e, o, n, step))
    ensures SameOutside(buf[..], old(buf[..]), off, step, n)
  {
    ghost var r := CombineSpec(ar, e, o, n, step);
    ghost var s0 := buf[..];
    var i := 0;
    ghost var k: nat := 0;
    while i < n
      invariant k <= |e| && i == Pos(0, 2 * step, k)
      invariant buf[..] == Partial(s0, off, step, n, r, |e|, k)
    {
      ReadIndices(n, step, |e|, off, k, i);
      HoldsAt(out[..], off, 2 * step, e, k);
      HoldsAt(out[..], off + step, 2 * step, o, k);
      ButterflyStep(ar, buf, out, n, step, off, i, e, o, k);
      i := i + 2 * step;
      k := k + 1;
    }
    assert k == |e| by {
      if k < |e| {
        PosStrictMono(0, 2 * step, k, |e|);
        assert false;
      }
    }
    PartialProgress(s0, off, step, n, r, |e|, k);
    HoldsJoin(buf[..], off, step, r, |e|);
  }

  /**
   * `_fft(buf, out, n, step)` on the class (off, step) of both arrays,
   * which on entry both hold x there: afterwards buf's class holds the
   * transform of x, and positions outside the class are untouched in both
   * arrays.  The call nests Log2(|x|) further levels of recursion.
   */
  method FftStep<T>(ar: Arith<T>, buf: array<T>, out: array<T>, n: nat, step: nat, off: nat, ghost x: seq<T>)
      returns (ghost levels: nat)
    requires buf != out && buf.Length == out.Length && n <= buf.Length
    requires off < step && IsPow2(|x|) && n == step * |x|
    requires Holds(buf[..], off, step, x) && Holds(out[..], off, step, x)
    modifies buf, out
    ensures Holds(buf[..], off, step, Transform(ar, x, n, step))
    ensures SameOutside(buf[..], old(buf[..]), off, step, n) && SameOutside(out[..], old(out[..]), off, step, n)
    ensures levels == Log2(|x|)
    decreases |x|
  {
    assert step < n <==> |x| > 1 by {
      if |x| > 1 { MulStrictMono(step, 1, |x|); }
    }
    if step < n {
      var step2 := 2 * step;
      var offOdd := off + step;
      ghost var ev, od := Evens(x), Odds(x);
      ghost var h := |x| / 2;
      assert n == Pos(0, step2, h) by {
        PosValue(0, step2, h);
        assert step2 * h == step * |x|;
      }
      assert n == step2 * h;
      HoldsSplit(buf[..], off, step, x);
      HoldsSplit(out[..], off, step, x);
      forall j
        ensures InClass(j, off, step2, n) ==> InClass(j, off, step, n)
        ensures InClass(j, offOdd, step2, n) ==> InClass(j, off, step, n)
      {
        ClassesNest(j, off, step, n);
      }
      ghost var buf0, out0 := buf[..], out[..];
      ghost var l1 := FftStep(ar, out, buf, n, step2, off, ev);
      ghost var buf1, out1 := buf[..], out[..];
      SiblingKept(buf0, buf1, off, step, n, off, offOdd, od);
      SiblingKept(out0, out1, off, step, n, off, offOdd, od);
      ghost var l2 := FftStep(ar, out, buf, n, step2, offOdd, od);
      SiblingKept(out1, out[..], off, step, n, offOdd, off, Transform(ar, ev, n, step2));
      CombineLoop(ar, buf, out, n, step, off, Transform(ar, ev, n, step2), Transform(ar, od, n, step2));
      assert SameOutside(buf[..], buf0, off, step, n);
      levels := l1 + 1;
    } else {
      assert Transform(ar, x, n, step) == x;
      levels := 0;
    }
  }

  /**
   * `fft(buf, n)`: copy buf into a scratch array `out` and run `_fft` from
   * stride 1.  The first n entries of buf end up holding the transform of
   * what they held; entries from n on are untouched.  The recursion is
   * Log2(n) levels deep.
   */
  method FftInPlace<T>(ar: Arith<T>, buf: array<T>, n: nat) returns (ghost levels: nat)
    requires IsPow2(n) && n <= buf.Length
    modifies buf
    ensures buf[..n] == Transform(ar, old(buf[..n]), n, 1)
    ensures buf[n..] == old(buf[n..])
    ensures levels == Log2(n) && Pow2(levels) == n
  {
    var first := buf[0];
    var out := new T[buf.Length](j => first);
    var i := 0;
    while i < n
      modifies out
      invariant 0 <= i <= n
      invariant forall k :: 0 <= k < i ==> out[k] == buf[k]
    {
      out[i] := buf[i];
      i := i + 1;
    }
    ghost var x := buf[..n];
    assert x == old(buf[..n]);
    forall k: nat | k < n
      ensures Pos(0, 1, k) == k
    {
      PosValue(0, 1, k);
    }
    assert Holds(buf[..], 0, 1, x) && Holds(out[..], 0, 1, x);
    levels := FftStep(ar, buf, out, n, 1, 0, x);
    assert buf[..n] == Transform(ar, x, n, 1);
    assert buf[n..] == old(buf[n..]) by {
      forall j | n <= j < buf.Length
        ensures buf[j] == old(buf[j])
      {
        assert !InClass(j, 0, 1, n);
      }
    }
    Log2Inverse(n);
  }
}
