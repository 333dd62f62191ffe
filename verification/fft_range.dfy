/**
 The transform stays inside `i32` on what 16-bit audio produces, and the magnitude
 of a bin is an exact integer square root (audio/fft.rs, mul, magnitude, isqrt).
 */
module FftRange {
  import opened Arith
  import opened RadixTwo
  import opened FixedPointFft

  predicate InI32(x: int) {
    -0x8000_0000 <= x < 0x8000_0000
  }

  predicate Within(x: Cx, bound: int) {
    -bound <= x.re <= bound && -bound <= x.im <= bound
  }

  ghost predicate AllWithin(xs: seq<Cx>, bound: int) {
    forall i :: 0 <= i < |xs| ==> Within(xs[i], bound)
  }

  /** What `mul` would return if `i32` were unbounded. */
  function Product(a: int, b: int): int {
    a * b / 0x1_0000
  }

  /** No `i32` operation of a butterfly wraps: products, twiddled input, sums, differences. */
  ghost predicate NoOverflow(w: Cx, u: Cx, x: Cx) {
    var tr := Product(w.re, x.re) - Product(w.im, x.im);
    var ti := Product(w.re, x.im) + Product(w.im, x.re);
    && InI32(Product(w.re, x.re)) && InI32(Product(w.im, x.im))
    && InI32(Product(w.re, x.im)) && InI32(Product(w.im, x.re))
    && InI32(tr) && InI32(ti)
    && InI32(u.re + tr) && InI32(u.im + ti) && InI32(u.re - tr) && InI32(u.im - ti)
  }

  /** No butterfly that joins `lo` and `hi` wraps. */
  ghost predicate JoinFits(fft: Fft, stride: nat, lo: seq<Cx>, hi: seq<Cx>)
    requires |lo| == |hi|
  {
    forall k :: 0 <= k < |lo| ==> NoOverflow(fft.Twiddle(TwiddleIndex(k, stride)), lo[k], hi[k])
  }

  /** No butterfly of the transform of `x` wraps, in any of its stages. */
  ghost predicate TransformFits(fft: Fft, stride: nat, x: seq<Cx>, m: nat)
    requires |x| == Pow2(m)
    decreases m
  {
    m == 0 ||
    (var lo, hi := EveryOther(x, 0), EveryOther(x, 1);
     && TransformFits(fft, 2 * stride, lo, m - 1)
     && TransformFits(fft, 2 * stride, hi, m - 1)
     && JoinFits(fft, stride, Dit(fft.Butterfly(), 2 * stride, lo, m - 1), Dit(fft.Butterfly(), 2 * stride, hi, m - 1)))
  }

  lemma ProductWithin(a: int, b: int, bound: int)
    requires -0x1_0000 <= a <= 0x1_0000 && -bound <= b <= bound
    ensures -bound <= Product(a, b) <= bound
  {
    ScaledWithin(a, b, bound);
  }

  lemma ScaledWithin(a: int, b: int, bound: int)
    requires -0x1_0000 <= a <= 0x1_0000 && -bound <= b <= bound
    ensures -0x1_0000 * bound <= a * b <= 0x1_0000 * bound
  {
    if a >= 0 {
      Ordered(a, -bound, b);
      Ordered(a, b, bound);
      Ordered(bound, a, 0x1_0000);
    } else {
      Ordered(-a, -bound, b);
      Ordered(-a, b, bound);
      Ordered(bound, -a, 0x1_0000);
    }
  }

  lemma Ordered(c: int, a: int, b: int)
    requires 0 <= c && a <= b
    ensures c * a <= c * b
  {
  }

  /** A butterfly at most doubles the largest component, and its sums stay below three times it. */
  lemma ButterflyGrowth(w: Cx, u: Cx, x: Cx, bound: int)
    requires Within(w, 0x1_0000) && Within(u, bound) && Within(x, bound)
    requires 0 < bound && 3 * bound < 0x8000_0000
    ensures NoOverflow(w, u, x)
    ensures Within(HalfSum(u, Rotate(w, x)), 2 * bound)
    ensures Within(HalfDifference(u, Rotate(w, x)), 2 * bound)
  {
    ProductWithin(w.re, x.re, bound);
    ProductWithin(w.im, x.im, bound);
    ProductWithin(w.re, x.im, bound);
    ProductWithin(w.im, x.re, bound);
  }

  /** One stage over inputs within `bound` does not wrap and at most doubles them. */
  lemma JoinGrowth(fft: Fft, stride: nat, lo: seq<Cx>, hi: seq<Cx>, bound: int)
    requires |lo| == |hi| && AllWithin(lo, bound) && AllWithin(hi, bound)
    requires forall w :: Within(fft.Twiddle(w), 0x1_0000)
    requires 0 < bound && 3 * bound < 0x8000_0000
    ensures JoinFits(fft, stride, lo, hi)
    ensures AllWithin(Combine(fft.Butterfly(), stride, lo, hi), 2 * bound)
  {
    var r := Combine(fft.Butterfly(), stride, lo, hi);
    forall k | 0 <= k < |lo| ensures NoOverflow(fft.Twiddle(TwiddleIndex(k, stride)), lo[k], hi[k]) {
      ButterflyGrowth(fft.Twiddle(TwiddleIndex(k, stride)), lo[k], hi[k], bound);
    }
    forall i | 0 <= i < |r| ensures Within(r[i], 2 * bound) {
      var k := if i < |lo| then i else i - |lo|;
      ButterflyGrowth(fft.Twiddle(TwiddleIndex(k, stride)), lo[k], hi[k], bound);
    }
  }

  /** The largest component after `m` stages on inputs of magnitude at most one. */
  function Headroom(m: nat): (r: nat)
    ensures r > 0
  {
    if m == 0 then 0x1_0000 else 2 * Headroom(m - 1)
  }

  lemma {:induction false} HeadroomInI32(m: nat)
    requires m <= LOG2_N
    ensures 0 < Headroom(m) && 3 * Headroom(m) < 0x8000_0000
    decreases LOG2_N - m
  {
    if m < LOG2_N {
      HeadroomInI32(m + 1);
    } else {
      assert Headroom(10) == 0x20 * Headroom(5) == 0x400 * Headroom(0);
    }
  }

  /** One more stage over two halves that fit. */
  lemma StageFits(fft: Fft, stride: nat, x: seq<Cx>, lo: seq<Cx>, hi: seq<Cx>, m: nat, bound: int)
    requires |x| == Pow2(m) && 0 < m && 0 < bound && 3 * bound < 0x8000_0000
    requires forall w :: Within(fft.Twiddle(w), 0x1_0000)
    requires lo == EveryOther(x, 0) && hi == EveryOther(x, 1)
    requires TransformFits(fft, 2 * stride, lo, m - 1) && TransformFits(fft, 2 * stride, hi, m - 1)
    requires AllWithin(Dit(fft.Butterfly(), 2 * stride, lo, m - 1), bound)
    requires AllWithin(Dit(fft.Butterfly(), 2 * stride, hi, m - 1), bound)
    ensures TransformFits(fft, stride, x, m)
    ensures AllWithin(Dit(fft.Butterfly(), stride, x, m), 2 * bound)
  {
    JoinGrowth(fft, stride, Dit(fft.Butterfly(), 2 * stride, lo, m - 1), Dit(fft.Butterfly(), 2 * stride, hi, m - 1), bound);
  }

  lemma {:induction false} StagesFit(fft: Fft, stride: nat, x: seq<Cx>, m: nat)
    requires |x| == Pow2(m) && 3 * Headroom(m) < 0x8000_0000
    requires forall w :: Within(fft.Twiddle(w), 0x1_0000)
    requires AllWithin(x, 0x1_0000)
    ensures TransformFits(fft, stride, x, m)
    ensures AllWithin(Dit(fft.Butterfly(), stride, x, m), Headroom(m))
    decreases m
  {
    if m > 0 {
      var lo, hi := EveryOther(x, 0), EveryOther(x, 1);
      StagesFit(fft, 2 * stride, lo, m - 1);
      StagesFit(fft, 2 * stride, hi, m - 1);
      StageFits(fft, stride, x, lo, hi, m, Headroom(m - 1));
    }
  }

  /** Inputs and twiddles of magnitude at most one keep all ten stages inside `i32`. */
  lemma TransformNeverOverflows(fft: Fft, stride: nat, x: seq<Cx>, m: nat)
    requires |x| == Pow2(m) && m <= LOG2_N
    requires forall w :: Within(fft.Twiddle(w), 0x1_0000)
    requires AllWithin(x, 0x1_0000)
    ensures TransformFits(fft, stride, x, m)
    ensures AllWithin(Dit(fft.Butterfly(), stride, x, m), Headroom(m))
  {
    HeadroomInI32(m);
    StagesFit(fft, stride, x, m);
  }

  /** Where nothing wraps, a butterfly is the rounding butterfly over the integers. */
  lemma FitsMeansExact(w: Cx, u: Cx, x: Cx)
    requires NoOverflow(w, u, x)
    ensures var tr := Product(w.re, x.re) - Product(w.im, x.im);
            var ti := Product(w.re, x.im) + Product(w.im, x.re);
            && HalfSum(u, Rotate(w, x)) == Cx((u.re + tr) / 2, (u.im + ti) / 2)
            && HalfDifference(u, Rotate(w, x)) == Cx((u.re - tr) / 2, (u.im - ti) / 2)
  {
  }

  // ---------------------------------------------------------------- square root

  /** How many bits `n` takes: `64 - n.leading_zeros()`. */
  function BitLength(n: nat): (b: nat)
    ensures n < Pow2(b)
  {
    if n == 0 then 0 else 1 + BitLength(n / 2)
  }

  /** Newton's estimate never falls below the root. */
  lemma NewtonStaysAbove(n: nat, x: nat, q: nat, next: nat)
    requires x > 0 && n < (q + 1) * x && x + q <= 2 * next + 1
    ensures (next + 1) * (next + 1) > n
  {
    var s, p := x + q + 1, q + 1;
    assert 4 * (p * x) <= s * s by { SquareOfSum(x, p); }
    assert s * s <= (2 * (next + 1)) * (2 * (next + 1)) by { SquaresOrdered(s, 2 * (next + 1)); }
    assert (2 * (next + 1)) * (2 * (next + 1)) == 4 * ((next + 1) * (next + 1));
  }

  lemma SquareOfSum(a: int, b: int)
    ensures 4 * (b * a) <= (a + b) * (a + b)
  {
    assert (a + b) * (a + b) == 4 * (b * a) + (a - b) * (a - b);
  }

  lemma SquaresOrdered(a: int, b: int)
    requires 0 <= a <= b
    ensures a * a <= b * b
  {
    Ordered(a, a, b);
    Ordered(b, a, b);
  }

  /** `x` is at or above the square root of `n`, rounded down. */
  predicate AtOrAboveRoot(x: nat, n: nat) {
    n < (x + 1) * (x + 1)
  }

  /** One Newton step from `x`. It only fails to go down from the root itself. */
  method NewtonStep(n: nat, x: nat) returns (next: nat)
    requires 0 < n && 0 < x && AtOrAboveRoot(x, n)
    ensures 0 < next && AtOrAboveRoot(next, n)
    ensures next >= x ==> x * x <= n
  {
    var q := n / x;
    assert q * x <= n < (q + 1) * x;
    next := (x + q) / 2;
    NewtonStaysAbove(n, x, q, next);
    if next >= x {
      Ordered(x, x, q);
    }
  }

  /** Integer square root by Newton's method. */
  method Isqrt(n: int) returns (r: nat)
    ensures n <= 0 ==> r == 0
    ensures n >= 0 ==> r * r <= n && AtOrAboveRoot(r, n)
  {
    if n <= 0 {
      return 0;
    }
    var x := Pow2((BitLength(n) + 1) / 2);
    StartAbove(n, BitLength(n));
    while true
      invariant 0 < x && AtOrAboveRoot(x, n)
      decreases x
    {
      var next := NewtonStep(n, x);
      if next >= x {
        return x;
      }
      x := next;
    }
  }

  lemma StartAbove(n: nat, b: nat)
    requires n < Pow2(b)
    ensures AtOrAboveRoot(Pow2((b + 1) / 2), n)
  {
    var h := (b + 1) / 2;
    Pow2Sum(h, h);
    Pow2Climbs(b, 2 * h);
    SquaresOrdered(Pow2(h), Pow2(h) + 1);
  }

  /**
   The length of a bin, rounded down: exact, because the squares are, for every bin shorter than
   2^31, and wrong for every other.
   */
  method Magnitude(re: I32, im: I32) returns (r: int)
    ensures re * re + im * im < 0x4000_0000_0000_0000
            <==> 0 <= r && r * r <= re * re + im * im && AtOrAboveRoot(r, re * re + im * im)
  {
    var n := Wrap64(re * re + im * im);
    var root := Isqrt(n);
    r := Wrap32(root);
    SquaredBin(re, im);
    if re * re + im * im < 0x4000_0000_0000_0000 {
      if root >= 0x8000_0000 { SquaresOrdered(0x8000_0000, root); }
    } else {
      if 0 <= r && AtOrAboveRoot(r, re * re + im * im) { SquaresOrdered(r + 1, 0x8000_0000); }
    }
  }

  lemma SquaredBin(re: int, im: int)
    requires InI32(re) && InI32(im)
    ensures 0 <= re * re + im * im <= 0x8000_0000_0000_0000
  {
    SquaredPart(re);
    SquaredPart(im);
  }

  lemma SquaredPart(x: int)
    requires InI32(x)
    ensures 0 <= x * x <= 0x4000_0000_0000_0000
  {
    if x < 0 {
      SquaresOrdered(-x, 0x8000_0000);
      assert (-x) * (-x) == x * x;
    } else {
      SquaresOrdered(x, 0x8000_0000);
    }
  }
}
