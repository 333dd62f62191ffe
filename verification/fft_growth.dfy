/**
 The transform does not grow the signal (audio/fft.rs): factors of about unit length turn a bin,
 and the halved sum of two bins is no longer than the longer of them. So nothing leaves `i32` as
 long as the bins stay some way below half of its range. At half of it something does.
 */
module FftGrowth {
  import opened Arith
  import opened RadixTwo
  import opened FixedPointFft
  import opened FftRange

  /** One in fixed point, and the length of a factor whose parts are off by one raw unit. */
  const UNIT: int := 0x1_0000
  const FACTOR_LENGTH: int := 0x1_0002

  /** The bin is at most `length` long. */
  predicate Short(x: Cx, length: nat) {
    x.re * x.re + x.im * x.im <= length * length
  }

  ghost predicate ShortAt(xs: seq<Cx>, i: nat, length: nat)
    requires i < |xs|
  {
    Short(xs[i], length)
  }

  ghost predicate AllShort(xs: seq<Cx>, length: nat) {
    forall i: nat :: i < |xs| ==> ShortAt(xs, i, length)
  }

  // --------------------------------------------------------------- lengths in the plane

  lemma SquaresReflect(a: int, b: nat)
    requires a * a <= b * b
    ensures a <= b && -a <= b
  {
    if a > b { SquaresClimb(b, a); }
    if -a > b { SquaresClimb(b, -a); }
  }

  lemma SquaresClimb(a: nat, b: nat)
    requires a < b
    ensures a * a < b * b
  {
    assert b * b - a * a == (b - a) * (b + a);
  }

  lemma ProductsClimb(a: nat, b: nat, p: nat, q: nat)
    requires a <= p && b <= q
    ensures a * b <= p * q
  {
    MulMonotone(a, p, b);
    MulMonotone(b, q, p);
  }

  /** Squared lengths multiply: turning by `w` and scaling are one. */
  lemma LengthsMultiply(a: int, b: int, c: int, d: int)
    ensures (a * c - b * d) * (a * c - b * d) + (a * d + b * c) * (a * d + b * c) == (a * a + b * b) * (c * c + d * d)
  {
    var p, q, r, s := a * c, b * d, a * d, b * c;
    assert p * q == r * s;
    assert p * p == (a * a) * (c * c) && q * q == (b * b) * (d * d);
    assert r * r == (a * a) * (d * d) && s * s == (b * b) * (c * c);
  }

  lemma SquareOfProduct(p: nat, q: nat)
    ensures (p * q) * (p * q) == (p * p) * (q * q)
  {
  }

  lemma Turned(w: Cx, x: Cx, p: nat, q: nat)
    requires Short(w, p) && Short(x, q)
    ensures Short(Cx(w.re * x.re - w.im * x.im, w.re * x.im + w.im * x.re), p * q)
  {
    LengthsMultiply(w.re, w.im, x.re, x.im);
    ProductsClimb(w.re * w.re + w.im * w.im, x.re * x.re + x.im * x.im, p * p, q * q);
    SquareOfProduct(p, q);
  }

  /** The inner product of two bins is at most the product of their lengths. */
  lemma InnerProduct(a: Cx, b: Cx, p: nat, q: nat)
    requires Short(a, p) && Short(b, q)
    ensures a.re * b.re + a.im * b.im <= p * q
  {
    var mirrored := Cx(b.re, -b.im);
    assert b.im * b.im == (-b.im) * (-b.im);
    Turned(a, mirrored, p, q);
    var inner := a.re * b.re + a.im * b.im;
    assert a.re * b.re - a.im * (-b.im) == inner;
    assert inner * inner <= (p * q) * (p * q);
    SquaresReflect(inner, p * q);
  }

  lemma SquareOfSum(a: int, b: int)
    ensures (a + b) * (a + b) == a * a + 2 * (a * b) + b * b
  {
  }

  /** The triangle inequality. */
  lemma Triangle(a: Cx, b: Cx, p: nat, q: nat)
    requires Short(a, p) && Short(b, q)
    ensures Short(Cx(a.re + b.re, a.im + b.im), p + q)
  {
    InnerProduct(a, b, p, q);
    SquareOfSum(a.re, b.re);
    SquareOfSum(a.im, b.im);
    SquareOfSum(p, q);
  }

  lemma Scaled(x: Cx, length: nat, c: nat)
    requires c > 0
    ensures Short(Cx(c * x.re, c * x.im), c * length) <==> Short(x, length)
  {
    var square := c * c;
    assert (c * x.re) * (c * x.re) == square * (x.re * x.re);
    assert (c * x.im) * (c * x.im) == square * (x.im * x.im);
    assert (c * length) * (c * length) == square * (length * length);
    ScaledOrder(x.re * x.re + x.im * x.im, length * length, square);
  }

  lemma ScaledOrder(a: int, b: int, c: nat)
    requires c > 0
    ensures c * a <= c * b <==> a <= b
  {
    if a <= b { MulMonotone(a, b, c); }
    if a > b { MulMonotone(b + 1, a, c); }
  }

  lemma ShortPart(x: Cx, length: nat)
    requires Short(x, length)
    ensures x.re <= length && -x.re <= length && x.im <= length && -x.im <= length
  {
    SquaresReflect(x.re, length);
    SquaresReflect(x.im, length);
  }

  lemma ShortNegated(x: Cx, length: nat)
    requires Short(x, length)
    ensures Short(Cx(-x.re, -x.im), length)
  {
  }

  lemma Longer(x: Cx, length: nat, more: nat)
    requires Short(x, length) && length <= more
    ensures Short(x, more)
  {
    ProductsClimb(length, length, more, more);
  }

  // --------------------------------------------------------------------- one butterfly

  /** The twiddled bin over unbounded integers, and the same before its products are rounded. */
  function Twiddled(w: Cx, x: Cx): Cx {
    Cx(Product(w.re, x.re) - Product(w.im, x.im), Product(w.re, x.im) + Product(w.im, x.re))
  }

  function Exactly(w: Cx, x: Cx): Cx {
    Cx(w.re * x.re - w.im * x.im, w.re * x.im + w.im * x.re)
  }

  /** Rounding moves a twiddled bin by less than three raw units. */
  lemma RoundingIsSmall(w: Cx, x: Cx)
    ensures var t, e := Twiddled(w, x), Exactly(w, x);
            && -UNIT < UNIT * t.re - e.re < UNIT
            && -2 * UNIT < UNIT * t.im - e.im <= 0
            && Short(Cx(UNIT * t.re - e.re, UNIT * t.im - e.im), 3 * UNIT)
  {
    Floored(w.re * x.re);
    Floored(w.im * x.im);
    Floored(w.re * x.im);
    Floored(w.im * x.re);
    var t, e := Twiddled(w, x), Exactly(w, x);
    SmallIsShort(UNIT * t.re - e.re, UNIT * t.im - e.im);
  }

  lemma Floored(n: int)
    ensures n - UNIT < UNIT * (n / UNIT) <= n
  {
  }

  lemma SmallIsShort(a: int, b: int)
    requires -UNIT < a < UNIT && -2 * UNIT < b <= 0
    ensures Short(Cx(a, b), 3 * UNIT)
  {
    assert a * a <= UNIT * UNIT by { ProductsClimb(if a < 0 then -a else a, if a < 0 then -a else a, UNIT, UNIT); }
    assert b * b <= (2 * UNIT) * (2 * UNIT) by { ProductsClimb(-b, -b, 2 * UNIT, 2 * UNIT); }
  }

  /** How long a bin can be after a stage over bins of at most `length`. */
  function Grown(length: nat): nat {
    length + length / UNIT + 4
  }

  /** The sum of a bin and a turned one, scaled up to where its products are exact. */
  lemma SumIsShort(u: Cx, w: Cx, x: Cx, length: nat)
    requires Short(w, FACTOR_LENGTH) && Short(u, length) && Short(x, length)
    ensures var t := Twiddled(w, x);
            Short(Cx(UNIT * (u.re + t.re), UNIT * (u.im + t.im)), (UNIT + FACTOR_LENGTH) * length + 3 * UNIT)
  {
    var t, e := Twiddled(w, x), Exactly(w, x);
    Turned(w, x, FACTOR_LENGTH, length);
    Scaled(u, length, UNIT);
    RoundingIsSmall(w, x);
    var scaled, off := Cx(UNIT * u.re, UNIT * u.im), Cx(UNIT * t.re - e.re, UNIT * t.im - e.im);
    Triangle(scaled, e, UNIT * length, FACTOR_LENGTH * length);
    Triangle(Cx(scaled.re + e.re, scaled.im + e.im), off, UNIT * length + FACTOR_LENGTH * length, 3 * UNIT);
    assert scaled.re + e.re + off.re == UNIT * (u.re + t.re) && scaled.im + e.im + off.im == UNIT * (u.im + t.im);
  }

  /** Halving it brings it back to about the length of the longer bin. */
  lemma HalvedIsShort(s: Cx, length: nat)
    requires Short(Cx(UNIT * s.re, UNIT * s.im), (UNIT + FACTOR_LENGTH) * length + 3 * UNIT)
    ensures Short(Cx(s.re / 2, s.im / 2), Grown(length))
  {
    var h := Cx(s.re / 2, s.im / 2);
    var odd := Cx(UNIT * (2 * h.re - s.re), UNIT * (2 * h.im - s.im));
    assert -1 <= 2 * h.re - s.re <= 0 && -1 <= 2 * h.im - s.im <= 0;
    assert Short(odd, 2 * UNIT);
    Triangle(Cx(UNIT * s.re, UNIT * s.im), odd, (UNIT + FACTOR_LENGTH) * length + 3 * UNIT, 2 * UNIT);
    var whole := Cx((2 * UNIT) * h.re, (2 * UNIT) * h.im);
    assert UNIT * s.re + odd.re == whole.re && UNIT * s.im + odd.im == whole.im;
    assert (UNIT + FACTOR_LENGTH) * length + 5 * UNIT <= (2 * UNIT) * Grown(length);
    Longer(whole, (UNIT + FACTOR_LENGTH) * length + 5 * UNIT, (2 * UNIT) * Grown(length));
    Scaled(h, Grown(length), 2 * UNIT);
  }

  /** Bins this long never make a butterfly overflow. */
  const SAFE_LENGTH: int := 0x4000_0000 - 0x1_0000

  lemma ProductInRange(a: int, b: int, length: nat)
    requires -FACTOR_LENGTH <= a <= FACTOR_LENGTH && b <= length && -b <= length && length <= SAFE_LENGTH
    ensures InI32(Product(a, b))
  {
    var x, y := if a < 0 then -a else a, if b < 0 then -b else b;
    ProductsClimb(x, y, FACTOR_LENGTH, SAFE_LENGTH);
    assert a * b == x * y || a * b == -(x * y);
    Floored(a * b);
  }

  lemma TwiddledInRange(w: Cx, u: Cx, x: Cx, length: nat)
    requires Short(w, FACTOR_LENGTH) && Short(u, length) && Short(x, length) && length <= SAFE_LENGTH
    ensures var t := Twiddled(w, x);
            && InI32(t.re) && InI32(t.im)
            && InI32(u.re + t.re) && InI32(u.im + t.im) && InI32(u.re - t.re) && InI32(u.im - t.im)
  {
    var t, e := Twiddled(w, x), Exactly(w, x);
    Turned(w, x, FACTOR_LENGTH, length);
    ShortPart(e, FACTOR_LENGTH * length);
    ShortPart(u, length);
    RoundingIsSmall(w, x);
  }

  /** A butterfly with a factor of about unit length grows nothing and wraps nowhere. */
  lemma ButterflyKeepsLength(w: Cx, u: Cx, x: Cx, length: nat)
    requires Short(w, FACTOR_LENGTH) && Short(u, length) && Short(x, length) && length <= SAFE_LENGTH
    ensures NoOverflow(w, u, x)
    ensures Short(HalfSum(u, Rotate(w, x)), Grown(length))
    ensures Short(HalfDifference(u, Rotate(w, x)), Grown(length))
  {
    ShortPart(w, FACTOR_LENGTH);
    ShortPart(x, length);
    ProductInRange(w.re, x.re, length);
    ProductInRange(w.im, x.im, length);
    ProductInRange(w.re, x.im, length);
    ProductInRange(w.im, x.re, length);
    TwiddledInRange(w, u, x, length);
    FitsMeansExact(w, u, x);
    var t := Twiddled(w, x);
    SumIsShort(u, w, x, length);
    HalvedIsShort(Cx(u.re + t.re, u.im + t.im), length);
    DifferenceIsShort(u, w, x, length);
    HalvedIsShort(Cx(u.re - t.re, u.im - t.im), length);
  }

  lemma DifferenceIsShort(u: Cx, w: Cx, x: Cx, length: nat)
    requires Short(w, FACTOR_LENGTH) && Short(u, length) && Short(x, length)
    ensures var t := Twiddled(w, x);
            Short(Cx(UNIT * (u.re - t.re), UNIT * (u.im - t.im)), (UNIT + FACTOR_LENGTH) * length + 3 * UNIT)
  {
    var t := Twiddled(w, x);
    ShortNegated(u, length);
    SumIsShort(Cx(-u.re, -u.im), w, x, length);
    ShortNegated(Cx(UNIT * (-u.re + t.re), UNIT * (-u.im + t.im)), (UNIT + FACTOR_LENGTH) * length + 3 * UNIT);
    assert -(UNIT * (-u.re + t.re)) == UNIT * (u.re - t.re) && -(UNIT * (-u.im + t.im)) == UNIT * (u.im - t.im);
  }

  // --------------------------------------------------------------------- all the stages

  ghost predicate NearUnitAt(fft: Fft, w: int) { Short(fft.Twiddle(w), FACTOR_LENGTH) }

  /** Every factor is nearly of unit length. */
  ghost predicate NearUnit(fft: Fft) { forall w :: NearUnitAt(fft, w) }

  lemma JoinKeepsLength(fft: Fft, stride: nat, lo: seq<Cx>, hi: seq<Cx>, length: nat)
    requires |lo| == |hi| && AllShort(lo, length) && AllShort(hi, length) && length <= SAFE_LENGTH
    requires NearUnit(fft)
    ensures JoinFits(fft, stride, lo, hi)
    ensures AllShort(Combine(fft.Butterfly(), stride, lo, hi), Grown(length))
  {
    var r := Combine(fft.Butterfly(), stride, lo, hi);
    forall k | 0 <= k < |lo| ensures NoOverflow(fft.Twiddle(TwiddleIndex(k, stride)), lo[k], hi[k]) {
      assert ShortAt(lo, k, length) && ShortAt(hi, k, length) && NearUnitAt(fft, TwiddleIndex(k, stride));
      ButterflyKeepsLength(fft.Twiddle(TwiddleIndex(k, stride)), lo[k], hi[k], length);
    }
    forall i: nat | i < |r| ensures ShortAt(r, i, Grown(length)) {
      var k := if i < |lo| then i else i - |lo|;
      assert ShortAt(lo, k, length) && ShortAt(hi, k, length) && NearUnitAt(fft, TwiddleIndex(k, stride));
      ButterflyKeepsLength(fft.Twiddle(TwiddleIndex(k, stride)), lo[k], hi[k], length);
    }
  }

  /** The longest a bin can be after `m` stages, from bins of at most `length`. */
  function Reach(length: nat, m: nat): nat {
    if m == 0 then length else Grown(Reach(length, m - 1))
  }

  /** Ten stages lengthen a safe bin by less than 2^18 raw units. */
  lemma {:induction false} ReachIsSafe(length: nat, m: nat)
    requires length <= SAFE_LENGTH - 0x3_0000 && m <= LOG2_N
    ensures Reach(length, m) <= length + 0x4004 * m <= SAFE_LENGTH
  {
    if m > 0 { ReachIsSafe(length, m - 1); }
  }

  lemma HalvesAreShort(x: seq<Cx>, length: nat, from: nat)
    requires |x| % 2 == 0 && from < 2 && AllShort(x, length)
    ensures AllShort(EveryOther(x, from), length)
  {
    var half := EveryOther(x, from);
    forall i: nat | i < |half| ensures ShortAt(half, i, length) {
      assert ShortAt(x, 2 * i + from, length);
    }
  }

  /** What the transform leaves. */
  ghost function Bins(fft: Fft, stride: nat, x: seq<Cx>, m: nat): seq<Cx>
    requires |x| == Pow2(m)
  {
    Dit(fft.Butterfly(), stride, x, m)
  }

  /** One more stage over two halves that keep their lengths. */
  lemma StageKeepsLength(fft: Fft, stride: nat, x: seq<Cx>, lo: seq<Cx>, hi: seq<Cx>, m: nat, length: nat)
    requires |x| == Pow2(m) && 0 < m && length <= SAFE_LENGTH
    requires NearUnit(fft)
    requires lo == EveryOther(x, 0) && hi == EveryOther(x, 1)
    requires TransformFits(fft, 2 * stride, lo, m - 1) && TransformFits(fft, 2 * stride, hi, m - 1)
    requires AllShort(Bins(fft, 2 * stride, lo, m - 1), length)
    requires AllShort(Bins(fft, 2 * stride, hi, m - 1), length)
    ensures TransformFits(fft, stride, x, m)
    ensures AllShort(Bins(fft, stride, x, m), Grown(length))
  {
    JoinKeepsLength(fft, stride, Bins(fft, 2 * stride, lo, m - 1),
                    Bins(fft, 2 * stride, hi, m - 1), length);
  }

  lemma {:induction false} StagesKeepLength(fft: Fft, stride: nat, x: seq<Cx>, m: nat, length: nat, reach: nat)
    requires |x| == Pow2(m) && reach == Reach(length, m) <= SAFE_LENGTH && NearUnit(fft) && AllShort(x, length)
    ensures TransformFits(fft, stride, x, m) && AllShort(Bins(fft, stride, x, m), reach)
    decreases m
  {
    if m > 0 {
      var lo, hi, before := EveryOther(x, 0), EveryOther(x, 1), Reach(length, m - 1);
      HalvesAreShort(x, length, 0);
      HalvesAreShort(x, length, 1);
      StagesKeepLength(fft, 2 * stride, lo, m - 1, length, before);
      StagesKeepLength(fft, 2 * stride, hi, m - 1, length, before);
      StageKeepsLength(fft, stride, x, lo, hi, m, before);
    }
  }

  /**
   Whatever the input, as long as no bin is longer than half the range of `i32` less 2^18, no
   stage overflows, and no bin grows but for rounding.
   */
  lemma SignalNeverGrows(fft: Fft, stride: nat, x: seq<Cx>, m: nat, length: nat)
    requires |x| == Pow2(m) && m <= LOG2_N && length <= SAFE_LENGTH - 0x3_0000
    requires NearUnit(fft) && AllShort(x, length)
    ensures TransformFits(fft, stride, x, m)
    ensures AllShort(Bins(fft, stride, x, m), Reach(length, m))
  {
    ReachIsSafe(length, m);
    StagesKeepLength(fft, stride, x, m, length, Reach(length, m));
  }

  lemma SumOverflows(w: Cx, u: Cx, x: Cx)
    requires !InI32(u.re + Twiddled(w, x).re)
    ensures !NoOverflow(w, u, x)
  {
  }

  lemma TooMuchWraps(sum: int)
    requires 0x8000_0000 <= sum < 0x1_0000_0000
    ensures Wrap32(sum) == sum - 0x1_0000_0000
  {
    assert sum + 0x8000_0000 == 0x1_0000_0000 + (sum - 0x8000_0000);
  }

  /** The factor one leaves every bin as it is. */
  lemma OneTurnsNothing(x: Cx)
    requires InI32(x.re) && InI32(x.im)
    ensures Twiddled(Cx(UNIT, 0), x) == Rotate(Cx(UNIT, 0), x) == x
  {
    assert UNIT * x.re / UNIT == x.re && UNIT * x.im / UNIT == x.im;
    assert 0 * x.re == 0 && 0 * x.im == 0;
  }

  /**
   From half the range on bins do overflow, with the factor one that every stage begins with: the
   halved sum of two equal bins comes out negative.
   */
  lemma HalfTheRangeOverflows(x: Cx)
    requires InI32(x.re) && InI32(x.im) && x.re >= 0x4000_0000
    ensures !NoOverflow(Cx(UNIT, 0), x, x) && HalfSum(x, Rotate(Cx(UNIT, 0), x)).re < 0
  {
    OneTurnsNothing(x);
    SumOverflows(Cx(UNIT, 0), x, x);
    TooMuchWraps(x.re + x.re);
  }

  /** No table whose first factor is one, as every table of cosines has it, spares the transform. */
  lemma {:induction false} LoudConstantOverflows(fft: Fft, stride: nat, x: seq<Cx>, m: nat, bin: Cx)
    requires m > 0 && |x| == Pow2(m) && forall i :: 0 <= i < |x| ==> x[i] == bin
    requires InI32(bin.re) && InI32(bin.im) && bin.re >= 0x4000_0000
    requires fft.Twiddle(0) == Cx(UNIT, 0)
    ensures !TransformFits(fft, stride, x, m)
    decreases m
  {
    var lo, hi := EveryOther(x, 0), EveryOther(x, 1);
    if m == 1 {
      HalfTheRangeOverflows(bin);
      assert TwiddleIndex(0, stride) == 0 && lo[0] == hi[0] == bin;
      assert !JoinFits(fft, stride, lo, hi);
    } else {
      LoudConstantOverflows(fft, 2 * stride, lo, m - 1, bin);
    }
  }
}
