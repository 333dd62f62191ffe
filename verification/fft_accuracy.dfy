/**
 What the transform computes (audio/fft.rs): up to rounding, the sum of the inputs, each turned by
 its place and the bin's, over the number of inputs.

 The table of factors is any one whose entries turn by about the sum of their angles when they are
 multiplied.
 */
module FftAccuracy {
  import opened Arith
  import opened RadixTwo
  import opened FixedPointFft
  import opened FftRange
  import opened FftGrowth
  import opened Spectra

  // ------------------------------------------------------------------------ one level

  /** Rounding and halving a butterfly moves twice its first output by less than five raw units. */
  lemma SumIsNear(w: Cx, u: Cx, v: Cx)
    requires NoOverflow(w, u, v)
    ensures Short(Sub(Scale(2 * UNIT, HalfSum(u, Rotate(w, v))), Add(Scale(UNIT, u), Times(w, v))), 5 * UNIT)
  {
    var t := Twiddled(w, v);
    FitsMeansExact(w, u, v);
    RoundingIsSmall(w, v);
    HalvingIsSmall(Add(u, t));
    var d := HalfSum(u, Rotate(w, v));
    var off := Sub(Scale(UNIT, t), Times(w, v));
    var odd := Sub(Scale(2 * UNIT, d), Scale(UNIT, Add(u, t)));
    Triangle(off, odd, 3 * UNIT, 2 * UNIT);
  }

  /** And its second output likewise. */
  lemma DifferenceIsNear(w: Cx, u: Cx, v: Cx)
    requires NoOverflow(w, u, v)
    ensures Short(Sub(Scale(2 * UNIT, HalfDifference(u, Rotate(w, v))), Sub(Scale(UNIT, u), Times(w, v))), 5 * UNIT)
  {
    var t := Twiddled(w, v);
    FitsMeansExact(w, u, v);
    RoundingIsSmall(w, v);
    HalvingIsSmall(Sub(u, t));
    var d := HalfDifference(u, Rotate(w, v));
    var off := Sub(Scale(UNIT, t), Times(w, v));
    var odd := Sub(Scale(2 * UNIT, d), Scale(UNIT, Sub(u, t)));
    ShortNegated(off, 3 * UNIT);
    Triangle(Neg(off), odd, 3 * UNIT, 2 * UNIT);
  }

  lemma HalvingIsSmall(s: Cx)
    ensures Short(Sub(Scale(2 * UNIT, Cx(s.re / 2, s.im / 2)), Scale(UNIT, s)), 2 * UNIT)
  {
    assert -1 <= 2 * (s.re / 2) - s.re <= 0 && -1 <= 2 * (s.im / 2) - s.im <= 0;
    var odd := Sub(Scale(2 * UNIT, Cx(s.re / 2, s.im / 2)), Scale(UNIT, s));
    assert odd.re == UNIT * (2 * (s.re / 2) - s.re) && odd.im == UNIT * (2 * (s.im / 2) - s.im);
  }

  /** How far `count` times a bin is from the sum it stands for. */
  function Off(bin: Cx, count: nat, sum: Cx): Cx { Sub(Scale(UNIT, Scale(count, bin)), sum) }

  /** One part of the account of an error below. */
  lemma PartAdds(p: int, u: int, wv: int, d: int, lo: int, whi: int, odd: int)
    ensures UNIT * (UNIT * (p * u) - lo) + (UNIT * (p * wv) - whi) + UNIT * (p * (2 * UNIT * d - (UNIT * u + wv)))
            + (whi - UNIT * odd)
            == UNIT * (UNIT * (2 * p * d) - (lo + odd))
  {
    Spread(p, 2 * UNIT * d, UNIT * u + wv);
    Spread(p, UNIT * u, wv);
    Regrouped(p, UNIT, u);
    Regrouped(p, 2 * UNIT, d);
    Regrouped(2, p, d);
  }

  /**
   The error of a bin is that of the first half, that of the second turned, the rounding, and what
   the table is off by.
   */
  lemma ErrorAdds(w: Cx, u: Cx, v: Cx, d: Cx, p: nat, lo: Cx, hi: Cx, odd: Cx)
    ensures Scale(UNIT, Off(d, 2 * p, Add(lo, odd)))
            == Add(Add(Scale(UNIT, Off(u, p, lo)), Times(w, Off(v, p, hi))),
                   Add(Scale(UNIT, Scale(p, Sub(Scale(2 * UNIT, d), Add(Scale(UNIT, u), Times(w, v))))),
                       Sub(Times(w, hi), Scale(UNIT, odd))))
  {
    TimesSpreads(w, Scale(UNIT, Scale(p, v)), hi);
    TimesScales(w, UNIT, Scale(p, v));
    TimesScales(w, p, v);
    var wv, whi := Times(w, v), Times(w, hi);
    PartAdds(p, u.re, wv.re, d.re, lo.re, whi.re, odd.re);
    PartAdds(p, u.im, wv.im, d.im, lo.im, whi.im, odd.im);
  }

  /** What one level adds to twice the error of the level below. */
  function LevelError(length: nat, slack: nat): nat {
    5 * UNIT + length * slack / UNIT + 1
  }

  /** The error of a bin of `2 * p` inputs, from that of the bins of `p` it is made of. */
  function NextError(e: nat, p: nat, length: nat, slack: nat): nat {
    MulMonotone(0, p, LevelError(length, slack));
    2 * e + 2 * e / UNIT + 1 + p * LevelError(length, slack)
  }

  /** The error of a bin after `m` levels, as a multiple of the number of inputs. */
  function Error(m: nat, length: nat, slack: nat): nat {
    if m == 0 then 0 else NextError(Error(m - 1, length, slack), Pow2(m - 1), length, slack)
  }

  lemma ErrorCovers(e: nat, p: nat, length: nat, slack: nat)
    ensures UNIT * e + FACTOR_LENGTH * e + (UNIT * (p * (5 * UNIT)) + p * (length * slack))
            <= UNIT * (NextError(e, p, length, slack))
  {
    var each := length * slack;
    var q := each / UNIT + 1;
    assert each <= UNIT * q;
    MulMonotone(each, UNIT * q, p);
    Regrouped(p, UNIT, q);
    Spread(p, 5 * UNIT, q);
    Regrouped(UNIT, p, 5 * UNIT);
  }

  /** The bounds on the four parts add up. */
  lemma LevelIsNear(w: Cx, u: Cx, v: Cx, d: Cx, p: nat, lo: Cx, hi: Cx, odd: Cx, e: nat, length: nat, slack: nat)
    requires Short(w, FACTOR_LENGTH) && Short(Off(u, p, lo), e) && Short(Off(v, p, hi), e)
    requires Short(Sub(Scale(2 * UNIT, d), Add(Scale(UNIT, u), Times(w, v))), 5 * UNIT)
    requires Short(Sub(Times(w, hi), Scale(UNIT, odd)), OddError(p, length, slack))
    ensures Short(Off(d, 2 * p, Add(lo, odd)), NextError(e, p, length, slack))
  {
    var r := Sub(Scale(2 * UNIT, d), Add(Scale(UNIT, u), Times(w, v)));
    var o := Sub(Times(w, hi), Scale(UNIT, odd));
    var a, b, c := Scale(UNIT, Off(u, p, lo)), Times(w, Off(v, p, hi)), Scale(UNIT, Scale(p, r));
    ErrorAdds(w, u, v, d, p, lo, hi, odd);
    ScaledUp(Off(u, p, lo), e, UNIT);
    TimesShort(w, Off(v, p, hi), FACTOR_LENGTH, e);
    ScaledUp(r, 5 * UNIT, p);
    ScaledUp(Scale(p, r), p * (5 * UNIT), UNIT);
    Triangle(a, b, UNIT * e, FACTOR_LENGTH * e);
    Triangle(c, o, UNIT * (p * (5 * UNIT)), p * (length * slack));
    Triangle(Add(a, b), Add(c, o), UNIT * e + FACTOR_LENGTH * e, UNIT * (p * (5 * UNIT)) + p * (length * slack));
    ErrorCovers(e, p, length, slack);
    var bound := NextError(e, p, length, slack);
    Longer(Scale(UNIT, Off(d, 2 * p, Add(lo, odd))),
           UNIT * e + FACTOR_LENGTH * e + (UNIT * (p * (5 * UNIT)) + p * (length * slack)), UNIT * bound);
    Scaled(Off(d, 2 * p, Add(lo, odd)), bound, UNIT);
  }

  lemma ScaledUp(x: Cx, length: nat, c: nat)
    requires Short(x, length)
    ensures Short(Scale(c, x), c * length)
  {
    if c > 0 { Scaled(x, length, c); }
  }

  // --------------------------------------------------------------------- all the levels

  ghost predicate HeldAt(fft: Fft, t: nat -> Cx, a: nat) { t(a) == fft.Twiddle(a) }

  /** The first half of the circle is in the table, and all of it is nearly of unit length, begins with one and adds up. */
  ghost predicate Serves(fft: Fft, t: nat -> Cx, half: nat, slack: nat) {
    && half > 0 && NearUnit(fft) && Opposes(t, half) && Adds(t, slack)
    && t(0).re == UNIT && t(0).im == 0
    && forall a: nat :: a < half ==> HeldAt(fft, t, a)
  }

  /** `count` times the bin is within `e` of the sum of that angle. */
  ghost predicate Within(t: nat -> Cx, x: seq<Cx>, step: nat, bin: Cx, count: nat, e: nat)
    requires |x| > 0
  {
    Short(Off(bin, count, Spectrum(t, x, step)), e)
  }

  /** The bin is as near the sum of that angle as `m` levels allow. */
  ghost predicate IsNear(t: nat -> Cx, x: seq<Cx>, step: nat, bin: Cx, m: nat, length: nat, slack: nat)
    requires |x| > 0
  {
    forall e: nat :: e >= Error(m, length, slack) ==> Within(t, x, step, bin, Pow2(m), e)
  }

  lemma WithinIsNear(t: nat -> Cx, x: seq<Cx>, step: nat, bin: Cx, m: nat, length: nat, slack: nat)
    requires |x| > 0 && Within(t, x, step, bin, Pow2(m), Error(m, length, slack))
    ensures IsNear(t, x, step, bin, m, length, slack)
  {
    var off := Off(bin, Pow2(m), Spectrum(t, x, step));
    forall e: nat | e >= Error(m, length, slack) ensures Within(t, x, step, bin, Pow2(m), e) {
      Longer(off, Error(m, length, slack), e);
    }
  }

  lemma LoneSum(t: nat -> Cx, x: seq<Cx>)
    requires |x| == 1 && t(0).re == UNIT && t(0).im == 0
    ensures Spectrum(t, x, 0) == Scale(UNIT, x[0])
  {
    var f := Places(t, x, 0);
    assert Angle(0, 0) == 0;
    OneTurns(x[0], t(0));
    assert f(0) == Scale(UNIT, x[0]);
  }

  lemma LoneBin(t: nat -> Cx, x: seq<Cx>, length: nat, slack: nat)
    requires |x| == 1 && t(0).re == UNIT && t(0).im == 0
    ensures IsNear(t, x, 0, x[0], 0, length, slack)
  {
    LoneSum(t, x);
    NothingOff(x[0]);
    WithinIsNear(t, x, 0, x[0], 0, length, slack);
  }

  lemma NothingOff(bin: Cx)
    ensures Short(Off(bin, 1, Scale(UNIT, bin)), 0)
  {
  }

  lemma OneTurns(x: Cx, one: Cx)
    requires one.re == UNIT && one.im == 0
    ensures Times(x, one) == Scale(UNIT, x)
  {
    assert x.re * 0 == 0 && x.im * 0 == 0;
  }

  lemma SmallAngle(stride: nat, p: nat, k: nat, half: nat)
    requires stride * (2 * p) == 2 * half > 0 && k < p
    ensures 2 * stride * p == 2 * half
    ensures Angle(stride, k) < half && TwiddleIndex(k, stride) == Angle(stride, k)
    ensures Angle(2 * stride, k) == 2 * Angle(stride, k)
    ensures Angle(stride, k + p) == Angle(stride, k) + half
  {
    Regrouped(stride, 2, p);
    Regrouped(2, stride, p);
    Spread(stride, k, p - k);
    Larger(p - k, stride);
    Regrouped(2, stride, k);
    Spread(stride, k, p);
  }

  /** One butterfly takes two bins near their sums to two near the sums of both. */
  lemma ButterflyIsNear(w: Cx, u: Cx, v: Cx, p: nat, lo: Cx, hi: Cx, odd: Cx, e: nat, length: nat, slack: nat)
    requires Short(w, FACTOR_LENGTH) && NoOverflow(w, u, v) && Short(Off(u, p, lo), e) && Short(Off(v, p, hi), e)
    requires Short(Sub(Times(w, hi), Scale(UNIT, odd)), OddError(p, length, slack))
    ensures Short(Off(HalfSum(u, Rotate(w, v)), 2 * p, Add(lo, odd)), NextError(e, p, length, slack))
    ensures Short(Off(HalfDifference(u, Rotate(w, v)), 2 * p, Sub(lo, odd)), NextError(e, p, length, slack))
  {
    SumIsNear(w, u, v);
    DifferenceIsNear(w, u, v);
    LevelIsNear(w, u, v, HalfSum(u, Rotate(w, v)), p, lo, hi, odd, e, length, slack);
    OppositeIsNear(w, u, v, HalfDifference(u, Rotate(w, v)), p, lo, hi, odd, e, length, slack);
  }

  /** So it takes the bins of the halves near to the sums of the whole. */
  lemma LevelUp(t: nat -> Cx, half: nat, x: seq<Cx>, step: nat, u: Cx, v: Cx, p: nat, e: nat, length: nat, slack: nat)
    requires |x| == 2 * p > 0 && AllShort(x, length)
    requires Opposes(t, half) && Adds(t, slack) && Short(t(step), FACTOR_LENGTH) && NoOverflow(t(step), u, v)
    requires Within(t, EveryOther(x, 0), 2 * step, u, p, e)
    requires Within(t, EveryOther(x, 1), 2 * step, v, p, e)
    ensures var w := Rotate(t(step), v);
            && Within(t, x, step, HalfSum(u, w), 2 * p, NextError(e, p, length, slack))
            && Within(t, x, step + half, HalfDifference(u, w), 2 * p, NextError(e, p, length, slack))
  {
    var lo, hi := EveryOther(x, 0), EveryOther(x, 1);
    HalvesAreShort(x, length, 1);
    OddPartIsTurned(t, hi, step, length, slack);
    SpectrumSplits(t, x, step);
    SpectrumSplitsHalfOn(t, half, x, step);
    ButterflyIsNear(t(step), u, v, p, Spectrum(t, lo, 2 * step), Spectrum(t, hi, 2 * step), OddPart(t, hi, step),
                    e, length, slack);
  }

  /** The same with the factor turned by half a circle. */
  lemma OppositeIsNear(w: Cx, u: Cx, v: Cx, d: Cx, p: nat, lo: Cx, hi: Cx, odd: Cx, e: nat, length: nat, slack: nat)
    requires Short(w, FACTOR_LENGTH) && Short(Off(u, p, lo), e) && Short(Off(v, p, hi), e)
    requires Short(Sub(Scale(2 * UNIT, d), Sub(Scale(UNIT, u), Times(w, v))), 5 * UNIT)
    requires Short(Sub(Times(w, hi), Scale(UNIT, odd)), OddError(p, length, slack))
    ensures Short(Off(d, 2 * p, Sub(lo, odd)), NextError(e, p, length, slack))
  {
    NegTimes(w, v);
    NegTimes(w, hi);
    ShortNegated(w, FACTOR_LENGTH);
    ShortNegated(Sub(Times(w, hi), Scale(UNIT, odd)), OddError(p, length, slack));
    LevelIsNear(Neg(w), u, v, d, p, lo, hi, Neg(odd), e, length, slack);
    AddNeg(lo, odd);
  }

  lemma NegTimes(w: Cx, v: Cx)
    ensures Times(Neg(w), v) == Neg(Times(w, v))
  {
    Spread(v.re, w.re, 0);
    Spread(v.im, w.im, 0);
    Spread(v.im, w.re, 0);
    Spread(v.re, w.im, 0);
  }

  /** The halves of the inputs of a transform. */
  ghost predicate Halves(x: seq<Cx>, m: nat, lo: seq<Cx>, hi: seq<Cx>) {
    && 0 < m && |x| == Pow2(m) == 2 * Pow2(m - 1)
    && lo == EveryOther(x, 0) && hi == EveryOther(x, 1) && |lo| == |hi| == Pow2(m - 1)
  }

  lemma ShortBinsFit(w: Cx, us: seq<Cx>, vs: seq<Cx>, at: nat, length: nat)
    requires Short(w, FACTOR_LENGTH) && at < |us| == |vs|
    requires AllShort(us, length) && AllShort(vs, length) && length <= SAFE_LENGTH
    ensures NoOverflow(w, us[at], vs[at])
  {
    assert ShortAt(us, at, length) && ShortAt(vs, at, length);
    ButterflyKeepsLength(w, us[at], vs[at], length);
  }

  lemma BinsLevelUp(t: nat -> Cx, half: nat, x: seq<Cx>, lo: seq<Cx>, hi: seq<Cx>, step: nat, u: Cx, v: Cx, m: nat,
                    length: nat, slack: nat)
    requires Halves(x, m, lo, hi) && AllShort(x, length)
    requires Opposes(t, half) && Adds(t, slack) && Short(t(step), FACTOR_LENGTH) && NoOverflow(t(step), u, v)
    requires IsNear(t, lo, 2 * step, u, m - 1, length, slack)
    requires IsNear(t, hi, 2 * step, v, m - 1, length, slack)
    ensures var w := Rotate(t(step), v);
            && IsNear(t, x, step, HalfSum(u, w), m, length, slack)
            && IsNear(t, x, step + half, HalfDifference(u, w), m, length, slack)
  {
    var p, e := Pow2(m - 1), Error(m - 1, length, slack);
    assert Within(t, lo, 2 * step, u, p, e);
    assert Within(t, hi, 2 * step, v, p, e);
    LevelUp(t, half, x, step, u, v, p, e, length, slack);
    var w := Rotate(t(step), v);
    WithinIsNear(t, x, step, HalfSum(u, w), m, length, slack);
    WithinIsNear(t, x, step + half, HalfDifference(u, w), m, length, slack);
  }

  /** The same for bins known to be short, as those of the halves are. */
  lemma ShortBinsLevelUp(fft: Fft, t: nat -> Cx, half: nat, x: seq<Cx>, lo: seq<Cx>, hi: seq<Cx>, step: nat,
                         us: seq<Cx>, vs: seq<Cx>, at: nat, reach: nat, m: nat, length: nat, slack: nat)
    requires Halves(x, m, lo, hi) && AllShort(x, length) && step < half && Serves(fft, t, half, slack)
    requires at < |us| == |vs| && AllShort(us, reach) && AllShort(vs, reach) && reach <= SAFE_LENGTH
    requires IsNear(t, lo, 2 * step, us[at], m - 1, length, slack)
    requires IsNear(t, hi, 2 * step, vs[at], m - 1, length, slack)
    ensures var w := Rotate(fft.Twiddle(step), vs[at]);
            && IsNear(t, x, step, HalfSum(us[at], w), m, length, slack)
            && IsNear(t, x, step + half, HalfDifference(us[at], w), m, length, slack)
  {
    assert HeldAt(fft, t, step) && NearUnitAt(fft, step);
    ShortBinsFit(t(step), us, vs, at, reach);
    BinsLevelUp(t, half, x, lo, hi, step, us[at], vs[at], m, length, slack);
  }

  ghost predicate BinIsNear(t: nat -> Cx, stride: nat, x: seq<Cx>, bins: seq<Cx>, m: nat, k: nat,
                            length: nat, slack: nat)
    requires |x| > 0 && k < |bins|
  {
    IsNear(t, x, Angle(stride, k), bins[k], m, length, slack)
  }

  /** Every bin is as near its sum as `m` levels allow. */
  ghost predicate AllNear(t: nat -> Cx, stride: nat, x: seq<Cx>, bins: seq<Cx>, m: nat, length: nat, slack: nat)
    requires |x| > 0
  {
    forall k: nat :: k < |bins| ==> BinIsNear(t, stride, x, bins, m, k, length, slack)
  }

  /** The bins of a level, from those of the halves. */
  ghost predicate Level(fft: Fft, stride: nat, us: seq<Cx>, vs: seq<Cx>, bins: seq<Cx>) {
    |us| == |vs| && bins == Combine(fft.Butterfly(), stride, us, vs)
  }

  /** Both bins of a butterfly. */
  lemma LevelBins(fft: Fft, t: nat -> Cx, half: nat, stride: nat, x: seq<Cx>, lo: seq<Cx>, hi: seq<Cx>,
                  us: seq<Cx>, vs: seq<Cx>, bins: seq<Cx>, at: nat, step: nat, reach: nat, m: nat, length: nat, slack: nat)
    requires Halves(x, m, lo, hi) && AllShort(x, length) && step < half && Serves(fft, t, half, slack)
    requires Level(fft, stride, us, vs, bins) && at < |us|
    requires AllShort(us, reach) && AllShort(vs, reach) && reach <= SAFE_LENGTH
    requires TwiddleIndex(at, stride) == step && Angle(2 * stride, at) == 2 * step
    requires AllNear(t, 2 * stride, lo, us, m - 1, length, slack)
    requires AllNear(t, 2 * stride, hi, vs, m - 1, length, slack)
    ensures IsNear(t, x, step, bins[at], m, length, slack)
    ensures IsNear(t, x, step + half, bins[at + |us|], m, length, slack)
  {
    assert BinIsNear(t, 2 * stride, lo, us, m - 1, at, length, slack);
    assert BinIsNear(t, 2 * stride, hi, vs, m - 1, at, length, slack);
    ShortBinsLevelUp(fft, t, half, x, lo, hi, step, us, vs, at, reach, m, length, slack);
  }

  lemma UpperBin(t: nat -> Cx, stride: nat, x: seq<Cx>, bins: seq<Cx>, k: nat, step: nat, m: nat,
                 length: nat, slack: nat)
    requires |x| > 0 && k < |bins| && Angle(stride, k) == step && IsNear(t, x, step, bins[k], m, length, slack)
    ensures BinIsNear(t, stride, x, bins, m, k, length, slack)
  {
  }

  lemma {:induction false} PowersMultiply(s: nat, m: nat)
    ensures Pow2(s) * Pow2(m) == Pow2(s + m)
  {
    if s > 0 {
      PowersMultiply(s - 1, m);
      Regrouped(2, Pow2(s - 1), Pow2(m));
    }
  }

  /** The angle of a bin, from that of the butterfly it is in. */
  lemma AngleOfBin(s: nat, m: nat, half: nat, at: nat)
    requires m > 0 && half == Pow2(s + m - 1) && at < Pow2(m - 1)
    ensures TwiddleIndex(at, Pow2(s)) == Angle(Pow2(s), at) < half
    ensures Angle(Pow2(s + 1), at) == 2 * Angle(Pow2(s), at)
    ensures Angle(Pow2(s), at + Pow2(m - 1)) == Angle(Pow2(s), at) + half
  {
    PowersMultiply(s, m);
    SmallAngle(Pow2(s), Pow2(m - 1), at, half);
  }

  /** One more level, from halves whose bins are near their sums, for inputs `2^s` apart in a circle of `2^(s + m)`. */
  lemma LevelIsNearSums(fft: Fft, t: nat -> Cx, s: nat, half: nat, x: seq<Cx>, lo: seq<Cx>, hi: seq<Cx>,
                        us: seq<Cx>, vs: seq<Cx>, bins: seq<Cx>, reach: nat, m: nat, length: nat, slack: nat)
    requires Halves(x, m, lo, hi) && AllShort(x, length) && Serves(fft, t, half, slack) && half == Pow2(s + m - 1)
    requires Level(fft, Pow2(s), us, vs, bins) && |us| == |lo|
    requires AllShort(us, reach) && AllShort(vs, reach) && reach <= SAFE_LENGTH
    requires AllNear(t, Pow2(s + 1), lo, us, m - 1, length, slack)
    requires AllNear(t, Pow2(s + 1), hi, vs, m - 1, length, slack)
    ensures AllNear(t, Pow2(s), x, bins, m, length, slack)
  {
    var stride := Pow2(s);
    forall k: nat | k < |bins| ensures BinIsNear(t, stride, x, bins, m, k, length, slack) {
      var at := if k < |us| then k else k - |us|;
      AngleOfBin(s, m, half, at);
      LevelBins(fft, t, half, stride, x, lo, hi, us, vs, bins, at, Angle(stride, at), reach, m, length, slack);
      UpperBin(t, stride, x, bins, k, Angle(stride, k), m, length, slack);
    }
  }

  lemma LoneLevel(t: nat -> Cx, stride: nat, x: seq<Cx>, length: nat, slack: nat)
    requires |x| == 1 && t(0).re == UNIT && t(0).im == 0
    ensures AllNear(t, stride, x, x, 0, length, slack)
  {
    forall k: nat | k < |x| ensures BinIsNear(t, stride, x, x, 0, k, length, slack) {
      assert Angle(stride, k) == 0;
      LoneBin(t, x, length, slack);
    }
  }

  lemma HalvesOf(x: seq<Cx>, m: nat)
    requires |x| == Pow2(m) && 0 < m
    ensures Halves(x, m, EveryOther(x, 0), EveryOther(x, 1))
  {
  }

  lemma DitIsLevel(fft: Fft, stride: nat, x: seq<Cx>, lo: seq<Cx>, hi: seq<Cx>, m: nat)
    requires Halves(x, m, lo, hi)
    ensures Level(fft, stride, Bins(fft, 2 * stride, lo, m - 1), Bins(fft, 2 * stride, hi, m - 1), Bins(fft, stride, x, m))
  {
  }

  lemma BinsStayShort(fft: Fft, stride: nat, x: seq<Cx>, m: nat, length: nat, reach: nat)
    requires |x| == Pow2(m) && reach == Reach(length, m) <= SAFE_LENGTH && NearUnit(fft) && AllShort(x, length)
    ensures AllShort(Bins(fft, stride, x, m), reach)
  {
    StagesKeepLength(fft, stride, x, m, length, reach);
  }

  lemma LastLevelIsNear(fft: Fft, t: nat -> Cx, s: nat, half: nat, x: seq<Cx>, lo: seq<Cx>, hi: seq<Cx>, m: nat,
                        length: nat, slack: nat)
    requires Halves(x, m, lo, hi) && half == Pow2(s + m - 1) && Serves(fft, t, half, slack)
    requires AllShort(x, length) && AllShort(lo, length) && AllShort(hi, length)
    requires Reach(length, m - 1) <= SAFE_LENGTH
    requires AllNear(t, Pow2(s + 1), lo, Bins(fft, Pow2(s + 1), lo, m - 1), m - 1, length, slack)
    requires AllNear(t, Pow2(s + 1), hi, Bins(fft, Pow2(s + 1), hi, m - 1), m - 1, length, slack)
    ensures AllNear(t, Pow2(s), x, Bins(fft, Pow2(s), x, m), m, length, slack)
  {
    var us, vs, reach := Bins(fft, Pow2(s + 1), lo, m - 1), Bins(fft, Pow2(s + 1), hi, m - 1), Reach(length, m - 1);
    BinsStayShort(fft, Pow2(s + 1), lo, m - 1, length, reach);
    BinsStayShort(fft, Pow2(s + 1), hi, m - 1, length, reach);
    DitIsLevel(fft, Pow2(s), x, lo, hi, m);
    LevelIsNearSums(fft, t, s, half, x, lo, hi, us, vs, Bins(fft, Pow2(s), x, m), reach, m, length, slack);
  }

  /**
   Up to rounding, the number of inputs times a bin is the sum of the inputs, each turned by the
   bin's angle for every place before it.
   */
  lemma {:induction false} TransformIsNear(fft: Fft, t: nat -> Cx, s: nat, half: nat, x: seq<Cx>, m: nat,
                                           length: nat, slack: nat)
    requires |x| == Pow2(m) && s + m > 0 && half == Pow2(s + m - 1)
    requires Serves(fft, t, half, slack) && AllShort(x, length) && Reach(length, m) <= SAFE_LENGTH
    ensures AllNear(t, Pow2(s), x, Bins(fft, Pow2(s), x, m), m, length, slack)
    decreases m
  {
    if m == 0 {
      LoneLevel(t, Pow2(s), x, length, slack);
    } else {
      var lo, hi := EveryOther(x, 0), EveryOther(x, 1);
      HalvesOf(x, m);
      HalvesAreShort(x, length, 0);
      HalvesAreShort(x, length, 1);
      TransformIsNear(fft, t, s + 1, half, lo, m - 1, length, slack);
      TransformIsNear(fft, t, s + 1, half, hi, m - 1, length, slack);
      LastLevelIsNear(fft, t, s, half, x, lo, hi, m, length, slack);
    }
  }

  // ---------------------------------------------------------------------- the whole error

  /** The error of a bin of all `2^m` inputs, as a multiple of their number: as much for each level. */
  function WholeError(m: nat, length: nat, slack: nat): nat {
    MulMonotone(0, Pow2(m), LevelError(length, slack));
    MulMonotone(0, m, Pow2(m) * LevelError(length, slack));
    m * (Pow2(m) * LevelError(length, slack))
  }

  /** Each level adds about as much to a bin: after `m` of them it is off by less than `m` times that. */
  lemma {:induction false} ErrorIsLevels(m: nat, length: nat, slack: nat)
    requires m <= LOG2_N
    ensures Error(m, length, slack) <= WholeError(m, length, slack)
  {
    if m > 0 {
      var level := LevelError(length, slack);
      var part := Pow2(m - 1) * level;
      ErrorIsLevels(m - 1, length, slack);
      MulMonotone(1, Pow2(m - 1), level);
      assert Pow2(m) * level == 2 * part by { Regrouped(2, Pow2(m - 1), level); }
      LevelsAdd(Error(m - 1, length, slack), m, part);
    }
  }

  lemma LevelsAdd(e: nat, m: nat, part: nat)
    requires 0 < m <= LOG2_N && e <= (m - 1) * part && part >= 5 * UNIT
    ensures 2 * e + 2 * e / UNIT + 1 + part <= m * (2 * part)
  {
    MulMonotone(m - 1, 9, part);
    assert e <= 9 * part;
    assert 2 * e / UNIT <= part / 2;
    Spread(part, m - 1, 1);
    Regrouped(m, 2, part);
  }

  // ------------------------------------------------------------------------- the table

  /** The factor of any angle: half the circle is in the table, the other half is its negative. */
  ghost function Turn(fft: Fft, n: nat, angle: nat): Cx
    requires n > 0
  {
    var r := angle % n;
    if r < n / 2 then fft.Twiddle(r) else Neg(fft.Twiddle(r - n / 2))
  }

  lemma RemainderIs(a: int, n: nat, q: int, r: nat)
    requires r < n && a == n * q + r
    ensures a % n == r
  {
    var p := a / n;
    assert a == n * p + a % n;
    Spread(n, p, q);
    if p > q { Larger(n, p - q); }
    if p < q { Larger(n, q - p); }
  }

  lemma Larger(n: nat, k: nat)
    requires k > 0
    ensures n * k >= n
  {
  }

  /** Half a turn more is the negative. */
  lemma HalfTurn(fft: Fft, half: nat, angle: nat)
    requires half > 0
    ensures Turn(fft, 2 * half, angle + half) == Neg(Turn(fft, 2 * half, angle))
  {
    var n, r := 2 * half, angle % (2 * half);
    var q := angle / n;
    assert angle == n * q + r;
    if r < half {
      RemainderIs(angle + half, n, q, r + half);
    } else {
      Spread(n, q, 1);
      RemainderIs(angle + half, n, q + 1, r - half);
    }
  }

  /** The whole circle, from the half of it in the table. */
  ghost function Circle(fft: Fft, n: nat): nat -> Cx
    requires n > 0
  {
    (angle: nat) => Turn(fft, n, angle)
  }

  /** A table for `n` inputs: nearly of unit length, one first, and adding up. */
  ghost predicate TurnsWell(fft: Fft, n: nat, slack: nat) {
    n > 0 && fft.Twiddle(0) == Cx(UNIT, 0) && NearUnit(fft) && Adds(Circle(fft, n), slack)
  }

  /** What any two products of factors of nearly unit length can differ by. */
  const LOOSE: nat := FACTOR_LENGTH * FACTOR_LENGTH + UNIT * FACTOR_LENGTH

  lemma CircleIsShort(fft: Fft, n: nat, a: nat)
    requires n > 0 && NearUnit(fft)
    ensures Short(Circle(fft, n)(a), FACTOR_LENGTH)
  {
    var r := a % n;
    assert NearUnitAt(fft, r) && NearUnitAt(fft, r - n / 2);
    if r >= n / 2 { ShortNegated(fft.Twiddle(r - n / 2), FACTOR_LENGTH); }
  }

  lemma CircleAddsLoosely(fft: Fft, n: nat, a: nat, b: nat)
    requires n > 0 && NearUnit(fft)
    ensures AddsAt(Circle(fft, n), LOOSE, a, b)
  {
    var t := Circle(fft, n);
    CircleIsShort(fft, n, a);
    CircleIsShort(fft, n, b);
    CircleIsShort(fft, n, a + b);
    TimesShort(t(a), t(b), FACTOR_LENGTH, FACTOR_LENGTH);
    Scaled(t(a + b), FACTOR_LENGTH, UNIT);
    ShortNegated(Scale(UNIT, t(a + b)), UNIT * FACTOR_LENGTH);
    Triangle(Times(t(a), t(b)), Neg(Scale(UNIT, t(a + b))), FACTOR_LENGTH * FACTOR_LENGTH, UNIT * FACTOR_LENGTH);
  }

  /** Every table of nearly unit length that begins with one turns well, for some slack. */
  lemma EveryTableTurns(fft: Fft, n: nat)
    requires n > 0 && NearUnit(fft) && fft.Twiddle(0) == Cx(UNIT, 0)
    ensures TurnsWell(fft, n, LOOSE)
  {
    forall a: nat, b: nat ensures AddsAt(Circle(fft, n), LOOSE, a, b) {
      CircleAddsLoosely(fft, n, a, b);
    }
  }

  lemma CircleOpposes(fft: Fft, half: nat)
    requires half > 0
    ensures Opposes(Circle(fft, 2 * half), half)
  {
    var t := Circle(fft, 2 * half);
    forall a: nat ensures OppositeAt(t, half, a) {
      HalfTurn(fft, half, a);
    }
  }

  lemma CircleHolds(fft: Fft, half: nat, a: nat)
    requires a < half
    ensures HeldAt(fft, Circle(fft, 2 * half), a)
  {
    assert a % (2 * half) == a;
  }

  lemma TableServes(fft: Fft, half: nat, slack: nat)
    requires half > 0 && TurnsWell(fft, 2 * half, slack)
    ensures Serves(fft, Circle(fft, 2 * half), half, slack)
  {
    var t := Circle(fft, 2 * half);
    CircleOpposes(fft, half);
    forall a: nat | a < half ensures HeldAt(fft, t, a) {
      CircleHolds(fft, half, a);
    }
    assert HeldAt(fft, t, 0);
  }

  /**
   What the transform computes: each of `N = 2^m` bins is the sum of the inputs, turned by the
   table, over `N`, but for at most `m` times five raw units and what the table is off by.
   */
  lemma TransformIsTheSum(fft: Fft, x: seq<Cx>, m: nat, k: nat, length: nat, slack: nat)
    requires |x| == Pow2(m) && 0 < m <= LOG2_N && k < |x|
    requires TurnsWell(fft, |x|, slack) && AllShort(x, length) && length <= SAFE_LENGTH - 0x3_0000
    ensures Within(Circle(fft, |x|), x, k, Bins(fft, 1, x, m)[k], |x|, WholeError(m, length, slack))
  {
    var half, t, bins := Pow2(m - 1), Circle(fft, |x|), Bins(fft, 1, x, m);
    ReachIsSafe(length, m);
    TableServes(fft, half, slack);
    TransformIsNear(fft, t, 0, half, x, m, length, slack);
    assert BinIsNear(t, 1, x, bins, m, k, length, slack);
    assert Angle(1, k) == k;
    ErrorIsLevels(m, length, slack);
  }
}
