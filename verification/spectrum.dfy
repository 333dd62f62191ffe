/**
 Sums of bins turned by a circle of factors, over unrounded integers: what a discrete transform is
 meant to compute (audio/fft.rs), and how that splits into two of half the size.

 The circle is any function from angles to factors. Everything is in raw units; a product of two
 carries one more factor of `UNIT`.
 */
module Spectra {
  import opened Arith
  import opened RadixTwo
  import opened FixedPointFft
  import opened FftGrowth

  // ------------------------------------------------------------------ bins as numbers

  function Add(a: Cx, b: Cx): Cx { Cx(a.re + b.re, a.im + b.im) }

  function Sub(a: Cx, b: Cx): Cx { Cx(a.re - b.re, a.im - b.im) }

  function Neg(a: Cx): Cx { Cx(-a.re, -a.im) }

  function Scale(c: int, a: Cx): Cx { Cx(c * a.re, c * a.im) }

  /** The product of two bins, not yet rounded. */
  function Times(a: Cx, b: Cx): Cx {
    Cx(a.re * b.re - a.im * b.im, a.re * b.im + a.im * b.re)
  }

  lemma Spread(a: int, b: int, c: int)
    ensures a * (b + c) == a * b + a * c && a * (b - c) == a * b - a * c && a * -b == -(a * b)
  {
  }

  lemma Regrouped(a: int, b: int, c: int)
    ensures a * (b * c) == a * b * c == b * (a * c)
  {
  }

  lemma TimesSpreads(w: Cx, a: Cx, b: Cx)
    ensures Times(w, Add(a, b)) == Add(Times(w, a), Times(w, b))
    ensures Times(w, Sub(a, b)) == Sub(Times(w, a), Times(w, b))
  {
    Spread(w.re, a.re, b.re);
    Spread(w.im, a.im, b.im);
    Spread(w.re, a.im, b.im);
    Spread(w.im, a.re, b.re);
  }

  lemma TimesScales(w: Cx, c: int, a: Cx)
    ensures Times(w, Scale(c, a)) == Scale(c, Times(w, a))
    ensures Times(w, Neg(a)) == Neg(Times(w, a))
  {
    Regrouped(w.re, c, a.re);
    Regrouped(w.im, c, a.im);
    Regrouped(w.re, c, a.im);
    Regrouped(w.im, c, a.re);
    Spread(c, w.re * a.re, w.im * a.im);
    Spread(c, w.re * a.im, w.im * a.re);
    Spread(w.re, a.re, 0);
    Spread(w.im, a.im, 0);
    Spread(w.re, a.im, 0);
    Spread(w.im, a.re, 0);
  }

  /** The order of three factors does not matter. */
  lemma TimesSwaps(w: Cx, x: Cx, t: Cx)
    ensures Times(w, Times(x, t)) == Times(x, Times(w, t))
  {
    SwapParts(w.re, x, t);
    SwapParts(w.im, x, t);
    SwapParts(x.re, w, t);
    SwapParts(x.im, w, t);
    Regrouped(w.re, x.re, t.re);
    Regrouped(w.re, x.im, t.im);
    Regrouped(w.re, x.re, t.im);
    Regrouped(w.re, x.im, t.re);
    Regrouped(w.im, x.re, t.re);
    Regrouped(w.im, x.im, t.im);
    Regrouped(w.im, x.re, t.im);
    Regrouped(w.im, x.im, t.re);
  }

  lemma SwapParts(c: int, x: Cx, t: Cx)
    ensures c * Times(x, t).re == c * (x.re * t.re) - c * (x.im * t.im)
    ensures c * Times(x, t).im == c * (x.re * t.im) + c * (x.im * t.re)
  {
    Spread(c, x.re * t.re, x.im * t.im);
    Spread(c, x.re * t.im, x.im * t.re);
  }

  lemma TimesShort(a: Cx, b: Cx, p: nat, q: nat)
    requires Short(a, p) && Short(b, q)
    ensures Short(Times(a, b), p * q)
  {
    Turned(a, b, p, q);
  }

  // ------------------------------------------------------------------------------ sums

  /** The first `j` values of `f` together. */
  ghost function SumOf(f: nat -> Cx, j: nat): Cx
    requires j > 0
  {
    if j == 1 then f(0) else Add(SumOf(f, j - 1), f(j - 1))
  }

  lemma {:induction false} SumsAgree(f: nat -> Cx, g: nat -> Cx, j: nat)
    requires j > 0 && forall i :: 0 <= i < j ==> f(i) == g(i)
    ensures SumOf(f, j) == SumOf(g, j)
  {
    if j > 1 { SumsAgree(f, g, j - 1); }
  }

  lemma {:induction false} SumsNegate(f: nat -> Cx, g: nat -> Cx, j: nat)
    requires j > 0 && forall i :: 0 <= i < j ==> f(i) == Neg(g(i))
    ensures SumOf(f, j) == Neg(SumOf(g, j))
  {
    if j > 1 { SumsNegate(f, g, j - 1); }
  }

  lemma AddRegroups(s: Cx, o: Cx, e: Cx, t: Cx)
    ensures Add(Add(Add(s, o), e), t) == Add(Add(s, e), Add(o, t))
  {
  }

  /** Even places and odd ones. */
  lemma {:induction false} SumSplits(f: nat -> Cx, even: nat -> Cx, odd: nat -> Cx, j: nat)
    requires j > 0 && forall i :: 0 <= i < j ==> even(i) == f(2 * i) && odd(i) == f(2 * i + 1)
    ensures SumOf(f, 2 * j) == Add(SumOf(even, j), SumOf(odd, j))
  {
    var i := j - 1;
    if i == 0 {
      assert SumOf(f, 2) == Add(SumOf(f, 1), f(1));
    } else {
      SumSplits(f, even, odd, i);
      assert SumOf(f, 2 * i + 1) == Add(SumOf(f, 2 * i), f(2 * i));
      assert SumOf(f, 2 * i + 2) == Add(SumOf(f, 2 * i + 1), f(2 * i + 1));
      AddRegroups(SumOf(even, i), SumOf(odd, i), f(2 * i), f(2 * i + 1));
    }
  }

  /** Two differences of products add up to the difference of the sums. */
  lemma DifferencesAdd(w: Cx, s: Cx, e: Cx, o: Cx, t: Cx, p: nat, q: nat)
    requires Short(Sub(Times(w, s), Scale(UNIT, o)), p) && Short(Sub(Times(w, e), Scale(UNIT, t)), q)
    ensures Short(Sub(Times(w, Add(s, e)), Scale(UNIT, Add(o, t))), p + q)
  {
    TimesSpreads(w, s, e);
    Triangle(Sub(Times(w, s), Scale(UNIT, o)), Sub(Times(w, e), Scale(UNIT, t)), p, q);
  }

  /** `j` times as much. */
  function Fold(j: nat, each: nat): nat {
    MulMonotone(0, j, each);
    j * each
  }

  lemma FoldNext(j: nat, each: nat)
    ensures Fold(0, each) == 0 && Fold(j + 1, each) == Fold(j, each) + each
  {
    Spread(each, j, 1);
  }

  /** If turning by `w` takes each term to about another, it takes the sum to about the other. */
  lemma {:induction false} SumsTurn(w: Cx, f: nat -> Cx, g: nat -> Cx, j: nat, each: nat)
    requires j > 0 && forall i :: 0 <= i < j ==> Short(Sub(Times(w, f(i)), Scale(UNIT, g(i))), each)
    ensures Short(Sub(Times(w, SumOf(f, j)), Scale(UNIT, SumOf(g, j))), Fold(j, each))
  {
    var i := j - 1;
    FoldNext(i, each);
    if i > 0 {
      SumsTurn(w, f, g, i, each);
      DifferencesAdd(w, SumOf(f, i), f(i), SumOf(g, i), g(i), Fold(i, each), each);
    }
  }

  // ------------------------------------------------------------------------- a circle

  /** Half a circle on stands the negative. */
  ghost predicate OppositeAt(t: nat -> Cx, half: nat, a: nat) {
    t(a + half) == Neg(t(a))
  }

  ghost predicate Opposes(t: nat -> Cx, half: nat) {
    forall a: nat :: OppositeAt(t, half, a)
  }

  /** Turning by one angle and by another is turning by both, but for `slack`. */
  ghost predicate AddsAt(t: nat -> Cx, slack: nat, a: nat, b: nat) {
    Short(Sub(Times(t(a), t(b)), Scale(UNIT, t(a + b))), slack)
  }

  ghost predicate Adds(t: nat -> Cx, slack: nat) {
    forall a: nat, b: nat :: AddsAt(t, slack, a, b)
  }

  lemma {:induction false} WholeTurns(t: nat -> Cx, half: nat, a: nat, i: nat)
    requires Opposes(t, half)
    ensures t(a + Fold(i, 2 * half)) == t(a)
    decreases i
  {
    if i == 0 {
      assert Fold(i, 2 * half) == 0;
    } else {
      var b := a + Fold(i - 1, 2 * half);
      FoldNext(i - 1, 2 * half);
      WholeTurns(t, half, a, i - 1);
      assert OppositeAt(t, half, b) && OppositeAt(t, half, b + half);
    }
  }

  // ----------------------------------------------------------------------- the spectrum

  /** The angle of a place when each turns by `step` more than the one before. */
  function Angle(step: nat, i: nat): nat {
    MulMonotone(0, step, i);
    step * i
  }

  /** An input, turned for its place. */
  ghost function Places(t: nat -> Cx, x: seq<Cx>, step: nat): nat -> Cx {
    (i: nat) => var f := t(Angle(step, i)); if i < |x| then Times(x[i], f) else f
  }

  /** The same for inputs that stand at the odd places of others. */
  ghost function OddPlaces(t: nat -> Cx, hi: seq<Cx>, step: nat): nat -> Cx {
    (i: nat) => var f := t(Angle(step, 2 * i + 1)); if i < |hi| then Times(hi[i], f) else f
  }

  /** The sum a bin stands for: all inputs, each turned by `step` for every place before it. */
  ghost function Spectrum(t: nat -> Cx, x: seq<Cx>, step: nat): Cx
    requires |x| > 0
  {
    SumOf(Places(t, x, step), |x|)
  }

  ghost function OddPart(t: nat -> Cx, hi: seq<Cx>, step: nat): Cx
    requires |hi| > 0
  {
    SumOf(OddPlaces(t, hi, step), |hi|)
  }

  lemma EvenAngle(step: nat, i: nat)
    ensures Angle(2 * step, i) == Angle(step, 2 * i)
    ensures step + Angle(2 * step, i) == Angle(step, 2 * i + 1)
  {
    Regrouped(2, step, i);
    Spread(step, 2 * i, 1);
  }

  /** A sum over all places is one over the even places, at twice the step, and one over the odd. */
  lemma SpectrumSplits(t: nat -> Cx, x: seq<Cx>, step: nat)
    requires |x| > 0 && |x| % 2 == 0
    ensures Spectrum(t, x, step) == Add(Spectrum(t, EveryOther(x, 0), 2 * step), OddPart(t, EveryOther(x, 1), step))
  {
    var lo, hi := EveryOther(x, 0), EveryOther(x, 1);
    var f, even, odd := Places(t, x, step), Places(t, lo, 2 * step), OddPlaces(t, hi, step);
    forall i | 0 <= i < |x| / 2 ensures even(i) == f(2 * i) && odd(i) == f(2 * i + 1) {
      EvenAngle(step, i);
      assert lo[i] == x[2 * i] && hi[i] == x[2 * i + 1];
    }
    SumSplits(f, even, odd, |x| / 2);
  }

  lemma HalfAngles(half: nat, step: nat, i: nat)
    ensures Angle(2 * (step + half), i) == Angle(2 * step, i) + Fold(i, 2 * half)
    ensures Angle(step + half, 2 * i + 1) == Angle(step, 2 * i + 1) + half + Fold(i, 2 * half)
  {
    Spread(i, 2 * step, 2 * half);
    Spread(2 * i + 1, step, half);
    Spread(half, 2 * i, 1);
    Regrouped(2, half, i);
  }

  /** Half a circle on, the factors of even places are the same and those of odd places the negative. */
  lemma HalfACircleOn(t: nat -> Cx, half: nat, step: nat, i: nat)
    requires Opposes(t, half)
    ensures t(Angle(2 * (step + half), i)) == t(Angle(2 * step, i))
    ensures t(Angle(step + half, 2 * i + 1)) == Neg(t(Angle(step, 2 * i + 1)))
  {
    HalfAngles(half, step, i);
    WholeTurns(t, half, Angle(2 * step, i), i);
    WholeTurns(t, half, Angle(step, 2 * i + 1) + half, i);
    assert OppositeAt(t, half, Angle(step, 2 * i + 1));
  }

  lemma AddNeg(a: Cx, b: Cx)
    ensures Add(a, Neg(b)) == Sub(a, b)
  {
  }

  lemma EvenRepeats(t: nat -> Cx, half: nat, lo: seq<Cx>, step: nat)
    requires |lo| > 0 && Opposes(t, half)
    ensures Spectrum(t, lo, 2 * (step + half)) == Spectrum(t, lo, 2 * step)
  {
    var f, g := Places(t, lo, 2 * (step + half)), Places(t, lo, 2 * step);
    forall i | 0 <= i < |lo| ensures f(i) == g(i) {
      HalfACircleOn(t, half, step, i);
    }
    SumsAgree(f, g, |lo|);
  }

  lemma OddNegates(t: nat -> Cx, half: nat, hi: seq<Cx>, step: nat)
    requires |hi| > 0 && Opposes(t, half)
    ensures OddPart(t, hi, step + half) == Neg(OddPart(t, hi, step))
  {
    var f, g := OddPlaces(t, hi, step + half), OddPlaces(t, hi, step);
    forall i | 0 <= i < |hi| ensures f(i) == Neg(g(i)) {
      HalfACircleOn(t, half, step, i);
      TimesScales(hi[i], 1, t(Angle(step, 2 * i + 1)));
    }
    SumsNegate(f, g, |hi|);
  }

  /** The bin half a circle on takes the odd places the other way. */
  lemma SpectrumSplitsHalfOn(t: nat -> Cx, half: nat, x: seq<Cx>, step: nat)
    requires |x| > 0 && |x| % 2 == 0 && Opposes(t, half)
    ensures Spectrum(t, x, step + half)
            == Sub(Spectrum(t, EveryOther(x, 0), 2 * step), OddPart(t, EveryOther(x, 1), step))
  {
    var lo, hi := EveryOther(x, 0), EveryOther(x, 1);
    SpectrumSplits(t, x, step + half);
    EvenRepeats(t, half, lo, step);
    OddNegates(t, half, hi, step);
    AddNeg(Spectrum(t, lo, 2 * step), OddPart(t, hi, step));
  }

  lemma TermIsNear(x: Cx, w: Cx, t: Cx, both: Cx, length: nat, slack: nat)
    requires Short(x, length) && Short(Sub(Times(w, t), Scale(UNIT, both)), slack)
    ensures Short(Sub(Times(w, Times(x, t)), Scale(UNIT, Times(x, both))), length * slack)
  {
    TimesSwaps(w, x, t);
    TimesScales(x, UNIT, both);
    TimesSpreads(x, Times(w, t), Scale(UNIT, both));
    TimesShort(x, Sub(Times(w, t), Scale(UNIT, both)), length, slack);
  }

  /** What the table is off by over the odd places, in units of the products. */
  function OddError(count: nat, length: nat, slack: nat): nat {
    Fold(count, Fold(length, slack))
  }

  /** The odd places are the inputs there transformed, and turned once more. */
  lemma OddPartIsTurned(t: nat -> Cx, hi: seq<Cx>, step: nat, length: nat, slack: nat)
    requires |hi| > 0 && AllShort(hi, length) && Adds(t, slack)
    ensures Short(Sub(Times(t(step), Spectrum(t, hi, 2 * step)), Scale(UNIT, OddPart(t, hi, step))),
                  OddError(|hi|, length, slack))
  {
    var w, f, g := t(step), Places(t, hi, 2 * step), OddPlaces(t, hi, step);
    forall i | 0 <= i < |hi| ensures Short(Sub(Times(w, f(i)), Scale(UNIT, g(i))), Fold(length, slack)) {
      EvenAngle(step, i);
      assert AddsAt(t, slack, step, Angle(2 * step, i)) && ShortAt(hi, i, length);
      TermIsNear(hi[i], w, t(Angle(2 * step, i)), t(Angle(step, 2 * i + 1)), length, slack);
    }
    SumsTurn(w, f, g, |hi|, Fold(length, slack));
  }
}
