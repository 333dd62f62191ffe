/**
 The fixed-point transform (audio/fft.rs).

 `Fft.Transform` overwrites two arrays in three nested loops after a bit-reversed
 reordering. It computes the recursive definition `Dit`, built from the same
 rounding butterfly, for every power-of-two size and every input, wrap-around
 included.
 */
module FixedPointFft {
  import opened Arith
  import opened BitReversal
  import opened RadixTwo

  const LOG2_N: nat := 10

  /** One bin: the raw Q16 bits of its real and imaginary parts. */
  datatype Cx = Cx(re: int, im: int)

  /** Q16 multiply: widened to `i64`, floored by the shift, cut down to `i32`. */
  function Mul(a: int, b: int): int {
    Wrap32(a * b / 0x1_0000)
  }

  /** The twiddled second input of a butterfly. */
  function Rotate(w: Cx, x: Cx): Cx {
    Cx(Wrap32(Mul(w.re, x.re) - Mul(w.im, x.im)), Wrap32(Mul(w.re, x.im) + Mul(w.im, x.re)))
  }

  /** The halved sum a butterfly leaves in its first slot. */
  function HalfSum(u: Cx, t: Cx): Cx {
    Cx(Wrap32(u.re + t.re) / 2, Wrap32(u.im + t.im) / 2)
  }

  /** The halved difference it leaves in its second slot. */
  function HalfDifference(u: Cx, t: Cx): Cx {
    Cx(Wrap32(u.re - t.re) / 2, Wrap32(u.im - t.im) / 2)
  }

  /** Both arrays, read as one sequence of bins. */
  ghost function View(re: array<int>, im: array<int>): (s: seq<Cx>)
    requires re.Length == im.Length
    reads re, im
    ensures |s| == re.Length
  {
    seq(re.Length, i requires 0 <= i < re.Length reads re, im => Cx(re[i], im[i]))
  }

  /** The precomputed twiddle factors, one per index below half the size. */
  datatype Fft = Fft(cos: seq<int>, sin: seq<int>) {

    predicate Sized(m: nat) {
      |cos| == |sin| == Pow2(m) / 2
    }

    /** Every butterfly of a stage finds its factor in the table. */
    predicate Reaches(half: nat, stride: nat) {
      |cos| == |sin| && forall k: nat :: k < half ==> 0 <= TwiddleIndex(k, stride) < |cos|
    }

    ghost function Twiddle(w: int): Cx {
      if 0 <= w < |cos| && w < |sin| then Cx(cos[w], sin[w]) else Cx(0, 0)
    }

    /** The rounding butterfly, as the recursive definition uses it. */
    ghost function Butterfly(): Fly<Cx> {
      (w, u, x) => (HalfSum(u, Rotate(Twiddle(w), x)), HalfDifference(u, Rotate(Twiddle(w), x)))
    }

    /** One butterfly: both slots are rewritten from their old contents. */
    method ButterflyInPlace(re: array<int>, im: array<int>, i: nat, j: nat, w: nat)
      requires re != im && re.Length == im.Length
      requires i < j < re.Length && w < |cos| == |sin|
      modifies re, im
      ensures var y := old(View(re, im));
              var r := Butterfly()(w, y[i], y[j]);
              View(re, im) == y[i := r.0][j := r.1]
    {
      ghost var y := View(re, im);
      ghost var r := Butterfly()(w, y[i], y[j]);
      var wr, wi := cos[w], sin[w];
      var tr := Wrap32(Mul(wr, re[j]) - Mul(wi, im[j]));
      var ti := Wrap32(Mul(wr, im[j]) + Mul(wi, re[j]));
      var ur, ui := re[i], im[i];
      re[i] := Wrap32(ur + tr) / 2;
      im[i] := Wrap32(ui + ti) / 2;
      re[j] := Wrap32(ur - tr) / 2;
      im[j] := Wrap32(ui - ti) / 2;
      assert View(re, im)[i] == r.0 && View(re, im)[j] == r.1;
      assert forall k :: 0 <= k < re.Length && k != i && k != j ==> View(re, im)[k] == y[k];
    }

    /** The butterflies of one block, in place. */
    method JoinBlock(re: array<int>, im: array<int>, start: nat, half: nat, stride: nat)
      requires re != im && re.Length == im.Length
      requires start + 2 * half <= re.Length
      requires Reaches(half, stride)
      modifies re, im
      ensures var y := old(View(re, im));
              View(re, im) == y[..start] + JoinedFrom(Butterfly(), y, start, half, stride) + y[start + 2 * half..]
    {
      ghost var y, fly := View(re, im), Butterfly();
      ghost var c := JoinedFrom(fly, y, start, half, stride);
      SplicedEnds(y, start, half, c);
      var k := 0;
      while k < half
        invariant k <= half
        invariant View(re, im) == Spliced(y, start, half, c, k)
      {
        SplicedStep(fly, y, start, half, stride, k);
        ButterflyInPlace(re, im, start + k, start + k + half, TwiddleIndex(k, stride));
        k := k + 1;
      }
    }

    /** One stage of the transform, in place. */
    method Stage(re: array<int>, im: array<int>, half: nat, m: nat, ghost s: nat)
      requires re != im && re.Length == im.Length == Pow2(m) && Sized(m)
      requires s < m && half == Pow2(s)
      modifies re, im
      ensures JoinedUpTo(Butterfly(), old(View(re, im)), View(re, im), m, s, Pow2(m - s - 1))
    {
      ghost var y, fly := View(re, im), Butterfly();
      var span := 2 * half;
      var stride := re.Length / span;
      assert stride == Pow2(m - s - 1) by { StrideOf(m, s); }
      FactorsFitTable(m, s, stride);
      var start := 0;
      ShlZero(s + 1);
      ghost var b: nat := 0;
      while start < re.Length
        invariant b <= Pow2(m - s - 1) && start == Shl(b, s + 1)
        invariant JoinedUpTo(fly, y, View(re, im), m, s, b)
        decreases re.Length - start
      {
        BlockCounts(b, m, s + 1);
        ghost var v := View(re, im);
        JoinsNext(fly, y, v, m, s, b, start, half);
        JoinBlock(re, im, start, half, stride);
        start, b := start + span, b + 1;
      }
      BlockCounts(b, m, s + 1);
    }

    /**
     The in-place transform. On return the arrays hold the recursive transform of
     what they held before, in natural bin order.
     */
    method Transform(re: array<int>, im: array<int>, m: nat)
      requires re != im && re.Length == im.Length == Pow2(m) && Sized(m)
      modifies re, im
      ensures View(re, im) == Dit(Butterfly(), 1, old(View(re, im)), m)
    {
      ghost var x, fly := View(re, im), Butterfly();
      BitReverse(re, m);
      BitReverse(im, m);
      assert View(re, im) == Reversed(x, m);
      StagedStart(fly, x, m);
      var half := 1;
      ghost var s := 0;
      while half < re.Length
        invariant s <= m && half == Pow2(s)
        invariant Staged(fly, x, View(re, im), m, s)
        decreases m - s
      {
        Pow2Climbs(s, m);
        ghost var y := View(re, im);
        Stage(re, im, half, m, s);
        StageClimbs(fly, x, y, View(re, im), m, s);
        half := 2 * half;
        s := s + 1;
      }
      Pow2Climbs(s, m);
      StagedEnd(fly, x, View(re, im), m);
    }
  }

  /** The twiddle stride of a stage divides the size exactly. */
  lemma StrideOf(m: nat, s: nat)
    requires s < m
    ensures Pow2(m) / (2 * Pow2(s)) == Pow2(m - s - 1)
  {
    Pow2Sum(m - s - 1, s + 1);
    Quotient(Pow2(m - s - 1), 0, Pow2(s + 1));
  }

  lemma FactorFits(half: nat, stride: nat, k: nat)
    requires k < half && stride > 0
    ensures 0 <= TwiddleIndex(k, stride) < half * stride
  {
    MulMonotone(k + 1, half, stride);
  }

  /** The factors of a stage fill the table and do not run past it. */
  lemma FactorsFitTable(m: nat, s: nat, stride: nat)
    requires s < m && stride == Pow2(m - s - 1)
    ensures forall k: nat :: k < Pow2(s) ==> 0 <= TwiddleIndex(k, stride) < Pow2(m) / 2
  {
    Pow2Sum(s, m - s - 1);
    var half, size := Pow2(s), Pow2(m);
    assert half * stride == size / 2;
    forall k: nat | k < half ensures 0 <= TwiddleIndex(k, stride) < size / 2 {
      FactorFits(half, stride, k);
    }
  }

  lemma {:induction false} Pow2Sum(a: nat, b: nat)
    ensures Pow2(a) * Pow2(b) == Pow2(a + b)
  {
    if a > 0 {
      Pow2Sum(a - 1, b);
      assert Pow2(a) * Pow2(b) == 2 * (Pow2(a - 1) * Pow2(b));
    }
  }

  lemma {:induction false} Pow2Climbs(a: nat, b: nat)
    requires a <= b
    ensures Pow2(a) < Pow2(b) <==> a < b
    decreases b
  {
    if a < b { Pow2Climbs(a, b - 1); }
  }
}
