/**
 The shape of a radix-2 transform, for any element type and any butterfly.

 `Dit` is the recursive definition, decimation in time. The rest relates it to the
 in-place form of audio/fft.rs: after a bit-reversed reordering, stage after stage
 joins neighbouring blocks, and each join is one level of the recursion.
 */
module RadixTwo {
  import opened Arith
  import opened BitReversal

  /** A butterfly: from a twiddle index and two inputs, the two outputs. */
  type Fly<!T> = (int, T, T) -> (T, T)

  /** Which twiddle factor butterfly `k` of a stage uses. */
  function TwiddleIndex(k: nat, stride: nat): int {
    k * stride
  }

  /** Every second element of `x`, from the first or from the second. */
  ghost function EveryOther<T>(x: seq<T>, from: nat): (r: seq<T>)
    requires from < 2 && |x| % 2 == 0
    ensures |r| == |x| / 2
  {
    seq(|x| / 2, k requires 0 <= k < |x| / 2 => x[2 * k + from])
  }

  /** Join two half-size transforms with one stage of butterflies. */
  ghost function Combine<T>(fly: Fly<T>, stride: nat, lo: seq<T>, hi: seq<T>): (r: seq<T>)
    requires |lo| == |hi|
    ensures |r| == 2 * |lo|
  {
    seq(|lo|, k requires 0 <= k < |lo| => fly(TwiddleIndex(k, stride), lo[k], hi[k]).0) +
    seq(|lo|, k requires 0 <= k < |lo| => fly(TwiddleIndex(k, stride), lo[k], hi[k]).1)
  }

  /** The recursive decimation-in-time transform of `x`. */
  ghost function Dit<T>(fly: Fly<T>, stride: nat, x: seq<T>, m: nat): (r: seq<T>)
    requires |x| == Pow2(m)
    ensures |r| == |x|
    decreases m
  {
    if m == 0 then x
    else Combine(fly, stride,
                 Dit(fly, 2 * stride, EveryOther(x, 0), m - 1),
                 Dit(fly, 2 * stride, EveryOther(x, 1), m - 1))
  }

  // --------------------------------------------------------------------- blocks

  /** Block `b` of the `Pow2(m - s)` blocks of `Pow2(s)` elements. */
  ghost function Block<T>(y: seq<T>, b: nat, m: nat, s: nat): (r: seq<T>)
    requires |y| == Pow2(m) && s <= m && b < Pow2(m - s)
    ensures |r| == Pow2(s)
  {
    BlockFits(b, m, s);
    y[Shl(b, s)..Shl(b + 1, s)]
  }

  lemma BlockFits(b: nat, m: nat, s: nat)
    requires s <= m && b < Pow2(m - s)
    ensures Shl(b + 1, s) == Shl(b, s) + Pow2(s) <= Pow2(m)
  {
    ShlAdd(b, 1, s);
    ShlPow(0, s);
    ShlPow(m - s, s);
    ShlMonotone(b + 1, Pow2(m - s), s);
  }

  lemma BlockCounts(b: nat, m: nat, s: nat)
    requires s <= m && b <= Pow2(m - s)
    ensures Shl(b, s) < Pow2(m) <==> b < Pow2(m - s)
  {
    ShlPow(m - s, s);
    if b < Pow2(m - s) { BlockFits(b, m, s); }
  }

  /** The subsequence of `x` that block `b` transforms, `d` levels down. */
  ghost function Split<T>(x: seq<T>, b: nat, m: nat, d: nat): (r: seq<T>)
    requires |x| == Pow2(m) && d <= m
    ensures |r| == Pow2(m - d)
  {
    if d == 0 then x else EveryOther(Split(x, b / 2, m, d - 1), b % 2)
  }

  lemma SplitChild<T>(x: seq<T>, b: nat, m: nat, d: nat, from: nat)
    requires |x| == Pow2(m) && 0 < d <= m && from < 2
    ensures Split(x, 2 * b + from, m, d) == EveryOther(Split(x, b, m, d - 1), from)
  {
    assert (2 * b + from) / 2 == b && (2 * b + from) % 2 == from;
  }

  /** Where element `k` of a half lies in the sequence it was taken from. */
  lemma LeafIndex(k: nat, b: nat, d: nat)
    requires d > 0 && b < Pow2(d)
    ensures Shl(2 * k + b % 2, d - 1) + Rev(b / 2, d - 1) == Shl(k, d) + Rev(b, d)
  {
    ShlAdd(2 * k, b % 2, d - 1);
    ShlPow(0, d - 1);
    ShlZero(d - 1);
  }

  lemma SplitStep<T>(x: seq<T>, b: nat, m: nat, d: nat, k: nat)
    requires |x| == Pow2(m) && 0 < d <= m && k < Pow2(m - d)
    ensures 2 * k + b % 2 < Pow2(m - d + 1)
    ensures Split(x, b, m, d)[k] == Split(x, b / 2, m, d - 1)[2 * k + b % 2]
  {
  }

  /** Element `k` of the subsequence block `b` transforms. */
  lemma {:induction false} SplitAt<T>(x: seq<T>, b: nat, m: nat, d: nat, k: nat)
    requires |x| == Pow2(m) && d <= m && b < Pow2(d) && k < Pow2(m - d)
    ensures Shl(k, d) + Rev(b, d) < |x|
    ensures Split(x, b, m, d)[k] == x[Shl(k, d) + Rev(b, d)]
  {
    if d > 0 {
      SplitStep(x, b, m, d, k);
      SplitAt(x, b / 2, m, d - 1, 2 * k + b % 2);
      LeafIndex(k, b, d);
    }
  }

  // --------------------------------------------------------------------- stages

  /** Block `b` holds the transform of the subsequence that belongs to it. */
  ghost predicate BlockDone<T>(fly: Fly<T>, x: seq<T>, y: seq<T>, m: nat, s: nat, b: nat)
    requires |x| == |y| == Pow2(m) && s <= m && b < Pow2(m - s)
  {
    Block(y, b, m, s) == Dit(fly, Pow2(m - s), Split(x, b, m, m - s), s)
  }

  /** Every block of `Pow2(s)` elements is done. */
  ghost predicate Staged<T>(fly: Fly<T>, x: seq<T>, y: seq<T>, m: nat, s: nat)
    requires |x| == |y| == Pow2(m) && s <= m
  {
    forall b: nat :: b < Pow2(m - s) ==> BlockDone(fly, x, y, m, s, b)
  }

  /** What a stage leaves in block `b` of double size. */
  ghost function Joined<T>(fly: Fly<T>, y: seq<T>, m: nat, s: nat, b: nat): (r: seq<T>)
    requires |y| == Pow2(m) && s < m && b < Pow2(m - s - 1)
    ensures |r| == Pow2(s + 1)
  {
    Combine(fly, Pow2(m - s - 1), Block(y, 2 * b, m, s), Block(y, 2 * b + 1, m, s))
  }

  /** The first `b` double-size blocks are joined and the rest is as it was. */
  ghost predicate JoinedUpTo<T>(fly: Fly<T>, y: seq<T>, v: seq<T>, m: nat, s: nat, b: nat) {
    && |y| == |v| == Pow2(m) && s < m && b <= Pow2(m - s - 1)
    && (forall c: nat :: c < b ==> Block(v, c, m, s + 1) == Joined(fly, y, m, s, c))
    && (forall p :: Shl(b, s + 1) <= p < |y| ==> v[p] == y[p])
  }

  lemma LoneBlock<T>(y: seq<T>, b: nat, m: nat)
    requires |y| == Pow2(m) && b < Pow2(m)
    ensures Block(y, b, m, 0) == [y[b]]
  {
    BlockFits(b, m, 0);
    assert Shl(b, 0) == b && Shl(b + 1, 0) == b + 1;
    assert y[b..b + 1] == [y[b]];
  }

  /** The bit-reversed reordering puts every single element where the recursion wants it. */
  lemma StagedStart<T>(fly: Fly<T>, x: seq<T>, m: nat)
    requires |x| == Pow2(m)
    ensures Staged(fly, x, Reversed(x, m), m, 0)
  {
    var y := Reversed(x, m);
    forall b: nat | b < Pow2(m - 0) ensures BlockDone(fly, x, y, m, 0, b) {
      ShlZero(m);
      SplitAt(x, b, m, m, 0);
      LoneBlock(y, b, m);
    }
  }

  lemma ChildDone<T>(fly: Fly<T>, x: seq<T>, y: seq<T>, m: nat, s: nat, b: nat, from: nat)
    requires |x| == |y| == Pow2(m) && s < m && b < Pow2(m - s - 1) && from < 2
    requires Staged(fly, x, y, m, s)
    ensures Block(y, 2 * b + from, m, s)
         == Dit(fly, 2 * Pow2(m - s - 1), EveryOther(Split(x, b, m, m - s - 1), from), s)
  {
    SplitChild(x, b, m, m - s, from);
    assert BlockDone(fly, x, y, m, s, 2 * b + from);
  }

  lemma DitFromHalves<T>(fly: Fly<T>, stride: nat, x: seq<T>, m: nat, lo: seq<T>, hi: seq<T>)
    requires |x| == Pow2(m + 1)
    requires lo == Dit(fly, 2 * stride, EveryOther(x, 0), m)
    requires hi == Dit(fly, 2 * stride, EveryOther(x, 1), m)
    ensures Combine(fly, stride, lo, hi) == Dit(fly, stride, x, m + 1)
  {
  }

  /** Joining two neighbouring transformed blocks is one level of the recursion. */
  lemma JoinIsDit<T>(fly: Fly<T>, x: seq<T>, y: seq<T>, m: nat, s: nat, b: nat)
    requires |x| == |y| == Pow2(m) && s < m && b < Pow2(m - s - 1)
    requires Staged(fly, x, y, m, s)
    ensures Joined(fly, y, m, s, b) == Dit(fly, Pow2(m - s - 1), Split(x, b, m, m - s - 1), s + 1)
  {
    ChildDone(fly, x, y, m, s, b, 0);
    ChildDone(fly, x, y, m, s, b, 1);
    DitFromHalves(fly, Pow2(m - s - 1), Split(x, b, m, m - s - 1), s,
                  Block(y, 2 * b, m, s), Block(y, 2 * b + 1, m, s));
  }

  /** A whole stage of joins is one level of the recursion everywhere. */
  lemma StageClimbs<T>(fly: Fly<T>, x: seq<T>, y: seq<T>, z: seq<T>, m: nat, s: nat)
    requires |x| == |y| == |z| == Pow2(m) && s < m
    requires Staged(fly, x, y, m, s)
    requires JoinedUpTo(fly, y, z, m, s, Pow2(m - s - 1))
    ensures Staged(fly, x, z, m, s + 1)
  {
    var next := s + 1;
    forall b: nat | b < Pow2(m - next) ensures BlockDone(fly, x, z, m, next, b) {
      JoinIsDit(fly, x, y, m, s, b);
      assert Block(z, b, m, next) == Joined(fly, y, m, s, b);
    }
  }

  lemma StagedEnd<T>(fly: Fly<T>, x: seq<T>, y: seq<T>, m: nat)
    requires |x| == |y| == Pow2(m)
    requires Staged(fly, x, y, m, m)
    ensures y == Dit(fly, 1, x, m)
  {
    assert BlockDone(fly, x, y, m, m, 0);
    BlockFits(0, m, m);
    ShlZero(m);
  }

  // -------------------------------------------------------------- one block's joins

  /** The block of `v` that starts at `start`, joined. */
  ghost function JoinedFrom<T>(fly: Fly<T>, v: seq<T>, start: nat, half: nat, stride: nat): (r: seq<T>)
    requires start + 2 * half <= |v|
    ensures |r| == 2 * half
  {
    Combine(fly, stride, v[start..start + half], v[start + half..start + 2 * half])
  }

  /** `y` with the first `k` elements of each half of `c` in place from `start` on. */
  ghost function Spliced<T>(y: seq<T>, start: nat, half: nat, c: seq<T>, k: nat): (r: seq<T>)
    requires |c| == 2 * half && k <= half && start + 2 * half <= |y|
    ensures |r| == |y|
  {
    y[..start] + c[..k] + y[start + k..start + half] + c[half..half + k] + y[start + half + k..]
  }

  lemma SplicedEnds<T>(y: seq<T>, start: nat, half: nat, c: seq<T>)
    requires |c| == 2 * half && start + 2 * half <= |y|
    ensures Spliced(y, start, half, c, 0) == y
    ensures Spliced(y, start, half, c, half) == y[..start] + c + y[start + 2 * half..]
  {
  }

  /** One more butterfly: two slots change, from contents nothing has touched yet. */
  lemma SplicedStep<T>(fly: Fly<T>, y: seq<T>, start: nat, half: nat, stride: nat, k: nat)
    requires k < half && start + 2 * half <= |y|
    ensures var c := JoinedFrom(fly, y, start, half, stride);
            var v := Spliced(y, start, half, c, k);
            var r := fly(TwiddleIndex(k, stride), v[start + k], v[start + k + half]);
            Spliced(y, start, half, c, k + 1) == v[start + k := r.0][start + k + half := r.1]
  {
    var c := JoinedFrom(fly, y, start, half, stride);
    var v := Spliced(y, start, half, c, k);
    assert v[start + k] == y[start + k] && v[start + k + half] == y[start + half + k];
    assert c[k] == fly(TwiddleIndex(k, stride), y[start + k], y[start + half + k]).0;
    assert c[half + k] == fly(TwiddleIndex(k, stride), y[start + k], y[start + half + k]).1;
  }

  /** The two halves of a block one stage up are two blocks. */
  lemma HalvesAreBlocks<T>(y: seq<T>, m: nat, s: nat, b: nat, start: nat, half: nat)
    requires |y| == Pow2(m) && s < m && b < Pow2(m - s - 1)
    requires start == Shl(b, s + 1) && half == Pow2(s)
    ensures Shl(b + 1, s + 1) == start + 2 * half <= |y|
    ensures y[start..start + half] == Block(y, 2 * b, m, s)
    ensures y[start + half..start + 2 * half] == Block(y, 2 * b + 1, m, s)
  {
    BlockFits(b, m, s + 1);
    BlockFits(2 * b, m, s);
    BlockFits(2 * b + 1, m, s);
  }

  /** The inputs of block `b` are still the ones the stage started from. */
  lemma InputsUntouched<T>(y: seq<T>, v: seq<T>, m: nat, s: nat, b: nat)
    requires |y| == |v| == Pow2(m) && s < m && b < Pow2(m - s - 1)
    requires forall p :: Shl(b, s + 1) <= p < |y| ==> v[p] == y[p]
    ensures var start, half := Shl(b, s + 1), Pow2(s);
            && Shl(b + 1, s + 1) == start + 2 * half <= |y|
            && v[start..start + half] == Block(y, 2 * b, m, s)
            && v[start + half..start + 2 * half] == Block(y, 2 * b + 1, m, s)
  {
    var start, half := Shl(b, s + 1), Pow2(s);
    HalvesAreBlocks(y, m, s, b, start, half);
    SliceSame(y, v, start, start, start + half);
    SliceSame(y, v, start, start + half, start + 2 * half);
  }

  lemma SliceSame<T>(y: seq<T>, v: seq<T>, from: nat, lo: nat, hi: nat)
    requires |y| == |v| && from <= lo <= hi <= |y|
    requires forall p :: from <= p < |y| ==> v[p] == y[p]
    ensures v[lo..hi] == y[lo..hi]
  {
  }

  lemma JoinedHalves<T>(fly: Fly<T>, v: seq<T>, start: nat, half: nat, stride: nat, lo: seq<T>, hi: seq<T>)
    requires start + 2 * half <= |v| && v[start..start + half] == lo && v[start + half..start + 2 * half] == hi
    ensures |lo| == |hi| && JoinedFrom(fly, v, start, half, stride) == Combine(fly, stride, lo, hi)
  {
  }

  lemma JoinedBlocks<T>(fly: Fly<T>, y: seq<T>, m: nat, s: nat, b: nat, lo: seq<T>, hi: seq<T>)
    requires |y| == Pow2(m) && s < m && b < Pow2(m - s - 1)
    requires 2 * b + 1 < Pow2(m - s) && lo == Block(y, 2 * b, m, s) && hi == Block(y, 2 * b + 1, m, s)
    ensures Joined(fly, y, m, s, b) == Combine(fly, Pow2(m - s - 1), lo, hi)
  {
  }

  lemma JoinedFromInputs<T>(fly: Fly<T>, y: seq<T>, v: seq<T>, m: nat, s: nat, b: nat)
    requires s < m && b < Pow2(m - s - 1) && JoinedUpTo(fly, y, v, m, s, b)
    ensures Shl(b + 1, s + 1) == Shl(b, s + 1) + 2 * Pow2(s) <= |v|
    ensures JoinedFrom(fly, v, Shl(b, s + 1), Pow2(s), Pow2(m - s - 1)) == Joined(fly, y, m, s, b)
  {
    InputsUntouched(y, v, m, s, b);
    var lo, hi := Block(y, 2 * b, m, s), Block(y, 2 * b + 1, m, s);
    JoinedHalves(fly, v, Shl(b, s + 1), Pow2(s), Pow2(m - s - 1), lo, hi);
    JoinedBlocks(fly, y, m, s, b, lo, hi);
  }

  lemma Overwritten<T>(v: seq<T>, z: seq<T>, c: seq<T>, lo: nat, hi: nat, p: nat, q: nat)
    requires lo + |c| == hi <= |v| && z == v[..lo] + c + v[hi..]
    ensures z[lo..hi] == c
    ensures p <= q <= lo ==> z[p..q] == v[p..q]
  {
  }

  /** Overwriting block `b` leaves every other block as it was. */
  lemma BlockWritten<T>(v: seq<T>, z: seq<T>, m: nat, s: nat, b: nat, c: seq<T>, d: nat)
    requires |v| == Pow2(m) && s <= m && d <= b < Pow2(m - s) && |c| == Pow2(s)
    requires Shl(b + 1, s) == Shl(b, s) + Pow2(s) <= |v|
    requires z == v[..Shl(b, s)] + c + v[Shl(b + 1, s)..]
    ensures Block(z, d, m, s) == if d == b then c else Block(v, d, m, s)
  {
    Overwritten(v, z, c, Shl(b, s), Shl(b + 1, s), Shl(d, s), Shl(d + 1, s));
    if d < b {
      ShlMonotone(d + 1, b, s);
      ShlMonotone(d, d + 1, s);
    }
  }

  /** Joining block `b` in place extends the joined part by one block. */
  lemma JoinsNext<T>(fly: Fly<T>, y: seq<T>, v: seq<T>, m: nat, s: nat, b: nat, start: nat, half: nat)
    requires s < m && b < Pow2(m - s - 1) && JoinedUpTo(fly, y, v, m, s, b)
    requires start == Shl(b, s + 1) && half == Pow2(s)
    ensures start + 2 * half == Shl(b + 1, s + 1) <= |v|
    ensures JoinedUpTo(fly, y, v[..start] + JoinedFrom(fly, v, start, half, Pow2(m - s - 1)) + v[start + 2 * half..], m, s, b + 1)
  {
    JoinedFromInputs(fly, y, v, m, s, b);
    var c := Joined(fly, y, m, s, b);
    var z := v[..start] + c + v[start + 2 * half..];
    forall d: nat | d < b + 1 ensures Block(z, d, m, s + 1) == Joined(fly, y, m, s, d) {
      BlockWritten(v, z, m, s + 1, b, c, d);
    }
    assert forall p :: Shl(b + 1, s + 1) <= p < |y| ==> z[p] == v[p];
  }
}
