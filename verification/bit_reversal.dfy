/**
 The reordering that lets the transform run in place (audio/fft.rs, bit_reverse).

 The source counts `j` upwards in bit-reversed order by carrying from the top bit
 down. Its masks are single bits, so for `bit == Pow2(k)` the test `j & bit != 0` is
 `j / bit % 2 != 0`, `j ^= bit` on a set bit is `j - bit` and `j |= bit` on a clear
 one is `j + bit`.
 */
module BitReversal {
  import opened Arith

  /** The `m` low bits of `i`, read backwards. */
  function Rev(i: nat, m: nat): (r: nat)
    requires i < Pow2(m)
    ensures r < Pow2(m)
  {
    if m == 0 then 0 else Rev(i / 2, m - 1) + if i % 2 == 1 then Pow2(m - 1) else 0
  }

  /** Dropping the lowest bit leaves the highest one in place. */
  lemma HalfOfHigh(high: bool, b: nat, m: nat)
    requires m > 1 && b < Pow2(m - 1)
    ensures var i := if high then Pow2(m - 1) + b else b;
            i < Pow2(m) && i % 2 == b % 2 && i / 2 == if high then Pow2(m - 2) + b / 2 else b / 2
    ensures b / 2 < Pow2(m - 2)
  {
  }

  /** The low bit of the index is the high bit of the reversal. */
  lemma RevDrops(i: nat, m: nat, half: nat, odd: bool)
    requires m > 0 && i < Pow2(m) && half == i / 2 && odd == (i % 2 == 1)
    ensures Rev(i, m) == Rev(half, m - 1) + if odd then Pow2(m - 1) else 0
  {
  }

  /** The low bit of the reversal is the high bit of the index. */
  lemma {:induction false} RevHighBit(high: bool, b: nat, m: nat)
    requires m > 0 && b < Pow2(m - 1)
    ensures var i := if high then Pow2(m - 1) + b else b;
            i < Pow2(m) && Rev(i, m) == 2 * Rev(b, m - 1) + if high then 1 else 0
  {
    if m > 1 {
      var i := if high then Pow2(m - 1) + b else b;
      HalfOfHigh(high, b, m);
      RevHighBit(high, b / 2, m - 1);
      RevDrops(i, m, if high then Pow2(m - 2) + b / 2 else b / 2, b % 2 == 1);
      RevDrops(b, m - 1, b / 2, b % 2 == 1);
    }
  }

  /** Bit reversal is its own inverse, so it is a permutation. */
  lemma {:induction false} RevInvolution(i: nat, m: nat)
    requires i < Pow2(m)
    ensures Rev(Rev(i, m), m) == i
  {
    if m > 0 {
      RevInvolution(i / 2, m - 1);
      RevHighBit(i % 2 == 1, Rev(i / 2, m - 1), m);
    }
  }

  /** `s` with every element moved to the reversal of its index. */
  ghost function Reversed<T>(s: seq<T>, m: nat): (r: seq<T>)
    requires |s| == Pow2(m)
    ensures |r| == |s|
  {
    seq(|s|, i requires 0 <= i < |s| => s[Rev(i, m)])
  }

  /** Reversing twice restores the input. */
  lemma ReversedTwice<T>(s: seq<T>, m: nat)
    requires |s| == Pow2(m)
    ensures Reversed(Reversed(s, m), m) == s
  {
    forall i | 0 <= i < |s| ensures Reversed(Reversed(s, m), m)[i] == s[i] {
      RevInvolution(i, m);
    }
  }

  /** `j & bit != 0` for a mask of one bit. */
  predicate BitSet(j: nat, bit: nat)
    requires bit > 0
  {
    j / bit % 2 != 0
  }

  lemma TopBitOf(x: nat, low: nat, p: nat, odd: bool)
    requires low < p && x == low + if odd then p else 0
    ensures BitSet(x, p) <==> odd
  {
    Quotient(if odd then 1 else 0, low, p);
  }

  /** The top bit of a reversal is the low bit of the index. */
  lemma TopBit(u: nat, r: nat)
    requires r > 0 && u < Pow2(r)
    ensures BitSet(Rev(u, r), Pow2(r - 1)) <==> u % 2 == 1
  {
    RevDrops(u, r, u / 2, u % 2 == 1);
    TopBitOf(Rev(u, r), Rev(u / 2, r - 1), Pow2(r - 1), u % 2 == 1);
  }

  lemma Quotient(q: nat, x: nat, p: nat)
    requires x < p
    ensures (q * p + x) / p == q
  {
    var d := (q * p + x) / p;
    assert d * p <= q * p + x < d * p + p;
    if d < q { MulMonotone(d + 1, q, p); assert false; }
    if d > q { MulMonotone(q + 1, d, p); assert false; }
  }

  /** A carry clears the top bit and leaves the same question one bit lower down. */
  lemma Carry(u: nat, r: nat)
    requires r > 0 && u + 1 < Pow2(r) && u % 2 == 1
    ensures r > 1
    ensures u / 2 + 1 < Pow2(r - 1)
    ensures Rev(u, r) == Pow2(r - 1) + Rev(u / 2, r - 1)
    ensures Rev(u + 1, r) == Rev(u / 2 + 1, r - 1)
  {
    assert (u + 1) / 2 == u / 2 + 1 && (u + 1) % 2 == 0;
  }

  /** Without a carry the top bit is set and the counter has moved on by one. */
  lemma NoCarry(u: nat, r: nat)
    requires r > 0 && u + 1 < Pow2(r) && u % 2 == 0
    ensures Rev(u + 1, r) == Rev(u, r) + Pow2(r - 1)
  {
    assert (u + 1) / 2 == u / 2 && (u + 1) % 2 == 1;
  }

  /**
   One step of the reversed counter: from the reversal of `i - 1` to that of `i`.
   The carry loop ends because `i` is still below the size.
   */
  method NextReversed(previous: nat, ghost i: nat, m: nat) returns (j: nat)
    requires 0 < i < Pow2(m)
    requires previous == Rev(i - 1, m)
    ensures j == Rev(i, m)
  {
    j := previous;
    var bit := Pow2(m) / 2;
    ghost var r: nat, u: nat := m, i - 1;
    TopBit(u, r);
    while BitSet(j, bit)
      invariant 0 < r <= m && bit == Pow2(r - 1)
      invariant u + 1 < Pow2(r)
      invariant j == Rev(u, r)
      invariant Rev(u + 1, r) == Rev(i, m)
      invariant BitSet(j, bit) <==> u % 2 == 1
      decreases r
    {
      Carry(u, r);
      j := j - bit;
      bit := bit / 2;
      u, r := u / 2, r - 1;
      TopBit(u, r);
    }
    NoCarry(u, r);
    j := j + bit;
  }

  /** The reordering once every pair with a member below `i` has been swapped. */
  ghost function Partial<T>(s: seq<T>, m: nat, i: nat): (r: seq<T>)
    requires |s| == Pow2(m)
    ensures |r| == |s|
  {
    seq(|s|, p requires 0 <= p < |s| => if p < i || Rev(p, m) < i then s[Rev(p, m)] else s[p])
  }

  /** Swapping index `i` with its reversal, when that lies above, settles the pair. */
  lemma SwapSettles<T>(s: seq<T>, m: nat, i: nat)
    requires |s| == Pow2(m) && i < |s|
    ensures var j, before := Rev(i, m), Partial(s, m, i);
            Partial(s, m, i + 1) == if i < j then before[i := before[j]][j := before[i]] else before
  {
    var j := Rev(i, m);
    RevInvolution(i, m);
    forall p | 0 <= p < |s| ensures Rev(p, m) == i <==> p == j {
      RevInvolution(p, m);
    }
  }

  lemma {:induction false} PartialEnds<T>(s: seq<T>, m: nat)
    requires |s| == Pow2(m)
    ensures Partial(s, m, 1) == s
    ensures Partial(s, m, |s|) == Reversed(s, m)
  {
    RevZero(m);
    forall p | 0 <= p < |s| ensures Rev(p, m) == 0 ==> p == 0 {
      RevInvolution(p, m);
    }
  }

  lemma RevZero(m: nat)
    ensures Rev(0, m) == 0
  {
  }

  /** Reorder in place into bit-reversed index order. */
  method BitReverse<T>(v: array<T>, m: nat)
    requires v.Length == Pow2(m)
    modifies v
    ensures v[..] == Reversed(old(v[..]), m)
  {
    ghost var s := v[..];
    var j := 0;
    RevZero(m);
    PartialEnds(s, m);
    var i := 1;
    while i < v.Length
      invariant 1 <= i <= v.Length
      invariant j == Rev(i - 1, m)
      invariant v[..] == Partial(s, m, i)
    {
      j := NextReversed(j, i, m);
      SwapSettles(s, m, i);
      if i < j {
        v[i], v[j] := v[j], v[i];
      }
      i := i + 1;
    }
  }
}
