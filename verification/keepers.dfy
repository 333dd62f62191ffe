/**
 Choosing which devices hold the records (keepers.rs): a ranking every device
 computes for itself from the peer table, with no messages to disagree about.
 */
module Keepers {
  import opened Arith
  import opened Sorting

  const MAX_KEEPERS: nat := 5

  datatype Claim = Claim(uuid: nat, flashKib: nat, capacity: nat, eligible: bool)

  datatype Ordering = Less | Equal | Greater {
    function Then(next: Ordering): Ordering {
      if Equal? then next else this
    }
  }

  function Compare(a: nat, b: nat): Ordering {
    if a < b then Less else if a == b then Equal else Greater
  }

  function Flag(b: bool): nat { if b then 1 else 0 }

  /** Keeper order: eligible first, then most flash, then most capacity, then lowest id. */
  function Rank(a: Claim, b: Claim): Ordering {
    Compare(Flag(b.eligible), Flag(a.eligible))
      .Then(Compare(b.flashKib, a.flashKib))
      .Then(Compare(b.capacity, a.capacity))
      .Then(Compare(a.uuid, b.uuid))
  }

  predicate RanksAbove(a: Claim, b: Claim) {
    Rank(a, b) == Less
  }

  const RankOrder: (Claim, Claim) -> bool := (a, b) => Rank(a, b) != Greater

  datatype Quorum = Healthy | Thin | Fragile | NoKeeper

  function QuorumOf(count: nat): Quorum {
    match count
    case 0 => NoKeeper
    case 1 => Fragile
    case 2 => Thin
    case _ => Healthy
  }

  function EligibleCount(claims: seq<Claim>): (n: nat)
    ensures n <= |claims|
  {
    if claims == [] then 0 else Flag(claims[0].eligible) + EligibleCount(claims[1..])
  }

  function KeeperCount(claims: seq<Claim>): nat {
    Min(EligibleCount(claims), MAX_KEEPERS)
  }

  /** The ranking is a total order, and only identical claims tie. */
  lemma RankIsTotalOrder()
    ensures TotalPreorder(RankOrder) && Antisymmetric(RankOrder)
    ensures forall a, b :: Rank(a, b) == Equal <==> a == b
    ensures forall a, b :: RanksAbove(a, b) <==> RankOrder(a, b) && a != b
  {
  }

  lemma {:induction false} EligibleCountByMultiset(s: seq<Claim>, t: seq<Claim>)
    requires multiset(s) == multiset(t)
    ensures EligibleCount(s) == EligibleCount(t)
  {
    if s == [] {
      assert |multiset(t)| == 0;
    } else {
      assert s[0] in multiset(t);
      var i :| 0 <= i < |t| && t[i] == s[0];
      var rest := t[..i] + t[i + 1..];
      assert t == t[..i] + [s[0]] + t[i + 1..];
      TailMultiset(s);
      assert multiset(rest) == multiset(s[1..]);
      EligibleCountByMultiset(s[1..], rest);
      EligibleCountWithout(t, i);
    }
  }

  lemma {:induction false} EligibleCountWithout(t: seq<Claim>, i: nat)
    requires i < |t|
    ensures EligibleCount(t) == Flag(t[i].eligible) + EligibleCount(t[..i] + t[i + 1..])
  {
    var rest := t[..i] + t[i + 1..];
    if i == 0 {
      assert rest == t[1..];
    } else {
      EligibleCountWithout(t[1..], i - 1);
      assert rest[1..] == t[1..][..i - 1] + t[1..][i..];
    }
  }

  /** Sort the claims into keeper order, in place, and say how many of them are keepers. */
  method Select(claims: array<Claim>) returns (count: nat, quorum: Quorum)
    modifies claims
    ensures claims[..] == Sort(old(claims[..]), RankOrder)
    ensures count == KeeperCount(old(claims[..])) && quorum == QuorumOf(count)
  {
    ghost var was := claims[..];
    var sorted := Sort(claims[..], RankOrder);
    forall i | 0 <= i < claims.Length {
      claims[i] := sorted[i];
    }
    assert claims[..] == sorted;
    var eligible := 0;
    for i := 0 to claims.Length
      invariant claims[..] == sorted
      invariant eligible + EligibleCount(sorted[i..]) == EligibleCount(sorted)
    {
      if claims[i].eligible {
        eligible := eligible + 1;
      }
    }
    EligibleCountByMultiset(sorted, was);
    count := Min(eligible, MAX_KEEPERS);
    quorum := QuorumOf(count);
  }

  /** Whether `me` is among the keepers of a peer table. */
  method IsKeeper(claims: array<Claim>, me: nat) returns (r: bool)
    modifies claims
    ensures r <==> Keeps(old(claims[..]), me)
  {
    ghost var was := claims[..];
    var count, _ := Select(claims);
    r := false;
    for i := 0 to count
      invariant r <==> exists k :: 0 <= k < i && Sort(was, RankOrder)[k].uuid == me
    {
      if claims[..][i].uuid == me {
        r := true;
      }
    }
  }

  /** `me` owns one of the first `KeeperCount` claims in keeper order. */
  predicate Keeps(claims: seq<Claim>, me: nat) {
    exists k :: 0 <= k < KeeperCount(claims) && Sort(claims, RankOrder)[k].uuid == me
  }

  /** Every device computes the same keepers, however its peer table is arranged. */
  lemma SelectionIgnoresArrangement(s: seq<Claim>, t: seq<Claim>, me: nat)
    requires multiset(s) == multiset(t)
    ensures Sort(s, RankOrder) == Sort(t, RankOrder)
    ensures KeeperCount(s) == KeeperCount(t)
    ensures Keeps(s, me) <==> Keeps(t, me)
  {
    RankIsTotalOrder();
    SortSorted(s, RankOrder);
    SortSorted(t, RankOrder);
    SortedUnique(Sort(s, RankOrder), Sort(t, RankOrder), RankOrder);
    EligibleCountByMultiset(s, t);
  }

  // ----------------------------------------------- who is a keeper, without a sort

  ghost predicate DistinctUuids(claims: seq<Claim>) {
    forall i, j :: 0 <= i < j < |claims| ==> claims[i].uuid != claims[j].uuid
  }

  /** The eligible claims that rank above `c`. */
  ghost function Above(claims: seq<Claim>, c: Claim): set<Claim> {
    set d | d in claims && d.eligible && RanksAbove(d, c)
  }

  ghost function Members(claims: seq<Claim>): set<Claim> {
    set c | c in claims
  }

  lemma MemberAdded(s: seq<Claim>, c: Claim)
    ensures Members(s + [c]) == Members(s) + {c}
  {
  }

  lemma {:induction false} PrefixSize(s: seq<Claim>, p: nat)
    requires DistinctUuids(s) && p <= |s|
    ensures |Members(s[..p])| == p
  {
    if p > 0 {
      var before, last := s[..p - 1], s[p - 1];
      PrefixSize(s, p - 1);
      assert s[..p] == before + [last];
      MemberAdded(before, last);
      assert last !in Members(before) by {
        assert forall i :: 0 <= i < |before| ==> before[i] == s[i] && s[i].uuid != last.uuid;
      }
    } else {
      assert Members(s[..p]) == {};
    }
  }

  /** Eligible claims sort to the front. */
  lemma {:induction false} EligibleFirst(s: seq<Claim>, p: nat)
    requires Sorted(s, RankOrder) && p < |s|
    ensures s[p].eligible <==> p < EligibleCount(s)
  {
    if s[0].eligible {
      if p > 0 { EligibleFirst(s[1..], p - 1); }
    } else {
      NoneEligible(s);
      assert RankOrder(s[0], s[p]) || p == 0;
    }
  }

  lemma {:induction false} NoneEligible(s: seq<Claim>)
    requires Sorted(s, RankOrder) && s != [] && !s[0].eligible
    ensures EligibleCount(s) == 0
  {
    if |s| > 1 {
      assert RankOrder(s[0], s[1]);
      NoneEligible(s[1..]);
    }
  }

  /** In keeper order, what ranks above a claim is what stands before it. */
  lemma AboveIsBefore(s: seq<Claim>, p: nat, c: Claim)
    requires Sorted(s, RankOrder) && DistinctUuids(s) && p < |s|
    ensures c in s && RanksAbove(c, s[p]) <==> c in s[..p]
  {
    RankIsTotalOrder();
    if c in s {
      var k :| 0 <= k < |s| && s[k] == c;
      assert p < k ==> RankOrder(s[p], s[k]);
      assert k < p ==> RankOrder(s[k], s[p]) && s[..p][k] == c;
    }
  }

  lemma OutrankingIsBefore(claims: seq<Claim>, s: seq<Claim>, p: nat, c: Claim)
    requires multiset(s) == multiset(claims) && Sorted(s, RankOrder) && DistinctUuids(s)
    requires p < |s| && s[p].eligible
    ensures c in Above(claims, s[p]) <==> c in s[..p]
  {
    AboveIsBefore(s, p, c);
    assert c in multiset(s) <==> c in multiset(claims);
    if c in s[..p] {
      var k :| 0 <= k < p && s[k] == c;
      EligibleFirst(s, p);
      EligibleFirst(s, k);
    }
  }

  /** The place of an eligible claim in keeper order is how many eligible claims outrank it. */
  lemma PlaceIsAboveCount(claims: seq<Claim>, p: nat)
    requires DistinctUuids(claims) && p < |claims|
    ensures var s := Sort(claims, RankOrder);
            s[p].eligible ==> |Above(claims, s[p])| == p
  {
    var s := Sort(claims, RankOrder);
    RankIsTotalOrder();
    SortSorted(claims, RankOrder);
    SortedDistinct(claims);
    if s[p].eligible {
      forall c ensures c in Above(claims, s[p]) <==> c in Members(s[..p]) {
        OutrankingIsBefore(claims, s, p, c);
      }
      assert Above(claims, s[p]) == Members(s[..p]);
      PrefixSize(s, p);
    }
  }

  lemma SortedDistinct(claims: seq<Claim>)
    requires DistinctUuids(claims)
    ensures DistinctUuids(Sort(claims, RankOrder))
  {
    var s := Sort(claims, RankOrder);
    RearrangedDistinct(claims, s);
    SameMembers(claims, s);
    forall i, j | 0 <= i < j < |s| ensures s[i].uuid != s[j].uuid {
      assert s[i] in claims && s[j] in claims;
    }
  }

  /** A device is a keeper exactly when it is eligible and fewer than five eligible claims outrank it. */
  lemma KeeperMeansFewAbove(claims: seq<Claim>, c: Claim)
    requires DistinctUuids(claims) && c in claims
    ensures Keeps(claims, c.uuid) <==> c.eligible && |Above(claims, c)| < MAX_KEEPERS
  {
    var s := Sort(claims, RankOrder);
    assert Sorted(s, RankOrder) by { RankIsTotalOrder(); SortSorted(claims, RankOrder); }
    SortedDistinct(claims);
    EligibleCountByMultiset(claims, s);
    assert c in multiset(s);
    var p :| 0 <= p < |s| && s[p] == c;
    EligibleFirst(s, p);
    PlaceIsAboveCount(claims, p);
    if Keeps(claims, c.uuid) {
      var k :| 0 <= k < KeeperCount(claims) && s[k].uuid == c.uuid;
      assert k == p;
    }
  }

  /** Every keeper is eligible, and has more flash than any eligible device that is none, or as much and
      more capacity, or as much of both and the lower id. */
  lemma KeepersAreTheRichest(claims: seq<Claim>, a: Claim, b: Claim)
    requires DistinctUuids(claims) && a in claims && b in claims
    requires Keeps(claims, a.uuid) && b.eligible && !Keeps(claims, b.uuid)
    ensures a.eligible
    ensures a.flashKib > b.flashKib
            || (a.flashKib == b.flashKib && (a.capacity > b.capacity || (a.capacity == b.capacity && a.uuid < b.uuid)))
  {
    var s := Sort(claims, RankOrder);
    RankIsTotalOrder();
    SortSorted(claims, RankOrder);
    SortedDistinct(claims);
    SameMembers(claims, s);
    KeeperMeansFewAbove(claims, a);
    var p :| 0 <= p < KeeperCount(claims) && s[p].uuid == a.uuid;
    var j :| 0 <= j < |s| && s[j] == a;
    var q :| 0 <= q < |s| && s[q] == b;
    assert j == p && RankOrder(s[p], s[q]);
  }
}
