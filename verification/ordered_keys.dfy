/** The order in which a `BTreeMap` or `BTreeSet` visits its keys. */
module OrderedKeys {

  ghost predicate Ascending(keys: seq<nat>) {
    forall i, j :: 0 <= i < j < |keys| ==> keys[i] < keys[j]
  }

  /** `r` is the ascending listing of the keys. */
  ghost predicate Lists(r: seq<nat>, keys: set<nat>) {
    Ascending(r) && forall k :: k in r <==> k in keys
  }

  lemma {:induction false} LeastOf(keys: set<nat>) returns (least: nat)
    requires keys != {}
    ensures least in keys && forall k :: k in keys ==> least <= k
  {
    var x :| x in keys;
    if keys == {x} {
      least := x;
    } else {
      var y := LeastOf(keys - {x});
      least := if x <= y then x else y;
      forall k | k in keys ensures least <= k {
        if k != x { assert k in keys - {x}; }
      }
    }
  }

  /** There is one ascending listing of given keys. */
  lemma {:induction false} AscendingIsUnique(a: seq<nat>, b: seq<nat>)
    requires Ascending(a) && Ascending(b) && forall k :: k in a <==> k in b
    ensures a == b
  {
    assert a != [] ==> a[0] in b;
    assert b != [] ==> b[0] in a;
    if a != [] {
      assert a[0] == b[0];
      forall k ensures k in a[1..] <==> k in b[1..] {
        assert k in a[1..] <==> k in a && k != a[0];
        assert k in b[1..] <==> k in b && k != b[0];
      }
      AscendingIsUnique(a[1..], b[1..]);
    }
  }

  method Ordered(keys: set<nat>) returns (r: seq<nat>)
    ensures Lists(r, keys)
  {
    r := [];
    var rest := keys;
    while rest != {}
      invariant rest <= keys
      invariant Ascending(r) && forall k :: k in r <==> k in keys && k !in rest
      invariant forall i, k :: 0 <= i < |r| && k in rest ==> r[i] < k
    {
      ghost var lowest := LeastOf(rest);
      var least :| least in rest && forall k :: k in rest ==> least <= k;
      r := r + [least];
      rest := rest - {least};
    }
  }

  lemma {:induction false} ListingExists(keys: set<nat>) returns (r: seq<nat>)
    ensures Lists(r, keys)
  {
    if keys == {} {
      r := [];
    } else {
      var greatest := GreatestOf(keys);
      var before := ListingExists(keys - {greatest});
      r := before + [greatest];
      forall i | 0 <= i < |before| ensures before[i] < greatest {
        assert before[i] in before;
      }
      forall k ensures k in r <==> k in keys {
        assert k in r <==> k in before || k == greatest;
      }
    }
  }

  lemma {:induction false} GreatestOf(keys: set<nat>) returns (greatest: nat)
    requires keys != {}
    ensures greatest in keys && forall k :: k in keys ==> k <= greatest
  {
    var x :| x in keys;
    if keys == {x} {
      greatest := x;
    } else {
      var y := GreatestOf(keys - {x});
      greatest := if x <= y then y else x;
      forall k | k in keys ensures k <= greatest {
        if k != x { assert k in keys - {x}; }
      }
    }
  }

  /** The keys from the least up. */
  ghost function Listing(keys: set<nat>): (r: seq<nat>)
    ensures Lists(r, keys)
  {
    assert exists r :: Lists(r, keys) by {
      var r := ListingExists(keys);
    }
    var r :| Lists(r, keys);
    r
  }
}
