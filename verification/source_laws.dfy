/**
 What every run of a source stack keeps: the order of the stack, admission as a function
 of the active set, the budget, and the account of every source pushed.
 */
module SourceLaws {
  import opened Arith
  import opened Wrappers
  import opened Sources
  import Sorting

  // -------------------------------------------------------------------- the order

  predicate Precedes(a: Source, b: Source) {
    NotBelow(a, b) && a.id != b.id
  }

  /** Strictly sorted, with every id once. */
  ghost predicate Ordered(active: seq<Source>) {
    forall i, j :: 0 <= i < j < |active| ==> Precedes(active[i], active[j])
  }

  lemma StackOrderIsTotal()
    ensures Sorting.TotalPreorder(NotBelow)
  {
  }

  ghost predicate DistinctIds(s: seq<Source>) {
    forall i, j :: 0 <= i < j < |s| ==> s[i].id != s[j].id
  }

  lemma RearrangedIdsDiffer(s: seq<Source>, t: seq<Source>)
    requires DistinctIds(s) && multiset(s) == multiset(t)
    ensures DistinctIds(t)
  {
    Sorting.RearrangedDistinct(s, t);
    Sorting.SameMembers(s, t);
    forall i, j | 0 <= i < j < |t| ensures t[i].id != t[j].id {
      assert t[i] in s && t[j] in s;
    }
  }

  /** A push puts its source in place of any with the same id, and keeps the order. */
  lemma PlacedIsOrdered(active: seq<Source>, source: Source)
    requires Ordered(active)
    ensures Ordered(Placed(active, source))
    ensures forall x :: x in Placed(active, source) <==> x == source || (x in active && x.id != source.id)
  {
    var loose := Vacated(active, source.id) + [source];
    VacatedMembers(active, source);
    StackOrderIsTotal();
    Sorting.SortSorted(loose, NotBelow);
    Sorting.SameMembers(loose, Placed(active, source));
    RearrangedIdsDiffer(loose, Placed(active, source));
  }

  lemma RemovalMembers(active: seq<Source>, i: nat)
    requires DistinctIds(active) && i < |active|
    ensures DistinctIds(RemoveAt(active, i))
    ensures forall x :: x in RemoveAt(active, i) <==> x in active && x.id != active[i].id
  {
    var kept := RemoveAt(active, i);
    forall x ensures x in kept <==> x in active && x.id != active[i].id {
      if x in active && x.id != active[i].id {
        var j :| 0 <= j < |active| && active[j] == x;
        assert x == kept[if j < i then j else j - 1];
      }
    }
  }

  lemma VacatedMembers(active: seq<Source>, source: Source)
    requires Ordered(active)
    ensures DistinctIds(Vacated(active, source.id) + [source])
    ensures forall x :: x in Vacated(active, source.id) + [source] <==> x == source || (x in active && x.id != source.id)
  {
    var at := Position(active, source.id);
    if at.Some? { RemovalMembers(active, at.value); }
  }

  /** Two ordered stacks of the same sources are the same stack. */
  lemma {:induction false} OneArrangement(a: seq<Source>, b: seq<Source>)
    requires Ordered(a) && Ordered(b)
    requires forall x :: x in a <==> x in b
    ensures a == b
  {
    assert a != [] ==> a[0] in b;
    assert b != [] ==> b[0] in a;
    if a != [] {
      assert a[0] in b && b[0] in a;
      assert a[0] == b[0];
      forall x ensures x in a[1..] <==> x in b[1..] {
        assert x in a[1..] <==> x in a && x != a[0];
        assert x in b[1..] <==> x in b && x != b[0];
      }
      OneArrangement(a[1..], b[1..]);
    }
  }

  // ------------------------------------------------------------------------ admission

  /** Whether the pass admits the source at `k`: this reads nothing below it. */
  predicate Admits(active: seq<Source>, k: nat, budget: nat, maxConcurrent: nat)
    requires k < |active|
  {
    Fits(Tallied(active[..k], budget, maxConcurrent), active[k], budget, maxConcurrent)
  }

  /** The lists of a pass hold exactly the sources it admits and the ones it does not. */
  lemma {:induction false} TallySorts(active: seq<Source>, k: nat, budget: nat, maxConcurrent: nat)
    requires DistinctIds(active) && k < |active|
    ensures active[k].id in Tallied(active, budget, maxConcurrent).admitted <==> Admits(active, k, budget, maxConcurrent)
    ensures active[k].id in Tallied(active, budget, maxConcurrent).rejected <==> !Admits(active, k, budget, maxConcurrent)
  {
    var last := |active| - 1;
    TallyNamesActive(active[..last], budget, maxConcurrent);
    if k < last {
      assert active[..last][..k] == active[..k];
      TallySorts(active[..last], k, budget, maxConcurrent);
    }
  }

  lemma {:induction false} TallyNamesActive(active: seq<Source>, budget: nat, maxConcurrent: nat)
    ensures var t := Tallied(active, budget, maxConcurrent);
            && |t.admitted| + |t.rejected| == |active|
            && |t.admitted| <= maxConcurrent
            && (forall id :: id in t.admitted || id in t.rejected ==> exists s :: s in active && s.id == id)
  {
    if active != [] {
      var last := |active| - 1;
      TallyNamesActive(active[..last], budget, maxConcurrent);
      var t := Tallied(active, budget, maxConcurrent);
      forall id | id in t.admitted || id in t.rejected ensures exists s :: s in active && s.id == id {
        assert active[last] in active;
      }
    }
  }

  /** The sources of a stack above `s`, which are those before it. */
  lemma AboveIsBefore(active: seq<Source>, k: nat)
    requires Ordered(active) && k < |active|
    ensures Ordered(active[..k])
    ensures forall x :: x in active[..k] <==> x in active && Precedes(x, active[k])
  {
    forall x ensures x in active[..k] <==> x in active && Precedes(x, active[k]) {
      if x in active && Precedes(x, active[k]) {
        var i :| 0 <= i < |active| && active[i] == x;
        assert i < k;
      }
    }
  }

  /**
   Whether a source is admitted depends on what ranks above it and on nothing else: two
   stacks of one device that hold the same sources above it agree on it, whatever they hold
   below. Lower-ranked sources can never push a higher one out.
   */
  lemma OnlyHigherRanksMatter(a: seq<Source>, b: seq<Source>, s: Source, budget: nat, maxConcurrent: nat)
    requires Ordered(a) && Ordered(b) && s in a && s in b
    requires forall x :: Precedes(x, s) ==> (x in a <==> x in b)
    ensures s.id in Tallied(a, budget, maxConcurrent).admitted <==> s.id in Tallied(b, budget, maxConcurrent).admitted
  {
    var i :| 0 <= i < |a| && a[i] == s;
    var j :| 0 <= j < |b| && b[j] == s;
    AboveIsBefore(a, i);
    AboveIsBefore(b, j);
    OneArrangement(a[..i], b[..j]);
    TallySorts(a, i, budget, maxConcurrent);
    TallySorts(b, j, budget, maxConcurrent);
  }

  function TotalCost(active: seq<Source>): nat {
    if active == [] then 0 else TotalCost(active[..|active| - 1]) + active[|active| - 1].cost
  }

  /** How many sources from the top fit together: the longest prefix within both limits. */
  function FittingTop(active: seq<Source>, budget: nat, maxConcurrent: nat): (p: nat)
    ensures p <= |active| && p <= maxConcurrent && TotalCost(active[..p]) <= budget
    ensures p < |active| && p < maxConcurrent ==> TotalCost(active[..p + 1]) > budget
  {
    if active == [] then 0
    else
      var last := |active| - 1;
      var p := FittingTop(active[..last], budget, maxConcurrent);
      assert active[..last][..p] == active[..p] && active[..|active|] == active;
      assert p < last ==> active[..last][..p + 1] == active[..p + 1];
      if p == last && p < maxConcurrent && TotalCost(active) <= budget then |active| else p
  }

  lemma {:induction false} LongerCostsMore(active: seq<Source>, k: nat)
    requires k <= |active|
    ensures TotalCost(active[..k]) <= TotalCost(active)
  {
    if k < |active| {
      assert active[..|active| - 1][..k] == active[..k];
      LongerCostsMore(active[..|active| - 1], k);
    } else {
      assert active[..k] == active;
    }
  }

  /** The pass spends exactly what the sources that fit together cost. */
  lemma {:induction false} TopIsAdmitted(active: seq<Source>, k: nat, budget: nat, maxConcurrent: nat)
    requires k <= |active| && k <= maxConcurrent && TotalCost(active[..k]) <= budget < U32_MAX
    ensures Tallied(active[..k], budget, maxConcurrent).spent == TotalCost(active[..k])
    ensures |Tallied(active[..k], budget, maxConcurrent).admitted| == k
    ensures forall j :: 0 <= j < k ==> Admits(active, j, budget, maxConcurrent)
  {
    if k > 0 {
      assert active[..k][..k - 1] == active[..k - 1];
      LongerCostsMore(active[..k], k - 1);
      TopIsAdmitted(active, k - 1, budget, maxConcurrent);
    }
  }

  /** While nothing is admitted the pass has as much to spend as before. */
  lemma {:induction false} PassStalls(active: seq<Source>, p: nat, k: nat, budget: nat, maxConcurrent: nat)
    requires p <= k <= |active| && forall j :: p <= j < k ==> !Admits(active, j, budget, maxConcurrent)
    ensures var at, later := Tallied(active[..p], budget, maxConcurrent), Tallied(active[..k], budget, maxConcurrent);
            later.spent == at.spent && later.admitted == at.admitted
  {
    if p < k {
      assert active[..k][..k - 1] == active[..k - 1];
      assert !Admits(active, k - 1, budget, maxConcurrent);
      PassStalls(active, p, k - 1, budget, maxConcurrent);
    }
  }

  /** Whether all that is dropped ranks below all that is admitted. */
  ghost predicate DropsTheLeast(active: seq<Source>, budget: nat, maxConcurrent: nat) {
    var admitted := Tallied(active, budget, maxConcurrent).admitted;
    forall j, k :: 0 <= j < k < |active| && active[k].id in admitted ==> active[j].id in admitted
  }

  lemma DropsByAdmission(active: seq<Source>, budget: nat, maxConcurrent: nat)
    requires Ordered(active)
    ensures DropsTheLeast(active, budget, maxConcurrent)
            <==> forall j, k :: 0 <= j < k < |active| && Admits(active, k, budget, maxConcurrent) ==>
              Admits(active, j, budget, maxConcurrent)
  {
    forall k | 0 <= k < |active|
      ensures active[k].id in Tallied(active, budget, maxConcurrent).admitted <==> Admits(active, k, budget, maxConcurrent)
    {
      TallySorts(active, k, budget, maxConcurrent);
    }
  }

  /** Every source from the `p`th down costs more than the first `p` leave of the budget. */
  ghost predicate AllTooDear(active: seq<Source>, p: nat, budget: nat)
    requires p <= |active|
  {
    forall k :: p <= k < |active| ==> TotalCost(active[..p]) + active[k].cost > budget
  }

  lemma {:induction false} DearIsDropped(active: seq<Source>, p: nat, k: nat, budget: nat, maxConcurrent: nat)
    requires p <= k < |active| && p <= maxConcurrent && TotalCost(active[..p]) <= budget < U32_MAX
    requires p == maxConcurrent || AllTooDear(active, p, budget)
    ensures !Admits(active, k, budget, maxConcurrent)
    decreases k
  {
    forall j | p <= j < k ensures !Admits(active, j, budget, maxConcurrent) {
      DearIsDropped(active, p, j, budget, maxConcurrent);
    }
    PassStalls(active, p, k, budget, maxConcurrent);
    TopIsAdmitted(active, p, budget, maxConcurrent);
  }

  /**
   What is dropped is the least important exactly when the budget is the largest there is, or the
   sources that fit together from the top are all there are, or as many as may show at once, or
   every source below them costs more than they leave. Otherwise a cheap source is admitted below a dear one that is not.
   */
  lemma DropsTheLeastExactly(active: seq<Source>, budget: nat, maxConcurrent: nat)
    requires Ordered(active) && budget <= U32_MAX
    ensures var p := FittingTop(active, budget, maxConcurrent);
            DropsTheLeast(active, budget, maxConcurrent)
            <==> budget == U32_MAX || p == |active| || p == maxConcurrent || AllTooDear(active, p, budget)
  {
    DropsByAdmission(active, budget, maxConcurrent);
    if budget == U32_MAX {
      forall k | 0 <= k < |active| ensures Admits(active, k, budget, maxConcurrent) <==> k < maxConcurrent {
        OnlyCountLimits(active, k, maxConcurrent);
      }
    } else {
      DropsBelowTheTop(active, budget, maxConcurrent);
    }
  }

  /** At the largest budget only the count of sources limits admission. */
  lemma {:induction false} OnlyCountLimits(active: seq<Source>, k: nat, maxConcurrent: nat)
    requires k <= |active|
    ensures |Tallied(active[..k], U32_MAX, maxConcurrent).admitted| == Min(k, maxConcurrent)
  {
    if k > 0 {
      assert active[..k][..k - 1] == active[..k - 1];
      OnlyCountLimits(active, k - 1, maxConcurrent);
    }
  }

  lemma DropsBelowTheTop(active: seq<Source>, budget: nat, maxConcurrent: nat)
    requires Ordered(active) && budget < U32_MAX
    ensures var p := FittingTop(active, budget, maxConcurrent);
            DropsTheLeast(active, budget, maxConcurrent)
            <==> p == |active| || p == maxConcurrent || AllTooDear(active, p, budget)
  {
    var p := FittingTop(active, budget, maxConcurrent);
    DropsByAdmission(active, budget, maxConcurrent);
    TopIsAdmitted(active, p, budget, maxConcurrent);
    if p == maxConcurrent || AllTooDear(active, p, budget) {
      forall k | p <= k < |active| ensures !Admits(active, k, budget, maxConcurrent) {
        DearIsDropped(active, p, k, budget, maxConcurrent);
      }
    } else if p < |active| {
      assert active[..p + 1][..p] == active[..p];
      assert !Admits(active, p, budget, maxConcurrent);
      if DropsTheLeast(active, budget, maxConcurrent) {
        OnlyDearBelow(active, p, budget, maxConcurrent);
      }
    }
  }

  /** If nothing below the `p`th is admitted, it is because nothing fits. */
  lemma OnlyDearBelow(active: seq<Source>, p: nat, budget: nat, maxConcurrent: nat)
    requires p <= |active| && p < maxConcurrent && TotalCost(active[..p]) <= budget < U32_MAX
    requires forall k :: p <= k < |active| ==> !Admits(active, k, budget, maxConcurrent)
    ensures AllTooDear(active, p, budget)
  {
    TopIsAdmitted(active, p, budget, maxConcurrent);
    forall k | p <= k < |active| ensures TotalCost(active[..p]) + active[k].cost > budget {
      PassStalls(active, p, k, budget, maxConcurrent);
      assert !Admits(active, k, budget, maxConcurrent);
    }
  }

  /** A stack that drops its second source and shows its third. */
  lemma AdmissionSkips()
    ensures var dear := Source(2, 0, 0, 2, None, 0, 0, 0, 8);
            var cheap := Source(3, 0, 0, 1, None, 0, 0, 0, 4);
            var first := Source(1, 0, 0, 3, None, 0, 0, 0, 6);
            Ordered([first, dear, cheap]) && !DropsTheLeast([first, dear, cheap], 10, 4)
  {
    var dear := Source(2, 0, 0, 2, None, 0, 0, 0, 8);
    var cheap := Source(3, 0, 0, 1, None, 0, 0, 0, 4);
    var first := Source(1, 0, 0, 3, None, 0, 0, 0, 6);
    assert [first, dear, cheap][..2] == [first, dear] && [first, dear][..1] == [first] && [first][..0] == [];
    assert Tallied([first], 10, 4) == Tally(6, [1], []);
    assert Tallied([first, dear], 10, 4) == Tally(6, [1], [2]);
    var active := [first, dear, cheap];
    assert Tallied(active, 10, 4).admitted == [1, 3];
    assert active[2].id in [1, 3] && active[1].id !in [1, 3];
  }

  // ------------------------------------------------------------------------ the budget

  /** The cost of the sources whose ids are listed, as a true sum. */
  function CostOf(active: seq<Source>, ids: seq<Uuid>): nat {
    if active == [] then 0
    else
      var last := |active| - 1;
      CostOf(active[..last], ids) + if active[last].id in ids then active[last].cost else 0
  }

  lemma {:induction false} SpentIsCost(active: seq<Source>, k: nat, budget: nat, maxConcurrent: nat)
    requires DistinctIds(active) && k <= |active| && budget < U32_MAX
    ensures CostOf(active[..k], Tallied(active, budget, maxConcurrent).admitted)
            == Tallied(active[..k], budget, maxConcurrent).spent <= budget
  {
    if k > 0 {
      SpentIsCost(active, k - 1, budget, maxConcurrent);
      assert active[..k][..k - 1] == active[..k - 1];
      TallySorts(active, k - 1, budget, maxConcurrent);
    }
  }

  /**
   A device keeps its budget and its count on every stack exactly when the budget is below
   the largest `u32`: at the largest, the saturating test lets any sum through.
   */
  lemma BudgetIsKeptBelowMax(budget: nat, maxConcurrent: nat)
    requires budget <= U32_MAX && maxConcurrent >= CONCURRENCY_FLOOR
    ensures budget < U32_MAX <==> forall active: seq<Source> :: Ordered(active) ==>
      KeepsBudget(active, budget, maxConcurrent)
  {
    if budget < U32_MAX {
      forall active: seq<Source> | Ordered(active) ensures KeepsBudget(active, budget, maxConcurrent) {
        SpentIsCost(active, |active|, budget, maxConcurrent);
        assert active[..|active|] == active;
      }
    } else {
      var a, b := Source(1, 0, 0, 2, None, 0, 0, 0, U32_MAX), Source(2, 0, 0, 1, None, 0, 0, 0, U32_MAX);
      var active := [a, b];
      assert Ordered(active);
      assert active[..1] == [a] && [a][..0] == [];
      assert Tallied([a], budget, maxConcurrent) == Tally(U32_MAX, [1], []);
      var admitted := Tallied(active, budget, maxConcurrent).admitted;
      assert admitted == [1, 2];
      assert CostOf([a], admitted) == U32_MAX;
      assert !KeepsBudget(active, budget, maxConcurrent);
    }
  }

  predicate KeepsBudget(active: seq<Source>, budget: nat, maxConcurrent: nat) {
    CostOf(active, Tallied(active, budget, maxConcurrent).admitted) <= budget
  }

  // ---------------------------------------------------------------------- the invariant

  ghost predicate Valid(s: StackState) {
    && Ordered(s.active)
    && s.maxConcurrent >= CONCURRENCY_FLOOR && s.budget <= U32_MAX
    && s.admitted == Tallied(s.active, s.budget, s.maxConcurrent).admitted
    && s.rejected == Tallied(s.active, s.budget, s.maxConcurrent).rejected
    && (forall x :: x in s.active ==> x.cost <= s.budget)
    && (forall x :: x in s.active && x.expiresAtUs.None? ==> x.IsAmbient())
  }

  datatype Op =
    | Push(nowUs: nat, source: Source)
    | Pop(nowUs: nat, id: Uuid)
    | Renew(id: Uuid, expiresAtUs: nat)
    | Advance(nowUs: nat)

  function Step(s: StackState, op: Op): Effect {
    match op
    case Push(nowUs, source) => AfterPush(s, nowUs, source)
    case Pop(nowUs, id) => AfterPop(s, nowUs, id)
    case Renew(id, expiresAtUs) => Effect(AfterRenew(s, id, expiresAtUs), [])
    case Advance(nowUs) => AfterAdvance(s, nowUs)
  }

  /** The state after a run, and everything reported on the way. */
  function Run(s: StackState, ops: seq<Op>): Effect
    decreases |ops|
  {
    if ops == [] then Effect(s, [])
    else
      var first := Step(s, ops[0]);
      var rest := Run(first.after, ops[1..]);
      Effect(rest.after, first.changes + rest.changes)
  }

  lemma {:induction false} SieveKeepsOrder(active: seq<Source>, nowUs: nat, lapsed: bool)
    requires Ordered(active)
    ensures Ordered(Sieve(active, nowUs, lapsed))
    ensures forall x :: x in Sieve(active, nowUs, lapsed) <==> x in active && x.HasExpired(nowUs) == lapsed
  {
    if active != [] {
      var last := |active| - 1;
      SieveKeepsOrder(active[..last], nowUs, lapsed);
      var kept := Sieve(active[..last], nowUs, lapsed);
      forall x | x in kept ensures Precedes(x, active[last]) {
        assert x in active[..last];
      }
    }
  }

  /** Admission reads only ids and costs, so a renewal leaves it alone. */
  lemma {:induction false} RenewalKeepsTally(a: seq<Source>, b: seq<Source>, budget: nat, maxConcurrent: nat)
    requires |a| == |b| && forall k :: 0 <= k < |a| ==> a[k].id == b[k].id && a[k].cost == b[k].cost
    ensures Tallied(a, budget, maxConcurrent) == Tallied(b, budget, maxConcurrent)
  {
    if a != [] {
      RenewalKeepsTally(a[..|a| - 1], b[..|b| - 1], budget, maxConcurrent);
    }
  }

  lemma PushKeepsValid(s: StackState, nowUs: nat, source: Source)
    requires Valid(s)
    ensures Valid(AfterPush(s, nowUs, source).after)
  {
    PlacedIsOrdered(s.active, source);
  }

  lemma PopKeepsValid(s: StackState, nowUs: nat, id: Uuid)
    requires Valid(s)
    ensures Valid(AfterPop(s, nowUs, id).after)
  {
    var at := Position(s.active, id);
    if at.Some? {
      forall x | x in RemoveAt(s.active, at.value) ensures x in s.active {}
    }
  }

  lemma RenewalKeepsOrder(active: seq<Source>, at: nat, expiresAtUs: nat)
    requires Ordered(active) && at < |active|
    ensures Ordered(active[at := active[at].(expiresAtUs := Some(expiresAtUs))])
  {
    var renewed := active[at := active[at].(expiresAtUs := Some(expiresAtUs))];
    forall i, j | 0 <= i < j < |renewed| ensures Precedes(renewed[i], renewed[j]) {
      assert Precedes(active[i], active[j]);
    }
  }

  lemma RenewKeepsValid(s: StackState, id: Uuid, expiresAtUs: nat)
    requires Valid(s)
    ensures Valid(AfterRenew(s, id, expiresAtUs))
  {
    var at := Position(s.active, id);
    if at.Some? {
      var renewed := AfterRenew(s, id, expiresAtUs).active;
      RenewalKeepsTally(s.active, renewed, s.budget, s.maxConcurrent);
      RenewalKeepsOrder(s.active, at.value, expiresAtUs);
      forall x | x in renewed ensures x.cost <= s.budget && (x.expiresAtUs.None? ==> x.IsAmbient()) {
        var k :| 0 <= k < |renewed| && renewed[k] == x;
        assert s.active[k] in s.active;
      }
    }
  }

  lemma AdvanceKeepsValid(s: StackState, nowUs: nat)
    requires Valid(s)
    ensures Valid(AfterAdvance(s, nowUs).after)
  {
    SieveKeepsOrder(s.active, nowUs, false);
  }

  /** Every operation keeps the order, the limits and the agreement of the two lists with the stack. */
  lemma StepKeepsValid(s: StackState, op: Op)
    requires Valid(s)
    ensures Valid(Step(s, op).after)
  {
    match op
    case Push(nowUs, source) => PushKeepsValid(s, nowUs, source);
    case Pop(nowUs, id) => PopKeepsValid(s, nowUs, id);
    case Renew(id, expiresAtUs) => RenewKeepsValid(s, id, expiresAtUs);
    case Advance(nowUs) => AdvanceKeepsValid(s, nowUs);
  }

  lemma {:induction false} RunKeepsValid(s: StackState, ops: seq<Op>)
    requires Valid(s)
    ensures Valid(Run(s, ops).after)
    decreases |ops|
  {
    if ops != [] {
      StepKeepsValid(s, ops[0]);
      RunKeepsValid(Step(s, ops[0]).after, ops[1..]);
    }
  }

  /** The source that heads the admitted list, as `SourceStack.Top` finds it. */
  function TopOf(s: StackState): Option<Source> {
    if s.admitted == [] then None
    else
      var at := Position(s.active, s.admitted[0]);
      if at.Some? then Some(s.active[at.value]) else None
  }

  /** The top of the stack is always shown: no stack is so full that it shows nothing. */
  lemma TopIsFirst(s: StackState)
    requires Valid(s)
    ensures TopOf(s) == if s.active == [] then None else Some(s.active[0])
  {
    if s.active != [] {
      FirstIsAdmitted(s.active, s.budget, s.maxConcurrent);
    }
  }

  lemma {:induction false} FirstIsAdmitted(active: seq<Source>, budget: nat, maxConcurrent: nat)
    requires active != [] && active[0].cost <= budget <= U32_MAX && maxConcurrent > 0
    ensures var admitted := Tallied(active, budget, maxConcurrent).admitted;
            admitted != [] && admitted[0] == active[0].id
  {
    if |active| == 1 {
      assert active[..0] == [];
    } else {
      FirstIsAdmitted(active[..|active| - 1], budget, maxConcurrent);
    }
  }

  /** Over any run from a fresh stack, everything promised of the state at once. */
  lemma EveryReachableStack(budget: nat, maxConcurrent: nat, ops: seq<Op>)
    requires budget < U32_MAX
    ensures var s := Run(Fresh(budget, maxConcurrent), ops).after;
            && Valid(s)
            && TopOf(s) == (if s.active == [] then None else Some(s.active[0]))
            && CostOf(s.active, s.admitted) <= s.budget
            && |s.admitted| <= s.maxConcurrent && |s.admitted| + |s.rejected| == |s.active|
            && (forall x :: x in s.active ==> (x.id in s.admitted <==> x.id !in s.rejected))
  {
    RunKeepsValid(Fresh(budget, maxConcurrent), ops);
    RunKeepsLimits(Fresh(budget, maxConcurrent), ops);
    var s := Run(Fresh(budget, maxConcurrent), ops).after;
    TopIsFirst(s);
    BudgetIsKeptBelowMax(s.budget, s.maxConcurrent);
    assert KeepsBudget(s.active, s.budget, s.maxConcurrent);
    TallyNamesActive(s.active, s.budget, s.maxConcurrent);
    forall k | 0 <= k < |s.active| ensures s.active[k].id in s.admitted <==> s.active[k].id !in s.rejected {
      TallySorts(s.active, k, s.budget, s.maxConcurrent);
    }
  }

  lemma {:induction false} RunKeepsLimits(s: StackState, ops: seq<Op>)
    ensures Run(s, ops).after.budget == s.budget
    decreases |ops|
  {
    if ops != [] {
      RunKeepsLimits(Step(s, ops[0]).after, ops[1..]);
    }
  }

  /** Once every expiry has passed, nothing above the ambient floor is left. */
  lemma ExpiryClearsTheStack(s: StackState, nowUs: nat)
    requires Valid(s)
    requires forall x :: x in s.active && x.expiresAtUs.Some? ==> x.expiresAtUs.value <= nowUs
    ensures forall x :: x in AfterAdvance(s, nowUs).after.active <==> x in s.active && x.expiresAtUs.None?
    ensures forall x :: x in AfterAdvance(s, nowUs).after.active ==> x.IsAmbient()
  {
    SieveKeepsOrder(s.active, nowUs, false);
  }

  // ---------------------------------------------------------------- the account of sources

  function Count(changes: seq<Change>, what: Change -> bool): nat {
    if changes == [] then 0
    else Count(changes[..|changes| - 1], what) + if what(changes[|changes| - 1]) then 1 else 0
  }

  lemma {:induction false} CountAppend(a: seq<Change>, b: seq<Change>, what: Change -> bool)
    ensures Count(a + b, what) == Count(a, what) + Count(b, what)
  {
    if b == [] {
      assert a + b == a;
    } else {
      assert (a + b)[..|a + b| - 1] == a + b[..|b| - 1];
      CountAppend(a, b[..|b| - 1], what);
    }
  }

  predicate IsRemoved(c: Change) { c.Removed? }

  predicate IsRetired(c: Change) { c.Removed? && !c.reason.Superseded? }

  predicate IsFinished(c: Change) { c.FadeFinished? }

  /** `removed`, `retired` and `finished` are how many changes of each kind are reported. */
  ghost predicate Reported(changes: seq<Change>, removed: int, retired: int, finished: int) {
    && Count(changes, IsRemoved) == removed
    && Count(changes, IsRetired) == retired
    && Count(changes, IsFinished) == finished
  }

  lemma ReportedAppend(a: seq<Change>, b: seq<Change>, removed: int, retired: int, finished: int)
    requires Reported(b, removed, retired, finished)
    ensures Reported(a + b, Count(a, IsRemoved) + removed, Count(a, IsRetired) + retired, Count(a, IsFinished) + finished)
  {
    CountAppend(a, b, IsRemoved);
    CountAppend(a, b, IsRetired);
    CountAppend(a, b, IsFinished);
  }

  lemma {:induction false} ReportsRemoveNothing(active: seq<Source>, budget: nat, maxConcurrent: nat,
                                                wasA: seq<Uuid>, wasR: seq<Uuid>)
    ensures Reported(Reports(active, budget, maxConcurrent, wasA, wasR), 0, 0, 0)
  {
    if active != [] {
      var last := |active| - 1;
      ReportsRemoveNothing(active[..last], budget, maxConcurrent, wasA, wasR);
      var one := Report(Tallied(active[..last], budget, maxConcurrent), active[last], budget, maxConcurrent, wasA, wasR);
      assert one != [] ==> one[..0] == [];
      ReportedAppend(Reports(active[..last], budget, maxConcurrent, wasA, wasR), one, 0, 0, 0);
    }
  }

  lemma LeavingIsReported(source: Source, reason: Removal)
    requires !reason.Superseded?
    ensures Reported(LeavingChanges(source, reason), 1, 1, if source.fadeOutMs == 0 then 1 else 0)
  {
    var changes := LeavingChanges(source, reason);
    assert changes[..1] == [Removed(source.id, reason)] && changes[..1][..0] == [];
    assert changes == if source.fadeOutMs == 0 then changes[..1] + [FadeFinished(source.id)] else changes[..1];
  }

  lemma {:induction false} AllLeavingIsReported(fading: seq<Fading>, nowUs: nat, sources: seq<Source>)
    ensures Reported(AllLeavingChanges(sources), |sources|, |sources|,
                     |fading| + |sources| - |AllLeaving(fading, nowUs, sources)|)
  {
    if sources != [] {
      var last := |sources| - 1;
      AllLeavingIsReported(fading, nowUs, sources[..last]);
      LeavingIsReported(sources[last], Expired);
      ReportedAppend(AllLeavingChanges(sources[..last]), LeavingChanges(sources[last], Expired), 1, 1,
                     if sources[last].fadeOutMs == 0 then 1 else 0);
    }
  }

  lemma {:induction false} FinishingIsReported(fading: seq<Fading>, nowUs: nat)
    ensures Reported(FinishedFades(fading, nowUs), 0, 0, |fading| - |StillFading(fading, nowUs)|)
  {
    if fading != [] {
      var last := |fading| - 1;
      FinishingIsReported(fading[..last], nowUs);
      if fading[last].IsDone(nowUs) {
        var one := [FadeFinished(fading[last].source.id)];
        assert one[..0] == [];
        ReportedAppend(FinishedFades(fading[..last], nowUs), one, 0, 0, 1);
      } else {
        assert FinishedFades(fading, nowUs) == FinishedFades(fading[..last], nowUs);
      }
    }
  }

  lemma {:induction false} SievesSplit(active: seq<Source>, nowUs: nat)
    ensures |Sieve(active, nowUs, true)| + |Sieve(active, nowUs, false)| == |active|
  {
    if active != [] { SievesSplit(active[..|active| - 1], nowUs); }
  }

  /** One for a push that is taken. */
  function Arrivals(s: StackState, op: Op): nat {
    if op.Push? && Refusal(s, op.nowUs, op.source).None? then 1 else 0
  }

  lemma StepBalances(s: StackState, op: Op)
    ensures var e := Step(s, op);
            Reported(e.changes,
                     |s.active| + Arrivals(s, op) - |e.after.active|,
                     Count(e.changes, IsRetired),
                     |s.fading| + Count(e.changes, IsRetired) - |e.after.fading|)
  {
    match op
    case Push(nowUs, source) => PushBalances(s, nowUs, source);
    case Pop(nowUs, id) => PopBalances(s, nowUs, id);
    case Renew(id, expiresAtUs) =>
    case Advance(nowUs) => AdvanceBalances(s, nowUs);
  }

  lemma PushBalances(s: StackState, nowUs: nat, source: Source)
    ensures var e := AfterPush(s, nowUs, source);
            Reported(e.changes, |s.active| + Arrivals(s, Push(nowUs, source)) - |e.after.active|, 0, 0)
  {
    if Refusal(s, nowUs, source).None? {
      var before := s.(active := Placed(s.active, source));
      var reports := AfterReadmit(before).changes;
      ReportsRemoveNothing(before.active, s.budget, s.maxConcurrent, s.admitted, s.rejected);
      ReplacementIsReported(s.active, source.id);
      ReportedAppend(Replacement(s.active, source.id), reports, 0, 0, 0);
    }
  }

  lemma ReplacementIsReported(active: seq<Source>, id: Uuid)
    ensures Reported(Replacement(active, id), |active| - |Vacated(active, id)|, 0, 0)
  {
    var replaced := Replacement(active, id);
    assert replaced != [] ==> replaced[..0] == [];
  }

  lemma PopBalances(s: StackState, nowUs: nat, id: Uuid)
    ensures var e := AfterPop(s, nowUs, id);
            Reported(e.changes, |s.active| - |e.after.active|, |s.active| - |e.after.active|,
                     |s.active| - |e.after.active| + |s.fading| - |e.after.fading|)
  {
    var at := Position(s.active, id);
    if at.Some? {
      var source := s.active[at.value];
      var before := s.(active := RemoveAt(s.active, at.value), fading := Leaving(s.fading, nowUs, source, Popped));
      ReportsRemoveNothing(before.active, s.budget, s.maxConcurrent, s.admitted, s.rejected);
      LeavingIsReported(source, Popped);
      ReportedAppend(LeavingChanges(source, Popped), AfterReadmit(before).changes, 0, 0, 0);
    }
  }

  lemma AdvanceBalances(s: StackState, nowUs: nat)
    ensures var e := AfterAdvance(s, nowUs);
            Reported(e.changes, |s.active| - |e.after.active|, |s.active| - |e.after.active|,
                     |s.active| - |e.after.active| + |s.fading| - |e.after.fading|)
  {
    var lapsed := Sieve(s.active, nowUs, true);
    var fading := AllLeaving(s.fading, nowUs, lapsed);
    var before := s.(active := Sieve(s.active, nowUs, false), fading := StillFading(fading, nowUs));
    SievesSplit(s.active, nowUs);
    AllLeavingIsReported(s.fading, nowUs, lapsed);
    FinishingIsReported(fading, nowUs);
    var left := AllLeavingChanges(lapsed);
    ReportedAppend(left, FinishedFades(fading, nowUs), 0, 0, |fading| - |StillFading(fading, nowUs)|);
    ReportsRemoveNothing(before.active, s.budget, s.maxConcurrent, s.admitted, s.rejected);
    ReportedAppend(left + FinishedFades(fading, nowUs), AfterReadmit(before).changes, 0, 0, 0);
  }

  function AllArrivals(s: StackState, ops: seq<Op>): nat
    decreases |ops|
  {
    if ops == [] then 0 else Arrivals(s, ops[0]) + AllArrivals(Step(s, ops[0]).after, ops[1..])
  }

  /**
   Nothing is lost over any run: every source taken is live or was reported removed, and every
   one removed for a reason other than replacement is fading or was reported finished.
   */
  lemma {:induction false} EverySourceIsAccountedFor(s: StackState, ops: seq<Op>)
    ensures var e := Run(s, ops);
            && |s.active| + AllArrivals(s, ops) == |e.after.active| + Count(e.changes, IsRemoved)
            && |s.fading| + Count(e.changes, IsRetired) == |e.after.fading| + Count(e.changes, IsFinished)
    decreases |ops|
  {
    if ops != [] {
      var first := Step(s, ops[0]);
      var rest := Run(first.after, ops[1..]);
      StepBalances(s, ops[0]);
      EverySourceIsAccountedFor(first.after, ops[1..]);
      CountAppend(first.changes, rest.changes, IsRemoved);
      CountAppend(first.changes, rest.changes, IsRetired);
      CountAppend(first.changes, rest.changes, IsFinished);
    }
  }

  // ---------------------------------------------------------------- following the changes

  /** The ids a caller believes are shown, after one change. */
  function Follow(shown: set<Uuid>, c: Change): set<Uuid> {
    match c
    case Admitted(id) => shown + {id}
    case Rejected(id, _, _) => shown - {id}
    case Removed(id, reason) => if reason.Superseded? then shown else shown - {id}
    case FadeFinished(_) => shown
  }

  function FollowAll(shown: set<Uuid>, changes: seq<Change>): set<Uuid> {
    if changes == [] then shown
    else Follow(FollowAll(shown, changes[..|changes| - 1]), changes[|changes| - 1])
  }

  lemma {:induction false} FollowAppend(shown: set<Uuid>, a: seq<Change>, b: seq<Change>)
    ensures FollowAll(shown, a + b) == FollowAll(FollowAll(shown, a), b)
  {
    if b == [] {
      assert a + b == a;
    } else {
      assert (a + b)[..|a + b| - 1] == a + b[..|b| - 1];
      FollowAppend(shown, a, b[..|b| - 1]);
    }
  }

  function Ids(active: seq<Source>): set<Uuid> {
    set s | s in active :: s.id
  }

  function Listed(ids: seq<Uuid>): set<Uuid> {
    set id | id in ids
  }

  lemma SetsSettle(shown: set<Uuid>, before: set<Uuid>, listed: set<Uuid>, id: Uuid)
    requires id !in before && id !in listed
    ensures var r := (shown - before) + listed;
            && r + {id} == (shown - (before + {id})) + (listed + {id})
            && r - {id} == (shown - (before + {id})) + listed
            && (id in r <==> id in shown)
  {
  }

  lemma {:induction false} FollowReports(shown: set<Uuid>, active: seq<Source>, budget: nat, maxConcurrent: nat,
                                         wasA: seq<Uuid>, wasR: seq<Uuid>)
    requires DistinctIds(active)
    requires forall s :: s in active ==> (s.id in shown <==> s.id in wasA) && (s.id in shown ==> s.id !in wasR)
    ensures FollowAll(shown, Reports(active, budget, maxConcurrent, wasA, wasR))
            == (shown - Ids(active)) + Listed(Tallied(active, budget, maxConcurrent).admitted)
  {
    if active != [] {
      var last := |active| - 1;
      var before, s := active[..last], active[last];
      FollowReports(shown, before, budget, maxConcurrent, wasA, wasR);
      var t := Tallied(before, budget, maxConcurrent);
      TallyNamesActive(before, budget, maxConcurrent);
      FollowReport(shown, Reports(before, budget, maxConcurrent, wasA, wasR),
                   before, t, s, budget, maxConcurrent, wasA, wasR);
      assert Ids(active) == Ids(before) + {s.id};
    }
  }

  /** After the report on one source it is known whether that one is shown. */
  lemma FollowOne(r: set<Uuid>, t: Tally, s: Source, budget: nat, maxConcurrent: nat, wasA: seq<Uuid>, wasR: seq<Uuid>)
    requires (s.id in r <==> s.id in wasA) && (s.id in r ==> s.id !in wasR)
    ensures FollowAll(r, Report(t, s, budget, maxConcurrent, wasA, wasR))
            == if Fits(t, s, budget, maxConcurrent) then r + {s.id} else r - {s.id}
  {
    var one := Report(t, s, budget, maxConcurrent, wasA, wasR);
    assert one != [] ==> one[..0] == [];
  }

  lemma ListedMore(ids: seq<Uuid>, id: Uuid)
    ensures Listed(ids + [id]) == Listed(ids) + {id}
  {
  }

  lemma FollowReport(shown: set<Uuid>, reports: seq<Change>, before: seq<Source>, t: Tally, s: Source,
                     budget: nat, maxConcurrent: nat, wasA: seq<Uuid>, wasR: seq<Uuid>)
    requires s.id !in Ids(before) && s.id !in t.admitted
    requires (s.id in shown <==> s.id in wasA) && (s.id in shown ==> s.id !in wasR)
    requires FollowAll(shown, reports) == (shown - Ids(before)) + Listed(t.admitted)
    ensures FollowAll(shown, reports + Report(t, s, budget, maxConcurrent, wasA, wasR))
            == (shown - (Ids(before) + {s.id})) + Listed(Decided(t, s, budget, maxConcurrent).admitted)
  {
    var r := FollowAll(shown, reports);
    SetsSettle(shown, Ids(before), Listed(t.admitted), s.id);
    FollowAppend(shown, reports, Report(t, s, budget, maxConcurrent, wasA, wasR));
    FollowOne(r, t, s, budget, maxConcurrent, wasA, wasR);
    ListedMore(t.admitted, s.id);
  }

  /** The ids that are shown. */
  function Shown(s: StackState): set<Uuid> { Listed(s.admitted) }

  /**
   A caller that only follows the changes always knows what is shown: it need not compare the
   stack before and after. It must keep showing a source reported as superseded, because its
   replacement, when admitted, is not reported again.
   */
  lemma ChangesTellWhatIsShown(s: StackState, op: Op)
    requires Valid(s)
    ensures FollowAll(Shown(s), Step(s, op).changes) == Shown(Step(s, op).after)
  {
    ShownIsNotRejected(s);
    match op
    case Push(nowUs, source) => PushTells(s, nowUs, source);
    case Pop(nowUs, id) => PopTells(s, nowUs, id);
    case Renew(id, expiresAtUs) =>
    case Advance(nowUs) => AdvanceTells(s, nowUs);
  }

  ghost predicate Disjoint(s: StackState) {
    && (forall id :: id in s.admitted ==> id in Ids(s.active))
    && (forall x :: x in s.active && x.id in s.admitted ==> x.id !in s.rejected)
  }

  lemma ShownIsNotRejected(s: StackState)
    requires Valid(s)
    ensures Disjoint(s)
  {
    TallyNamesActive(s.active, s.budget, s.maxConcurrent);
    forall k | 0 <= k < |s.active| && s.active[k].id in s.admitted ensures s.active[k].id !in s.rejected {
      TallySorts(s.active, k, s.budget, s.maxConcurrent);
    }
  }

  /** `active` is what a stack holds once the sources with the ids in `gone` have left it. */
  ghost predicate Carries(s: StackState, active: seq<Source>, gone: set<Uuid>) {
    && DistinctIds(active)
    && Shown(s) - gone <= Ids(active)
    && (forall x :: x in active ==> x.id !in gone && (x.id in s.admitted ==> x.id !in s.rejected))
  }

  /** Following the reports of one pass from what the last pass showed, less what has gone. */
  lemma ReadmitTells(s: StackState, active: seq<Source>, gone: set<Uuid>)
    requires Carries(s, active, gone)
    ensures FollowAll(Shown(s) - gone, Reports(active, s.budget, s.maxConcurrent, s.admitted, s.rejected))
            == Listed(Tallied(active, s.budget, s.maxConcurrent).admitted)
  {
    var shown := Shown(s) - gone;
    FollowReports(shown, active, s.budget, s.maxConcurrent, s.admitted, s.rejected);
    assert shown - Ids(active) == {};
  }

  lemma PushTells(s: StackState, nowUs: nat, source: Source)
    requires Valid(s) && Disjoint(s)
    ensures FollowAll(Shown(s), AfterPush(s, nowUs, source).changes) == Shown(AfterPush(s, nowUs, source).after)
  {
    if Refusal(s, nowUs, source).None? {
      var active := Placed(s.active, source);
      PushCarries(s, source);
      ReadmitTells(s, active, {});
      assert Shown(s) - {} == Shown(s);
      FollowAppend(Shown(s), Replacement(s.active, source.id),
                   Reports(active, s.budget, s.maxConcurrent, s.admitted, s.rejected));
      ReplacementTells(Shown(s), s.active, source.id);
    }
  }

  lemma ReplacementTells(shown: set<Uuid>, active: seq<Source>, id: Uuid)
    ensures FollowAll(shown, Replacement(active, id)) == shown
  {
    var replaced := Replacement(active, id);
    assert replaced != [] ==> replaced[..0] == [];
  }

  lemma PushCarries(s: StackState, source: Source)
    requires Valid(s) && Disjoint(s)
    ensures Carries(s, Placed(s.active, source), {})
  {
    PlacedIsOrdered(s.active, source);
    var active := Placed(s.active, source);
    forall id | id in Shown(s) ensures id in Ids(active) {
      var x :| x in s.active && x.id == id;
      assert (if id == source.id then source else x) in active;
    }
    forall x | x in active && x.id in s.admitted ensures x.id !in s.rejected {
      var y :| y in s.active && y.id == x.id;
    }
  }

  lemma LeavingTells(shown: set<Uuid>, source: Source, reason: Removal)
    requires !reason.Superseded?
    ensures FollowAll(shown, LeavingChanges(source, reason)) == shown - {source.id}
  {
    var removed := [Removed(source.id, reason)];
    assert removed[..0] == [];
    assert FollowAll(shown, removed) == shown - {source.id};
    if source.fadeOutMs == 0 {
      assert LeavingChanges(source, reason)[..1] == removed;
    } else {
      assert LeavingChanges(source, reason) == removed;
    }
  }

  lemma PopTells(s: StackState, nowUs: nat, id: Uuid)
    requires Valid(s) && Disjoint(s)
    ensures FollowAll(Shown(s), AfterPop(s, nowUs, id).changes) == Shown(AfterPop(s, nowUs, id).after)
  {
    var at := Position(s.active, id);
    if at.Some? {
      var active := RemoveAt(s.active, at.value);
      var source := s.active[at.value];
      PopCarries(s, at.value);
      LeavingTells(Shown(s), source, Popped);
      ReadmitTells(s, active, {source.id});
      var reports := Reports(active, s.budget, s.maxConcurrent, s.admitted, s.rejected);
      FollowAppend(Shown(s), LeavingChanges(source, Popped), reports);
    }
  }

  lemma PopCarries(s: StackState, at: nat)
    requires Valid(s) && Disjoint(s) && at < |s.active|
    ensures Carries(s, RemoveAt(s.active, at), {s.active[at].id})
  {
    var active, id := RemoveAt(s.active, at), s.active[at].id;
    RemovalMembers(s.active, at);
    forall other | other in Shown(s) - {id} ensures other in Ids(active) {
      var x :| x in s.active && x.id == other;
      assert x in active;
    }
  }

  lemma {:induction false} AllLeavingTells(shown: set<Uuid>, sources: seq<Source>)
    ensures FollowAll(shown, AllLeavingChanges(sources)) == shown - Ids(sources)
  {
    if sources != [] {
      var last := |sources| - 1;
      AllLeavingTells(shown, sources[..last]);
      LeavingTells(shown - Ids(sources[..last]), sources[last], Expired);
      FollowAppend(shown, AllLeavingChanges(sources[..last]), LeavingChanges(sources[last], Expired));
      assert Ids(sources) == Ids(sources[..last]) + {sources[last].id};
    }
  }

  lemma {:induction false} FinishingTells(shown: set<Uuid>, fading: seq<Fading>, nowUs: nat)
    ensures FollowAll(shown, FinishedFades(fading, nowUs)) == shown
  {
    if fading != [] {
      var last := |fading| - 1;
      FinishingTells(shown, fading[..last], nowUs);
      if fading[last].IsDone(nowUs) {
        var one := [FadeFinished(fading[last].source.id)];
        assert one[..0] == [];
        FollowAppend(shown, FinishedFades(fading[..last], nowUs), one);
      } else {
        assert FinishedFades(fading, nowUs) == FinishedFades(fading[..last], nowUs);
      }
    }
  }

  lemma AdvanceTells(s: StackState, nowUs: nat)
    requires Valid(s) && Disjoint(s)
    ensures FollowAll(Shown(s), AfterAdvance(s, nowUs).changes) == Shown(AfterAdvance(s, nowUs).after)
  {
    var lapsed, active := Sieve(s.active, nowUs, true), Sieve(s.active, nowUs, false);
    var fading := AllLeaving(s.fading, nowUs, lapsed);
    var gone := AllLeavingChanges(lapsed);
    var finished := FinishedFades(fading, nowUs);
    var reports := Reports(active, s.budget, s.maxConcurrent, s.admitted, s.rejected);
    AllLeavingTells(Shown(s), lapsed);
    FinishingTells(Shown(s) - Ids(lapsed), fading, nowUs);
    FollowAppend(Shown(s), gone, finished);
    FollowAppend(Shown(s), gone + finished, reports);
    AdvanceCarries(s, nowUs);
    ReadmitTells(s, active, Ids(lapsed));
  }

  lemma AdvanceCarries(s: StackState, nowUs: nat)
    requires Valid(s) && Disjoint(s)
    ensures Carries(s, Sieve(s.active, nowUs, false), Ids(Sieve(s.active, nowUs, true)))
  {
    SieveKeepsOrder(s.active, nowUs, true);
    SieveKeepsOrder(s.active, nowUs, false);
    var lapsed, active := Sieve(s.active, nowUs, true), Sieve(s.active, nowUs, false);
    forall id | id in Shown(s) - Ids(lapsed) ensures id in Ids(active) {
      var x :| x in s.active && x.id == id;
      assert x in lapsed || x in active;
    }
  }

  // --------------------------------------------------- taking every removal at its word

  /** The ids a caller believes are shown that takes every source reported removed as gone. */
  function Trust(shown: set<Uuid>, c: Change): set<Uuid> {
    match c
    case Admitted(id) => shown + {id}
    case Rejected(id, _, _) => shown - {id}
    case Removed(id, _) => shown - {id}
    case FadeFinished(_) => shown
  }

  function TrustAll(shown: set<Uuid>, changes: seq<Change>): set<Uuid> {
    if changes == [] then shown
    else Trust(TrustAll(shown, changes[..|changes| - 1]), changes[|changes| - 1])
  }

  ghost predicate NoneSuperseded(changes: seq<Change>) {
    forall c :: c in changes && c.Removed? ==> !c.reason.Superseded?
  }

  lemma {:induction false} TrustWithout(shown: set<Uuid>, changes: seq<Change>)
    requires NoneSuperseded(changes)
    ensures TrustAll(shown, changes) == FollowAll(shown, changes)
  {
    if changes != [] { TrustWithout(shown, changes[..|changes| - 1]); }
  }

  lemma {:induction false} TrustAppend(shown: set<Uuid>, a: seq<Change>, b: seq<Change>)
    ensures TrustAll(shown, a + b) == TrustAll(TrustAll(shown, a), b)
  {
    if b == [] {
      assert a + b == a;
    } else {
      assert (a + b)[..|a + b| - 1] == a + b[..|b| - 1];
      TrustAppend(shown, a, b[..|b| - 1]);
    }
  }

  /** A pass reports no removal, and does not report what was shown before as admitted. */
  lemma {:induction false} ReportsAdmitTheNew(active: seq<Source>, budget: nat, maxConcurrent: nat, wasA: seq<Uuid>,
                                              wasR: seq<Uuid>)
    ensures forall c :: c in Reports(active, budget, maxConcurrent, wasA, wasR) ==>
      !c.Removed? && (c.Admitted? ==> c.id !in wasA)
  {
    if active != [] { ReportsAdmitTheNew(active[..|active| - 1], budget, maxConcurrent, wasA, wasR); }
  }

  /** A caller that has lost sight of an id sees it again only when it is reported admitted. */
  lemma {:induction false} LostUntilAdmitted(shown: set<Uuid>, changes: seq<Change>, id: Uuid)
    requires Admitted(id) !in changes
    ensures FollowAll(shown - {id}, changes) == FollowAll(shown, changes) - {id}
  {
    if changes != [] {
      var last := |changes| - 1;
      LostUntilAdmitted(shown, changes[..last], id);
      assert changes[last] in changes;
    }
  }

  lemma {:induction false} LapsesNoneSuperseded(sources: seq<Source>)
    ensures NoneSuperseded(AllLeavingChanges(sources))
  {
    if sources != [] { LapsesNoneSuperseded(sources[..|sources| - 1]); }
  }

  lemma {:induction false} FinishesNoneSuperseded(fading: seq<Fading>, nowUs: nat)
    ensures NoneSuperseded(FinishedFades(fading, nowUs))
  {
    if fading != [] { FinishesNoneSuperseded(fading[..|fading| - 1], nowUs); }
  }

  /** Only a push that is taken reports a source as superseded. */
  lemma OnlyPushSupersedes(s: StackState, op: Op)
    requires !op.Push?
    ensures NoneSuperseded(Step(s, op).changes)
  {
    match op
    case Pop(nowUs, id) =>
      var at := Position(s.active, id);
      if at.Some? {
        ReportsAdmitTheNew(RemoveAt(s.active, at.value), s.budget, s.maxConcurrent, s.admitted, s.rejected);
      }
    case Renew(_, _) =>
    case Advance(nowUs) =>
      var lapsed := Sieve(s.active, nowUs, true);
      ReportsAdmitTheNew(Sieve(s.active, nowUs, false), s.budget, s.maxConcurrent, s.admitted, s.rejected);
      LapsesNoneSuperseded(lapsed);
      FinishesNoneSuperseded(AllLeaving(s.fading, nowUs, lapsed), nowUs);
  }

  /** Whether a source, once in its place, fits beside what is admitted above it. */
  predicate WouldBeShown(s: StackState, source: Source) {
    var placed := Placed(s.active, source);
    var at := Position(placed, source.id);
    at.Some? && Admits(placed, at.value, s.budget, s.maxConcurrent)
  }

  /** A push that will be taken, of an id that is shown and that fits again in its new place. */
  predicate ShowsAgain(s: StackState, op: Op) {
    && op.Push? && Refusal(s, op.nowUs, op.source).None?
    && op.source.id in s.admitted && WouldBeShown(s, op.source)
  }

  lemma ShownAsForeseen(s: StackState, nowUs: nat, source: Source)
    requires Valid(s) && Refusal(s, nowUs, source).None?
    ensures source.id in AfterPush(s, nowUs, source).after.admitted <==> WouldBeShown(s, source)
  {
    var placed := Placed(s.active, source);
    PlacedIsOrdered(s.active, source);
    assert source in placed;
    TallySorts(placed, Position(placed, source.id).value, s.budget, s.maxConcurrent);
  }

  lemma TrustInReplacement(shown: set<Uuid>, active: seq<Source>, id: Uuid)
    ensures TrustAll(shown, Replacement(active, id)) == if Position(active, id).Some? then shown - {id} else shown
  {
    var replaced := Replacement(active, id);
    assert replaced != [] ==> replaced[..0] == [];
  }

  /** What the reports of a pass make of what was shown, with and without one of its ids. */
  lemma TrustInReports(shown: set<Uuid>, reports: seq<Change>, wasA: seq<Uuid>, id: Uuid)
    requires forall c :: c in reports ==> !c.Removed? && (c.Admitted? ==> c.id !in wasA)
    requires shown == Listed(wasA)
    ensures TrustAll(shown, reports) == FollowAll(shown, reports)
    ensures TrustAll(shown - {id}, reports)
      == if id in wasA then FollowAll(shown, reports) - {id} else FollowAll(shown, reports)
  {
    TrustWithout(shown, reports);
    TrustWithout(shown - {id}, reports);
    if id in wasA {
      LostUntilAdmitted(shown, reports, id);
    } else {
      assert shown - {id} == shown;
    }
  }

  lemma TrustInPush(s: StackState, nowUs: nat, source: Source)
    requires Valid(s) && Disjoint(s) && Refusal(s, nowUs, source).None?
    ensures var e := AfterPush(s, nowUs, source);
            TrustAll(Shown(s), e.changes)
              == if source.id in s.admitted then Shown(e.after) - {source.id} else Shown(e.after)
  {
    var replaced := Replacement(s.active, source.id);
    var reports := Reports(Placed(s.active, source), s.budget, s.maxConcurrent, s.admitted, s.rejected);
    PushTells(s, nowUs, source);
    FollowAppend(Shown(s), replaced, reports);
    ReplacementTells(Shown(s), s.active, source.id);
    TrustAppend(Shown(s), replaced, reports);
    if source.id in s.admitted {
      var x :| x in s.active && x.id == source.id;
    }
    TrustInReplacement(Shown(s), s.active, source.id);
    ReportsAdmitTheNew(Placed(s.active, source), s.budget, s.maxConcurrent, s.admitted, s.rejected);
    TrustInReports(Shown(s), reports, s.admitted, source.id);
  }

  /**
   A caller that takes every source reported removed as gone knows what is shown after a step
   exactly when the step is no taken push of an id that was shown and is shown again.
   */
  lemma TrustFailsOnReplacement(s: StackState, op: Op)
    requires Valid(s)
    ensures TrustAll(Shown(s), Step(s, op).changes) == Shown(Step(s, op).after) <==> !ShowsAgain(s, op)
  {
    ShownIsNotRejected(s);
    ChangesTellWhatIsShown(s, op);
    if op.Push? {
      if Refusal(s, op.nowUs, op.source).None? {
        ShownAsForeseen(s, op.nowUs, op.source);
        TrustInPush(s, op.nowUs, op.source);
      }
    } else {
      OnlyPushSupersedes(s, op);
      TrustWithout(Shown(s), Step(s, op).changes);
    }
  }

  /** A source pushed anew stays shown, and such a caller thinks it is gone. */
  lemma ReplacedStaysShown()
    ensures var source := Source(1, 0, 0, 3, None, 0, 0, 0, 6);
            var s := Run(Fresh(10, 4), [Push(0, source)]).after;
            var e := Step(s, Push(1, source.(pushedAtUs := 1)));
            Valid(s) && Shown(e.after) == {1} && TrustAll(Shown(s), e.changes) == {}
  {
    var source := Source(1, 0, 0, 3, None, 0, 0, 0, 6);
    var again := source.(pushedAtUs := 1);
    var empty := Fresh(10, 4);
    RunKeepsValid(empty, [Push(0, source)]);
    assert [Push(0, source)][1..] == [];
    var s := Step(empty, Push(0, source)).after;
    assert Run(empty, [Push(0, source)]).after == s;
    OnePlaced(empty.active, source);
    OnePlaced(s.active, again);
    assert s.admitted == [1];
    var e := Step(s, Push(1, again));
    assert e.after.admitted == [1];
    ShownIsNotRejected(s);
    TrustInPush(s, 1, again);
  }

  lemma OnePlaced(active: seq<Source>, source: Source)
    requires active == [] || (|active| == 1 && active[0].id == source.id)
    ensures Placed(active, source) == [source] && [source][..0] == []
    ensures Tallied([source], 10, 4).admitted == if source.cost <= 10 then [source.id] else []
  {
    assert Vacated(active, source.id) + [source] == [source];
    Sorting.SortSorted([source], NotBelow);
    StackOrderIsTotal();
    Sorting.SameMembers([source], Placed(active, source));
    assert |multiset([source])| == |multiset(Placed(active, source))|;
    assert [source][..0] == [];
    assert Tallied([source], 10, 4) == Decided(Tallied([source][..0], 10, 4), source, 10, 4);
  }

  /** Over any run, what a caller follows is what is shown. */
  lemma {:induction false} RunTellsWhatIsShown(s: StackState, ops: seq<Op>)
    requires Valid(s)
    ensures FollowAll(Shown(s), Run(s, ops).changes) == Shown(Run(s, ops).after)
    decreases |ops|
  {
    if ops != [] {
      var first := Step(s, ops[0]);
      StepKeepsValid(s, ops[0]);
      ChangesTellWhatIsShown(s, ops[0]);
      RunTellsWhatIsShown(first.after, ops[1..]);
      FollowAppend(Shown(s), first.changes, Run(first.after, ops[1..]).changes);
    }
  }
}
