/**
 The life of one source (sources.rs): in every run of a stack, when a source comes, is replaced,
 goes and has faded depends on nothing but its own pushes, pops and renewals, and time.
 */
module SourceLives {
  import opened Arith
  import opened Wrappers
  import opened Sources
  import opened SourceLaws

  /** The source of one id that is on the stack, if one is, and those of its id that are fading. */
  datatype Life = Life(live: Option<Source>, fades: seq<Fading>)

  /** A push is taken unless it never ends though it is not ambient, has ended, or costs more than there is. */
  predicate IsTaken(source: Source, nowUs: nat, budget: nat) {
    && source.cost <= budget
    && (source.expiresAtUs.None? ==> source.priority <= 63)
    && (source.expiresAtUs.Some? ==> nowUs < source.expiresAtUs.value)
  }

  /** Whether a source's time is over. */
  predicate IsOver(source: Source, nowUs: nat) {
    source.expiresAtUs.Some? && source.expiresAtUs.value <= nowUs
  }

  function Gone(life: Life, nowUs: nat, reason: Removal): Life
    requires life.live.Some?
  {
    Life(None, if life.live.value.fadeOutMs > 0 then life.fades + [Fading(life.live.value, nowUs, reason)] else life.fades)
  }

  /** The fades that are not over: a span of `fadeOutMs` milliseconds has not passed since they began. */
  function Unfinished(fades: seq<Fading>, nowUs: nat): seq<Fading> {
    if fades == [] then []
    else
      var f := fades[|fades| - 1];
      Unfinished(fades[..|fades| - 1], nowUs)
      + if f.source.fadeOutMs == 0 || nowUs >= f.startedAtUs + 1_000 * f.source.fadeOutMs then [] else [f]
  }

  /** What one operation makes of the life of `id`. */
  function Lived(life: Life, budget: nat, op: Op, id: Uuid): Life {
    match op
    case Push(nowUs, source) =>
      if source.id == id && IsTaken(source, nowUs, budget) then life.(live := Some(source)) else life
    case Pop(nowUs, other) => if other == id && life.live.Some? then Gone(life, nowUs, Popped) else life
    case Renew(other, expiresAtUs) =>
      if other == id && life.live.Some? then life.(live := Some(life.live.value.(expiresAtUs := Some(expiresAtUs)))) else life
    case Advance(nowUs) =>
      var t := if life.live.Some? && IsOver(life.live.value, nowUs) then Gone(life, nowUs, Expired) else life;
      t.(fades := Unfinished(t.fades, nowUs))
  }

  function LivedAll(life: Life, budget: nat, ops: seq<Op>, id: Uuid): Life
    decreases |ops|
  {
    if ops == [] then life else LivedAll(Lived(life, budget, ops[0], id), budget, ops[1..], id)
  }

  // ----------------------------------------------------------------- what a stack holds

  /** The one source of an id on a stack. */
  ghost predicate IsLive(active: seq<Source>, id: Uuid, live: Option<Source>) {
    forall x :: x in active && x.id == id <==> live == Some(x) && x.id == id
  }

  function FadesOf(fading: seq<Fading>, id: Uuid): seq<Fading> {
    if fading == [] then []
    else FadesOf(fading[..|fading| - 1], id) + if fading[|fading| - 1].source.id == id then [fading[|fading| - 1]] else []
  }

  ghost predicate Holds(s: StackState, id: Uuid, life: Life) {
    && IsLive(s.active, id, life.live) && (life.live.Some? ==> life.live.value.id == id)
    && FadesOf(s.fading, id) == life.fades
  }

  // ------------------------------------------------------------------------- each step

  lemma {:induction false} StillFadingOf(fading: seq<Fading>, nowUs: nat, id: Uuid)
    ensures FadesOf(StillFading(fading, nowUs), id) == Unfinished(FadesOf(fading, id), nowUs)
  {
    if fading != [] {
      var last := |fading| - 1;
      var f, before := fading[last], StillFading(fading[..last], nowUs);
      StillFadingOf(fading[..last], nowUs, id);
      FadeEnds(f.source.fadeOutMs, SubSat(nowUs, f.startedAtUs));
      var fades := FadesOf(fading[..last], id);
      if f.IsDone(nowUs) { assert before + [] == before; } else { FadesOfSnoc(before, f, id); }
      if f.source.id == id { UnfinishedSnoc(fades, f, nowUs); } else { assert fades + [] == fades; }
      assert f.IsDone(nowUs) <==> f.source.fadeOutMs == 0 || nowUs >= f.startedAtUs + 1_000 * f.source.fadeOutMs;
    }
  }

  lemma FadesOfSnoc(fading: seq<Fading>, f: Fading, id: Uuid)
    ensures FadesOf(fading + [f], id) == FadesOf(fading, id) + if f.source.id == id then [f] else []
  {
    assert (fading + [f])[..|fading|] == fading;
  }

  lemma UnfinishedSnoc(fades: seq<Fading>, f: Fading, nowUs: nat)
    ensures Unfinished(fades + [f], nowUs)
            == Unfinished(fades, nowUs)
               + if f.source.fadeOutMs == 0 || nowUs >= f.startedAtUs + 1_000 * f.source.fadeOutMs then [] else [f]
  {
    assert (fades + [f])[..|fades|] == fades;
  }

  lemma LiveIsThere(active: seq<Source>, id: Uuid, live: Option<Source>)
    requires IsLive(active, id, live) && (live.Some? ==> live.value.id == id)
    ensures live.Some? <==> exists x :: x in active && x.id == id
  {
    if live.Some? { assert live.value in active; }
  }

  /** Of sources of different ids that leave, at most one is of this id. */
  lemma {:induction false} AllLeavingOf(fading: seq<Fading>, nowUs: nat, sources: seq<Source>, id: Uuid, live: Option<Source>)
    requires DistinctIds(sources) && IsLive(sources, id, live) && (live.Some? ==> live.value.id == id)
    ensures FadesOf(AllLeaving(fading, nowUs, sources), id)
            == FadesOf(fading, id)
               + if live.Some? && live.value.fadeOutMs > 0 then [Fading(live.value, nowUs, Expired)] else []
  {
    if sources == [] {
      LiveIsThere(sources, id, live);
    } else {
      var last := |sources| - 1;
      var x, before := sources[last], AllLeaving(fading, nowUs, sources[..last]);
      assert sources == sources[..last] + [x];
      if x.id == id {
        assert x in sources && live == Some(x);
        forall y | y in sources[..last] ensures y.id != id {}
        AllLeavingOf(fading, nowUs, sources[..last], id, None);
      } else {
        forall y ensures y in sources[..last] && y.id == id <==> live == Some(y) && y.id == id {
          assert y.id == id ==> (y in sources <==> y in sources[..last]);
        }
        AllLeavingOf(fading, nowUs, sources[..last], id, live);
      }
      if x.fadeOutMs > 0 { FadesOfSnoc(before, Fading(x, nowUs, Expired), id); }
    }
  }

  lemma PushLives(s: StackState, nowUs: nat, source: Source, id: Uuid, life: Life)
    requires Valid(s) && Holds(s, id, life)
    ensures Holds(AfterPush(s, nowUs, source).after, id, Lived(life, s.budget, Push(nowUs, source), id))
  {
    TakenIsNotRefused(s, nowUs, source);
    if IsTaken(source, nowUs, s.budget) {
      PlacedIsOrdered(s.active, source);
      PlacedIsLive(s.active, source, id, life.live);
    }
  }

  lemma TakenIsNotRefused(s: StackState, nowUs: nat, source: Source)
    ensures IsTaken(source, nowUs, s.budget) <==> Refusal(s, nowUs, source).None?
  {
  }

  lemma PlacedIsLive(active: seq<Source>, source: Source, id: Uuid, live: Option<Source>)
    requires Ordered(active) && IsLive(active, id, live)
    ensures IsLive(Placed(active, source), id, if source.id == id then Some(source) else live)
  {
    PlacedIsOrdered(active, source);
  }

  lemma PopLives(s: StackState, nowUs: nat, other: Uuid, id: Uuid, life: Life)
    requires Valid(s) && Holds(s, id, life)
    ensures Holds(AfterPop(s, nowUs, other).after, id, Lived(life, s.budget, Pop(nowUs, other), id))
  {
    var at := Position(s.active, other);
    if at.Some? {
      var x := s.active[at.value];
      assert x in s.active;
      RemovalMembers(s.active, at.value);
      if x.fadeOutMs > 0 { FadesOfSnoc(s.fading, Fading(x, nowUs, Popped), id); }
    } else if other == id {
      LiveIsThere(s.active, id, life.live);
    }
  }

  lemma RenewLives(s: StackState, other: Uuid, expiresAtUs: nat, id: Uuid, life: Life)
    requires Valid(s) && Holds(s, id, life)
    ensures Holds(AfterRenew(s, other, expiresAtUs), id, Lived(life, s.budget, Renew(other, expiresAtUs), id))
  {
    var at := Position(s.active, other);
    if at.Some? {
      var x := s.active[at.value];
      var renewed := x.(expiresAtUs := Some(expiresAtUs));
      assert x in s.active;
      RenewedMembers(s.active, at.value, renewed);
    } else if other == id {
      LiveIsThere(s.active, id, life.live);
    }
  }

  lemma RenewedMembers(active: seq<Source>, at: nat, renewed: Source)
    requires Ordered(active) && at < |active| && renewed.id == active[at].id
    ensures forall x :: x in active[at := renewed] <==> x == renewed || (x in active && x.id != renewed.id)
  {
    var after := active[at := renewed];
    forall x ensures x in after <==> x == renewed || (x in active && x.id != renewed.id) {
      if x in active && x.id != renewed.id {
        var k :| 0 <= k < |active| && active[k] == x;
        assert after[k] == x;
      }
      if x in after {
        var k :| 0 <= k < |after| && after[k] == x;
        assert k != at ==> active[k] == x;
      }
      assert after[at] == renewed;
    }
  }

  /** Time leaves the source if it is not over, and takes it if it is. */
  lemma SieveLives(active: seq<Source>, nowUs: nat, id: Uuid, live: Option<Source>)
    requires Ordered(active) && IsLive(active, id, live)
    ensures var over := live.Some? && IsOver(live.value, nowUs);
            && IsLive(Sieve(active, nowUs, false), id, if over then None else live)
            && IsLive(Sieve(active, nowUs, true), id, if over then live else None)
            && DistinctIds(Sieve(active, nowUs, true))
  {
    SieveKeepsOrder(active, nowUs, true);
    SieveKeepsOrder(active, nowUs, false);
  }

  lemma TimeFades(fading: seq<Fading>, nowUs: nat, lapsed: seq<Source>, id: Uuid, over: Option<Source>, fades: seq<Fading>)
    requires DistinctIds(lapsed) && IsLive(lapsed, id, over) && (over.Some? ==> over.value.id == id)
    requires fades == FadesOf(fading, id)
    ensures FadesOf(StillFading(AllLeaving(fading, nowUs, lapsed), nowUs), id)
            == Unfinished(if over.Some? then Gone(Life(over, fades), nowUs, Expired).fades else fades, nowUs)
  {
    AllLeavingOf(fading, nowUs, lapsed, id, over);
    StillFadingOf(AllLeaving(fading, nowUs, lapsed), nowUs, id);
    assert fades + [] == fades;
  }

  lemma AdvanceIs(s: StackState, nowUs: nat)
    ensures var t := AfterAdvance(s, nowUs).after;
            && t.active == Sieve(s.active, nowUs, false) && t.budget == s.budget
            && t.fading == StillFading(AllLeaving(s.fading, nowUs, Sieve(s.active, nowUs, true)), nowUs)
  {
  }

  lemma TimeLives(s: StackState, t: StackState, nowUs: nat, id: Uuid, life: Life)
    requires Ordered(s.active) && Holds(s, id, life) && t.active == Sieve(s.active, nowUs, false)
    requires t.fading == StillFading(AllLeaving(s.fading, nowUs, Sieve(s.active, nowUs, true)), nowUs)
    ensures Holds(t, id, Lived(life, s.budget, Advance(nowUs), id))
  {
    var over := if life.live.Some? && IsOver(life.live.value, nowUs) then life.live else None;
    SieveLives(s.active, nowUs, id, life.live);
    TimeFades(s.fading, nowUs, Sieve(s.active, nowUs, true), id, over, life.fades);
  }

  lemma AdvanceLives(s: StackState, nowUs: nat, id: Uuid, life: Life)
    requires Valid(s) && Holds(s, id, life)
    ensures Holds(AfterAdvance(s, nowUs).after, id, Lived(life, s.budget, Advance(nowUs), id))
  {
    AdvanceIs(s, nowUs);
    TimeLives(s, AfterAdvance(s, nowUs).after, nowUs, id, life);
  }

  lemma StepLives(s: StackState, op: Op, id: Uuid, life: Life)
    requires Valid(s) && Holds(s, id, life)
    ensures Holds(Step(s, op).after, id, Lived(life, s.budget, op, id)) && Step(s, op).after.budget == s.budget
  {
    match op
    case Push(nowUs, source) => PushLives(s, nowUs, source, id, life);
    case Pop(nowUs, other) => PopLives(s, nowUs, other, id, life);
    case Renew(other, expiresAtUs) => RenewLives(s, other, expiresAtUs, id, life);
    case Advance(nowUs) => AdvanceLives(s, nowUs, id, life);
  }

  lemma {:induction false} RunLives(s: StackState, ops: seq<Op>, id: Uuid, life: Life)
    requires Valid(s) && Holds(s, id, life)
    ensures Holds(Run(s, ops).after, id, LivedAll(life, s.budget, ops, id))
    decreases |ops|
  {
    if ops != [] {
      StepLives(s, ops[0], id, life);
      StepKeepsValid(s, ops[0]);
      RunLives(Step(s, ops[0]).after, ops[1..], id, Lived(life, s.budget, ops[0], id));
    }
  }

  /**
   In every run from an empty stack and for every id: the source of that id on the stack, and the
   ones fading, with when and why they began to, are those of its life alone, whatever happened to
   any other.
   */
  lemma EachSourceLivesAlone(budget: nat, maxConcurrent: nat, ops: seq<Op>, id: Uuid)
    requires budget <= U32_MAX
    ensures Holds(Run(Fresh(budget, maxConcurrent), ops).after, id, LivedAll(Life(None, []), budget, ops, id))
  {
    RunLives(Fresh(budget, maxConcurrent), ops, id, Life(None, []));
  }

  // -------------------------------------------------------------------------- by rank

  /** Higher priority, then pushed later, then the higher id. */
  predicate Over(a: Source, b: Source) {
    a.priority > b.priority
    || (a.priority == b.priority && (a.pushedAtUs > b.pushedAtUs || (a.pushedAtUs == b.pushedAtUs && a.id > b.id)))
  }

  /** The cost of the sources that are shown and over another, and how many they are. */
  function ShownOver(active: seq<Source>, shown: seq<Uuid>, x: Source): (nat, nat) {
    if active == [] then (0, 0)
    else
      var last := active[|active| - 1];
      var (cost, count) := ShownOver(active[..|active| - 1], shown, x);
      if last.id in shown && Over(last, x) then (cost + last.cost, count + 1) else (cost, count)
  }

  /** The same of a whole list. */
  function ShownOf(active: seq<Source>, shown: seq<Uuid>): (nat, nat) {
    if active == [] then (0, 0)
    else
      var last := active[|active| - 1];
      var (cost, count) := ShownOf(active[..|active| - 1], shown);
      if last.id in shown then (cost + last.cost, count + 1) else (cost, count)
  }

  lemma {:induction false} OverIsBefore(active: seq<Source>, shown: seq<Uuid>, k: nat, n: nat)
    requires Ordered(active) && k < |active| && n <= |active|
    ensures ShownOver(active[..n], shown, active[k]) == ShownOf(active[..Min(n, k)], shown)
  {
    if n > 0 {
      OverIsBefore(active, shown, k, n - 1);
      assert active[..n][..n - 1] == active[..n - 1] && active[..n][n - 1] == active[n - 1];
      if n - 1 < k {
        assert Precedes(active[n - 1], active[k]);
      } else if k < n - 1 {
        assert Precedes(active[k], active[n - 1]);
      }
    }
  }

  lemma ShownOfOneMore(active: seq<Source>, k: nat, shown: seq<Uuid>)
    requires k < |active|
    ensures var (cost, count) := ShownOf(active[..k], shown);
            ShownOf(active[..k + 1], shown) == if active[k].id in shown then (cost + active[k].cost, count + 1) else (cost, count)
  {
    assert active[..k + 1][..k] == active[..k];
  }

  lemma TallyOneMore(active: seq<Source>, k: nat, budget: nat, maxConcurrent: nat)
    requires k < |active| && budget < U32_MAX
    ensures var t := Tallied(active[..k], budget, maxConcurrent);
            t.spent <= budget ==>
              Tallied(active[..k + 1], budget, maxConcurrent)
              == if Admits(active, k, budget, maxConcurrent) then Tally(t.spent + active[k].cost, t.admitted + [active[k].id], t.rejected)
                 else t.(rejected := t.rejected + [active[k].id])
  {
    assert active[..k + 1][..k] == active[..k];
  }

  lemma {:induction false} TallyIsShown(active: seq<Source>, k: nat, budget: nat, maxConcurrent: nat)
    requires DistinctIds(active) && k <= |active| && budget < U32_MAX
    ensures var t, all := Tallied(active[..k], budget, maxConcurrent), Tallied(active, budget, maxConcurrent);
            ShownOf(active[..k], all.admitted) == (t.spent, |t.admitted|) && t.spent <= budget
  {
    if k > 0 {
      TallyIsShown(active, k - 1, budget, maxConcurrent);
      TallySorts(active, k - 1, budget, maxConcurrent);
      TallyOneMore(active, k - 1, budget, maxConcurrent);
      ShownOfOneMore(active, k - 1, Tallied(active, budget, maxConcurrent).admitted);
    }
  }

  /**
   On a stack of any run with a budget below the largest `u32` a source is shown exactly if the
   sources shown that have higher priority, or the same and were pushed later, or then and have
   the higher id, leave room for its cost and are fewer than may show at once.
   */
  lemma ShownByRank(budget: nat, maxConcurrent: nat, ops: seq<Op>, x: Source)
    requires budget < U32_MAX && x in Run(Fresh(budget, maxConcurrent), ops).after.active
    ensures var s := Run(Fresh(budget, maxConcurrent), ops).after;
            var (cost, count) := ShownOver(s.active, s.admitted, x);
            x.id in s.admitted <==> cost + x.cost <= budget && count < Max(maxConcurrent, 2)
  {
    RunKeepsValid(Fresh(budget, maxConcurrent), ops);
    RunKeepsLimits(Fresh(budget, maxConcurrent), ops);
    RunKeepsCount(Fresh(budget, maxConcurrent), ops);
    ShownOnStack(Run(Fresh(budget, maxConcurrent), ops).after, x);
  }

  lemma ShownOnStack(s: StackState, x: Source)
    requires Valid(s) && s.budget < U32_MAX && x in s.active
    ensures var (cost, count) := ShownOver(s.active, s.admitted, x);
            x.id in s.admitted <==> cost + x.cost <= s.budget && count < s.maxConcurrent
  {
    var k :| 0 <= k < |s.active| && s.active[k] == x;
    OverIsBefore(s.active, s.admitted, k, |s.active|);
    assert s.active[..|s.active|] == s.active;
    TallyIsShown(s.active, k, s.budget, s.maxConcurrent);
    TallySorts(s.active, k, s.budget, s.maxConcurrent);
  }

  lemma {:induction false} RunKeepsCount(s: StackState, ops: seq<Op>)
    ensures Run(s, ops).after.maxConcurrent == s.maxConcurrent
    decreases |ops|
  {
    if ops != [] { RunKeepsCount(Step(s, ops[0]).after, ops[1..]); }
  }
}
