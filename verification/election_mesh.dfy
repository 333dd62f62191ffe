/**
 A healed mesh of leaders and followers settles on one leader (election.rs).

 A round is one tick interval. In it every device that led at its start has its tick
 delivered to every other device at least once, in any order and interleaved with any
 timers. Ticks may also be repeated. `MeshSettles`: `k` leaders are down to exactly
 the best one after `3(k - 1)` rounds and stay there.
 */
module ElectionMesh {
  import opened Elections

  type Mesh = seq<ElectionState>

  ghost predicate DistinctUuids(mesh: Mesh) {
    forall i, j :: 0 <= i < j < |mesh| ==> mesh[i].me.uuid != mesh[j].me.uuid
  }

  ghost function Leaders(mesh: Mesh): (r: set<nat>) {
    set i: nat | i < |mesh| && mesh[i].role.Leader?
  }

  /** `a` has the larger capacity, or the same and the lower uuid. */
  predicate IsAhead(a: Candidacy, b: Candidacy) {
    a.capacity >= b.capacity && (a.capacity == b.capacity ==> a.uuid < b.uuid)
  }

  /** `i` has the largest capacity in `among`, and the lowest uuid of those that share it. */
  ghost predicate Best(mesh: Mesh, among: set<nat>, i: nat) {
    && i in among && (forall j :: j in among ==> j < |mesh|)
    && forall j :: j in among && j != i ==> IsAhead(mesh[i].me, mesh[j].me)
  }

  /** Every other device in `among` beats `i`. */
  ghost predicate Worst(mesh: Mesh, among: set<nat>, i: nat) {
    && i in among && (forall j :: j in among ==> j < |mesh|)
    && forall j :: j in among && j != i ==> mesh[j].me.Beats(mesh[i].me)
  }

  // ------------------------------------------------------------------- one round

  /** One thing that happens to one device within a round. */
  datatype Step =
    | Heard(to: nat, atUs: nat, from: nat, epoch: nat)
    | TimerFired(to: nat, atUs: nat)

  /** A step that a round which began at `startUs` with the given leaders may contain. */
  ghost predicate Allowed(n: nat, leaders: set<nat>, startUs: nat, step: Step) {
    && step.to < n
    && startUs <= step.atUs <= startUs + LEADER_TICK_INTERVAL_US
    && (step.Heard? ==> step.from < n && step.from in leaders)
  }

  /** Some step delivers a tick of `from` to `to`. */
  ghost predicate Delivers(steps: seq<Step>, from: nat, to: nat) {
    exists k :: 0 <= k < |steps| && steps[k].Heard? && steps[k].from == from && steps[k].to == to
  }

  /** Every leader's tick reaches every other device, and nothing else is heard. */
  ghost predicate IsRound(mesh: Mesh, startUs: nat, steps: seq<Step>) {
    && (forall k :: 0 <= k < |steps| ==> Allowed(|mesh|, Leaders(mesh), startUs, steps[k]))
    && (forall i, j :: i in Leaders(mesh) && 0 <= j < |mesh| && i != j ==> Delivers(steps, i, j))
  }

  function After(mesh: Mesh, step: Step): (r: Mesh)
    ensures |r| == |mesh|
  {
    if step.to >= |mesh| then mesh
    else
      match step
      case TimerFired(to, atUs) => mesh[to := Timed(mesh[to], atUs).0]
      case Heard(to, atUs, from, epoch) =>
        if from < |mesh| then mesh[to := Ticked(mesh[to], atUs, mesh[from].me, epoch).0] else mesh
  }

  function AfterAll(mesh: Mesh, steps: seq<Step>): (r: Mesh)
    ensures |r| == |mesh|
    decreases |steps|
  {
    if steps == [] then mesh else AfterAll(After(mesh, steps[0]), steps[1..])
  }

  /** What holds of each device throughout a round: no candidates, and followers are fresh. */
  ghost predicate Calm(s: ElectionState, startUs: nat) {
    && !s.role.Candidate?
    && (s.role.Follower? ==> s.sinceUs + LEADER_TICK_INTERVAL_US >= startUs)
    && (s.role.Leader? ==> s.betterTicks < YIELD_HYSTERESIS)
  }

  /** The device leads, or has heard from the timebase since `startUs`. */
  ghost predicate Refreshed(s: ElectionState, startUs: nat) {
    s.role.Leader? || s.sinceUs >= startUs
  }

  ghost predicate AllCalm(mesh: Mesh, startUs: nat) {
    forall i :: 0 <= i < |mesh| ==> Calm(mesh[i], startUs)
  }

  ghost predicate SameDevices(a: Mesh, b: Mesh) {
    |a| == |b| && forall i :: 0 <= i < |a| ==> a[i].me == b[i].me
  }

  /** One step of a round, at the device it happens to. */
  lemma StepCalm(s: ElectionState, startUs: nat, atUs: nat, who: Candidacy, epoch: nat)
    requires Calm(s, startUs) && startUs <= atUs <= startUs + LEADER_TICK_INTERVAL_US
    ensures var t := Timed(s, atUs).0;
            && t.me == s.me && t.role == s.role && t.sinceUs == s.sinceUs && t.betterTicks == s.betterTicks
            && Calm(t, startUs)
    ensures var t := Ticked(s, atUs, who, epoch).0;
            && t.me == s.me && (t.role.Leader? ==> s.role.Leader?)
            && Calm(t, startUs)
            && (Refreshed(s, startUs) ==> Refreshed(t, startUs))
            && (who.uuid != s.me.uuid ==> Refreshed(t, startUs))
            && (!who.Beats(s.me) ==> t.role == s.role)
            && (who.Beats(s.me) && who.uuid != s.me.uuid && t.role.Leader? ==> t.betterTicks == s.betterTicks + 1)
            && (who.uuid == s.me.uuid ==> t == s)
  {
  }

  lemma StepOfRound(mesh: Mesh, leaders: set<nat>, startUs: nat, step: Step)
    requires AllCalm(mesh, startUs) && Allowed(|mesh|, leaders, startUs, step)
    ensures var next := After(mesh, step);
            SameDevices(mesh, next) && AllCalm(next, startUs) && Leaders(next) <= Leaders(mesh)
  {
    var who := if step.Heard? then mesh[step.from].me else mesh[step.to].me;
    var epoch := if step.Heard? then step.epoch else 0;
    StepCalm(mesh[step.to], startUs, step.atUs, who, epoch);
  }

  /** A round elects nobody and keeps every device calm. */
  lemma {:induction false} RoundCalm(mesh: Mesh, leaders: set<nat>, startUs: nat, steps: seq<Step>)
    requires AllCalm(mesh, startUs)
    requires forall k :: 0 <= k < |steps| ==> Allowed(|mesh|, leaders, startUs, steps[k])
    ensures var end := AfterAll(mesh, steps);
            SameDevices(mesh, end) && AllCalm(end, startUs) && Leaders(end) <= Leaders(mesh)
    decreases |steps|
  {
    if steps != [] {
      StepOfRound(mesh, leaders, startUs, steps[0]);
      RoundCalm(After(mesh, steps[0]), leaders, startUs, steps[1..]);
    }
  }

  /** A device that leads or hears a tick ends the round refreshed. */
  lemma {:induction false} RoundRefreshes(mesh: Mesh, leaders: set<nat>, startUs: nat, steps: seq<Step>, i: nat,
                                          from: nat)
    requires AllCalm(mesh, startUs) && i < |mesh| && DistinctUuids(mesh) && from != i
    requires forall k :: 0 <= k < |steps| ==> Allowed(|mesh|, leaders, startUs, steps[k])
    requires Refreshed(mesh[i], startUs) || Delivers(steps, from, i)
    ensures Refreshed(AfterAll(mesh, steps)[i], startUs)
    decreases |steps|
  {
    if steps != [] {
      var step, next := steps[0], After(mesh, steps[0]);
      StepOfRound(mesh, leaders, startUs, step);
      var who := if step.Heard? then mesh[step.from].me else mesh[step.to].me;
      StepCalm(mesh[step.to], startUs, step.atUs, who, if step.Heard? then step.epoch else 0);
      if !Refreshed(next[i], startUs) {
        var k :| 0 <= k < |steps| && steps[k].Heard? && steps[k].from == from && steps[k].to == i;
        assert steps[1..][k - 1] == steps[k];
      }
      RoundRefreshes(next, leaders, startUs, steps[1..], i, from);
    }
  }

  /** Nobody's tick unseats the best leader. */
  lemma {:induction false} BestKeepsLeading(mesh: Mesh, leaders: set<nat>, startUs: nat, steps: seq<Step>, best: nat)
    requires AllCalm(mesh, startUs) && Best(mesh, leaders, best) && best in Leaders(mesh)
    requires forall k :: 0 <= k < |steps| ==> Allowed(|mesh|, leaders, startUs, steps[k])
    ensures best in Leaders(AfterAll(mesh, steps))
    decreases |steps|
  {
    if steps != [] {
      var step := steps[0];
      StepOfRound(mesh, leaders, startUs, step);
      var who := if step.Heard? then mesh[step.from].me else mesh[step.to].me;
      StepCalm(mesh[step.to], startUs, step.atUs, who, if step.Heard? then step.epoch else 0);
      BestKeepsLeading(After(mesh, step), leaders, startUs, steps[1..], best);
    }
  }

  /** How many ticks of other devices reach `i`. */
  ghost function TicksHeard(steps: seq<Step>, i: nat): nat {
    if steps == [] then 0
    else (if steps[0].Heard? && steps[0].to == i && steps[0].from != i then 1 else 0) + TicksHeard(steps[1..], i)
  }

  lemma {:induction false} DeliveredIsHeard(steps: seq<Step>, from: nat, i: nat)
    requires Delivers(steps, from, i) && from != i
    ensures TicksHeard(steps, i) >= 1
  {
    if !(steps[0].Heard? && steps[0].to == i && steps[0].from != i) {
      var k :| 0 <= k < |steps| && steps[k].Heard? && steps[k].from == from && steps[k].to == i;
      assert steps[1..][k - 1] == steps[k];
      DeliveredIsHeard(steps[1..], from, i);
    }
  }

  /** Every tick the worst leader hears counts towards its yielding, whatever its neighbours do. */
  lemma {:induction false} WorstCountsUp(mesh: Mesh, leaders: set<nat>, startUs: nat, steps: seq<Step>, worst: nat)
    requires AllCalm(mesh, startUs) && DistinctUuids(mesh) && Worst(mesh, leaders, worst)
    requires forall k :: 0 <= k < |steps| ==> Allowed(|mesh|, leaders, startUs, steps[k])
    ensures var end := AfterAll(mesh, steps);
            worst in Leaders(end) ==> worst in Leaders(mesh) && end[worst].betterTicks == mesh[worst].betterTicks + TicksHeard(steps, worst)
    decreases |steps|
  {
    if steps != [] {
      var step := steps[0];
      StepOfRound(mesh, leaders, startUs, step);
      var who := if step.Heard? then mesh[step.from].me else mesh[step.to].me;
      StepCalm(mesh[step.to], startUs, step.atUs, who, if step.Heard? then step.epoch else 0);
      RoundCalm(After(mesh, step), leaders, startUs, steps[1..]);
      WorstCountsUp(After(mesh, step), leaders, startUs, steps[1..], worst);
    }
  }

  // ------------------------------------------------------------------ many rounds

  /** The start of a round in a healed mesh that `best` leads best. */
  ghost predicate Healed(mesh: Mesh, startUs: nat, best: nat) {
    DistinctUuids(mesh) && AllCalm(mesh, startUs) && Best(mesh, Leaders(mesh), best)
  }

  /** Back-to-back rounds, one tick interval apart. */
  ghost predicate IsRun(mesh: Mesh, startUs: nat, rounds: seq<seq<Step>>)
    decreases |rounds|
  {
    rounds == [] ||
    (IsRound(mesh, startUs, rounds[0]) &&
     IsRun(AfterAll(mesh, rounds[0]), startUs + LEADER_TICK_INTERVAL_US, rounds[1..]))
  }

  function AfterRounds(mesh: Mesh, rounds: seq<seq<Step>>): (r: Mesh)
    ensures |r| == |mesh|
    decreases |rounds|
  {
    if rounds == [] then mesh else AfterRounds(AfterAll(mesh, rounds[0]), rounds[1..])
  }

  /** A round leaves the mesh healed under the same best leader, with no leader added. */
  lemma RoundHeals(mesh: Mesh, startUs: nat, steps: seq<Step>, best: nat)
    requires Healed(mesh, startUs, best) && IsRound(mesh, startUs, steps)
    ensures var end := AfterAll(mesh, steps);
            && SameDevices(mesh, end) && Leaders(end) <= Leaders(mesh)
            && Healed(end, startUs + LEADER_TICK_INTERVAL_US, best)
  {
    var leaders, end := Leaders(mesh), AfterAll(mesh, steps);
    RoundCalm(mesh, leaders, startUs, steps);
    BestKeepsLeading(mesh, leaders, startUs, steps, best);
    forall i | 0 <= i < |mesh| ensures Refreshed(end[i], startUs) {
      if i != best {
        assert Delivers(steps, best, i);
        RoundRefreshes(mesh, leaders, startUs, steps, i, best);
      }
    }
  }

  /** A round brings the worst of several leaders one tick closer to yielding. */
  lemma RoundWearsDown(mesh: Mesh, startUs: nat, steps: seq<Step>, best: nat, worst: nat)
    requires Healed(mesh, startUs, best) && IsRound(mesh, startUs, steps)
    requires Worst(mesh, Leaders(mesh), worst) && worst != best
    ensures worst in Leaders(AfterAll(mesh, steps)) ==> AfterAll(mesh, steps)[worst].betterTicks > mesh[worst].betterTicks
  {
    WorstCountsUp(mesh, Leaders(mesh), startUs, steps, worst);
    assert Delivers(steps, best, worst);
    DeliveredIsHeard(steps, best, worst);
  }

  /** Among several leaders one is beaten by all the others. */
  lemma {:induction false} WorstExists(mesh: Mesh, among: set<nat>)
    requires DistinctUuids(mesh) && among != {} && forall i :: i in among ==> i < |mesh|
    ensures exists i: nat :: Worst(mesh, among, i)
  {
    var x :| x in among;
    var rest := among - {x};
    if rest == {} {
      assert forall j :: j in among ==> j == x || j in rest;
      assert Worst(mesh, among, x);
    } else {
      WorstExists(mesh, rest);
      var y: nat :| Worst(mesh, rest, y);
      var worst := if mesh[x].me.Beats(mesh[y].me) then y else x;
      assert mesh[x].me.uuid != mesh[y].me.uuid;
      forall j | j in among && j != worst ensures mesh[j].me.Beats(mesh[worst].me) {
        if j != x { assert j in rest; }
      }
      assert Worst(mesh, among, worst);
    }
  }

  /** Some device of several is ahead of all the others. */
  lemma {:induction false} BestExists(mesh: Mesh, among: set<nat>)
    requires DistinctUuids(mesh) && among != {} && forall i :: i in among ==> i < |mesh|
    ensures exists i: nat :: Best(mesh, among, i)
  {
    var x :| x in among;
    var rest := among - {x};
    if rest == {} {
      assert forall j :: j in among ==> j == x || j in rest;
      assert Best(mesh, among, x);
    } else {
      BestExists(mesh, rest);
      var y: nat :| Best(mesh, rest, y);
      var best := if IsAhead(mesh[x].me, mesh[y].me) then x else y;
      assert mesh[x].me.uuid != mesh[y].me.uuid;
      forall j | j in among && j != best ensures IsAhead(mesh[best].me, mesh[j].me) {
        if j != x { assert j in rest; }
      }
      assert Best(mesh, among, best);
    }
  }

  /** As long as it leads, a leader worn down by `n` rounds has counted at least `n` better ticks. */
  lemma {:induction false} WornDown(mesh: Mesh, startUs: nat, rounds: seq<seq<Step>>, best: nat, worst: nat)
    requires Healed(mesh, startUs, best) && IsRun(mesh, startUs, rounds)
    requires Worst(mesh, Leaders(mesh), worst) && worst != best
    ensures var end := AfterRounds(mesh, rounds);
            worst in Leaders(end) ==> worst in Leaders(mesh) && end[worst].betterTicks >= mesh[worst].betterTicks + |rounds|
    decreases |rounds|
  {
    if rounds != [] {
      var next := AfterAll(mesh, rounds[0]);
      RoundHeals(mesh, startUs, rounds[0], best);
      RoundWearsDown(mesh, startUs, rounds[0], best, worst);
      RunHeals(next, startUs + LEADER_TICK_INTERVAL_US, rounds[1..], best);
      if worst in Leaders(next) {
        WornDown(next, startUs + LEADER_TICK_INTERVAL_US, rounds[1..], best, worst);
      }
    }
  }

  /** Rounds add no leader and never unseat the best one. */
  lemma {:induction false} RunHeals(mesh: Mesh, startUs: nat, rounds: seq<seq<Step>>, best: nat)
    requires Healed(mesh, startUs, best) && IsRun(mesh, startUs, rounds)
    ensures var end := AfterRounds(mesh, rounds);
            && SameDevices(mesh, end) && Leaders(end) <= Leaders(mesh)
            && Healed(end, startUs + |rounds| * LEADER_TICK_INTERVAL_US, best)
    decreases |rounds|
  {
    if rounds != [] {
      RoundHeals(mesh, startUs, rounds[0], best);
      RunHeals(AfterAll(mesh, rounds[0]), startUs + LEADER_TICK_INTERVAL_US, rounds[1..], best);
    }
  }

  lemma {:induction false} RunSplits(mesh: Mesh, startUs: nat, rounds: seq<seq<Step>>, n: nat)
    requires IsRun(mesh, startUs, rounds) && n <= |rounds|
    ensures IsRun(mesh, startUs, rounds[..n])
    ensures IsRun(AfterRounds(mesh, rounds[..n]), startUs + n * LEADER_TICK_INTERVAL_US, rounds[n..])
    ensures AfterRounds(AfterRounds(mesh, rounds[..n]), rounds[n..]) == AfterRounds(mesh, rounds)
    decreases n
  {
    if n > 0 {
      RunSplits(AfterAll(mesh, rounds[0]), startUs + LEADER_TICK_INTERVAL_US, rounds[1..], n - 1);
      assert rounds[..n][1..] == rounds[1..][..n - 1];
      assert rounds[1..][n - 1..] == rounds[n..];
    }
  }

  lemma BestAndWorst(mesh: Mesh, among: set<nat>, i: nat)
    requires Best(mesh, among, i) && Worst(mesh, among, i)
    ensures among == {i}
  {
    forall j | j in among ensures j == i {
      BeatsIsStrictTotalOrder(mesh[i].me, mesh[j].me, mesh[i].me);
    }
  }

  /** Three rounds cost a mesh with several leaders at least one of them. */
  lemma ThreeRoundsDropALeader(mesh: Mesh, startUs: nat, rounds: seq<seq<Step>>, best: nat)
    requires Healed(mesh, startUs, best) && IsRun(mesh, startUs, rounds) && |rounds| == 3
    requires |Leaders(mesh)| > 1
    ensures |Leaders(AfterRounds(mesh, rounds))| < |Leaders(mesh)|
  {
    WorstExists(mesh, Leaders(mesh));
    var worst: nat :| Worst(mesh, Leaders(mesh), worst);
    if worst == best {
      BestAndWorst(mesh, Leaders(mesh), best);
      assert false;
    }
    RunHeals(mesh, startUs, rounds, best);
    WornDown(mesh, startUs, rounds, best, worst);
    var before, after := Leaders(mesh), Leaders(AfterRounds(mesh, rounds));
    assert worst in before && worst !in after;
    assert after <= before - {worst};
    assert |before - {worst}| == |before| - 1;
    Smaller(after, before - {worst});
  }

  lemma Smaller(a: set<nat>, b: set<nat>)
    requires a <= b
    ensures |a| <= |b|
  {
    assert b == a + (b - a);
  }

  lemma LoneLeaderIsBest(mesh: Mesh, startUs: nat, best: nat)
    requires Healed(mesh, startUs, best) && |Leaders(mesh)| <= 1
    ensures Leaders(mesh) == {best}
  {
    assert |Leaders(mesh) - {best}| == |Leaders(mesh)| - 1;
  }

  /**
   `3(k - 1)` rounds, in any delivery order, take `k` leaders down to exactly the best
   one, and every later round keeps it so.
   */
  lemma {:induction false} MeshSettles(mesh: Mesh, startUs: nat, rounds: seq<seq<Step>>, best: nat)
    requires Healed(mesh, startUs, best) && IsRun(mesh, startUs, rounds)
    requires |rounds| >= 3 * (|Leaders(mesh)| - 1)
    ensures Leaders(AfterRounds(mesh, rounds)) == {best}
    ensures forall i :: 0 <= i < |mesh| && i != best ==> AfterRounds(mesh, rounds)[i].role.Follower?
    decreases |rounds|
  {
    var end := AfterRounds(mesh, rounds);
    RunHeals(mesh, startUs, rounds, best);
    if |Leaders(mesh)| <= 1 {
      LoneLeaderIsBest(mesh, startUs, best);
    } else {
      RunSplits(mesh, startUs, rounds, 3);
      var next := AfterRounds(mesh, rounds[..3]);
      RunHeals(mesh, startUs, rounds[..3], best);
      ThreeRoundsDropALeader(mesh, startUs, rounds[..3], best);
      MeshSettles(next, startUs + 3 * LEADER_TICK_INTERVAL_US, rounds[3..], best);
    }
    forall i | 0 <= i < |mesh| && i != best ensures end[i].role.Follower? {
      assert i !in Leaders(end) && Calm(end[i], startUs + |rounds| * LEADER_TICK_INTERVAL_US);
    }
  }

  /**
   In terms of capacities: of a mesh of calm leaders and followers exactly one leader is left, with
   a capacity at least that of every leader there was, and the lowest uuid of those that share it.
   */
  lemma StrongestLeads(mesh: Mesh, startUs: nat, rounds: seq<seq<Step>>) returns (best: nat)
    requires DistinctUuids(mesh) && AllCalm(mesh, startUs) && Leaders(mesh) != {} && IsRun(mesh, startUs, rounds)
    requires |rounds| >= 3 * (|Leaders(mesh)| - 1)
    ensures best in Leaders(mesh) && Leaders(AfterRounds(mesh, rounds)) == {best}
    ensures forall j :: j in Leaders(mesh) ==> mesh[j].me.capacity <= mesh[best].me.capacity
    ensures forall j :: j in Leaders(mesh) && mesh[j].me.capacity == mesh[best].me.capacity ==>
      mesh[best].me.uuid <= mesh[j].me.uuid
  {
    BestExists(mesh, Leaders(mesh));
    best :| Best(mesh, Leaders(mesh), best);
    MeshSettles(mesh, startUs, rounds, best);
  }
}
