/**
 How a mesh that has lost its timebase elects another (election.rs).

 In the two seconds after the first device stands, others may stand too, as long as they have
 heard of nobody. Every announcement reaches every device, in any order. `FollowersElect`: the best
 of those that stood leads, everybody else follows it, and the mesh is healed.
 */
module ElectionVote {
  import opened Elections
  import opened ElectionMesh

  /** The device that stands in a step, if one does. */
  ghost function Stands(mesh: Mesh, step: Step): set<nat> {
    if step.TimerFired? && step.to < |mesh| && mesh[step.to].role.Follower?
       && Timed(mesh[step.to], step.atUs).0.role.Candidate?
    then {step.to}
    else {}
  }

  /** Everybody who stands in some steps. */
  ghost function Standing(mesh: Mesh, steps: seq<Step>): set<nat>
    decreases |steps|
  {
    if steps == [] then {} else Stands(mesh, steps[0]) + Standing(After(mesh, steps[0]), steps[1..])
  }

  /**
   The steps of a vote: time moves on but not past the time a candidate takes to settle, and what
   is heard comes from a device that has stood.
   */
  ghost predicate IsVote(mesh: Mesh, stood: set<nat>, startUs: nat, nowUs: nat, steps: seq<Step>)
    decreases |steps|
  {
    steps == [] ||
    (var step := steps[0];
     && step.to < |mesh| && startUs <= nowUs <= step.atUs < startUs + CANDIDATE_SETTLE_US
     && (step.Heard? ==> step.from in stood && step.from < |mesh|)
     && IsVote(After(mesh, step), stood + Stands(mesh, step), startUs, step.atUs, steps[1..]))
  }

  /** Every announcement reaches every other device. */
  ghost predicate Lossless(mesh: Mesh, steps: seq<Step>) {
    forall i, j :: i in Standing(mesh, steps) && 0 <= j < |mesh| && i != j ==> Delivers(steps, i, j)
  }

  /** A device that follows and has heard of a candidate at `sinceUs` or later. */
  ghost predicate Out(s: ElectionState, sinceUs: nat) {
    s.role.Follower? && s.sinceUs >= sinceUs
  }

  /** A candidate that has heard of nobody better. */
  ghost predicate Unbeaten(s: ElectionState, startUs: nat) {
    s.role.Candidate? && s.sinceUs >= startUs && (s.bestSeen.Some? ==> !s.bestSeen.value.Beats(s.me))
  }

  /** What holds of a device all through a vote. */
  ghost predicate Votes(s: ElectionState, stood: bool, startUs: nat, nowUs: nat) {
    if stood then (Unbeaten(s, startUs) && s.sinceUs <= nowUs) || Out(s, startUs) else s.role.Follower?
  }

  ghost predicate Voting(mesh: Mesh, stood: set<nat>, startUs: nat, nowUs: nat) {
    && (forall i :: i in stood ==> i < |mesh|)
    && forall i :: 0 <= i < |mesh| ==> Votes(mesh[i], i in stood, startUs, nowUs)
  }

  lemma TimerVotes(s: ElectionState, stood: bool, startUs: nat, nowUs: nat, atUs: nat)
    requires Votes(s, stood, startUs, nowUs) && startUs <= nowUs <= atUs < startUs + CANDIDATE_SETTLE_US
    ensures var t := Timed(s, atUs).0;
            && t.me == s.me
            && Votes(t, stood || (s.role.Follower? && t.role.Candidate?), startUs, atUs)
            && (Unbeaten(s, startUs) ==> t == s)
            && (forall since: nat :: startUs <= since && Out(s, since) ==> t == s)
  {
  }

  lemma TickVotes(s: ElectionState, stood: bool, startUs: nat, nowUs: nat, atUs: nat, who: Candidacy, epoch: nat)
    requires Votes(s, stood, startUs, nowUs) && startUs <= nowUs <= atUs
    ensures var t := Ticked(s, atUs, who, epoch).0;
            && t.me == s.me
            && Votes(t, stood, startUs, atUs)
            && (Unbeaten(s, startUs) && !who.Beats(s.me) ==> Unbeaten(t, startUs) && t.sinceUs == s.sinceUs)
            && (who.uuid != s.me.uuid && (who.Beats(s.me) || s.role.Follower?) ==> Out(t, atUs))
            && (forall since: nat :: since <= atUs && Out(s, since) ==> Out(t, since))
  {
  }

  lemma StepVotes(mesh: Mesh, stood: set<nat>, startUs: nat, nowUs: nat, steps: seq<Step>)
    requires Voting(mesh, stood, startUs, nowUs) && IsVote(mesh, stood, startUs, nowUs, steps) && steps != []
    ensures var next := After(mesh, steps[0]);
            SameDevices(mesh, next) && Voting(next, stood + Stands(mesh, steps[0]), startUs, steps[0].atUs)
  {
    var step := steps[0];
    match step
    case TimerFired(to, atUs) => TimerVotes(mesh[to], to in stood, startUs, nowUs, atUs);
    case Heard(to, atUs, from, epoch) => TickVotes(mesh[to], to in stood, startUs, nowUs, atUs, mesh[from].me, epoch);
  }

  lemma {:induction false} VoteKeeps(mesh: Mesh, stood: set<nat>, startUs: nat, nowUs: nat, steps: seq<Step>)
    requires Voting(mesh, stood, startUs, nowUs) && IsVote(mesh, stood, startUs, nowUs, steps) && startUs <= nowUs
    ensures SameDevices(mesh, AfterAll(mesh, steps))
    ensures exists endUs: nat :: Voting(AfterAll(mesh, steps), stood + Standing(mesh, steps), startUs, endUs)
    decreases |steps|
  {
    if steps == [] {
      assert stood + Standing(mesh, steps) == stood;
    } else {
      var step, next := steps[0], After(mesh, steps[0]);
      StepVotes(mesh, stood, startUs, nowUs, steps);
      VoteKeeps(next, stood + Stands(mesh, step), startUs, step.atUs, steps[1..]);
      assert stood + Standing(mesh, steps) == stood + Stands(mesh, step) + Standing(next, steps[1..]);
    }
  }

  /** No device in `rivals` beats the one called best. */
  ghost predicate NoneBetter(mesh: Mesh, rivals: set<nat>, best: nat) {
    best < |mesh| && forall i :: i in rivals && i < |mesh| ==> !mesh[i].me.Beats(mesh[best].me)
  }

  /** A candidate that none of those who stand beats stays one, and keeps its time. */
  lemma {:induction false} BestStays(mesh: Mesh, stood: set<nat>, startUs: nat, nowUs: nat, steps: seq<Step>, best: nat)
    requires Voting(mesh, stood, startUs, nowUs) && IsVote(mesh, stood, startUs, nowUs, steps)
    requires NoneBetter(mesh, stood + Standing(mesh, steps), best) && Unbeaten(mesh[best], startUs)
    ensures var end := AfterAll(mesh, steps)[best];
            Unbeaten(end, startUs) && end.sinceUs == mesh[best].sinceUs
    decreases |steps|
  {
    if steps != [] {
      var step, next := steps[0], After(mesh, steps[0]);
      StepVotes(mesh, stood, startUs, nowUs, steps);
      match step {
        case TimerFired(to, atUs) => TimerVotes(mesh[to], to in stood, startUs, nowUs, atUs);
        case Heard(to, atUs, from, epoch) => TickVotes(mesh[to], to in stood, startUs, nowUs, atUs, mesh[from].me, epoch);
      }
      assert stood + Standing(mesh, steps) == stood + Stands(mesh, step) + Standing(next, steps[1..]);
      BestStays(next, stood + Stands(mesh, step), startUs, step.atUs, steps[1..], best);
    }
  }

  /** Whoever has heard of a candidate and follows stays out of the vote. */
  lemma {:induction false} OutStays(mesh: Mesh, stood: set<nat>, startUs: nat, nowUs: nat, steps: seq<Step>, j: nat, sinceUs: nat)
    requires Voting(mesh, stood, startUs, nowUs) && IsVote(mesh, stood, startUs, nowUs, steps)
    requires j < |mesh| && startUs <= sinceUs <= nowUs && Out(mesh[j], sinceUs)
    ensures Out(AfterAll(mesh, steps)[j], sinceUs)
    decreases |steps|
  {
    if steps != [] {
      var step := steps[0];
      StepVotes(mesh, stood, startUs, nowUs, steps);
      match step {
        case TimerFired(to, atUs) => TimerVotes(mesh[to], to in stood, startUs, nowUs, atUs);
        case Heard(to, atUs, from, epoch) => TickVotes(mesh[to], to in stood, startUs, nowUs, atUs, mesh[from].me, epoch);
      }
      OutStays(After(mesh, step), stood + Stands(mesh, step), startUs, step.atUs, steps[1..], j, sinceUs);
    }
  }

  /** Whoever hears the best of those who stand is out, from then on. */
  lemma {:induction false} HearingTheBest(mesh: Mesh, stood: set<nat>, startUs: nat, nowUs: nat, steps: seq<Step>,
                                          best: nat, j: nat)
    requires Voting(mesh, stood, startUs, nowUs) && IsVote(mesh, stood, startUs, nowUs, steps) && DistinctUuids(mesh)
    requires best < |mesh| && j < |mesh| && j != best && startUs <= nowUs && Delivers(steps, best, j)
    requires j in stood + Standing(mesh, steps) ==> mesh[best].me.Beats(mesh[j].me)
    ensures Out(AfterAll(mesh, steps)[j], nowUs)
    decreases |steps|
  {
    var step, next := steps[0], After(mesh, steps[0]);
    StepVotes(mesh, stood, startUs, nowUs, steps);
    assert stood + Standing(mesh, steps) == stood + Stands(mesh, step) + Standing(next, steps[1..]);
    if step.Heard? && step.to == j && step.from == best {
      assert mesh[best].me.uuid != mesh[j].me.uuid;
      TickVotes(mesh[j], j in stood, startUs, nowUs, step.atUs, mesh[best].me, step.epoch);
      OutStays(next, stood + Stands(mesh, step), startUs, step.atUs, steps[1..], j, step.atUs);
    } else {
      var k :| 0 <= k < |steps| && steps[k].Heard? && steps[k].from == best && steps[k].to == j;
      assert steps[1..][k - 1] == steps[k];
      HearingTheBest(next, stood + Stands(mesh, step), startUs, step.atUs, steps[1..], best, j);
    }
  }

  /** The best of those who stand ends the vote as a candidate, and all others are out since it stood. */
  lemma {:induction false} VoteEnds(mesh: Mesh, stood: set<nat>, startUs: nat, nowUs: nat, steps: seq<Step>, best: nat, j: nat)
    requires Voting(mesh, stood, startUs, nowUs) && IsVote(mesh, stood, startUs, nowUs, steps) && DistinctUuids(mesh)
    requires startUs <= nowUs && best !in stood && best in Standing(mesh, steps) && best < |mesh| && j < |mesh|
    requires NoneBetter(mesh, stood + Standing(mesh, steps), best)
    requires j != best ==> Delivers(steps, best, j)
    ensures var end := AfterAll(mesh, steps);
            Unbeaten(end[best], startUs) && (j != best ==> Out(end[j], end[best].sinceUs))
    decreases |steps|
  {
    var step, next := steps[0], After(mesh, steps[0]);
    StepVotes(mesh, stood, startUs, nowUs, steps);
    assert stood + Standing(mesh, steps) == stood + Stands(mesh, step) + Standing(next, steps[1..]);
    if j != best {
      var k :| 0 <= k < |steps| && steps[k].Heard? && steps[k].from == best && steps[k].to == j;
      assert k > 0 && steps[1..][k - 1] == steps[k];
    }
    if best in Stands(mesh, step) {
      BestStays(next, stood + Stands(mesh, step), startUs, step.atUs, steps[1..], best);
      if j != best {
        assert next[best].me.uuid != next[j].me.uuid;
        HearingTheBest(next, stood + Stands(mesh, step), startUs, step.atUs, steps[1..], best, j);
      }
    } else {
      VoteEnds(next, stood + Stands(mesh, step), startUs, step.atUs, steps[1..], best, j);
    }
  }

  // ------------------------------------------------------------------------ settling

  /** Every device's timer fires at one time. */
  function AllTimed(mesh: Mesh, atUs: nat): Mesh {
    seq(|mesh|, i requires 0 <= i < |mesh| => Timed(mesh[i], atUs).0)
  }

  /** Every other device hears the leader's first tick, each at its time. */
  function AllHear(mesh: Mesh, leader: nat, times: nat -> nat, epoch: nat): Mesh
    requires leader < |mesh|
  {
    seq(|mesh|, i requires 0 <= i < |mesh| =>
      if i == leader then mesh[i] else Ticked(mesh[i], times(i), mesh[leader].me, epoch).0)
  }

  ghost predicate Followers(mesh: Mesh) {
    forall i :: 0 <= i < |mesh| ==> mesh[i].role.Follower?
  }

  /** `top` is ahead of every other device of the mesh. */
  ghost predicate BestOfAll(mesh: Mesh, top: nat) {
    top < |mesh| && forall j :: 0 <= j < |mesh| && j != top ==> IsAhead(mesh[top].me, mesh[j].me)
  }

  /** How a vote ends: one candidate that nobody beats, and all others out since it stood. */
  ghost predicate Decided(mesh: Mesh, startUs: nat, best: nat) {
    && best < |mesh| && Unbeaten(mesh[best], startUs)
    && forall j :: 0 <= j < |mesh| && j != best ==> Out(mesh[j], mesh[best].sinceUs)
  }

  lemma VoteDecides(mesh: Mesh, startUs: nat, steps: seq<Step>, best: nat)
    requires DistinctUuids(mesh) && Followers(mesh)
    requires IsVote(mesh, {}, startUs, startUs, steps) && Lossless(mesh, steps) && Best(mesh, Standing(mesh, steps), best)
    ensures Decided(AfterAll(mesh, steps), startUs, best) && SameDevices(mesh, AfterAll(mesh, steps))
  {
    var end := AfterAll(mesh, steps);
    VoteKeeps(mesh, {}, startUs, startUs, steps);
    assert {} + Standing(mesh, steps) == Standing(mesh, steps);
    BestHasNoneBetter(mesh, Standing(mesh, steps), best);
    VoteEnds(mesh, {}, startUs, startUs, steps, best, best);
    forall j | 0 <= j < |mesh| && j != best ensures Out(end[j], end[best].sinceUs) {
      assert Delivers(steps, best, j);
      VoteEnds(mesh, {}, startUs, startUs, steps, best, j);
    }
  }

  /** The timers of a decided mesh: the candidate leads, and nobody else stands. */
  lemma TimersSettle(mesh: Mesh, startUs: nat, best: nat, settleUs: nat)
    requires Decided(mesh, startUs, best)
    requires mesh[best].sinceUs + CANDIDATE_SETTLE_US <= settleUs < mesh[best].sinceUs + FOLLOWER_TIMEOUT_US
    ensures var settled := AllTimed(mesh, settleUs);
            && SameDevices(mesh, settled) && Leaders(settled) == {best} && settled[best].betterTicks == 0
            && (forall i :: 0 <= i < |mesh| && i != best ==> settled[i].role.Follower?)
  {
    var settled := AllTimed(mesh, settleUs);
    forall i | 0 <= i < |mesh| && i != best ensures settled[i].role.Follower? && settled[i].me == mesh[i].me {
      assert Out(mesh[i], mesh[best].sinceUs);
    }
    assert Leaders(settled) == {best};
  }

  /** Once all have heard the new leader's first tick the mesh is healed. */
  lemma FirstTickHeals(mesh: Mesh, best: nat, settleUs: nat, times: nat -> nat, epoch: nat)
    requires DistinctUuids(mesh) && Leaders(mesh) == {best} && best < |mesh| && mesh[best].betterTicks == 0
    requires forall i :: 0 <= i < |mesh| && i != best ==> mesh[i].role.Follower?
    requires forall i :: settleUs <= times(i) <= settleUs + LEADER_TICK_INTERVAL_US
    ensures Healed(AllHear(mesh, best, times, epoch), settleUs + LEADER_TICK_INTERVAL_US, best)
  {
    var heard := AllHear(mesh, best, times, epoch);
    assert best in Leaders(mesh);
    forall i | 0 <= i < |mesh|
      ensures heard[i].me == mesh[i].me && Calm(heard[i], settleUs + LEADER_TICK_INTERVAL_US) && (heard[i].role.Leader? <==> i == best)
    {
      if i != best { HearsTheLeader(mesh, i, best, settleUs, times(i), epoch); }
    }
    assert Leaders(heard) == {best};
  }

  lemma HearsTheLeader(mesh: Mesh, i: nat, best: nat, settleUs: nat, atUs: nat, epoch: nat)
    requires DistinctUuids(mesh) && i < |mesh| && best < |mesh| && i != best
    requires mesh[i].role.Follower? && settleUs <= atUs <= settleUs + LEADER_TICK_INTERVAL_US
    ensures var t := Ticked(mesh[i], atUs, mesh[best].me, epoch).0;
            t.me == mesh[i].me && t.role.Follower? && Calm(t, settleUs + LEADER_TICK_INTERVAL_US)
  {
    assert mesh[i].me.uuid != mesh[best].me.uuid;
  }

  /**
   A lossless mesh of followers elects exactly the best of those that stood before they heard of
   anybody; that is the best of all exactly if that one stood. Once its first tick is heard the
   mesh is healed under it.
   */
  lemma FollowersElect(mesh: Mesh, startUs: nat, steps: seq<Step>, best: nat, settleUs: nat, times: nat -> nat, epoch: nat)
    requires DistinctUuids(mesh) && Followers(mesh)
    requires IsVote(mesh, {}, startUs, startUs, steps) && Lossless(mesh, steps) && Best(mesh, Standing(mesh, steps), best)
    requires best < |mesh| && var since := AfterAll(mesh, steps)[best].sinceUs;
             since + CANDIDATE_SETTLE_US <= settleUs < since + FOLLOWER_TIMEOUT_US
    requires forall i :: settleUs <= times(i) <= settleUs + LEADER_TICK_INTERVAL_US
    ensures var settled := AllTimed(AfterAll(mesh, steps), settleUs);
            && Leaders(settled) == {best}
            && (forall i :: 0 <= i < |mesh| && i != best ==> settled[i].role.Follower?)
            && Healed(AllHear(settled, best, times, epoch), settleUs + LEADER_TICK_INTERVAL_US, best)
    ensures forall top: nat :: BestOfAll(mesh, top) ==> (best == top <==> top in Standing(mesh, steps))
  {
    VoteDecides(mesh, startUs, steps, best);
    TimersSettle(AfterAll(mesh, steps), startUs, best, settleUs);
    FirstTickHeals(AllTimed(AfterAll(mesh, steps), settleUs), best, settleUs, times, epoch);
    forall top: nat | BestOfAll(mesh, top) ensures best == top <==> top in Standing(mesh, steps) {
      if top in Standing(mesh, steps) { TopIsBest(mesh, Standing(mesh, steps), best, top); }
    }
  }

  /**
   In terms of capacities: of those that stood, one leads, with a capacity at least that of every
   other and the lowest uuid of those that share it.
   */
  lemma StrongestIsElected(mesh: Mesh, startUs: nat, steps: seq<Step>) returns (best: nat)
    requires DistinctUuids(mesh) && Followers(mesh) && Standing(mesh, steps) != {}
    requires IsVote(mesh, {}, startUs, startUs, steps) && Lossless(mesh, steps)
    ensures best in Standing(mesh, steps) && best < |mesh|
    ensures forall j :: j in Standing(mesh, steps) ==> j < |mesh| && mesh[j].me.capacity <= mesh[best].me.capacity
    ensures forall j :: j in Standing(mesh, steps) && mesh[j].me.capacity == mesh[best].me.capacity ==>
      mesh[best].me.uuid <= mesh[j].me.uuid
    ensures var end := AfterAll(mesh, steps);
            forall settleUs ::
              end[best].sinceUs + CANDIDATE_SETTLE_US <= settleUs < end[best].sinceUs + FOLLOWER_TIMEOUT_US ==>
                Leaders(AllTimed(end, settleUs)) == {best}
  {
    var end := AfterAll(mesh, steps);
    VoteKeeps(mesh, {}, startUs, startUs, steps);
    assert {} + Standing(mesh, steps) == Standing(mesh, steps);
    BestExists(mesh, Standing(mesh, steps));
    best :| Best(mesh, Standing(mesh, steps), best);
    VoteDecides(mesh, startUs, steps, best);
    forall settleUs | end[best].sinceUs + CANDIDATE_SETTLE_US <= settleUs < end[best].sinceUs + FOLLOWER_TIMEOUT_US
      ensures Leaders(AllTimed(end, settleUs)) == {best}
    {
      TimersSettle(end, startUs, best, settleUs);
    }
  }

  lemma TopIsBest(mesh: Mesh, among: set<nat>, best: nat, top: nat)
    requires Best(mesh, among, best) && BestOfAll(mesh, top) && top in among
    ensures best == top
  {
  }

  lemma BestHasNoneBetter(mesh: Mesh, among: set<nat>, best: nat)
    requires Best(mesh, among, best)
    ensures NoneBetter(mesh, among, best)
  {
  }

  /** So a lesser device whose timer fires first leads a better one that hears it in time. */
  lemma FirstToStandLeads()
    ensures var mesh := [Initial(Candidacy(5, 1), 0), Initial(Candidacy(1, 2), 0)];
            var steps := [TimerFired(1, 3_000_000), Heard(0, 3_000_000, 1, 0)];
            && mesh[0].me.capacity > mesh[1].me.capacity && IsVote(mesh, {}, 3_000_000, 3_000_000, steps) && Lossless(mesh, steps)
            && Leaders(AllTimed(AfterAll(mesh, steps), 5_000_000)) == {1}
  {
    var mesh := [Initial(Candidacy(5, 1), 0), Initial(Candidacy(1, 2), 0)];
    var a, b := TimerFired(1, 3_000_000), Heard(0, 3_000_000, 1, 0);
    var one := After(mesh, a);
    assert one == [mesh[0], Timed(mesh[1], 3_000_000).0];
    var two := After(one, b);
    assert [a, b][1..] == [b] && [b][1..] == [];
    assert Stands(mesh, a) == {1} && Stands(one, b) == {};
    assert Standing(one, [b]) == {} by { assert Standing(two, []) == {}; }
    assert Standing(mesh, [a, b]) == {1};
    assert AfterAll(mesh, [a, b]) == AfterAll(one, [b]) == AfterAll(two, []) == two;
    assert [a, b][1].Heard?;
    assert IsVote(one, {1}, 3_000_000, 3_000_000, [b]) by { assert {1} + {} == {1}; }
    assert {} + {1} == {1};
  }
}
