/** One step of a world leaves nothing due, so time moves on and every operation has its turn. */
module WorldLaws {
  import opened Arith
  import opened Wrappers
  import opened Scenarios
  import opened Worlds
  import Networks
  import NetworkLaws
  import OrderedKeys
  import Sorting

  // ------------------------------------------------------------------------ the script

  lemma TimeOrderIsTotal()
    ensures Sorting.TotalPreorder(NoLater)
  {
  }

  /** The run's script is the given one in time order, and stable: ties keep their places. */
  lemma NormalisedIsStable(script: seq<ScriptedOp>, at: ScriptedOp)
    ensures multiset(Normalised(script)) == multiset(script)
    ensures InTimeOrder(Normalised(script))
    ensures Sorting.Ties(Normalised(script), NoLater, at) == Sorting.Ties(script, NoLater, at)
  {
    TimeOrderIsTotal();
    Sorting.SortSorted(script, NoLater);
    Sorting.SortStable(script, NoLater, at);
    forall i, j | 0 <= i < j < |Normalised(script)| ensures Normalised(script)[i].atUs <= Normalised(script)[j].atUs {
      assert NoLater(Normalised(script)[i], Normalised(script)[j]);
    }
  }

  ghost predicate InTimeOrder(script: seq<ScriptedOp>) {
    forall i, j :: 0 <= i < j < |script| ==> script[i].atUs <= script[j].atUs
  }

  /** Operations with the times they were due at. */
  function Stamped(script: seq<ScriptedOp>): seq<Applied> {
    if script == [] then [] else Stamped(script[..|script| - 1]) + [(script[|script| - 1].atUs, script[|script| - 1].op)]
  }

  // ------------------------------------------------------------------------- invariants

  /** The operations applied are those of the script so far, each at its own time; none is overdue. */
  ghost predicate OnTime(w: WorldState) {
    && w.cursor <= |w.script| && InTimeOrder(w.script)
    && w.applied == Stamped(w.script[..w.cursor])
    && (forall k :: 0 <= k < w.cursor ==> w.script[k].atUs <= w.nowUs)
    && (w.cursor < |w.script| ==> w.script[w.cursor].atUs >= w.nowUs)
  }

  ghost predicate Ready(w: WorldState) {
    && NetworkLaws.Valid(w.net) && w.net.nowUs == w.nowUs
    && OnTime(w)
  }

  ghost predicate NothingInTheAir(w: WorldState) {
    forall f :: f in w.net.inFlight ==> f.due > w.nowUs
  }

  ghost predicate NoMail(w: WorldState) {
    forall id :: id in w.nodes ==> !HasMail(w, id)
  }

  /** Nothing is due now, except perhaps a timer. */
  ghost predicate Calm(w: WorldState) {
    && (w.cursor < |w.script| ==> w.script[w.cursor].atUs > w.nowUs)
    && NothingInTheAir(w) && NoMail(w)
  }

  ghost predicate Climbs(instants: seq<nat>) {
    forall i, j :: 0 <= i < j < |instants| ==> instants[i] < instants[j]
  }

  /** The instants a run has visited so far strictly increase, and it is calm at the last of them. */
  ghost predicate Visited(w: WorldState, instants: seq<nat>) {
    Climbs(instants) && (instants != [] ==> Calm(w) && w.nowUs == instants[|instants| - 1])
  }

  // -------------------------------------------------------------- what settling leaves alone

  /** Only inboxes, timers and what nodes have heard differ. */
  ghost predicate SameWorld(w: WorldState, t: WorldState) {
    && t == w.(net := t.net, nodes := t.nodes)
    && t.net == w.net.(members := t.net.members)
    && t.nodes.Keys == w.nodes.Keys
    && forall id :: id in w.nodes ==> t.nodes[id].powered == w.nodes[id].powered
  }

  lemma ReadKeeps(w: WorldState, id: NodeId)
    requires HasMail(w, id)
    ensures SameWorld(w, OneRead(w, id))
    ensures forall other :: other != id ==> HasMail(OneRead(w, id), other) == HasMail(w, other)
  {
  }

  lemma {:induction false} DrainKeeps(w: WorldState, id: NodeId)
    ensures SameWorld(w, Drained(w, id)) && !HasMail(Drained(w, id), id)
    ensures forall other :: other != id ==> HasMail(Drained(w, id), other) == HasMail(w, other)
    decreases MailCount(w, id)
  {
    if HasMail(w, id) {
      ReadKeeps(w, id);
      DrainKeeps(OneRead(w, id), id);
    }
  }

  lemma {:induction false} DrainsKeep(w: WorldState, ids: seq<NodeId>)
    ensures var t := DrainedAll(w, ids).0;
            SameWorld(w, t) && forall id :: HasMail(t, id) ==> HasMail(w, id) && id !in ids
  {
    if ids != [] {
      var last := |ids| - 1;
      DrainsKeep(w, ids[..last]);
      DrainKeeps(DrainedAll(w, ids[..last]).0, ids[last]);
      assert ids == ids[..last] + [ids[last]];
    }
  }

  lemma {:induction false} FiresKeep(w: WorldState, ids: seq<NodeId>)
    ensures SameWorld(w, FiredAll(w, ids)) && FiredAll(w, ids).net == w.net
  {
    if ids != [] {
      FiresKeep(w, ids[..|ids| - 1]);
    }
  }

  lemma EmptyListing()
    ensures Networks.NodesIn({}) == []
  {
    OrderedKeys.AscendingIsUnique(Networks.NodesIn({}), []);
  }

  /** After a pass nothing is in the air or unread; and if it did nothing, no timer is due. */
  lemma PassSettles(w: WorldState)
    requires NetworkLaws.Valid(w.net) && w.net.nowUs == w.nowUs < U64_MAX
    ensures var (t, worked) := OnePass(w);
            && t == w.(net := t.net, nodes := t.nodes)
            && NetworkLaws.Valid(t.net) && t.net.nowUs == t.nowUs
            && NothingInTheAir(t) && NoMail(t)
            && (!worked ==> DueTimers(t) == {})
  {
    NetworkLaws.AdvanceKeepsValid(w.net, w.nowUs);
    var a := w.(net := Networks.AfterAdvance(w.net, w.nowUs));
    AdvanceKeepsTime(w.net, w.nowUs);
    var ids := Networks.NodesIn(a.nodes.Keys);
    DrainsKeep(a, ids);
    var u := DrainedAll(a, ids).0;
    FiresKeep(u, Networks.NodesIn(DueTimers(u)));
    EmptyListing();
    MembersDoNotMatter(a.net, u.net);
  }

  lemma AdvanceKeepsTime(net: Networks.FabricState, nowUs: U64)
    requires NetworkLaws.Valid(net) && net.nowUs <= nowUs
    ensures Networks.AfterAdvance(net, nowUs).nowUs == nowUs
  {
    var due := Networks.DueOf(net.inFlight, nowUs, true);
    NetworkLaws.DueSplits(net.inFlight, nowUs, true);
    NetworkLaws.DeliveriesKeep(net.(nowUs := nowUs, inFlight := Networks.DueOf(net.inFlight, nowUs, false)), due);
  }

  lemma MembersDoNotMatter(a: Networks.FabricState, b: Networks.FabricState)
    requires NetworkLaws.Valid(a) && b == a.(members := b.members)
    ensures NetworkLaws.Valid(b)
  {
  }

  /** What settling comes to: calm, unless the cap was counted. */
  ghost predicate Calms(w: WorldState, t: WorldState) {
    && t == w.(net := t.net, nodes := t.nodes, overruns := t.overruns)
    && NetworkLaws.Valid(t.net) && t.net.nowUs == t.nowUs
    && NothingInTheAir(t) && NoMail(t)
    && w.overruns <= t.overruns <= w.overruns + 1
    && (t.overruns == w.overruns ==> DueTimers(t) == {})
  }

  /** One pass, with the cap counted or not. */
  lemma PassCalms(w: WorldState)
    requires NetworkLaws.Valid(w.net) && w.net.nowUs == w.nowUs < U64_MAX
    ensures var (t, worked) := OnePass(w);
            && t == w.(net := t.net, nodes := t.nodes)
            && NetworkLaws.Valid(t.net) && t.net.nowUs == t.nowUs
            && Calms(w, t.(overruns := t.overruns + 1)) && (!worked ==> Calms(w, t))
  {
    PassSettles(w);
  }

  lemma CalmsAfterPass(w: WorldState, t: WorldState, end: WorldState)
    requires t == w.(net := t.net, nodes := t.nodes) && Calms(t, end)
    ensures Calms(w, end)
  {
  }

  lemma {:induction false} SettlingCalms(w: WorldState, passes: nat)
    requires passes < MAX_SETTLE_PASSES && NetworkLaws.Valid(w.net) && w.net.nowUs == w.nowUs < U64_MAX
    ensures Calms(w, Settled(w, passes))
    decreases MAX_SETTLE_PASSES - passes
  {
    PassCalms(w);
    var (t, worked) := OnePass(w);
    if worked && passes + 1 < MAX_SETTLE_PASSES {
      SettlingCalms(t, passes + 1);
      CalmsAfterPass(w, t, Settled(t, passes + 1));
    }
  }

  /**
   A settled instant: nothing in the air, nothing unread, and no timer due unless the cap on
   passes cut a loop of them short, which is counted.
   */
  lemma SettlingSettles(w: WorldState, passes: nat)
    requires passes < MAX_SETTLE_PASSES && NetworkLaws.Valid(w.net) && w.net.nowUs == w.nowUs < U64_MAX
    ensures var t := Settled(w, passes);
            && t == w.(net := t.net, nodes := t.nodes, overruns := t.overruns)
            && NetworkLaws.Valid(t.net) && t.net.nowUs == t.nowUs
            && NothingInTheAir(t) && NoMail(t)
            && w.overruns <= t.overruns <= w.overruns + 1
            && (t.overruns == w.overruns ==> DueTimers(t) == {})
  {
    SettlingCalms(w, passes);
  }

  // ------------------------------------------------------------------------ operations

  lemma OpKeepsNet(w: WorldState, op: Op)
    requires NetworkLaws.Valid(w.net)
    ensures NetworkLaws.Valid(AfterOp(w, op).net) && AfterOp(w, op).net.nowUs == w.net.nowUs
  {
    match op
    case Send(from, to, bytes) => SendKeepsNet(w.net, from, Networks.NodeAddr(to), bytes, w.draws(w.cursor));
    case Multicast(from, group, bytes) => SendKeepsNet(w.net, from, GroupAddr(group), bytes, w.draws(w.cursor));
    case Kill(id) => NetworkLaws.PowerKeepsValid(w.net, id, false);
    case Revive(id, _) => NetworkLaws.PowerKeepsValid(w.net, id, true);
    case _ =>
  }

  lemma SendKeepsNet(net: Networks.FabricState, from: NodeId, addr: Networks.Addr, bytes: seq<U8>,
                     draws: nat -> Networks.Draw)
    requires NetworkLaws.Valid(net)
    ensures NetworkLaws.Valid(Networks.AfterSend(net, from, addr, bytes, draws))
    ensures Networks.AfterSend(net, from, addr, bytes, draws).nowUs == net.nowUs
  {
    NetworkLaws.SendKeepsValid(net, from, addr, bytes, draws);
    var t := net.(stats := net.stats.(sent := net.stats.sent + 1));
    AttemptsKeepTime(t, from, Networks.Targets(net, from, addr), bytes, draws);
  }

  lemma {:induction false} AttemptsKeepTime(net: Networks.FabricState, from: NodeId, targets: seq<NodeId>,
                                            bytes: seq<U8>, draws: nat -> Networks.Draw)
    ensures Networks.AttemptedAll(net, from, targets, bytes, draws).nowUs == net.nowUs
  {
    if targets != [] {
      var last := |targets| - 1;
      AttemptsKeepTime(net, from, targets[..last], bytes, draws);
      AttemptKeepsTime(Networks.AttemptedAll(net, from, targets[..last], bytes, draws),
                       Networks.Packet(from, targets[last], bytes), draws(last));
    }
  }

  lemma AttemptKeepsTime(net: Networks.FabricState, packet: Networks.Packet, d: Networks.Draw)
    ensures Networks.Attempted(net, packet, d).nowUs == net.nowUs
  {
    LaunchesKeepTime(net.(attempts := net.attempts + 1, stats := Networks.Drawn(net.stats, d)), Networks.Copies(net.faults, d), packet);
  }

  lemma {:induction false} LaunchesKeepTime(net: Networks.FabricState, delays: seq<nat>, packet: Networks.Packet)
    ensures Networks.LaunchedAll(net, delays, packet).nowUs == net.nowUs
  {
    if delays != [] { LaunchesKeepTime(net, delays[..|delays| - 1], packet); }
  }

  /** Every operation that is due is applied, each at its own time, and none that is not. */
  lemma {:induction false} DueOpsAreOnTime(w: WorldState)
    requires Ready(w)
    ensures var t := AfterDueOps(w);
            && Ready(t) && t.nowUs == w.nowUs && t.script == w.script && t.overruns == w.overruns
            && (t.cursor < |t.script| ==> t.script[t.cursor].atUs > t.nowUs)
    decreases |w.script| - w.cursor
  {
    if w.cursor < |w.script| && w.script[w.cursor].atUs <= w.nowUs {
      OneOpIsReady(w);
      DueOpsAreOnTime(OneOp(w));
    }
  }

  lemma OneOpIsReady(w: WorldState)
    requires Ready(w) && w.cursor < |w.script| && w.script[w.cursor].atUs == w.nowUs
    ensures var t := OneOp(w);
            && NetworkLaws.Valid(t.net) && t.net.nowUs == t.nowUs && OnTime(t)
            && t.nowUs == w.nowUs && t.script == w.script && t.overruns == w.overruns && t.cursor == w.cursor + 1
  {
    var op := w.script[w.cursor].op;
    OpKeepsScript(w);
    OpKeepsNet(w.(cursor := w.cursor + 1, applied := w.applied + [(w.nowUs, op)]), op);
    OneMoreOnTime(w);
  }

  lemma OneMoreOnTime(w: WorldState)
    requires OnTime(w) && w.cursor < |w.script| && w.script[w.cursor].atUs == w.nowUs
    ensures OnTime(OneOp(w))
  {
    OpKeepsScript(w);
    assert w.script[..w.cursor + 1][..w.cursor] == w.script[..w.cursor];
    assert w.cursor + 1 < |w.script| ==> w.script[w.cursor].atUs <= w.script[w.cursor + 1].atUs;
  }

  // ------------------------------------------------------------------------- one step

  lemma TimeKeepsReady(w: WorldState, next: U64)
    requires Ready(w) && (w.cursor < |w.script| ==> next <= w.script[w.cursor].atUs)
    ensures Ready(AtTime(w, next)) && AtTime(w, next).nowUs == Max(w.nowUs, next)
  {
    if next > w.nowUs {
      NetworkLaws.AdvanceKeepsValid(w.net, next);
      AdvanceKeepsTime(w.net, next);
    }
  }

  lemma EndKeepsReady(w: WorldState, end: U64)
    requires Ready(w) && w.nowUs <= end && (w.cursor < |w.script| ==> w.script[w.cursor].atUs > end)
    ensures Ready(AtTime(w, end)) && AtTime(w, end).nowUs == end
  {
    TimeKeepsReady(w, end);
  }

  /**
   Whatever the cores answer, a step to the next instant applies every operation due there at
   its own time and leaves nothing due but a timer that the cap on passes cut off.
   */
  lemma StepSettles(w: WorldState, next: U64)
    requires Ready(w) && next < U64_MAX && IsNextInstant(w, Some(next))
    ensures var t := AfterStep(w, next);
            && Ready(t) && Calm(t) && t.nowUs == next && t.script == w.script
            && (t.overruns == w.overruns ==> DueTimers(t) == {})
  {
    assert w.cursor < |w.script| ==> Pending(w, Max(w.script[w.cursor].atUs, w.nowUs));
    TimeKeepsReady(w, next);
    var u := AtTime(w, next);
    DueOpsAreOnTime(u);
    SettlingSettles(AfterDueOps(u), 0);
  }

  /** When nothing is due by the end, every operation due by the end has been applied. */
  lemma AllDueAreApplied(w: WorldState, next: Option<U64>, end: U64)
    requires Ready(w) && IsNextInstant(w, next) && w.nowUs <= end && (next.Some? ==> next.value > end)
    ensures w.applied == Stamped(w.script[..w.cursor])
    ensures forall k :: 0 <= k < |w.script| ==> (k < w.cursor <==> w.script[k].atUs <= end)
  {
    if w.cursor < |w.script| {
      assert Pending(w, Max(w.script[w.cursor].atUs, w.nowUs));
    }
  }

  /** From a calm world the next instant is strictly later: timers cut off are not waited for. */
  lemma CalmComesBeforeNext(w: WorldState, t: nat)
    requires Calm(w) && Pending(w, t)
    ensures t > w.nowUs
  {
  }

  // ------------------------------------------------------------------- the end of time

  lemma {:induction false} NoneDueAtTheEnd(flights: seq<Networks.Flight>)
    ensures Networks.DueOf(flights, U64_MAX, true) == [] && Networks.DueOf(flights, U64_MAX, false) == flights
  {
    if flights != [] { NoneDueAtTheEnd(flights[1..]); }
  }

  /** What settling keeps at the last microsecond: nothing arrives any more. */
  ghost predicate SameButNodes(w: WorldState, t: WorldState) {
    t == w.(net := t.net, nodes := t.nodes, overruns := t.overruns) && t.net == w.net.(members := t.net.members)
  }

  lemma LastPass(w: WorldState)
    requires w.net.nowUs == w.nowUs == U64_MAX
    ensures SameButNodes(w, OnePass(w).0)
  {
    NoneDueAtTheEnd(w.net.inFlight);
    var a := w.(net := Networks.AfterAdvance(w.net, w.nowUs));
    assert a == w;
    var ids := Networks.NodesIn(a.nodes.Keys);
    DrainsKeep(a, ids);
    FiresKeep(DrainedAll(a, ids).0, Networks.NodesIn(DueTimers(DrainedAll(a, ids).0)));
  }

  lemma {:induction false} LastSettling(w: WorldState, passes: nat)
    requires passes < MAX_SETTLE_PASSES && w.net.nowUs == w.nowUs == U64_MAX
    ensures SameButNodes(w, Settled(w, passes))
    decreases MAX_SETTLE_PASSES - passes
  {
    LastPass(w);
    var (t, worked) := OnePass(w);
    if worked && passes + 1 < MAX_SETTLE_PASSES { LastSettling(t, passes + 1); }
  }

  /** What is next at the last microsecond, once no operation is left: it comes again while anything flies. */
  ghost predicate AtTheEnd(w: WorldState, flying: bool) {
    && w.net.nowUs == w.nowUs == U64_MAX && w.cursor == |w.script| && (w.net.inFlight != [] <==> flying)
    && IsNextInstant(w, if flying then Some(U64_MAX) else None)
  }

  lemma NextAtTheEnd(w: WorldState)
    requires w.net.nowUs == w.nowUs == U64_MAX && w.cursor == |w.script|
    ensures AtTheEnd(w, w.net.inFlight != [])
  {
    if w.net.inFlight != [] { assert Pending(w, U64_MAX); }
  }

  ghost function Iterated<T>(step: T -> T, x: T, n: nat): T {
    if n == 0 then x else step(Iterated(step, x, n - 1))
  }

  ghost function StepAtTheEnd(): WorldState -> WorldState {
    (w: WorldState) => AfterStep(w, U64_MAX)
  }

  /** The world after `n` more steps at the last microsecond. */
  ghost function StepsAtTheEnd(w: WorldState, n: nat): WorldState {
    Iterated(StepAtTheEnd(), AfterStep(w, U64_MAX), n)
  }

  /** What is in the air once the operations due at the last microsecond have been applied. */
  ghost predicate StillFlying(w: WorldState) {
    AfterDueOps(AtTime(w, U64_MAX)).net.inFlight != []
  }

  /** Going to the last microsecond delivers nothing, so without operations left it changes no packet. */
  lemma ArrivingDeliversNothing(w: WorldState)
    requires w.net.nowUs == w.nowUs
    ensures AtTime(w, U64_MAX).net == w.net.(nowUs := U64_MAX)
    ensures w.cursor == |w.script| ==> (StillFlying(w) <==> w.net.inFlight != [])
  {
    NoneDueAtTheEnd(w.net.inFlight);
  }

  /** The first step at the last microsecond applies every operation left and delivers nothing. */
  lemma FirstStepAtTheEnd(w: WorldState)
    requires Ready(w) && IsNextInstant(w, Some(U64_MAX))
    ensures AtTheEnd(AfterStep(w, U64_MAX), StillFlying(w))
  {
    assert w.cursor < |w.script| ==> Pending(w, Max(w.script[w.cursor].atUs, w.nowUs));
    TimeKeepsReady(w, U64_MAX);
    var u := AtTime(w, U64_MAX);
    DueOpsAreOnTime(u);
    LastSettling(AfterDueOps(u), 0);
    NextAtTheEnd(AfterStep(w, U64_MAX));
  }

  lemma NextStepAtTheEnd(w: WorldState, flying: bool)
    requires AtTheEnd(w, flying)
    ensures AtTheEnd(AfterStep(w, U64_MAX), flying)
  {
    assert AfterDueOps(AtTime(w, U64_MAX)) == w;
    LastSettling(w, 0);
    NextAtTheEnd(AfterStep(w, U64_MAX));
  }

  lemma {:induction false} IteratedStays<T(!new)>(holds: T -> bool, step: T -> T, x: T, n: nat)
    requires holds(x) && forall y :: holds(y) ==> holds(step(y))
    ensures holds(Iterated(step, x, n))
  {
    if n > 0 { IteratedStays(holds, step, x, n - 1); }
  }

  ghost function EndHolds(flying: bool): WorldState -> bool {
    (w: WorldState) => AtTheEnd(w, flying)
  }

  lemma StepsStayAtTheEnd(w: WorldState, n: nat, flying: bool)
    requires AtTheEnd(AfterStep(w, U64_MAX), flying)
    ensures EndHolds(flying)(StepsAtTheEnd(w, n))
  {
    var holds, step := EndHolds(flying), StepAtTheEnd();
    forall v | holds(v) ensures holds(step(v)) {
      NextStepAtTheEnd(v, flying);
    }
    IteratedStays(holds, step, AfterStep(w, U64_MAX), n);
  }

  /**
   A run to the last microsecond there is ends exactly if nothing is in the air once the
   operations due there are applied, or when none is left, if nothing is in the air before: the
   bound of what is due wraps to zero, so that nothing arrives, and the instant of what still
   flies is always the next.
   */
  lemma EndOfTime(w: WorldState, n: nat)
    requires Ready(w) && IsNextInstant(w, Some(U64_MAX))
    ensures AtTheEnd(StepsAtTheEnd(w, n), StillFlying(w))
    ensures w.cursor == |w.script| ==> (StillFlying(w) <==> w.net.inFlight != [])
  {
    ArrivingDeliversNothing(w);
    FirstStepAtTheEnd(w);
    StepsStayAtTheEnd(w, n, StillFlying(w));
  }

  /** Two nodes, of which one sends to the other at the last microsecond. */
  function LateSend(): Scenario {
    Scenario(0, U64_MAX, [NodeSpec(0, 1, 0, 0, 0), NodeSpec(1, 1, 0, 0, 0)], PERFECT,
             [ScriptedOp(U64_MAX, Send(0, 1, []))])
  }

  /** A datagram that the fault model lets through is in the air after it was sent. */
  lemma SentFlies(net: Networks.FabricState, from: NodeId, to: NodeId, draws: nat -> Networks.Draw)
    requires Networks.IsPowered(net, from) && Networks.IsPowered(net, to) && net.partitions == {}
    requires Networks.NodeAddr(to) in net.byAddr && net.byAddr[Networks.NodeAddr(to)] == to
    requires net.inFlight == [] && !draws(0).lost
    ensures Networks.AfterSend(net, from, Networks.NodeAddr(to), [], draws).inFlight != []
  {
    var t := net.(stats := net.stats.(sent := net.stats.sent + 1));
    var targets := Networks.Targets(net, from, Networks.NodeAddr(to));
    assert Networks.TargetSet(net, from, Networks.NodeAddr(to)) == {to};
    OrderedKeys.AscendingIsUnique(targets, [to]);
    OneAttemptFlies(t, from, to, draws);
  }

  lemma OneAttemptFlies(net: Networks.FabricState, from: NodeId, to: NodeId, draws: nat -> Networks.Draw)
    requires Networks.IsPowered(net, to) && net.partitions == {} && net.inFlight == [] && !draws(0).lost
    ensures Networks.AttemptedAll(net, from, [to], [], draws).inFlight != []
  {
    assert [to][..0] == [];
    var d := draws(0);
    var packet := Networks.Packet(from, to, []);
    assert Networks.AttemptedAll(net, from, [to], [], draws) == Networks.Attempted(net, packet, d);
    var u := net.(attempts := net.attempts + 1, stats := Networks.Drawn(net.stats, d));
    LaunchesFly(u, Networks.Copies(net.faults, d), packet);
  }

  lemma {:induction false} LaunchesFly(net: Networks.FabricState, delays: seq<nat>, packet: Networks.Packet)
    requires delays != []
    ensures Networks.LaunchedAll(net, delays, packet).inFlight != []
  {
  }

  lemma LateSendStarts(core: Core, draws: Draws)
    ensures var w := Initial(LateSend(), core, draws);
            && w.script == LateSend().script && w.cursor == 0 && w.nowUs == 0 && w.net.inFlight == []
            && w.nodes == map[0 := Node(true, None, []), 1 := Node(true, None, [])]
            && w.net.members == map[0 := Networks.Member(true, []), 1 := Networks.Member(true, [])]
            && w.net.byAddr == map[Networks.NodeAddr(0) := 0, Networks.NodeAddr(1) := 1]
            && w.net.partitions == {} && w.net.nowUs == 0
  {
    var specs := LateSend().nodes;
    var quiet := Networks.Quiet(PERFECT);
    assert specs[..1] == [specs[0]] && specs[..1][..0] == [];
    assert InitialNet(quiet, specs[..1]) == Networks.AfterAttach(quiet, 0);
    assert InitialNet(quiet, specs) == Networks.AfterAttach(Networks.AfterAttach(quiet, 0), 1);
    assert InitialNodes(specs[..1]) == map[0 := Node(true, None, [])];
    assert Normalised(LateSend().script) == LateSend().script;
  }

  /** Its run never ends, whatever its cores do, unless the datagram is lost. */
  lemma LateSendNeverEnds(core: Core, draws: Draws, n: nat)
    requires !draws(1)(0).lost
    ensures var w := Initial(LateSend(), core, draws);
            Ready(w) && IsNextInstant(w, Some(U64_MAX)) && IsNextInstant(StepsAtTheEnd(w, n), Some(U64_MAX))
  {
    var w := Initial(LateSend(), core, draws);
    InitialIsReady(LateSend(), core, draws);
    LateSendStarts(core, draws);
    assert Pending(w, U64_MAX);
    LateSendFlies(w);
    EndOfTime(w, n);
  }

  lemma LateSendFlies(w: WorldState)
    requires w.script == LateSend().script && w.cursor == 0 && w.nowUs == w.net.nowUs == 0 && w.net.inFlight == []
    requires w.nodes.Keys == {0, 1} && Networks.IsPowered(w.net, 0) && Networks.IsPowered(w.net, 1)
    requires Networks.NodeAddr(1) in w.net.byAddr && w.net.byAddr[Networks.NodeAddr(1)] == 1
    requires w.net.partitions == {} && !w.draws(1)(0).lost
    ensures StillFlying(w)
  {
    var u := AtTime(w, U64_MAX);
    ArrivingDeliversNothing(w);
    SentFlies(u.net, 0, 1, u.draws(1));
    assert 0 in u.nodes;
    assert OneOp(u).net.inFlight != [];
    assert AfterDueOps(OneOp(u)) == OneOp(u);
  }

  // ------------------------------------------------------------------------- the start

  lemma {:induction false} InitialNetIsValid(net: Networks.FabricState, specs: seq<NodeSpec>)
    requires NetworkLaws.Valid(net)
    ensures NetworkLaws.Valid(InitialNet(net, specs)) && InitialNet(net, specs).nowUs == net.nowUs
  {
    if specs != [] { InitialNetIsValid(net, specs[..|specs| - 1]); }
  }

  lemma InitialIsReady(scenario: Scenario, core: Core, draws: Draws)
    ensures Ready(Initial(scenario, core, draws))
  {
    InitialNetIsValid(Networks.Quiet(scenario.faults), scenario.nodes);
    TimeOrderIsTotal();
    Sorting.SortSorted(scenario.script, NoLater);
    var script := Normalised(scenario.script);
    forall i, j | 0 <= i < j < |script| ensures script[i].atUs <= script[j].atUs {
      assert NoLater(script[i], script[j]);
    }
  }
}
