/**
 The runner (world.rs): it jumps to the next instant at which anything is due and settles the
 world there before jumping again.
 */
module Runner {
  import opened Arith
  import opened Wrappers
  import opened Scenarios
  import opened Worlds
  import opened WorldLaws
  import Networks

  class World {
    const script: seq<ScriptedOp>
    const durationUs: U64
    const core: Core
    const draws: Draws
    const net: Networks.Fabric
    var nodes: map<NodeId, Node>
    var nowUs: U64
    var cursor: nat
    var applied: seq<Applied>
    var visited: seq<U64>
    var overruns: nat

    ghost function State(): WorldState
      reads this, net
    {
      WorldState(script, core, draws, net.State(), nodes, nowUs, cursor, applied, visited, overruns)
    }

    constructor (scenario: Scenario, core: Core, draws: Draws)
      ensures fresh(net)
      ensures State() == Initial(scenario, core, draws) && durationUs == scenario.durationUs
      ensures Ready(State())
    {
      script, durationUs := Normalised(scenario.script), scenario.durationUs;
      this.core, this.draws := core, draws;
      net := new Networks.Fabric(scenario.faults);
      nodes, nowUs, cursor, applied, visited, overruns := map[], 0, 0, [], [], 0;
      new;
      var specs := scenario.nodes;
      for k := 0 to |specs|
        invariant fresh(net)
        invariant net.State() == InitialNet(Networks.Quiet(scenario.faults), specs[..k])
        invariant nodes == InitialNodes(specs[..k])
        invariant nowUs == 0 && cursor == 0 && applied == [] && visited == [] && overruns == 0
      {
        assert specs[..k + 1][..k] == specs[..k];
        net.Attach(specs[k].id);
        nodes := nodes[specs[k].id := Node(true, None, [])];
      }
      assert specs[..|specs|] == specs;
      InitialIsReady(scenario, core, draws);
    }

    /** `apply_actions`: only timers change the world. */
    method ApplyActions(id: NodeId, actions: seq<Action>)
      requires id in nodes
      modifies this`nodes
      ensures nodes == old(nodes)[id := old(nodes)[id].(timerAtUs := TimerAfter(old(nodes)[id].timerAtUs, nowUs, actions))]
    {
      ghost var timer := nodes[id].timerAtUs;
      for k := 0 to |actions|
        invariant nodes == old(nodes)[id := old(nodes)[id].(timerAtUs := TimerAfter(timer, nowUs, actions[..k]))]
      {
        assert actions[..k + 1][..k] == actions[..k];
        match actions[k] {
          case SetTimer(inUs) =>
            var at := AddSat64(nowUs, inUs);
            var armed := nodes[id].timerAtUs;
            nodes := nodes[id := nodes[id].(timerAtUs := Some(if armed.Some? then Min(armed.value, at) else at))];
          case _ =>
        }
      }
      assert actions[..|actions|] == actions;
    }

    /** An event is handed to a core, and its answer carried out. */
    method Tell(id: NodeId, happening: Happening)
      requires id in nodes
      modifies this`nodes
      ensures State() == Told(old(State()), id, happening)
    {
      var node := nodes[id];
      var heard := node.heard + [Heard(nowUs, happening)];
      var actions := core(id, heard, applied, visited);
      nodes := nodes[id := node.(heard := heard)];
      ApplyActions(id, actions);
    }

    method DeliverTick(id: NodeId)
      modifies this`nodes
      ensures State() == AfterWake(old(State()), id)
    {
      if id !in nodes {
        return;
      }
      if !nodes[id].powered {
        return;
      }
      Tell(id, Woken);
    }

    method NodeSend(from: NodeId, addr: Networks.Addr, bytes: seq<U8>)
      modifies net
      ensures State() == Sent(old(State()), from, addr, bytes)
    {
      if from !in nodes {
        return;
      }
      var error := net.SendTo(from, addr, bytes, draws(cursor));
    }

    method Apply(op: Op)
      modifies this`nodes, net
      ensures State() == AfterOp(old(State()), op)
    {
      match op {
        case Tick(id) => DeliverTick(id);
        case Send(from, to, bytes) => NodeSend(from, Networks.NodeAddr(to), bytes);
        case Multicast(from, group, bytes) => NodeSend(from, GroupAddr(group), bytes);
        case Join(node, group) =>
          if node in nodes {
            var error := net.JoinMulticast(node, GroupAddr(group));
          }
        case Kill(id) =>
          SetNode(id, false);
          net.SetPowered(id, false);
        case Revive(id, _) =>
          SetNode(id, true);
          net.SetPowered(id, true);
        case _ => ApplyToNet(op);
      }
    }

    /** The operations on links and on the fault model. The rest touch what is not modelled. */
    method ApplyToNet(op: Op)
      requires !op.Tick? && !op.Send? && !op.Multicast? && !op.Join? && !op.Kill? && !op.Revive?
      modifies net
      ensures State() == AfterOp(old(State()), op)
    {
      match op {
        case Partition(a, b) => net.Partition(a, b);
        case Heal(a, b) => net.Heal(a, b);
        case HealAll => net.HealAll();
        case Split(left, right) => net.Split(left, right);
        case SetFaults(faults) => net.SetFaults(faults);
        case _ =>
      }
    }

    /** A node that loses power loses its timer. */
    method SetNode(id: NodeId, on: bool)
      modifies this`nodes
      ensures nodes == Switched(old(nodes), id, on)
    {
      if id in nodes {
        if on {
          nodes := nodes[id := nodes[id].(powered := true)];
        } else {
          nodes := nodes[id := nodes[id].(powered := false, timerAtUs := None)];
        }
      }
    }

    method ApplyDueOps()
      modifies this`nodes, this`cursor, this`applied, net
      ensures State() == AfterDueOps(old(State()))
    {
      while cursor < |script| && script[cursor].atUs <= nowUs
        invariant AfterDueOps(State()) == AfterDueOps(old(State()))
        decreases |script| - cursor
      {
        ApplyNext();
      }
    }

    method ApplyNext()
      requires cursor < |script|
      modifies this`nodes, this`cursor, this`applied, net
      ensures State() == OneOp(old(State()))
    {
      var op := script[cursor].op;
      cursor := cursor + 1;
      applied := applied + [(nowUs, op)];
      Apply(op);
    }

    /** Every node's socket is drained, in node id order. */
    method DeliverDatagrams() returns (worked: bool)
      modifies this`nodes, net`members
      ensures (State(), worked) == DrainedAll(old(State()), Networks.NodesIn(old(nodes).Keys))
    {
      var ids := Networks.InOrder(nodes.Keys);
      worked := false;
      for k := 0 to |ids|
        invariant (State(), worked) == DrainedAll(old(State()), ids[..k])
      {
        assert ids[..k + 1][..k] == ids[..k];
        var any := DrainNode(ids[k]);
        worked := worked || any;
      }
      assert ids[..|ids|] == ids;
    }

    method DrainNode(id: NodeId) returns (worked: bool)
      modifies this`nodes, net`members
      ensures State() == Drained(old(State()), id)
      ensures worked <==> HasMail(old(State()), id)
    {
      worked := false;
      while id in nodes && nodes[id].powered
        invariant Drained(State(), id) == Drained(old(State()), id)
        invariant worked || State() == old(State())
        invariant worked ==> HasMail(old(State()), id)
        decreases MailCount(State(), id)
      {
        ghost var before := State();
        var received := net.Recv(id, Networks.MTU);
        match received {
          case Nothing => break;
          case Got(bytes, _) =>
            worked := true;
            Tell(id, Datagram(bytes));
          case Refused(_) =>
            worked := true;
        }
        assert State() == OneRead(before, id);
      }
    }

    method FireTimers() returns (worked: bool)
      modifies this`nodes
      ensures State() == FiredAll(old(State()), Networks.NodesIn(DueTimers(old(State()))))
      ensures worked <==> DueTimers(old(State())) != {}
    {
      var due := set id | id in nodes && nodes[id].powered && nodes[id].timerAtUs.Some? && nodes[id].timerAtUs.value <= nowUs;
      assert due == DueTimers(State());
      worked := due != {};
      var ids := Networks.InOrder(due);
      for k := 0 to |ids|
        invariant State() == FiredAll(old(State()), ids[..k])
      {
        assert ids[..k + 1][..k] == ids[..k];
        ghost var before := State();
        if ids[k] in nodes {
          nodes := nodes[ids[k] := nodes[ids[k]].(timerAtUs := None)];
        }
        DeliverTick(ids[k]);
        assert State() == Fired(before, ids[k]);
      }
      assert ids[..|ids|] == ids;
    }

    method AdvanceTimeTo(next: U64)
      modifies this`nowUs, this`visited, net
      ensures State() == AtTime(old(State()), next)
    {
      if next <= nowUs {
        return;
      }
      nowUs := next;
      visited := visited + [next];
      net.AdvanceTo(next);
    }

    /** One instant: what is due there is applied, then everything that follows at once. */
    method StepTo(next: U64)
      modifies this`nodes, this`nowUs, this`cursor, this`applied, this`visited, this`overruns, net
      ensures State() == AfterStep(old(State()), next)
    {
      AdvanceTimeTo(next);
      ApplyDueOps();
      ghost var start := State();
      DueOpsKeepTime(AtTime(old(State()), next));
      var passes: nat := 0;
      while true
        invariant 0 <= passes < MAX_SETTLE_PASSES
        invariant Settled(State(), passes) == Settled(start, 0)
        decreases MAX_SETTLE_PASSES - passes
      {
        ghost var before := State();
        var worked := Pass();
        if !worked {
          break;
        }
        passes := passes + 1;
        if passes >= MAX_SETTLE_PASSES {
          overruns := overruns + 1;
          break;
        }
      }
    }

    method Pass() returns (worked: bool)
      modifies this`nodes, net
      ensures (State(), worked) == OnePass(old(State()))
      ensures nowUs == old(nowUs)
    {
      net.AdvanceTo(nowUs);
      var delivered := DeliverDatagrams();
      var fired := FireTimers();
      worked := delivered || fired;
    }

    method NextInstant() returns (best: Option<U64>)
      ensures IsNextInstant(State(), best)
    {
      best := None;
      if cursor < |script| {
        best := Consider(best, script[cursor].atUs, nowUs);
      }
      if net.inFlight != [] {
        best := Consider(best, net.inFlight[0].due, nowUs);
      }
      best := ConsiderTimers(best);
    }

    method ConsiderTimers(first: Option<U64>) returns (best: Option<U64>)
      ensures first.Some? ==> best.Some? && best.value <= first.value
      ensures forall id :: id in nodes && ComingTimer(nodes[id], nowUs) ==> best.Some? && best.value <= nodes[id].timerAtUs.value
      ensures best == first || exists id :: id in nodes && ComingTimer(nodes[id], nowUs) && best == nodes[id].timerAtUs
    {
      best := first;
      var ids := Networks.InOrder(nodes.Keys);
      for k := 0 to |ids|
        invariant first.Some? ==> best.Some? && best.value <= first.value
        invariant forall j :: 0 <= j < k && ids[j] in nodes && ComingTimer(nodes[ids[j]], nowUs) ==>
                    best.Some? && best.value <= nodes[ids[j]].timerAtUs.value
        invariant best == first || exists id :: id in nodes && ComingTimer(nodes[id], nowUs) && best == nodes[id].timerAtUs
      {
        assert ids[k] in ids;
        if ComingTimer(nodes[ids[k]], nowUs) {
          best := Consider(best, nodes[ids[k]].timerAtUs.value, nowUs);
        }
      }
      forall id | id in nodes && ComingTimer(nodes[id], nowUs) ensures best.Some? && best.value <= nodes[id].timerAtUs.value {
        assert id in ids;
      }
    }

    /**
     The run ends, at the declared time. The instants it visits strictly increase; every
     operation of the script that is due by then is applied once, in script order and at its
     own time, and no other.
     */
    method Run() returns (ghost instants: seq<nat>)
      requires Ready(State()) && nowUs <= durationUs < U64_MAX
      modifies this`nodes, this`nowUs, this`cursor, this`applied, this`visited, this`overruns, net
      ensures Ready(State()) && nowUs == durationUs
      ensures Climbs(instants)
      ensures applied == Stamped(script[..cursor])
      ensures forall k :: 0 <= k < |script| ==> (k < cursor <==> script[k].atUs <= durationUs)
    {
      instants := [];
      var next: Option<U64> := NextInstant();
      while next.Some? && next.value <= durationUs
        invariant Ready(State()) && nowUs <= durationUs && IsNextInstant(State(), next)
        invariant Visited(State(), instants)
        decreases if instants == [] then durationUs + 1 else durationUs - nowUs
      {
        instants := Visit(next.value, instants);
        next := NextInstant();
      }
      AllDueAreApplied(State(), next, durationUs);
      EndKeepsReady(State(), durationUs);
      AdvanceTimeTo(durationUs);
    }

    /** One more instant of a run. */
    method Visit(next: U64, ghost before: seq<nat>) returns (ghost instants: seq<nat>)
      requires Ready(State()) && next < U64_MAX
      requires IsNextInstant(State(), Some(next)) && Visited(State(), before)
      modifies this`nodes, this`nowUs, this`cursor, this`applied, this`visited, this`overruns, net
      ensures Ready(State()) && nowUs == next && Visited(State(), instants) && instants == before + [next]
      ensures before != [] ==> old(nowUs) < next
    {
      if before != [] { CalmComesBeforeNext(State(), next); }
      StepSettles(State(), next);
      StepTo(next);
      instants := before + [next];
    }
  }
}
