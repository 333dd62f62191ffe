/**
 What a simulated world does (world.rs): one instant at a time, the operations due there, and
 then everything that follows from them at once.

 Cores are arbitrary: what one answers is a function of everything it has heard, and of the
 operations applied and the instants visited so far, which fix the local time it is told. What a network draws is a
 parameter, chosen for each operation. Clocks, storage, light output and the trace but for
 operations are not part of this model.
 */
module Worlds {
  import opened Arith
  import opened Wrappers
  import opened Scenarios
  import Networks
  import Recordings
  import Sorting

  type Action = Recordings.Action

  datatype Happening = Woken | Datagram(bytes: seq<U8>)

  datatype Heard = Heard(atUs: nat, happening: Happening)

  /** An operation, and the time at which it was applied. */
  type Applied = (nat, Op)

  type Core = (NodeId, seq<Heard>, seq<Applied>, seq<U64>) -> seq<Action>

  type Draws = nat -> (nat -> Networks.Draw)

  datatype Node = Node(powered: bool, timerAtUs: Option<U64>, heard: seq<Heard>)

  const MAX_SETTLE_PASSES: nat := 64

  datatype WorldState = WorldState(
    script: seq<ScriptedOp>,
    core: Core,
    draws: Draws,
    net: Networks.FabricState,
    nodes: map<NodeId, Node>,
    nowUs: U64,
    cursor: nat,
    applied: seq<Applied>,
    visited: seq<U64>,
    overruns: nat)

  function GroupAddr(group: U8): Networks.Addr { Networks.Multicast(group) }

  /** The script in time order; operations at one instant stay in the order they were added. */
  predicate NoLater(a: ScriptedOp, b: ScriptedOp) { a.atUs <= b.atUs }

  function Normalised(script: seq<ScriptedOp>): seq<ScriptedOp> {
    Sorting.Sort(script, NoLater)
  }

  // --------------------------------------------------------------- hearing and answering

  /** The timer after some actions: the earliest asked for wins. */
  function TimerAfter(timer: Option<U64>, nowUs: U64, actions: seq<Action>): Option<U64> {
    if actions == [] then timer
    else
      var before := TimerAfter(timer, nowUs, actions[..|actions| - 1]);
      match actions[|actions| - 1]
      case SetTimer(inUs) =>
        var at := AddSat64(nowUs, inUs);
        Some(if before.Some? then Min(before.value, at) else at)
      case _ => before
  }

  /** A node hears of something and its core answers. */
  function Told(w: WorldState, id: NodeId, happening: Happening): WorldState
    requires id in w.nodes
  {
    var node := w.nodes[id];
    var heard := node.heard + [Heard(w.nowUs, happening)];
    var timer := TimerAfter(node.timerAtUs, w.nowUs, w.core(id, heard, w.applied, w.visited));
    w.(nodes := w.nodes[id := Node(node.powered, timer, heard)])
  }

  predicate IsUp(w: WorldState, id: NodeId) { id in w.nodes && w.nodes[id].powered }

  function AfterWake(w: WorldState, id: NodeId): WorldState {
    if IsUp(w, id) then Told(w, id, Woken) else w
  }

  // ------------------------------------------------------------------------ operations

  ghost function Sent(w: WorldState, from: NodeId, addr: Networks.Addr, bytes: seq<U8>): WorldState {
    if from in w.nodes then w.(net := Networks.AfterSend(w.net, from, addr, bytes, w.draws(w.cursor))) else w
  }

  /** A node that loses power loses its timer; one that regains it keeps what it had. */
  function Switched(nodes: map<NodeId, Node>, id: NodeId, on: bool): map<NodeId, Node> {
    if id !in nodes then nodes
    else if on then nodes[id := nodes[id].(powered := true)]
    else nodes[id := nodes[id].(powered := false, timerAtUs := None)]
  }

  ghost function AfterOp(w: WorldState, op: Op): WorldState {
    match op
    case Tick(id) => AfterWake(w, id)
    case Send(from, to, bytes) => Sent(w, from, Networks.NodeAddr(to), bytes)
    case Multicast(from, group, bytes) => Sent(w, from, GroupAddr(group), bytes)
    case Join(node, group) =>
      if node in w.nodes then w.(net := Networks.AfterJoin(w.net, node, GroupAddr(group))) else w
    case Kill(id) => w.(nodes := Switched(w.nodes, id, false), net := Networks.AfterPower(w.net, id, false))
    case Revive(id, _) => w.(nodes := Switched(w.nodes, id, true), net := Networks.AfterPower(w.net, id, true))
    case Partition(a, b) => w.(net := w.net.(partitions := w.net.partitions + {Networks.PartitionKey(a, b)}))
    case Heal(a, b) => w.(net := w.net.(partitions := w.net.partitions - {Networks.PartitionKey(a, b)}))
    case HealAll => w.(net := w.net.(partitions := {}))
    case Split(left, right) => w.(net := w.net.(partitions := w.net.partitions + Networks.Links(left, right)))
    case SetFaults(faults) => w.(net := w.net.(faults := faults))
    case Skew(_, _) => w
    case Drift(_, _) => w
    case Discipline(_, _) => w
    case Present(_, _) => w
    case Store(_, _, _) => w
    case Erase(_, _) => w
  }

  /** The next scripted operation, applied and noted. */
  ghost function OneOp(w: WorldState): WorldState
    requires w.cursor < |w.script|
  {
    var op := w.script[w.cursor].op;
    AfterOp(w.(cursor := w.cursor + 1, applied := w.applied + [(w.nowUs, op)]), op)
  }

  /** Operations are applied in turn until one is not due. */
  ghost function AfterDueOps(w: WorldState): (r: WorldState)
    decreases |w.script| - w.cursor
  {
    if w.cursor < |w.script| && w.script[w.cursor].atUs <= w.nowUs then
      OpKeepsScript(w);
      AfterDueOps(OneOp(w))
    else w
  }

  lemma OpKeepsScript(w: WorldState)
    requires w.cursor < |w.script|
    ensures var t := OneOp(w);
            t.script == w.script && t.cursor == w.cursor + 1 && t.nowUs == w.nowUs && t.overruns == w.overruns
            && t.applied == w.applied + [(w.nowUs, w.script[w.cursor].op)]
  {
  }

  // -------------------------------------------------------------------------- settling

  predicate HasMail(w: WorldState, id: NodeId) {
    IsUp(w, id) && Networks.HasMail(w.net, id)
  }

  function MailCount(w: WorldState, id: NodeId): nat {
    if id in w.net.members then |w.net.members[id].inbox| else 0
  }

  /** One datagram read from a node's socket, and told to its core. */
  function OneRead(w: WorldState, id: NodeId): WorldState
    requires HasMail(w, id)
  {
    var (net, received) := Networks.AfterRecv(w.net, id, Networks.MTU);
    var t := w.(net := net);
    if received.Got? then Told(t, id, Datagram(received.bytes)) else t
  }

  function Drained(w: WorldState, id: NodeId): WorldState
    decreases MailCount(w, id)
  {
    if HasMail(w, id) then Drained(OneRead(w, id), id) else w
  }

  /** Every socket in turn, and whether any had something. */
  function DrainedAll(w: WorldState, ids: seq<NodeId>): (WorldState, bool) {
    if ids == [] then (w, false)
    else
      var (before, worked) := DrainedAll(w, ids[..|ids| - 1]);
      var id := ids[|ids| - 1];
      (Drained(before, id), worked || HasMail(before, id))
  }

  predicate TimerDue(w: WorldState, id: NodeId) {
    IsUp(w, id) && w.nodes[id].timerAtUs.Some? && w.nodes[id].timerAtUs.value <= w.nowUs
  }

  function DueTimers(w: WorldState): set<NodeId> {
    set id | id in w.nodes && TimerDue(w, id)
  }

  function Fired(w: WorldState, id: NodeId): WorldState {
    if id in w.nodes then AfterWake(w.(nodes := w.nodes[id := w.nodes[id].(timerAtUs := None)]), id) else w
  }

  function FiredAll(w: WorldState, ids: seq<NodeId>): WorldState {
    if ids == [] then w else Fired(FiredAll(w, ids[..|ids| - 1]), ids[|ids| - 1])
  }

  /** Deliveries and timers of one pass, and whether there were any. */
  ghost function OnePass(w: WorldState): (WorldState, bool) {
    var t := w.(net := Networks.AfterAdvance(w.net, w.nowUs));
    var (u, worked) := DrainedAll(t, Networks.NodesIn(t.nodes.Keys));
    (FiredAll(u, Networks.NodesIn(DueTimers(u))), worked || DueTimers(u) != {})
  }

  ghost function Settled(w: WorldState, passes: nat): WorldState
    requires passes < MAX_SETTLE_PASSES
    decreases MAX_SETTLE_PASSES - passes
  {
    var (t, worked) := OnePass(w);
    if !worked then t
    else if passes + 1 >= MAX_SETTLE_PASSES then t.(overruns := t.overruns + 1)
    else Settled(t, passes + 1)
  }

  function AtTime(w: WorldState, next: U64): WorldState {
    if next <= w.nowUs then w
    else w.(nowUs := next, visited := w.visited + [next], net := Networks.AfterAdvance(w.net, next))
  }

  ghost function AfterStep(w: WorldState, next: U64): WorldState {
    Settled(AfterDueOps(AtTime(w, next)), 0)
  }

  // ----------------------------------------------------------------------- what is next

  /** The earlier of a time found so far and another that is not in the past. */
  function Consider(best: Option<U64>, t: U64, nowUs: U64): Option<U64> {
    var t := Max(t, nowUs);
    Some(if best.Some? then Min(best.value, t) else t)
  }

  /** Whether anything is due at `t`: timers count only if they are still to come. */
  predicate Pending(w: WorldState, t: nat) {
    || (w.cursor < |w.script| && Max(w.script[w.cursor].atUs, w.nowUs) == t)
    || (w.net.inFlight != [] && Max(w.net.inFlight[0].due, w.nowUs) == t)
    || (exists id :: id in w.nodes && ComingTimer(w.nodes[id], w.nowUs) && w.nodes[id].timerAtUs.value == t)
  }

  predicate ComingTimer(node: Node, nowUs: nat) {
    node.timerAtUs.Some? && node.timerAtUs.value > nowUs
  }

  /** `next` is the earliest instant at which anything is due, if there is one. */
  ghost predicate IsNextInstant(w: WorldState, next: Option<U64>) {
    && (next.Some? ==> Pending(w, next.value) && forall t :: Pending(w, t) ==> next.value <= t)
    && (next.None? ==> forall t :: !Pending(w, t))
  }

  // ------------------------------------------------------------------------- the world

  /** The nodes of a scenario, all of them on; the later of two with one id stands. */
  function InitialNodes(specs: seq<NodeSpec>): map<NodeId, Node> {
    if specs == [] then map[]
    else InitialNodes(specs[..|specs| - 1])[specs[|specs| - 1].id := Node(true, None, [])]
  }

  function InitialNet(net: Networks.FabricState, specs: seq<NodeSpec>): Networks.FabricState {
    if specs == [] then net
    else Networks.AfterAttach(InitialNet(net, specs[..|specs| - 1]), specs[|specs| - 1].id)
  }

  function Initial(scenario: Scenario, core: Core, draws: Draws): WorldState {
    WorldState(Normalised(scenario.script), core, draws, InitialNet(Networks.Quiet(scenario.faults), scenario.nodes),
               InitialNodes(scenario.nodes), 0, 0, [], [], 0)
  }

  lemma {:induction false} DueOpsKeepTime(w: WorldState)
    ensures AfterDueOps(w).nowUs == w.nowUs
    decreases |w.script| - w.cursor
  {
    if w.cursor < |w.script| && w.script[w.cursor].atUs <= w.nowUs {
      OpKeepsScript(w);
      DueOpsKeepTime(OneOp(w));
    }
  }
}
