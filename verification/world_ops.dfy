/**
 What the operations of a script bring about (world.rs): over any run of operations, arrivals of
 time and settling passes, which sends get through, and what a killed node hears.
 */
module WorldOps {
  import opened Arith
  import opened Wrappers
  import opened Scenarios
  import opened Worlds
  import opened WorldLaws
  import N = Networks
  import NetworkLaws
  import NetworkSending

  /** One thing a world does in a step: an operation, time moving on, or a pass of settling. */
  datatype Move = Apply(op: Op) | Arrive(next: U64) | Pass | Overrun

  ghost function Moved(w: WorldState, move: Move): WorldState {
    match move
    case Apply(op) => AfterOp(w.(cursor := w.cursor + 1, applied := w.applied + [(w.nowUs, op)]), op)
    case Arrive(next) => AtTime(w, next)
    case Pass => OnePass(w).0
    case Overrun => w.(overruns := w.overruns + 1)
  }

  ghost function AfterMoves(w: WorldState, moves: seq<Move>): WorldState {
    if moves == [] then w else Moved(AfterMoves(w, moves[..|moves| - 1]), moves[|moves| - 1])
  }

  lemma {:induction false} MovesAppend(w: WorldState, a: seq<Move>, b: seq<Move>)
    ensures AfterMoves(w, a + b) == AfterMoves(AfterMoves(w, a), b)
    decreases |b|
  {
    if b == [] {
      assert a + b == a;
    } else {
      var last := |b| - 1;
      assert (a + b)[..|a + b| - 1] == a + b[..last];
      MovesAppend(w, a, b[..last]);
    }
  }

  /** The operations of a run, in order. */
  function OpsOf(moves: seq<Move>): seq<Op> {
    if moves == [] then []
    else OpsOf(moves[..|moves| - 1]) + if moves[|moves| - 1].Apply? then [moves[|moves| - 1].op] else []
  }

  lemma {:induction false} OpsAppend(a: seq<Move>, b: seq<Move>)
    ensures OpsOf(a + b) == OpsOf(a) + OpsOf(b)
    decreases |b|
  {
    if b == [] {
      assert a + b == a;
    } else {
      var last := |b| - 1;
      assert (a + b)[..|a + b| - 1] == a + b[..last];
      OpsAppend(a, b[..last]);
    }
  }

  function ScriptOps(script: seq<ScriptedOp>): seq<Op> {
    seq(|script|, k requires 0 <= k < |script| => script[k].op)
  }

  lemma OneMove(w: WorldState, move: Move)
    ensures AfterMoves(w, [move]) == Moved(w, move)
    ensures OpsOf([move]) == if move.Apply? then [move.op] else []
  {
    assert [move][..0] == [];
  }

  lemma MoveFirst(w: WorldState, move: Move, rest: seq<Move>)
    ensures AfterMoves(w, [move] + rest) == AfterMoves(Moved(w, move), rest)
    ensures OpsOf([move] + rest) == (if move.Apply? then [move.op] else []) + OpsOf(rest)
  {
    OneMove(w, move);
    MovesAppend(w, [move], rest);
    OpsAppend([move], rest);
  }

  lemma ScriptOpFirst(script: seq<ScriptedOp>, i: nat, j: nat)
    requires i < j <= |script|
    ensures ScriptOps(script[i..j]) == [script[i].op] + ScriptOps(script[i + 1..j])
  {
  }

  lemma {:induction false} DueOpsAreMoves(w: WorldState) returns (moves: seq<Move>)
    requires w.cursor <= |w.script|
    ensures AfterDueOps(w) == AfterMoves(w, moves)
    ensures var t := AfterDueOps(w);
            w.cursor <= t.cursor <= |w.script| && OpsOf(moves) == ScriptOps(w.script[w.cursor..t.cursor])
    decreases |w.script| - w.cursor
  {
    moves := [];
    if w.cursor < |w.script| && w.script[w.cursor].atUs <= w.nowUs {
      var op, next := w.script[w.cursor].op, OneOp(w);
      OpKeepsScript(w);
      var rest := DueOpsAreMoves(next);
      MoveFirst(w, Apply(op), rest);
      ScriptOpFirst(w.script, w.cursor, AfterDueOps(w).cursor);
      moves := [Apply(op)] + rest;
    }
  }

  lemma StopsAtOnce(w: WorldState, passes: nat)
    requires passes < MAX_SETTLE_PASSES && !OnePass(w).1
    ensures Settled(w, passes) == AfterMoves(w, [Pass])
  {
    OneMove(w, Pass);
  }

  lemma StopsAtTheCap(w: WorldState, passes: nat)
    requires passes + 1 == MAX_SETTLE_PASSES && OnePass(w).1
    ensures Settled(w, passes) == AfterMoves(w, [Pass] + [Overrun])
  {
    MoveFirst(w, Pass, [Overrun]);
    OneMove(OnePass(w).0, Overrun);
  }

  lemma SettlesOn(w: WorldState, passes: nat, rest: seq<Move>)
    requires passes + 1 < MAX_SETTLE_PASSES && OnePass(w).1
    requires Settled(OnePass(w).0, passes + 1) == AfterMoves(OnePass(w).0, rest)
    ensures Settled(w, passes) == AfterMoves(w, [Pass] + rest)
  {
    MoveFirst(w, Pass, rest);
  }

  lemma NoOps(rest: seq<Move>)
    requires OpsOf(rest) == []
    ensures OpsOf([Pass] + rest) == []
  {
    OpsAppend([Pass], rest);
  }

  lemma {:induction false} SettlingIsMoves(w: WorldState, passes: nat) returns (moves: seq<Move>)
    requires passes < MAX_SETTLE_PASSES
    ensures Settled(w, passes) == AfterMoves(w, moves) && OpsOf(moves) == []
    decreases MAX_SETTLE_PASSES - passes
  {
    if !OnePass(w).1 {
      StopsAtOnce(w, passes);
      moves := [Pass];
    } else if passes + 1 == MAX_SETTLE_PASSES {
      StopsAtTheCap(w, passes);
      NoOps([Overrun]);
      moves := [Pass] + [Overrun];
    } else {
      var rest := SettlingIsMoves(OnePass(w).0, passes + 1);
      SettlesOn(w, passes, rest);
      NoOps(rest);
      moves := [Pass] + rest;
    }
  }

  /** A step is a run of such moves, and its operations are those of the script it applies. */
  lemma StepIsMoves(w: WorldState, next: U64) returns (moves: seq<Move>)
    requires w.cursor <= |w.script|
    ensures AfterStep(w, next) == AfterMoves(w, moves)
    ensures var t := AfterDueOps(AtTime(w, next));
            w.cursor <= t.cursor <= |w.script| && OpsOf(moves) == ScriptOps(w.script[w.cursor..t.cursor])
  {
    var u := AtTime(w, next);
    var ops := DueOpsAreMoves(u);
    var passes := SettlingIsMoves(AfterDueOps(u), 0);
    MovesAppend(u, ops, passes);
    OpsAppend(ops, passes);
    MoveFirst(w, Arrive(next), ops + passes);
    moves := [Arrive(next)] + (ops + passes);
  }

  // --------------------------------------------------- what the operations said last

  predicate SamePair(a: NodeId, b: NodeId, c: NodeId, d: NodeId) {
    (a == c && b == d) || (a == d && b == c)
  }

  /** The operation cuts the link between two nodes. */
  predicate Separates(op: Op, a: NodeId, b: NodeId) {
    match op
    case Partition(c, d) => SamePair(a, b, c, d)
    case Split(left, right) => (a in left && b in right) || (b in left && a in right)
    case _ => false
  }

  /** The operation restores it. */
  predicate Rejoins(op: Op, a: NodeId, b: NodeId) {
    match op
    case Heal(c, d) => SamePair(a, b, c, d)
    case HealAll => true
    case _ => false
  }

  /** Whether two nodes are cut off from each other, by the last operation that separated or rejoined them. */
  function CutAfter(cut: bool, ops: seq<Op>, a: NodeId, b: NodeId): bool {
    if ops == [] then cut
    else
      var op := ops[|ops| - 1];
      if Separates(op, a, b) then true
      else if Rejoins(op, a, b) then false
      else CutAfter(cut, ops[..|ops| - 1], a, b)
  }

  /** Whether a node is on, by the last operation that killed or revived it. */
  function OnAfter(on: bool, ops: seq<Op>, id: NodeId): bool {
    if ops == [] then on
    else
      var op := ops[|ops| - 1];
      if op.Kill? && op.node == id then false
      else if op.Revive? && op.node == id then true
      else OnAfter(on, ops[..|ops| - 1], id)
  }

  /** The faults of the network, by the last operation that set them. */
  function FaultsAfter(faults: NetFaults, ops: seq<Op>): NetFaults {
    if ops == [] then faults
    else if ops[|ops| - 1].SetFaults? then ops[|ops| - 1].faults
    else FaultsAfter(faults, ops[..|ops| - 1])
  }

  // ------------------------------------------------------------- the network agrees

  ghost predicate IsCut(net: N.FabricState, a: NodeId, b: NodeId) {
    N.PartitionKey(a, b) in net.partitions
  }

  /** Sending and time passing leave the links, the faults, the addresses and the power as they were. */
  ghost predicate SameWiring(a: N.FabricState, b: N.FabricState) {
    && a.partitions == b.partitions && a.faults == b.faults && a.byAddr == b.byAddr && a.groups == b.groups
    && a.members.Keys == b.members.Keys
    && forall id :: N.IsPowered(a, id) == N.IsPowered(b, id)
  }

  lemma {:induction false} LaunchesKeepWiring(s: N.FabricState, delays: seq<nat>, packet: N.Packet)
    ensures SameWiring(s, N.LaunchedAll(s, delays, packet))
  {
    if delays != [] { LaunchesKeepWiring(s, delays[..|delays| - 1], packet); }
  }

  lemma {:induction false} AttemptsKeepWiring(s: N.FabricState, from: NodeId, targets: seq<NodeId>, bytes: seq<U8>,
                                              draws: nat -> N.Draw)
    ensures SameWiring(s, N.AttemptedAll(s, from, targets, bytes, draws))
  {
    if targets != [] {
      var last := |targets| - 1;
      var t, packet := N.AttemptedAll(s, from, targets[..last], bytes, draws), N.Packet(from, targets[last], bytes);
      AttemptsKeepWiring(s, from, targets[..last], bytes, draws);
      LaunchesKeepWiring(t.(attempts := t.attempts + 1, stats := N.Drawn(t.stats, draws(last))),
                         N.Copies(t.faults, draws(last)), packet);
    }
  }

  lemma SendKeepsWiring(s: N.FabricState, from: NodeId, addr: N.Addr, bytes: seq<U8>, draws: nat -> N.Draw)
    ensures SameWiring(s, N.AfterSend(s, from, addr, bytes, draws))
  {
    if N.SendError(s, from, bytes).None? && N.TargetSet(s, from, addr) != {} {
      AttemptsKeepWiring(s.(stats := s.stats.(sent := s.stats.sent + 1)), from, N.Targets(s, from, addr), bytes, draws);
    }
  }

  lemma {:induction false} DeliveriesKeepWiring(s: N.FabricState, due: seq<N.Flight>)
    ensures SameWiring(s, N.DeliveredAll(s, due))
  {
    if due != [] { DeliveriesKeepWiring(s, due[..|due| - 1]); }
  }

  lemma AdvanceKeepsWiring(s: N.FabricState, nowUs: U64)
    ensures SameWiring(s, N.AfterAdvance(s, nowUs))
  {
    if nowUs >= s.nowUs {
      DeliveriesKeepWiring(s.(nowUs := nowUs, inFlight := N.DueOf(s.inFlight, nowUs, false)),
                           N.DueOf(s.inFlight, nowUs, true));
    }
  }

  /** Reading and waking nodes leaves the wiring and who is on. */
  ghost predicate SameHouse(w: WorldState, t: WorldState) {
    SameWiring(w.net, t.net) && t.nodes.Keys == w.nodes.Keys
  }

  lemma ReadKeepsHouse(w: WorldState, id: NodeId)
    requires HasMail(w, id)
    ensures SameHouse(w, OneRead(w, id))
  {
  }

  lemma {:induction false} DrainKeepsHouse(w: WorldState, id: NodeId)
    ensures SameHouse(w, Drained(w, id))
    decreases MailCount(w, id)
  {
    if HasMail(w, id) {
      ReadKeepsHouse(w, id);
      DrainKeepsHouse(OneRead(w, id), id);
    }
  }

  lemma {:induction false} DrainsKeepHouse(w: WorldState, ids: seq<NodeId>)
    ensures SameHouse(w, DrainedAll(w, ids).0)
  {
    if ids != [] {
      DrainsKeepHouse(w, ids[..|ids| - 1]);
      DrainKeepsHouse(DrainedAll(w, ids[..|ids| - 1]).0, ids[|ids| - 1]);
    }
  }

  lemma PassKeepsHouse(w: WorldState)
    ensures SameHouse(w, OnePass(w).0)
  {
    var t := w.(net := N.AfterAdvance(w.net, w.nowUs));
    AdvanceKeepsWiring(w.net, w.nowUs);
    DrainsKeepHouse(t, N.NodesIn(t.nodes.Keys));
    var u := DrainedAll(t, N.NodesIn(t.nodes.Keys)).0;
    FiresKeep(u, N.NodesIn(DueTimers(u)));
  }

  lemma PairKey(a: NodeId, b: NodeId, c: NodeId, d: NodeId)
    ensures N.PartitionKey(a, b) == N.PartitionKey(c, d) <==> SamePair(a, b, c, d)
  {
  }

  lemma LinksCut(left: seq<NodeId>, right: seq<NodeId>, a: NodeId, b: NodeId)
    ensures N.PartitionKey(a, b) in N.Links(left, right) <==> (a in left && b in right) || (b in left && a in right)
  {
    if N.PartitionKey(a, b) in N.Links(left, right) {
      var c, d :| c in left && d in right && N.PartitionKey(c, d) == N.PartitionKey(a, b);
      PairKey(a, b, c, d);
    }
    if b in left && a in right { assert N.PartitionKey(b, a) in N.Links(left, right); }
  }

  /** What one operation says about faults and power. */
  ghost predicate Rewired(n: N.FabricState, t: N.FabricState, op: Op, id: NodeId) {
    && t.faults == (if op.SetFaults? then op.faults else n.faults)
    && t.byAddr == n.byAddr && t.members.Keys == n.members.Keys
    && (id in n.members ==> N.IsPowered(t, id) == IsOnAfter(N.IsPowered(n, id), op, id))
  }

  predicate IsOnAfter(on: bool, op: Op, id: NodeId) {
    if op.Kill? && op.node == id then false else (op.Revive? && op.node == id) || on
  }

  lemma OpRewires(w: WorldState, op: Op, id: NodeId)
    ensures Rewired(w.net, AfterOp(w, op).net, op, id) && AfterOp(w, op).nodes.Keys == w.nodes.Keys
  {
    match op
    case Send(from, to, bytes) => SendKeepsWiring(w.net, from, N.NodeAddr(to), bytes, w.draws(w.cursor));
    case Multicast(from, group, bytes) => SendKeepsWiring(w.net, from, GroupAddr(group), bytes, w.draws(w.cursor));
    case _ =>
  }

  lemma OpCuts(w: WorldState, op: Op, a: NodeId, b: NodeId)
    ensures IsCut(AfterOp(w, op).net, a, b) == (Separates(op, a, b) || (!Rejoins(op, a, b) && IsCut(w.net, a, b)))
  {
    match op
    case Send(from, to, bytes) => SendKeepsWiring(w.net, from, N.NodeAddr(to), bytes, w.draws(w.cursor));
    case Multicast(from, group, bytes) => SendKeepsWiring(w.net, from, GroupAddr(group), bytes, w.draws(w.cursor));
    case Partition(c, d) => PairKey(a, b, c, d);
    case Heal(c, d) => PairKey(a, b, c, d);
    case Split(left, right) => LinksCut(left, right, a, b);
    case _ =>
  }

  /** The world agrees with what was said of it last. */
  ghost predicate Agrees(w: WorldState, t: WorldState, ops: seq<Op>, a: NodeId, b: NodeId) {
    && IsCut(t.net, a, b) == CutAfter(IsCut(w.net, a, b), ops, a, b)
    && t.net.faults == FaultsAfter(w.net.faults, ops) && t.net.byAddr == w.net.byAddr
    && t.net.members.Keys == w.net.members.Keys && t.nodes.Keys == w.nodes.Keys
    && (a in w.net.members ==> N.IsPowered(t.net, a) == OnAfter(N.IsPowered(w.net, a), ops, a))
  }

  lemma SaidLast(cut: bool, on: bool, faults: NetFaults, ops: seq<Op>, op: Op, a: NodeId, b: NodeId)
    ensures CutAfter(cut, ops + [op], a, b) == (Separates(op, a, b) || (!Rejoins(op, a, b) && CutAfter(cut, ops, a, b)))
    ensures FaultsAfter(faults, ops + [op]) == if op.SetFaults? then op.faults else FaultsAfter(faults, ops)
    ensures OnAfter(on, ops + [op], a) == IsOnAfter(OnAfter(on, ops, a), op, a)
  {
    assert (ops + [op])[..|ops|] == ops;
  }

  lemma OpAgrees(w: WorldState, t: WorldState, u: WorldState, ops: seq<Op>, op: Op, a: NodeId, b: NodeId)
    requires Agrees(w, t, ops, a, b) && Rewired(t.net, u.net, op, a) && u.nodes.Keys == t.nodes.Keys
    requires IsCut(u.net, a, b) == (Separates(op, a, b) || (!Rejoins(op, a, b) && IsCut(t.net, a, b)))
    ensures Agrees(w, u, ops + [op], a, b)
  {
    SaidLast(IsCut(w.net, a, b), N.IsPowered(w.net, a), w.net.faults, ops, op, a, b);
  }

  lemma OtherMovesKeepHouse(w: WorldState, move: Move)
    requires !move.Apply?
    ensures SameHouse(w, Moved(w, move))
  {
    if move.Arrive? { AdvanceKeepsWiring(w.net, move.next); }
    if move.Pass? { PassKeepsHouse(w); }
  }

  lemma HouseAgrees(w: WorldState, t: WorldState, u: WorldState, ops: seq<Op>, a: NodeId, b: NodeId)
    requires Agrees(w, t, ops, a, b) && SameHouse(t, u)
    ensures Agrees(w, u, ops + [], a, b)
  {
    assert ops + [] == ops;
  }

  lemma MoveAgrees(w: WorldState, t: WorldState, ops: seq<Op>, move: Move, a: NodeId, b: NodeId)
    requires Agrees(w, t, ops, a, b)
    ensures Agrees(w, Moved(t, move), ops + if move.Apply? then [move.op] else [], a, b)
  {
    var u := Moved(t, move);
    if move.Apply? {
      var noted := t.(cursor := t.cursor + 1, applied := t.applied + [(t.nowUs, move.op)]);
      OpRewires(noted, move.op, a);
      OpCuts(noted, move.op, a, b);
      OpAgrees(w, t, u, ops, move.op, a, b);
    } else {
      OtherMovesKeepHouse(t, move);
      HouseAgrees(w, t, u, ops, a, b);
    }
  }

  lemma {:induction false} MovesAgree(w: WorldState, moves: seq<Move>, a: NodeId, b: NodeId)
    ensures Agrees(w, AfterMoves(w, moves), OpsOf(moves), a, b)
  {
    if moves != [] {
      var last := |moves| - 1;
      MovesAgree(w, moves[..last], a, b);
      MoveAgrees(w, AfterMoves(w, moves[..last]), OpsOf(moves[..last]), moves[last], a, b);
    }
  }

  // ------------------------------------------------------------------------- the start

  predicate Listed(specs: seq<NodeSpec>, id: NodeId) {
    exists k :: 0 <= k < |specs| && specs[k].id == id
  }

  lemma {:induction false} NetStarts(faults: NetFaults, specs: seq<NodeSpec>, id: NodeId)
    ensures var n := InitialNet(N.Quiet(faults), specs);
            && n.partitions == {} && n.groups == map[] && n.faults == faults && NetworkLaws.InOrder(n)
            && (Listed(specs, id) ==>
                  N.IsPowered(n, id) && N.NodeAddr(id) in n.byAddr && n.byAddr[N.NodeAddr(id)] == id)
  {
    if specs != [] { NetStarts(faults, specs[..|specs| - 1], id); }
  }

  lemma {:induction false} NodesStart(specs: seq<NodeSpec>, id: NodeId)
    ensures Listed(specs, id) ==> id in InitialNodes(specs) && InitialNodes(specs)[id] == Node(true, None, [])
  {
    if specs != [] { NodesStart(specs[..|specs| - 1], id); }
  }

  lemma MoveKeepsNet(w: WorldState, move: Move)
    requires NetworkLaws.Valid(w.net)
    ensures NetworkLaws.Valid(Moved(w, move).net)
  {
    match move
    case Apply(op) => OpKeepsNet(w.(cursor := w.cursor + 1, applied := w.applied + [(w.nowUs, op)]), op);
    case Arrive(next) => if next > w.nowUs { NetworkLaws.AdvanceKeepsValid(w.net, next); }
    case Pass => PassKeepsNet(w);
    case Overrun =>
  }

  lemma PassKeepsNet(w: WorldState)
    requires NetworkLaws.Valid(w.net)
    ensures NetworkLaws.Valid(OnePass(w).0.net)
  {
    NetworkLaws.AdvanceKeepsValid(w.net, w.nowUs);
    var a := w.(net := N.AfterAdvance(w.net, w.nowUs));
    DrainsKeep(a, N.NodesIn(a.nodes.Keys));
    var u := DrainedAll(a, N.NodesIn(a.nodes.Keys)).0;
    MembersDoNotMatter(a.net, u.net);
    FiresKeep(u, N.NodesIn(DueTimers(u)));
  }

  lemma {:induction false} MovesKeepNet(w: WorldState, moves: seq<Move>)
    requires NetworkLaws.Valid(w.net)
    ensures NetworkLaws.Valid(AfterMoves(w, moves).net)
  {
    if moves != [] {
      MovesKeepNet(w, moves[..|moves| - 1]);
      MoveKeepsNet(AfterMoves(w, moves[..|moves| - 1]), moves[|moves| - 1]);
    }
  }

  /** What is known of the network from what the operations so far said last. */
  datatype Said = Said(cut: bool, senderOn: bool, targetOn: bool, faults: NetFaults)

  function SaidOf(faults: NetFaults, ops: seq<Op>, from: NodeId, to: NodeId): Said {
    Said(CutAfter(false, ops, from, to), OnAfter(true, ops, from), OnAfter(true, ops, to), FaultsAfter(faults, ops))
  }

  ghost predicate Stands(n: N.FabricState, said: Said, from: NodeId, to: NodeId) {
    && NetworkLaws.InOrder(n)
    && IsCut(n, from, to) == said.cut && n.faults == said.faults
    && N.IsPowered(n, from) == said.senderOn && N.IsPowered(n, to) == said.targetOn
    && N.NodeAddr(to) in n.byAddr && n.byAddr[N.NodeAddr(to)] == to
  }

  lemma RunStandsAsSaid(scenario: Scenario, core: Core, draws: Draws, moves: seq<Move>, from: NodeId, to: NodeId)
    requires Listed(scenario.nodes, from) && Listed(scenario.nodes, to)
    ensures var w := AfterMoves(Initial(scenario, core, draws), moves);
            Stands(w.net, SaidOf(scenario.faults, OpsOf(moves), from, to), from, to) && from in w.nodes && to in w.nodes
  {
    var start := Initial(scenario, core, draws);
    NetStarts(scenario.faults, scenario.nodes, from);
    NetStarts(scenario.faults, scenario.nodes, to);
    NodesStart(scenario.nodes, from);
    NodesStart(scenario.nodes, to);
    InitialIsReady(scenario, core, draws);
    MovesKeepNet(start, moves);
    MovesAgree(start, moves, from, to);
    MovesAgree(start, moves, to, from);
  }

  // ------------------------------------------------------------------- what gets through

  /** A datagram sent in a run, and what was drawn for it. */
  datatype Sending = Sending(from: NodeId, to: NodeId, bytes: seq<U8>, draw: N.Draw)

  /** What became of a datagram. */
  ghost predicate GetsThrough(said: Said, n: N.FabricState, t: N.FabricState, m: Sending) {
    var before := n.stats.(sent := n.stats.sent + 1);
    if |m.bytes| > N.MTU || !said.senderOn then t == n
    else if said.cut then
      t.inFlight == n.inFlight && t.stats == before.(droppedPartition := before.droppedPartition + 1)
    else if !said.targetOn then
      t.inFlight == n.inFlight && t.stats == before.(droppedUnreachable := before.droppedUnreachable + 1)
    else if m.draw.lost then
      t.inFlight == n.inFlight && t.stats == before.(droppedLoss := before.droppedLoss + 1)
    else
      NetworkSending.Flies(n.(faults := said.faults), t, N.Packet(m.from, m.to, m.bytes), m.draw)
  }

  lemma FaresGetsThrough(said: Said, n: N.FabricState, t: N.FabricState, m: Sending)
    requires Stands(n, said, m.from, m.to)
    requires if |m.bytes| > N.MTU || !N.IsPowered(n, m.from) then t == n
             else NetworkSending.Fares(n, n.stats.(sent := n.stats.sent + 1), t, N.Packet(m.from, m.to, m.bytes), m.draw)
    ensures GetsThrough(said, n, t, m)
  {
    assert n.(faults := said.faults) == n;
  }

  lemma SendObeys(said: Said, n: N.FabricState, from: NodeId, to: NodeId, bytes: seq<U8>, draws: nat -> N.Draw)
    requires Stands(n, said, from, to)
    ensures GetsThrough(said, n, N.AfterSend(n, from, N.NodeAddr(to), bytes, draws), Sending(from, to, bytes, draws(0)))
  {
    NetworkSending.UnicastFares(n, from, to, bytes, draws);
    FaresGetsThrough(said, n, N.AfterSend(n, from, N.NodeAddr(to), bytes, draws), Sending(from, to, bytes, draws(0)));
  }

  lemma WorldSendObeys(w: WorldState, said: Said, from: NodeId, to: NodeId, bytes: seq<U8>)
    requires Stands(w.net, said, from, to) && from in w.nodes
    ensures GetsThrough(said, w.net, Moved(w, Apply(Send(from, to, bytes))).net,
                        Sending(from, to, bytes, w.draws(w.cursor + 1)(0)))
  {
    SendMoves(w, from, to, bytes);
    SendObeys(said, w.net, from, to, bytes, w.draws(w.cursor + 1));
  }

  /**
   In every run, whatever the cores answer: a datagram between two nodes is dropped at their
   partition exactly if the last operation that separated or rejoined them separated them; it is
   refused or unreachable exactly if its sender or its target was killed and not revived since;
   and if it is not lost it is in the air, once or twice, late by the faults set last.
   */
  lemma SendsObeyTheScript(scenario: Scenario, core: Core, draws: Draws, moves: seq<Move>, from: NodeId, to: NodeId,
                           bytes: seq<U8>)
    requires Listed(scenario.nodes, from) && Listed(scenario.nodes, to)
    ensures var w := AfterMoves(Initial(scenario, core, draws), moves);
            GetsThrough(SaidOf(scenario.faults, OpsOf(moves), from, to), w.net,
                        Moved(w, Apply(Send(from, to, bytes))).net,
                        Sending(from, to, bytes, w.draws(w.cursor + 1)(0)))
  {
    RunStandsAsSaid(scenario, core, draws, moves, from, to);
    WorldSendObeys(AfterMoves(Initial(scenario, core, draws), moves), SaidOf(scenario.faults, OpsOf(moves), from, to),
                   from, to, bytes);
  }

  lemma SendMoves(w: WorldState, from: NodeId, to: NodeId, bytes: seq<U8>)
    requires from in w.nodes
    ensures Moved(w, Apply(Send(from, to, bytes))).net
            == N.AfterSend(w.net, from, N.NodeAddr(to), bytes, w.draws(w.cursor + 1))
  {
  }

  // ------------------------------------------------------------------------- groups

  /** Whether a node has joined a group while it was on; it stays in it whatever happens to it. */
  function JoinedAfter(ops: seq<Op>, id: NodeId, group: U8): bool {
    ops != [] &&
    (JoinedAfter(ops[..|ops| - 1], id, group)
     || (ops[|ops| - 1] == Join(id, group) && OnAfter(true, ops[..|ops| - 1], id)))
  }

  ghost predicate IsIn(n: N.FabricState, id: NodeId, group: U8) {
    NetworkSending.Belongs(n, GroupAddr(group), id)
  }

  lemma OpJoins(w: WorldState, op: Op, id: NodeId, group: U8)
    requires id in w.nodes
    ensures IsIn(AfterOp(w, op).net, id, group)
            == (IsIn(w.net, id, group) || (op == Join(id, group) && N.IsPowered(w.net, id)))
  {
    match op
    case Send(from, to, bytes) => SendKeepsWiring(w.net, from, N.NodeAddr(to), bytes, w.draws(w.cursor));
    case Multicast(from, other, bytes) => SendKeepsWiring(w.net, from, GroupAddr(other), bytes, w.draws(w.cursor));
    case _ =>
  }

  lemma {:induction false} MovesJoin(scenario: Scenario, core: Core, draws: Draws, moves: seq<Move>, id: NodeId, group: U8)
    requires Listed(scenario.nodes, id)
    ensures IsIn(AfterMoves(Initial(scenario, core, draws), moves).net, id, group) == JoinedAfter(OpsOf(moves), id, group)
  {
    if moves == [] {
      NetStarts(scenario.faults, scenario.nodes, id);
    } else {
      var before, move := moves[..|moves| - 1], moves[|moves| - 1];
      var w := AfterMoves(Initial(scenario, core, draws), before);
      MovesJoin(scenario, core, draws, before, id, group);
      RunStandsAsSaid(scenario, core, draws, before, id, id);
      MoveJoins(w, move, OpsOf(before), id, group);
    }
  }

  lemma MoveJoins(w: WorldState, move: Move, ops: seq<Op>, id: NodeId, group: U8)
    requires id in w.nodes && IsIn(w.net, id, group) == JoinedAfter(ops, id, group)
    requires N.IsPowered(w.net, id) == OnAfter(true, ops, id)
    ensures IsIn(Moved(w, move).net, id, group)
            == JoinedAfter(ops + if move.Apply? then [move.op] else [], id, group)
  {
    if move.Apply? {
      OpJoins(w.(cursor := w.cursor + 1, applied := w.applied + [(w.nowUs, move.op)]), move.op, id, group);
      assert (ops + [move.op])[..|ops|] == ops;
    } else {
      OtherMovesKeepHouse(w, move);
      assert ops + [] == ops;
    }
  }

  /** What became of one node's part in a datagram for a group, by whether it was meant for it. */
  ghost predicate GroupGetsThrough(meant: bool, n: N.FabricState, t: N.FabricState, packet: N.Packet, draws: nat -> N.Draw) {
    && (forall f :: f in t.inFlight && f !in n.inFlight && f.packet.to == packet.to ==> f.packet == packet && meant)
    && ((forall k :: !draws(k).lost) && meant ==> NetworkSending.InTheAir(t, packet, n.nextSeq))
  }

  predicate IsMeant(ops: seq<Op>, from: NodeId, group: U8, id: NodeId) {
    id != from && JoinedAfter(ops, id, group) && OnAfter(true, ops, id) && !CutAfter(false, ops, from, id)
  }

  lemma WorldMulticastObeys(w: WorldState, said: Said, joined: bool, from: NodeId, group: U8, bytes: seq<U8>, id: NodeId)
    requires Stands(w.net, said, from, id) && IsIn(w.net, id, group) == joined && from in w.nodes
    requires |bytes| <= N.MTU && said.senderOn
    ensures GroupGetsThrough(id != from && joined && said.targetOn && !said.cut, w.net,
                             Moved(w, Apply(Multicast(from, group, bytes))).net, N.Packet(from, id, bytes),
                             w.draws(w.cursor + 1))
  {
    MulticastMoves(w, from, group, bytes);
    NetworkSending.MulticastReaches(w.net, from, GroupAddr(group), bytes, w.draws(w.cursor + 1), id);
  }

  /**
   In every run: a datagram for a group goes into the air towards none but nodes that joined it
   while they were on, are on, are not cut off from its sender and are not the sender; and, if
   none of its draws is a loss, towards each of them.
   */
  lemma MulticastsObeyTheScript(scenario: Scenario, core: Core, draws: Draws, moves: seq<Move>, from: NodeId,
                                group: U8, bytes: seq<U8>, id: NodeId)
    requires Listed(scenario.nodes, from) && Listed(scenario.nodes, id)
    requires |bytes| <= N.MTU && OnAfter(true, OpsOf(moves), from)
    ensures var w := AfterMoves(Initial(scenario, core, draws), moves);
            GroupGetsThrough(IsMeant(OpsOf(moves), from, group, id), w.net,
                             Moved(w, Apply(Multicast(from, group, bytes))).net, N.Packet(from, id, bytes),
                             w.draws(w.cursor + 1))
  {
    RunStandsAsSaid(scenario, core, draws, moves, from, id);
    MovesJoin(scenario, core, draws, moves, id, group);
    WorldMulticastObeys(AfterMoves(Initial(scenario, core, draws), moves), SaidOf(scenario.faults, OpsOf(moves), from, id),
                        JoinedAfter(OpsOf(moves), id, group), from, group, bytes, id);
  }

  lemma MulticastMoves(w: WorldState, from: NodeId, group: U8, bytes: seq<U8>)
    requires from in w.nodes
    ensures Moved(w, Apply(Multicast(from, group, bytes))).net
            == N.AfterSend(w.net, from, GroupAddr(group), bytes, w.draws(w.cursor + 1))
  {
  }
}
