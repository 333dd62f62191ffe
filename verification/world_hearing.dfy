/**
 What a node of a world hears (world.rs): in one pass of settling, the datagrams due for it in
 order and then its timer; and nothing at all while it is killed.
 */
module WorldHearing {
  import opened Arith
  import opened Wrappers
  import opened Scenarios
  import opened Worlds
  import opened WorldLaws
  import opened WorldOps
  import N = Networks
  import NetworkLaws
  import NetworkReading
  import NetworkSending
  import OrderedKeys

  // ------------------------------------------------------------------------- being killed

  /** Off, without a timer or unread datagrams, and with none on the way. */
  ghost predicate IsSilent(w: WorldState, id: NodeId) {
    && id in w.nodes && !w.nodes[id].powered && w.nodes[id].timerAtUs == None
    && id in w.net.members && w.net.members[id] == N.Member(false, [])
    && forall f :: f in w.net.inFlight ==> f.packet.to != id
  }

  ghost predicate HeardNothing(w: WorldState, t: WorldState, id: NodeId)
    requires id in w.nodes
  {
    IsSilent(t, id) && t.nodes[id].heard == w.nodes[id].heard
  }

  lemma {:induction false} NotBoundFor(flights: seq<N.Flight>, id: NodeId)
    ensures forall f :: f in N.NotBound(flights, id) ==> f in flights && f.packet.to != id
  {
    if flights != [] { NotBoundFor(flights[1..], id); }
  }

  lemma KillSilences(w: WorldState, id: NodeId)
    requires id in w.nodes && id in w.net.members
    ensures HeardNothing(w, AfterOp(w, Kill(id)), id)
  {
    NotBoundFor(w.net.inFlight, id);
  }

  lemma OpKeepsSilence(w: WorldState, op: Op, id: NodeId)
    requires IsSilent(w, id) && NetworkLaws.InOrder(w.net) && !(op.Revive? && op.node == id)
    ensures HeardNothing(w, AfterOp(w, op), id)
  {
    match op
    case Send(from, to, bytes) =>
      NetworkSending.SendReachesPowered(w.net, from, N.NodeAddr(to), bytes, w.draws(w.cursor));
    case Multicast(from, group, bytes) =>
      NetworkSending.SendReachesPowered(w.net, from, GroupAddr(group), bytes, w.draws(w.cursor));
    case Kill(other) => NotBoundFor(w.net.inFlight, other);
    case _ =>
  }

  /** What a node has and has heard, and what is on its way to it. */
  ghost predicate Untouched(w: WorldState, t: WorldState, id: NodeId) {
    && t.nodes.Keys == w.nodes.Keys && t.net.members.Keys == w.net.members.Keys
    && (id in w.nodes ==> t.nodes[id] == w.nodes[id])
    && (id in w.net.members ==> t.net.members[id] == w.net.members[id])
    && t.net.inFlight == w.net.inFlight && t == w.(net := t.net, nodes := t.nodes)
  }

  lemma {:induction false} DrainTouchesOne(w: WorldState, other: NodeId, id: NodeId)
    requires other == id ==> !HasMail(w, id)
    ensures Untouched(w, Drained(w, other), id)
    decreases MailCount(w, other)
  {
    if HasMail(w, other) {
      DrainTouchesOne(OneRead(w, other), other, id);
    }
  }

  lemma {:induction false} DrainsPassOver(w: WorldState, ids: seq<NodeId>, id: NodeId)
    requires id !in ids || !HasMail(w, id)
    ensures Untouched(w, DrainedAll(w, ids).0, id)
  {
    if ids != [] {
      var last := |ids| - 1;
      DrainsPassOver(w, ids[..last], id);
      DrainTouchesOne(DrainedAll(w, ids[..last]).0, ids[last], id);
    }
  }

  lemma {:induction false} FiresPassOver(w: WorldState, ids: seq<NodeId>, id: NodeId)
    requires id !in ids
    ensures Untouched(w, FiredAll(w, ids), id) && FiredAll(w, ids).net == w.net
  {
    if ids != [] { FiresPassOver(w, ids[..|ids| - 1], id); }
  }

  lemma {:induction false} DueIsPart(flights: seq<N.Flight>, nowUs: U64, due: bool)
    ensures forall f :: f in N.DueOf(flights, nowUs, due) ==> f in flights
  {
    if flights != [] { DueIsPart(flights[1..], nowUs, due); }
  }

  lemma AdvanceKeepsSilence(w: WorldState, next: U64, id: NodeId)
    requires IsSilent(w, id)
    ensures HeardNothing(w, w.(net := N.AfterAdvance(w.net, next)), id)
  {
    if next >= w.net.nowUs {
      var due, flying := N.DueOf(w.net.inFlight, next, true), N.DueOf(w.net.inFlight, next, false);
      var start := w.net.(nowUs := next, inFlight := flying);
      DueIsPart(w.net.inFlight, next, false);
      NetworkReading.DeliveriesReach(start, due, id);
      NetworkReading.DeliveriesKeepTheAir(start, due);
    }
  }

  lemma PassKeepsSilence(w: WorldState, id: NodeId)
    requires IsSilent(w, id)
    ensures HeardNothing(w, OnePass(w).0, id)
  {
    AdvanceKeepsSilence(w, w.nowUs, id);
    var a := w.(net := N.AfterAdvance(w.net, w.nowUs));
    DrainsPassOver(a, N.NodesIn(a.nodes.Keys), id);
    var u := DrainedAll(a, N.NodesIn(a.nodes.Keys)).0;
    FiresPassOver(u, N.NodesIn(DueTimers(u)), id);
  }

  lemma MoveKeepsSilence(w: WorldState, move: Move, id: NodeId)
    requires IsSilent(w, id) && NetworkLaws.InOrder(w.net)
    requires move.Apply? ==> !(move.op.Revive? && move.op.node == id)
    ensures HeardNothing(w, Moved(w, move), id)
  {
    match move
    case Apply(op) => OpKeepsSilence(w.(cursor := w.cursor + 1, applied := w.applied + [(w.nowUs, op)]), op, id);
    case Arrive(next) => if next > w.nowUs { AdvanceKeepsSilence(w, next, id); }
    case Pass => PassKeepsSilence(w, id);
    case Overrun =>
  }

  predicate Revives(move: Move, id: NodeId) { move.Apply? && move.op.Revive? && move.op.node == id }

  ghost predicate StaysDead(moves: seq<Move>, id: NodeId) {
    forall k :: 0 <= k < |moves| ==> !Revives(moves[k], id)
  }

  lemma {:induction false} SilenceLasts(w: WorldState, moves: seq<Move>, id: NodeId)
    requires IsSilent(w, id) && NetworkLaws.Valid(w.net) && StaysDead(moves, id)
    ensures HeardNothing(w, AfterMoves(w, moves), id)
  {
    if moves != [] {
      var last := |moves| - 1;
      SilenceLasts(w, moves[..last], id);
      MovesKeepNet(w, moves[..last]);
      MoveKeepsSilence(AfterMoves(w, moves[..last]), moves[last], id);
    }
  }

  lemma SilentUntilRevived(w: WorldState, moves: seq<Move>, id: NodeId)
    requires NetworkLaws.Valid(w.net) && id in w.nodes && id in w.net.members && StaysDead(moves, id)
    ensures HeardNothing(w, AfterMoves(AfterOp(w, Kill(id)), moves), id)
  {
    KillSilences(w, id);
    OpKeepsNet(w, Kill(id));
    SilenceLasts(AfterOp(w, Kill(id)), moves, id);
  }

  lemma RunHasNode(scenario: Scenario, core: Core, draws: Draws, moves: seq<Move>, id: NodeId)
    requires Listed(scenario.nodes, id)
    ensures var w := AfterMoves(Initial(scenario, core, draws), moves);
            NetworkLaws.Valid(w.net) && id in w.nodes && id in w.net.members
  {
    var start := Initial(scenario, core, draws);
    NetStarts(scenario.faults, scenario.nodes, id);
    NodesStart(scenario.nodes, id);
    InitialIsReady(scenario, core, draws);
    MovesKeepNet(start, moves);
    MovesAgree(start, moves, id, id);
  }

  /** Up again, with nothing unread, no timer and nothing on its way. */
  ghost predicate IsUpAfresh(w: WorldState, id: NodeId, heard: seq<Heard>) {
    && id in w.nodes && w.nodes[id] == Node(true, None, heard)
    && id in w.net.members && w.net.members[id] == N.Member(true, [])
    && forall f :: f in w.net.inFlight ==> f.packet.to != id
  }

  /**
   In every run: a node that is killed hears nothing, by datagram, timer or scripted tick, until
   an operation revives it, whatever else happens; and then it is up with nothing unread, no
   timer and nothing on its way to it.
   */
  lemma KilledHearsNothing(scenario: Scenario, core: Core, draws: Draws, before: seq<Move>, moves: seq<Move>,
                           id: NodeId, wipe: bool)
    requires Listed(scenario.nodes, id) && StaysDead(moves, id)
    ensures var w := AfterMoves(Initial(scenario, core, draws), before);
            var t := AfterMoves(AfterOp(w, Kill(id)), moves);
            id in w.nodes && HeardNothing(w, t, id) && IsUpAfresh(AfterOp(t, Revive(id, wipe)), id, w.nodes[id].heard)
  {
    var w := AfterMoves(Initial(scenario, core, draws), before);
    RunHasNode(scenario, core, draws, before, id);
    SilentUntilRevived(w, moves, id);
    RevivedIsUp(AfterMoves(AfterOp(w, Kill(id)), moves), id, wipe);
  }

  lemma RevivedIsUp(w: WorldState, id: NodeId, wipe: bool)
    requires IsSilent(w, id)
    ensures var u := AfterOp(w, Revive(id, wipe));
            && u.nodes == w.nodes[id := Node(true, None, w.nodes[id].heard)]
            && u.net == w.net.(members := w.net.members[id := N.Member(true, [])])
  {
  }

  // ------------------------------------------------------------------- what a pass brings

  /** The datagrams a node is told of, out of packets: all but those too large for the buffer. */
  function ToldOf(packets: seq<N.Packet>, nowUs: nat): seq<Heard> {
    if packets == [] then []
    else (if |packets[0].bytes| <= N.MTU then [Heard(nowUs, Datagram(packets[0].bytes))] else []) + ToldOf(packets[1..], nowUs)
  }

  /** The node asks to be woken at once. */
  ghost predicate AsksNow(actions: seq<Action>, nowUs: U64) {
    exists k :: 0 <= k < |actions| && actions[k].SetTimer? && Min(nowUs + actions[k].inUs, U64_MAX) <= nowUs
  }

  ghost predicate IsDueAt(timer: Option<U64>, nowUs: U64) {
    timer.Some? && timer.value <= nowUs
  }

  /** Asking for a timer never puts off the one there is. */
  lemma {:induction false} EarliestStands(timer: Option<U64>, nowUs: U64, actions: seq<Action>)
    ensures IsDueAt(TimerAfter(timer, nowUs, actions), nowUs) <==> IsDueAt(timer, nowUs) || AsksNow(actions, nowUs)
  {
    if actions != [] {
      var last := |actions| - 1;
      EarliestStands(timer, nowUs, actions[..last]);
      AskedInTurn(actions, nowUs);
    }
  }

  lemma AskedInTurn(actions: seq<Action>, nowUs: U64)
    requires actions != []
    ensures var last := |actions| - 1;
            AsksNow(actions, nowUs) <==>
              AsksNow(actions[..last], nowUs)
              || (actions[last].SetTimer? && Min(nowUs + actions[last].inUs, U64_MAX) <= nowUs)
  {
    var before := actions[..|actions| - 1];
    if AsksNow(before, nowUs) {
      var k :| 0 <= k < |before| && before[k].SetTimer? && Min(nowUs + before[k].inUs, U64_MAX) <= nowUs;
      assert actions[k] == before[k];
    }
    if AsksNow(actions, nowUs) {
      var k :| 0 <= k < |actions| && actions[k].SetTimer? && Min(nowUs + actions[k].inUs, U64_MAX) <= nowUs;
      if k < |before| { assert before[k] == actions[k]; }
    }
  }

  /** What it heard as its `k`-th made the node ask to be woken at once. */
  ghost predicate AsksAt(core: Core, id: NodeId, heard: seq<Heard>, k: nat, applied: seq<Applied>, visited: seq<U64>,
                         nowUs: U64)
    requires k < |heard|
  {
    AsksNow(core(id, heard[..k + 1], applied, visited), nowUs)
  }

  /** Of what it heard from `from` on, something made the node ask to be woken at once. */
  ghost predicate AskedNow(w: WorldState, id: NodeId, heard: seq<Heard>, from: nat) {
    exists k :: from <= k < |heard| && AsksAt(w.core, id, heard, k, w.applied, w.visited, w.nowUs)
  }

  /** A node has been told of some datagrams more, and answered each. */
  ghost predicate HasRead(w: WorldState, t: WorldState, id: NodeId, told: seq<Heard>) {
    && IsUp(w, id) && IsUp(t, id) && t.nodes[id].heard == w.nodes[id].heard + told
    && (TimerDue(t, id) <==> TimerDue(w, id) || AskedNow(w, id, t.nodes[id].heard, |w.nodes[id].heard|))
    && t == w.(net := t.net, nodes := t.nodes) && t.nodes.Keys == w.nodes.Keys
    && id in t.net.members && t.net.members[id] == N.Member(true, [])
  }

  lemma ToldOnce(w: WorldState, id: NodeId, happening: Happening)
    requires IsUp(w, id)
    ensures var t := Told(w, id, happening);
            && IsUp(t, id) && t.nodes[id].heard == w.nodes[id].heard + [Heard(w.nowUs, happening)]
            && t == w.(nodes := t.nodes) && t.nodes.Keys == w.nodes.Keys
            && (TimerDue(t, id) <==>
                  TimerDue(w, id) || AsksNow(w.core(id, t.nodes[id].heard, w.applied, w.visited), w.nowUs))
  {
    var heard := w.nodes[id].heard + [Heard(w.nowUs, happening)];
    EarliestStands(w.nodes[id].timerAtUs, w.nowUs, w.core(id, heard, w.applied, w.visited));
  }

  lemma AskedFirst(w: WorldState, id: NodeId, heard: seq<Heard>, from: nat)
    requires from < |heard|
    ensures AskedNow(w, id, heard, from)
            <==> AsksAt(w.core, id, heard, from, w.applied, w.visited, w.nowUs) || AskedNow(w, id, heard, from + 1)
  {
  }

  lemma {:induction false} DrainReads(w: WorldState, id: NodeId)
    requires IsUp(w, id) && N.IsPowered(w.net, id)
    ensures HasRead(w, Drained(w, id), id, ToldOf(w.net.members[id].inbox, w.nowUs))
    decreases MailCount(w, id)
  {
    if HasMail(w, id) {
      var t := OneRead(w, id);
      var packet := w.net.members[id].inbox[0];
      ReadOne(w, id);
      DrainReads(t, id);
      if |packet.bytes| <= N.MTU {
        AskedFirst(w, id, Drained(w, id).nodes[id].heard, |w.nodes[id].heard|);
        assert Drained(w, id).nodes[id].heard[..|w.nodes[id].heard| + 1] == t.nodes[id].heard;
      }
    }
  }

  /** One datagram read. */
  lemma ReadOne(w: WorldState, id: NodeId)
    requires HasMail(w, id)
    ensures var t, packet := OneRead(w, id), w.net.members[id].inbox[0];
            && IsUp(t, id) && t == w.(net := t.net, nodes := t.nodes) && t.nodes.Keys == w.nodes.Keys
            && N.IsPowered(t.net, id) && t.net.members[id].inbox == w.net.members[id].inbox[1..]
            && (if |packet.bytes| <= N.MTU then
                  && t.nodes[id].heard == w.nodes[id].heard + [Heard(w.nowUs, Datagram(packet.bytes))]
                  && (TimerDue(t, id) <==>
                        TimerDue(w, id) || AsksNow(w.core(id, t.nodes[id].heard, w.applied, w.visited), w.nowUs))
                else t.nodes[id] == w.nodes[id])
  {
    var u := w.(net := N.AfterRecv(w.net, id, N.MTU).0);
    if |w.net.members[id].inbox[0].bytes| <= N.MTU {
      ToldOnce(u, id, Datagram(w.net.members[id].inbox[0].bytes));
    }
  }

  lemma ReadIsKept(w: WorldState, t: WorldState, u: WorldState, id: NodeId, told: seq<Heard>)
    requires HasRead(w, t, id, told) && Untouched(t, u, id)
    ensures HasRead(w, u, id, told)
  {
  }

  lemma UntouchedReads(w: WorldState, t: WorldState, u: WorldState, id: NodeId, told: seq<Heard>)
    requires Untouched(w, t, id) && HasRead(t, u, id, told)
    ensures HasRead(w, u, id, told)
  {
  }

  /** Each socket is read in turn; the others' are another's. */
  lemma {:induction false} DrainsRead(w: WorldState, ids: seq<NodeId>, id: NodeId)
    requires IsUp(w, id) && N.IsPowered(w.net, id) && id in ids
    ensures HasRead(w, DrainedAll(w, ids).0, id, ToldOf(w.net.members[id].inbox, w.nowUs))
  {
    var last := |ids| - 1;
    var told, t := ToldOf(w.net.members[id].inbox, w.nowUs), DrainedAll(w, ids[..last]).0;
    if id in ids[..last] {
      DrainsRead(w, ids[..last], id);
      DrainTouchesOne(t, ids[last], id);
      ReadIsKept(w, t, Drained(t, ids[last]), id, told);
    } else {
      DrainsPassOver(w, ids[..last], id);
      DrainReads(t, id);
      UntouchedReads(w, t, Drained(t, id), id, told);
    }
  }

  /** A node whose timer fires is woken once. */
  lemma {:induction false} FiresWake(w: WorldState, ids: seq<NodeId>, id: NodeId)
    requires IsUp(w, id) && OrderedKeys.Ascending(ids)
    ensures id in FiredAll(w, ids).nodes
    ensures FiredAll(w, ids).nodes[id].heard == w.nodes[id].heard + if id in ids then [Heard(w.nowUs, Woken)] else []
  {
    if ids != [] {
      var last := |ids| - 1;
      if ids[last] == id {
        FiresPassOver(w, ids[..last], id);
      } else {
        FiresWake(w, ids[..last], id);
      }
    }
  }

  /**
   What one pass brings a node that is up: the datagrams unread and those due for it, in the
   order of due time and number, and none of another's; and then, once, its timer, exactly if it
   was due before or an answer to one of them asked for it at once.
   */
  lemma PassIsHeard(w: WorldState, id: NodeId)
    requires IsUp(w, id) && N.IsPowered(w.net, id) && w.net.nowUs <= w.nowUs
    ensures var mail := w.net.members[id].inbox
                        + NetworkReading.PacketsOf(NetworkReading.DueTo(w.net.inFlight, w.nowUs, id));
            var heard := w.nodes[id].heard + ToldOf(mail, w.nowUs);
            var woken := TimerDue(w, id) || AskedNow(w, id, heard, |w.nodes[id].heard|);
            var t := OnePass(w).0;
            id in t.nodes && t.nodes[id].heard == heard + if woken then [Heard(w.nowUs, Woken)] else []
  {
    var due, flying := N.DueOf(w.net.inFlight, w.nowUs, true), N.DueOf(w.net.inFlight, w.nowUs, false);
    NetworkReading.DeliveriesReach(w.net.(nowUs := w.nowUs, inFlight := flying), due, id);
    NetworkReading.DueToIsMeantFor(w.net.inFlight, w.nowUs, id);
    var a := w.(net := N.AfterAdvance(w.net, w.nowUs));
    DrainsRead(a, N.NodesIn(a.nodes.Keys), id);
    var u := DrainedAll(a, N.NodesIn(a.nodes.Keys)).0;
    FiresWake(u, N.NodesIn(DueTimers(u)), id);
  }
}
