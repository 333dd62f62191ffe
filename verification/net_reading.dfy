/**
 What a node reads from its socket (net.rs): in every run, the datagrams that arrived since it was
 last attached or lost power, each once, in strictly increasing order of due time and number.
 */
module NetworkReading {
  import opened Arith
  import opened Scenarios
  import opened Networks
  import opened NetworkLaws

  /** A read that answered, and the room there was for it. */
  datatype Answer = Answer(room: nat, received: Received)

  /**
   One node's post since it was last attached or lost power: the packets that came due for it
   while it had power, and what its socket has answered.
   */
  datatype Post = Post(arrived: seq<Flight>, answers: seq<Answer>)

  /** The packets of a listing that are due at a time and meant for a node. */
  function DueTo(flights: seq<Flight>, nowUs: U64, id: NodeId): seq<Flight> {
    if flights == [] then []
    else (if IsDue(flights[0], nowUs) && flights[0].packet.to == id then [flights[0]] else [])
         + DueTo(flights[1..], nowUs, id)
  }

  /** The post after a step, from the post and the fabric before it. */
  ghost function AfterPost(p: Post, s: FabricState, step: Step, id: NodeId): Post {
    match step
    case Attach(node) => if node == id then Post([], []) else p
    case SetPowered(node, on) => if node == id && id in s.members && !on then Post([], []) else p
    case AdvanceTo(nowUs) =>
      if nowUs >= s.nowUs && IsPowered(s, id) then p.(arrived := p.arrived + DueTo(s.inFlight, nowUs, id)) else p
    case Recv(node, room) =>
      var received := AfterRecv(s, node, room).1;
      if node == id && received != Nothing then p.(answers := p.answers + [Answer(room, received)]) else p
    case SetFaults(_) => p
    case SetPartitions(_) => p
    case SendTo(_, _, _, _) => p
    case JoinMulticast(_, _) => p
  }

  ghost function PostOf(s: FabricState, steps: seq<Step>, id: NodeId): Post {
    if steps == [] then Post([], [])
    else
      var last := |steps| - 1;
      AfterPost(PostOf(s, steps[..last], id), Run(s, steps[..last]), steps[last], id)
  }

  /** What a socket should answer for a packet: its bytes and where from, unless there is too little room. */
  function Reading(packet: Packet, room: nat): Received {
    if |packet.bytes| > room then Refused(BufferTooSmall) else Got(packet.bytes, NodeAddr(packet.from))
  }

  function PacketsOf(flights: seq<Flight>): seq<Packet> {
    seq(|flights|, k requires 0 <= k < |flights| => flights[k].packet)
  }

  /** The answers are the readings of the first packets, in turn. */
  ghost predicate ReadsInTurn(p: Post) {
    && |p.answers| <= |p.arrived|
    && forall k :: 0 <= k < |p.answers| ==> p.answers[k].received == Reading(p.arrived[k].packet, p.answers[k].room)
  }

  /** What is left to read is the rest. */
  ghost predicate InboxIsTheRest(p: Post, s: FabricState, id: NodeId)
    requires |p.answers| <= |p.arrived|
  {
    id in s.members ==> s.members[id].inbox == PacketsOf(p.arrived[|p.answers|..])
  }

  /** Whatever is in the air comes after all that has arrived. */
  ghost predicate BeforeTheAir(p: Post, s: FabricState) {
    && (forall f :: f in p.arrived ==> f.due <= s.nowUs && f.number < s.nextSeq)
    && (forall f, g :: f in p.arrived && g in s.inFlight ==> f.Before(g))
  }

  ghost predicate Delivers(p: Post, s: FabricState, id: NodeId) {
    ReadsInTurn(p) && InboxIsTheRest(p, s, id) && Sorted(p.arrived) && BeforeTheAir(p, s)
  }

  // ----------------------------------------------------------------------- time passing

  lemma {:induction false} DueToIsOfDue(flights: seq<Flight>, nowUs: U64, id: NodeId)
    requires Sorted(flights)
    ensures Sorted(DueTo(flights, nowUs, id))
    ensures forall f :: f in DueTo(flights, nowUs, id) <==> f in flights && IsDue(f, nowUs) && f.packet.to == id
  {
    if flights != [] {
      DueToIsOfDue(flights[1..], nowUs, id);
      var rest := DueTo(flights[1..], nowUs, id);
      forall g | g in rest ensures flights[0].Before(g) {
        var k :| 0 <= k < |flights[1..]| && flights[1..][k] == g;
      }
    }
  }

  /** The packets of a list meant for a node, in order. */
  function MeantFor(flights: seq<Flight>, id: NodeId): seq<Flight> {
    if flights == [] then []
    else MeantFor(flights[..|flights| - 1], id) + if flights[|flights| - 1].packet.to == id then [flights[|flights| - 1]] else []
  }

  lemma {:induction false} MeantForAppends(a: seq<Flight>, b: seq<Flight>, id: NodeId)
    ensures MeantFor(a + b, id) == MeantFor(a, id) + MeantFor(b, id)
    decreases |b|
  {
    if b == [] {
      assert a + b == a;
    } else {
      var last := |b| - 1;
      assert (a + b)[..|a + b| - 1] == a + b[..last];
      MeantForAppends(a, b[..last], id);
    }
  }

  lemma MeantForOne(f: Flight, id: NodeId)
    ensures MeantFor([f], id) == if f.packet.to == id then [f] else []
  {
    assert [f][..0] == [];
  }

  lemma {:induction false} DueToIsMeantFor(flights: seq<Flight>, nowUs: U64, id: NodeId)
    ensures DueTo(flights, nowUs, id) == MeantFor(DueOf(flights, nowUs, true), id)
  {
    if flights != [] {
      var first := if IsDue(flights[0], nowUs) then [flights[0]] else [];
      DueToIsMeantFor(flights[1..], nowUs, id);
      MeantForAppends(first, DueOf(flights[1..], nowUs, true), id);
      MeantForOne(flights[0], id);
    }
  }

  lemma PacketsAppend(a: seq<Flight>, b: seq<Flight>)
    ensures PacketsOf(a + b) == PacketsOf(a) + PacketsOf(b)
  {
  }

  /** Deliveries put the packets meant for a node that has power behind what its inbox holds. */
  lemma {:induction false} DeliveriesReach(s: FabricState, due: seq<Flight>, id: NodeId)
    ensures DeliveredAll(s, due).members.Keys == s.members.Keys
    ensures id in s.members ==>
      DeliveredAll(s, due).members[id]
      == if s.members[id].powered
         then s.members[id].(inbox := s.members[id].inbox + PacketsOf(MeantFor(due, id)))
         else s.members[id]
  {
    if due != [] {
      var last := |due| - 1;
      DeliveriesReach(s, due[..last], id);
      PacketsAppend(MeantFor(due[..last], id), [due[last]]);
    }
  }

  lemma TailGrows(arrived: seq<Flight>, more: seq<Flight>, n: nat)
    requires n <= |arrived|
    ensures (arrived + more)[n..] == arrived[n..] + more
  {
  }

  lemma SortedAppend(a: seq<Flight>, b: seq<Flight>)
    requires Sorted(a) && Sorted(b) && forall f, g :: f in a && g in b ==> f.Before(g)
    ensures Sorted(a + b)
  {
    var c := a + b;
    forall i, j | 0 <= i < j < |c| ensures c[i].Before(c[j]) {
      if i < |a| <= j { assert c[i] in a && c[j] in b; }
    }
  }

  /** More has arrived: the packets of the air that were due, which leave it. */
  lemma ArrivalsAreRead(p: Post, s: FabricState, t: FabricState, more: seq<Flight>, id: NodeId)
    requires Delivers(p, s, id) && Sorted(more) && t.nowUs >= s.nowUs && t.nextSeq == s.nextSeq
    requires forall f :: f in more ==> f in s.inFlight && f.due <= t.nowUs && f.number < s.nextSeq
    requires forall f, g :: f in more && g in t.inFlight ==> f.Before(g)
    requires forall g :: g in t.inFlight ==> g in s.inFlight
    requires t.members.Keys == s.members.Keys
    requires id in s.members ==> t.members[id].inbox == s.members[id].inbox + PacketsOf(more)
    ensures Delivers(p.(arrived := p.arrived + more), t, id)
  {
    SortedAppend(p.arrived, more);
    TailGrows(p.arrived, more, |p.answers|);
    PacketsAppend(p.arrived[|p.answers|..], more);
  }

  lemma NothingIsRead(p: Post, s: FabricState, t: FabricState, id: NodeId)
    requires Delivers(p, s, id) && t.nowUs >= s.nowUs && t.nextSeq == s.nextSeq
    requires forall g :: g in t.inFlight ==> g in s.inFlight
    requires t.members.Keys == s.members.Keys && (id in s.members ==> t.members[id].inbox == s.members[id].inbox)
    ensures Delivers(p, t, id)
  {
  }

  /** Of a listing in key order, what is due for a node comes in that order and before all that is not. */
  lemma DueComesFirst(flights: seq<Flight>, nowUs: U64, id: NodeId)
    requires Sorted(flights)
    ensures var more, flying := DueTo(flights, nowUs, id), DueOf(flights, nowUs, false);
            && Sorted(more) && (forall f :: f in more ==> f in flights && f.due <= nowUs)
            && (forall g :: g in flying ==> g in flights) && (forall f, g :: f in more && g in flying ==> f.Before(g))
  {
    DueSplits(flights, nowUs, false);
    DueToIsOfDue(flights, nowUs, id);
  }

  lemma AdvanceTakes(s: FabricState, nowUs: U64, id: NodeId)
    requires nowUs >= s.nowUs
    ensures var t, more := AfterAdvance(s, nowUs), DueTo(s.inFlight, nowUs, id);
            && t.nowUs == nowUs && t.nextSeq == s.nextSeq && t.members.Keys == s.members.Keys
            && t.inFlight == DueOf(s.inFlight, nowUs, false)
            && (id in s.members ==>
                  t.members[id].inbox == s.members[id].inbox + if s.members[id].powered then PacketsOf(more) else [])
  {
    var due, flying := DueOf(s.inFlight, nowUs, true), DueOf(s.inFlight, nowUs, false);
    DeliveriesReach(s.(nowUs := nowUs, inFlight := flying), due, id);
    DeliveriesKeepTheAir(s.(nowUs := nowUs, inFlight := flying), due);
    DueToIsMeantFor(s.inFlight, nowUs, id);
  }

  lemma AdvanceDelivers(p: Post, s: FabricState, nowUs: U64, id: NodeId)
    requires Delivers(p, s, id) && Valid(s)
    ensures Delivers(AfterPost(p, s, AdvanceTo(nowUs), id), AfterAdvance(s, nowUs), id)
  {
    if nowUs >= s.nowUs {
      DueComesFirst(s.inFlight, nowUs, id);
      AdvanceTakes(s, nowUs, id);
      if IsPowered(s, id) {
        ArrivalsAreRead(p, s, AfterAdvance(s, nowUs), DueTo(s.inFlight, nowUs, id), id);
      } else {
        NothingIsRead(p, s, AfterAdvance(s, nowUs), id);
      }
    }
  }

  lemma {:induction false} DeliveriesKeepTheAir(s: FabricState, due: seq<Flight>)
    ensures var t := DeliveredAll(s, due);
            t.inFlight == s.inFlight && t.nowUs == s.nowUs && t.nextSeq == s.nextSeq
  {
    if due != [] { DeliveriesKeepTheAir(s, due[..|due| - 1]); }
  }

  // -------------------------------------------------------------------------- sending

  /** A send puts nothing in an inbox, and only new numbers, not yet due, in the air. */
  ghost predicate OnlyAdds(s: FabricState, t: FabricState) {
    && t.members == s.members && t.nowUs == s.nowUs && t.nextSeq >= s.nextSeq
    && forall g :: g in t.inFlight ==> g in s.inFlight || (g.due >= s.nowUs && g.number >= s.nextSeq)
  }

  lemma {:induction false} InsertedMembers(flights: seq<Flight>, f: Flight)
    ensures forall g :: g in Inserted(flights, f) ==> g == f || g in flights
  {
    if flights != [] { InsertedMembers(flights[1..], f); }
  }

  lemma {:induction false} LaunchesOnlyAdd(s: FabricState, delays: seq<nat>, packet: Packet)
    ensures OnlyAdds(s, LaunchedAll(s, delays, packet))
  {
    if delays != [] {
      var last := |delays| - 1;
      var t := LaunchedAll(s, delays[..last], packet);
      LaunchesOnlyAdd(s, delays[..last], packet);
      InsertedMembers(t.inFlight, Flight(AddSat64(t.nowUs, delays[last]), t.nextSeq, packet));
    }
  }

  lemma {:induction false} AttemptsOnlyAdd(s: FabricState, from: NodeId, targets: seq<NodeId>, bytes: seq<U8>,
                                           draws: nat -> Draw)
    ensures OnlyAdds(s, AttemptedAll(s, from, targets, bytes, draws))
  {
    if targets != [] {
      var last := |targets| - 1;
      var t, packet := AttemptedAll(s, from, targets[..last], bytes, draws), Packet(from, targets[last], bytes);
      AttemptsOnlyAdd(s, from, targets[..last], bytes, draws);
      LaunchesOnlyAdd(t.(attempts := t.attempts + 1, stats := Drawn(t.stats, draws(last))), Copies(t.faults, draws(last)), packet);
    }
  }

  lemma SendDelivers(p: Post, s: FabricState, from: NodeId, addr: Addr, bytes: seq<U8>, draws: nat -> Draw, id: NodeId)
    requires Delivers(p, s, id)
    ensures Delivers(p, AfterSend(s, from, addr, bytes, draws), id)
  {
    if SendError(s, from, bytes).None? && TargetSet(s, from, addr) != {} {
      AttemptsOnlyAdd(s.(stats := s.stats.(sent := s.stats.sent + 1)), from, Targets(s, from, addr), bytes, draws);
    }
  }

  // ------------------------------------------------------------------------ other steps

  lemma RecvDelivers(p: Post, s: FabricState, node: NodeId, room: nat, id: NodeId)
    requires Delivers(p, s, id)
    ensures Delivers(AfterPost(p, s, Recv(node, room), id), AfterRecv(s, node, room).0, id)
  {
    if node == id && HasMail(s, id) {
      var rest := p.arrived[|p.answers|..];
      assert PacketsOf(rest)[0] == p.arrived[|p.answers|].packet;
      assert PacketsOf(rest)[1..] == PacketsOf(p.arrived[|p.answers| + 1..]);
    }
  }

  lemma {:induction false} NotBoundIsPart(flights: seq<Flight>, id: NodeId)
    ensures forall f :: f in NotBound(flights, id) ==> f in flights
  {
    if flights != [] { NotBoundIsPart(flights[1..], id); }
  }

  lemma StepDelivers(p: Post, s: FabricState, step: Step, id: NodeId)
    requires Delivers(p, s, id) && Valid(s)
    ensures Delivers(AfterPost(p, s, step, id), After(s, step), id)
  {
    match step
    case AdvanceTo(nowUs) => AdvanceDelivers(p, s, nowUs, id);
    case SendTo(from, addr, bytes, draws) => SendDelivers(p, s, from, addr, bytes, draws, id);
    case Recv(node, room) => RecvDelivers(p, s, node, room, id);
    case SetPowered(node, _) => NotBoundIsPart(s.inFlight, node);
    case Attach(_) =>
    case SetFaults(_) =>
    case SetPartitions(_) =>
    case JoinMulticast(_, _) =>
  }

  /**
   In every run from a quiet fabric and for every node: what it has read since it was last attached
   or lost power, with what it was refused for want of room, and then what its inbox still holds,
   are the packets that came due for it while it had power, each once, in strictly increasing order
   of due time and number.
   */
  lemma {:induction false} ReadInOrder(faults: NetFaults, steps: seq<Step>, id: NodeId)
    ensures var p, s := PostOf(Quiet(faults), steps, id), Run(Quiet(faults), steps);
            && Sorted(p.arrived) && |p.answers| <= |p.arrived|
            && (forall k :: 0 <= k < |p.answers| ==>
                  p.answers[k].received == Reading(p.arrived[k].packet, p.answers[k].room))
            && (id in s.members ==> s.members[id].inbox == PacketsOf(p.arrived[|p.answers|..]))
  {
    RunDelivers(faults, steps, id);
  }

  lemma {:induction false} RunDelivers(faults: NetFaults, steps: seq<Step>, id: NodeId)
    ensures Delivers(PostOf(Quiet(faults), steps, id), Run(Quiet(faults), steps), id)
  {
    if steps != [] {
      var last := |steps| - 1;
      RunDelivers(faults, steps[..last], id);
      EveryRun(faults, steps[..last]);
      StepDelivers(PostOf(Quiet(faults), steps[..last], id), Run(Quiet(faults), steps[..last]), steps[last], id);
    }
  }
}
