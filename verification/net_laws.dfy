/**
 What every run of the fabric keeps: no packet is unaccounted for, and packets arrive in the
 order of their keys.
 */
module NetworkLaws {
  import opened Arith
  import opened Scenarios
  import opened Networks

  // -------------------------------------------------------------------- conservation

  /** Every attempt and every duplicate is a packet lost, refused, delivered or in the air. */
  ghost predicate Balanced(s: FabricState) {
    s.attempts + s.stats.duplicated
    == s.stats.droppedLoss + s.stats.droppedPartition + s.stats.droppedUnreachable + s.stats.delivered + |s.inFlight|
    && s.stats.delivered == |s.log|
  }

  // ------------------------------------------------------------------------- order

  /** The packets in the air are in key order, numbered so far, and after every one delivered. */
  ghost predicate InOrder(s: FabricState) {
    && (forall i, j :: 0 <= i < j < |s.inFlight| ==> s.inFlight[i].Before(s.inFlight[j]))
    && (forall f :: f in s.inFlight ==> f.number < s.nextSeq)
    && (forall i, j :: 0 <= i < j < |s.log| ==> KeyBefore(s.log[i], s.log[j]))
    && (forall k :: k in s.log ==> k.0 <= s.nowUs && k.1 < s.nextSeq)
    && (forall k, f :: k in s.log && f in s.inFlight ==> KeyBefore(k, (f.due, f.number)))
  }

  ghost predicate Valid(s: FabricState) {
    Balanced(s) && InOrder(s)
  }

  ghost predicate Sorted(flights: seq<Flight>) {
    forall i, j :: 0 <= i < j < |flights| ==> flights[i].Before(flights[j])
  }

  /** A packet with a new number joins the listing in its place, replacing none. */
  lemma {:induction false} InsertedJoins(flights: seq<Flight>, f: Flight)
    requires Sorted(flights) && forall g :: g in flights ==> g.number < f.number
    ensures Sorted(Inserted(flights, f)) && |Inserted(flights, f)| == |flights| + 1
    ensures forall g :: g in Inserted(flights, f) <==> g == f || g in flights
  {
    if flights != [] && !f.Before(flights[0]) {
      assert flights[0] in flights;
      InsertedJoins(flights[1..], f);
      var rest := Inserted(flights[1..], f);
      forall g | g in rest ensures flights[0].Before(g) {
        if g in flights[1..] {
          var k :| 0 <= k < |flights[1..]| && flights[1..][k] == g;
        }
      }
    }
  }

  lemma LaunchKeepsOrder(s: FabricState, delay: nat, packet: Packet)
    requires InOrder(s)
    ensures InOrder(Launched(s, delay, packet)) && |Launched(s, delay, packet).inFlight| == |s.inFlight| + 1
  {
    InsertedJoins(s.inFlight, Flight(AddSat64(s.nowUs, delay), s.nextSeq, packet));
  }

  lemma {:induction false} LaunchesKeepOrder(s: FabricState, delays: seq<nat>, packet: Packet)
    requires InOrder(s)
    ensures var t := LaunchedAll(s, delays, packet);
            InOrder(t) && |t.inFlight| == |s.inFlight| + |delays|
            && t.stats == s.stats && t.attempts == s.attempts && t.log == s.log
  {
    if delays != [] {
      var last := |delays| - 1;
      LaunchesKeepOrder(s, delays[..last], packet);
      LaunchKeepsOrder(LaunchedAll(s, delays[..last], packet), delays[last], packet);
    }
  }

  lemma AttemptKeepsValid(s: FabricState, packet: Packet, d: Draw)
    requires Valid(s)
    ensures Valid(Attempted(s, packet, d))
  {
    if PartitionKey(packet.from, packet.to) !in s.partitions && IsPowered(s, packet.to) {
      LaunchesKeepOrder(s.(attempts := s.attempts + 1, stats := Drawn(s.stats, d)), Copies(s.faults, d), packet);
    }
  }

  lemma {:induction false} AttemptsKeepValid(s: FabricState, from: NodeId, targets: seq<NodeId>, bytes: seq<U8>,
                                             draws: nat -> Draw)
    requires Valid(s)
    ensures Valid(AttemptedAll(s, from, targets, bytes, draws))
  {
    if targets != [] {
      var last := |targets| - 1;
      AttemptsKeepValid(s, from, targets[..last], bytes, draws);
      AttemptKeepsValid(AttemptedAll(s, from, targets[..last], bytes, draws), Packet(from, targets[last], bytes), draws(last));
    }
  }

  lemma CountKeepsValid(s: FabricState)
    requires Valid(s)
    ensures Valid(s.(stats := s.stats.(sent := s.stats.sent + 1)))
  {
  }

  lemma SendKeepsValid(s: FabricState, from: NodeId, addr: Addr, bytes: seq<U8>, draws: nat -> Draw)
    requires Valid(s)
    ensures Valid(AfterSend(s, from, addr, bytes, draws))
  {
    var t := s.(stats := s.stats.(sent := s.stats.sent + 1));
    CountKeepsValid(s);
    if SendError(s, from, bytes).None? {
      if TargetSet(s, from, addr) == {} {
        VoidKeepsValid(t);
      } else {
        AttemptsKeepValid(t, from, Targets(s, from, addr), bytes, draws);
      }
    }
  }

  lemma VoidKeepsValid(s: FabricState)
    requires Valid(s)
    ensures Valid(s.(attempts := s.attempts + 1, stats := s.stats.(droppedUnreachable := s.stats.droppedUnreachable + 1)))
  {
  }

  // ---------------------------------------------------------------------- time passing

  lemma {:induction false} DueSplits(flights: seq<Flight>, nowUs: U64, due: bool)
    requires Sorted(flights)
    ensures Sorted(DueOf(flights, nowUs, due))
    ensures forall f :: f in DueOf(flights, nowUs, due) <==> f in flights && IsDue(f, nowUs) == due
  {
    if flights != [] {
      DueSplits(flights[1..], nowUs, due);
      var rest := DueOf(flights[1..], nowUs, due);
      forall g | g in rest ensures flights[0].Before(g) {
        var k :| 0 <= k < |flights[1..]| && flights[1..][k] == g;
      }
    }
  }

  lemma {:induction false} DueCounts(flights: seq<Flight>, nowUs: U64)
    ensures |DueOf(flights, nowUs, true)| + |DueOf(flights, nowUs, false)| == |flights|
  {
    if flights != [] { DueCounts(flights[1..], nowUs); }
  }

  /** Delivering packets accounts for each once, and adds to the log only keys of theirs, in order. */
  lemma {:induction false} DeliveriesKeep(s: FabricState, due: seq<Flight>)
    requires Sorted(due) && (forall i, j :: 0 <= i < j < |s.log| ==> KeyBefore(s.log[i], s.log[j]))
    requires forall k, f :: k in s.log && f in due ==> KeyBefore(k, (f.due, f.number))
    ensures var t := DeliveredAll(s, due);
            && t.stats.delivered + t.stats.droppedUnreachable == s.stats.delivered + s.stats.droppedUnreachable + |due|
            && t.stats.delivered - |t.log| == s.stats.delivered - |s.log|
            && t == s.(members := t.members, log := t.log,
                       stats := s.stats.(delivered := t.stats.delivered, droppedUnreachable := t.stats.droppedUnreachable))
            && (forall i, j :: 0 <= i < j < |t.log| ==> KeyBefore(t.log[i], t.log[j]))
            && (forall k :: k in t.log ==> k in s.log || exists f :: f in due && k == (f.due, f.number))
  {
    if due != [] {
      var last := |due| - 1;
      DeliveriesKeep(s, due[..last]);
      var before := DeliveredAll(s, due[..last]);
      assert due[last] in due;
      forall k | k in before.log ensures KeyBefore(k, (due[last].due, due[last].number)) {
        if k !in s.log {
          var f :| f in due[..last] && k == (f.due, f.number);
          var i :| 0 <= i < last && due[i] == f;
        }
      }
    }
  }

  /** Up to the last microsecond there is, what stays in the air is what is due later; at it, all does. */
  lemma AdvanceKeepsValid(s: FabricState, nowUs: U64)
    requires Valid(s)
    ensures Valid(AfterAdvance(s, nowUs))
    ensures nowUs >= s.nowUs ==> forall f :: f in AfterAdvance(s, nowUs).inFlight <==>
      f in s.inFlight && (f.due > nowUs || nowUs == U64_MAX)
  {
    if nowUs >= s.nowUs {
      var due, flying := DueOf(s.inFlight, nowUs, true), DueOf(s.inFlight, nowUs, false);
      var start := s.(nowUs := nowUs, inFlight := flying);
      DueSplits(s.inFlight, nowUs, true);
      DueSplits(s.inFlight, nowUs, false);
      DueCounts(s.inFlight, nowUs);
      DeliveriesKeep(start, due);
      var t := AfterAdvance(s, nowUs);
      forall k, f | k in t.log && f in flying ensures KeyBefore(k, (f.due, f.number)) {
        if k !in s.log {
          var g :| g in due && k == (g.due, g.number);
        }
      }
    }
  }

  lemma {:induction false} NotBoundKeeps(flights: seq<Flight>, id: NodeId)
    requires Sorted(flights)
    ensures Sorted(NotBound(flights, id))
    ensures forall f :: f in NotBound(flights, id) <==> f in flights && f.packet.to != id
  {
    if flights != [] {
      NotBoundKeeps(flights[1..], id);
      var rest := NotBound(flights[1..], id);
      forall g | g in rest ensures flights[0].Before(g) {
        var k :| 0 <= k < |flights[1..]| && flights[1..][k] == g;
      }
    }
  }

  lemma PowerKeepsValid(s: FabricState, id: NodeId, on: bool)
    requires Valid(s)
    ensures Valid(AfterPower(s, id, on))
  {
    NotBoundKeeps(s.inFlight, id);
  }

  // ------------------------------------------------------------------------- every run

  datatype Step =
    | Attach(id: NodeId)
    | SetFaults(faults: NetFaults)
    | SetPartitions(links: set<(NodeId, NodeId)>)
    | SetPowered(id: NodeId, on: bool)
    | AdvanceTo(nowUs: U64)
    | SendTo(from: NodeId, addr: Addr, bytes: seq<U8>, draws: nat -> Draw)
    | Recv(id: NodeId, room: nat)
    | JoinMulticast(id: NodeId, group: Addr)

  ghost function After(s: FabricState, step: Step): FabricState {
    match step
    case Attach(id) => AfterAttach(s, id)
    case SetFaults(faults) => s.(faults := faults)
    case SetPartitions(links) => s.(partitions := links)
    case SetPowered(id, on) => AfterPower(s, id, on)
    case AdvanceTo(nowUs) => AfterAdvance(s, nowUs)
    case SendTo(from, addr, bytes, draws) => AfterSend(s, from, addr, bytes, draws)
    case Recv(id, room) => AfterRecv(s, id, room).0
    case JoinMulticast(id, group) => AfterJoin(s, id, group)
  }

  ghost function Run(s: FabricState, steps: seq<Step>): FabricState {
    if steps == [] then s else After(Run(s, steps[..|steps| - 1]), steps[|steps| - 1])
  }

  lemma StepKeepsValid(s: FabricState, step: Step)
    requires Valid(s)
    ensures Valid(After(s, step))
  {
    match step
    case SetPowered(id, on) => PowerKeepsValid(s, id, on);
    case AdvanceTo(nowUs) => AdvanceKeepsValid(s, nowUs);
    case SendTo(from, addr, bytes, draws) => SendKeepsValid(s, from, addr, bytes, draws);
    case Attach(_) =>
    case SetFaults(_) =>
    case SetPartitions(_) =>
    case Recv(_, _) =>
    case JoinMulticast(_, _) =>
  }

  /**
   In every run from a quiet fabric, whatever is drawn and whatever is cut, killed or revived:
   attempts and duplicates add up to the packets lost, refused, delivered and in the air, and
   packets are delivered strictly in the order of due time and number.
   */
  lemma {:induction false} EveryRun(faults: NetFaults, steps: seq<Step>)
    ensures Valid(Run(Quiet(faults), steps))
  {
    if steps != [] {
      var before := steps[..|steps| - 1];
      EveryRun(faults, before);
      StepKeepsValid(Run(Quiet(faults), before), steps[|steps| - 1]);
    }
  }

  /** A dead radio buffers nothing: powering a node down empties its inbox and the air towards it. */
  lemma PoweredDownHearsNothing(s: FabricState, id: NodeId)
    requires Valid(s) && id in s.members
    ensures var t := AfterPower(s, id, false);
            && t.members[id] == Member(false, [])
            && (forall f :: f in t.inFlight <==> f in s.inFlight && f.packet.to != id)
  {
    NotBoundKeeps(s.inFlight, id);
  }
}
