/** What a send puts in the air (net.rs): which copies, for whom and due when, and what it counts. */
module NetworkSending {
  import opened Arith
  import opened Wrappers
  import opened Scenarios
  import opened Networks
  import opened NetworkLaws
  import OrderedKeys

  /** When a copy is due: latency, jitter if there is any and the extra of one held back, in 64 bits. */
  function DueAt(nowUs: U64, faults: NetFaults, jitter: nat, held: bool): U64 {
    var jittered := if faults.jitterUs > 0 then faults.latencyUs + jitter else faults.latencyUs;
    var delay := if held then jittered + faults.reorderExtraUs else jittered;
    Min(nowUs + delay % 0x1_0000_0000_0000_0000, U64_MAX)
  }

  /** The packet of one attempt is in the air once, or twice if it is duplicated, and nothing else is new. */
  ghost predicate Flies(s: FabricState, t: FabricState, packet: Packet, d: Draw) {
    var first := Flight(DueAt(s.nowUs, s.faults, d.jitter, d.reordered), s.nextSeq, packet);
    var second := Flight(DueAt(s.nowUs, s.faults, d.duplicateJitter, false), s.nextSeq + 1, packet);
    && (forall f :: f in t.inFlight <==> f in s.inFlight || f == first || (d.duplicated && f == second))
    && |t.inFlight| == |s.inFlight| + if d.duplicated then 2 else 1
  }

  /** What became of one attempt, and how it was counted after `c`. */
  ghost predicate Fares(s: FabricState, c: Counters, t: FabricState, packet: Packet, d: Draw) {
    if PartitionKey(packet.from, packet.to) in s.partitions then
      t.inFlight == s.inFlight && t.stats == c.(droppedPartition := c.droppedPartition + 1)
    else if !IsPowered(s, packet.to) then
      t.inFlight == s.inFlight && t.stats == c.(droppedUnreachable := c.droppedUnreachable + 1)
    else if d.lost then
      t.inFlight == s.inFlight && t.stats == c.(droppedLoss := c.droppedLoss + 1)
    else
      && Flies(s, t, packet, d)
      && t.stats == c.(reordered := if d.reordered then c.reordered + 1 else c.reordered,
                       duplicated := if d.duplicated then c.duplicated + 1 else c.duplicated)
  }

  /** One more packet is in the air. */
  ghost predicate Joined(s: FabricState, t: FabricState, delay: nat, packet: Packet) {
    && t == s.(nextSeq := s.nextSeq + 1, inFlight := t.inFlight)
    && |t.inFlight| == |s.inFlight| + 1
    && forall f :: f in t.inFlight <==>
         f in s.inFlight || f == Flight(Min(s.nowUs + delay, U64_MAX), s.nextSeq, packet)
  }

  lemma LaunchJoins(s: FabricState, delay: nat, packet: Packet)
    requires NetworkLaws.InOrder(s)
    ensures NetworkLaws.InOrder(Launched(s, delay, packet)) && Joined(s, Launched(s, delay, packet), delay, packet)
  {
    InsertedJoins(s.inFlight, Flight(AddSat64(s.nowUs, delay), s.nextSeq, packet));
    LaunchKeepsOrder(s, delay, packet);
  }

  lemma OneFlies(s: FabricState, t: FabricState, packet: Packet, d: Draw)
    requires Joined(s, t, Delay(s.faults, d.jitter, d.reordered), packet) && !d.duplicated
    ensures Flies(s, t, packet, d)
  {
  }

  lemma TwoFly(s: FabricState, t: FabricState, u: FabricState, packet: Packet, d: Draw)
    requires Joined(s, t, Delay(s.faults, d.jitter, d.reordered), packet) && d.duplicated
    requires Joined(t, u, Delay(s.faults, d.duplicateJitter, false), packet)
    ensures Flies(s, u, packet, d) && u == s.(nextSeq := u.nextSeq, inFlight := u.inFlight)
  {
  }

  lemma LaunchOnce(s: FabricState, delay: nat, packet: Packet)
    ensures LaunchedAll(s, [delay], packet) == Launched(s, delay, packet)
  {
    assert [delay][..0] == [];
  }

  lemma LaunchTwice(s: FabricState, delay: nat, more: nat, packet: Packet)
    ensures LaunchedAll(s, [delay, more], packet) == Launched(Launched(s, delay, packet), more, packet)
  {
    assert [delay, more][..1] == [delay];
    LaunchOnce(s, delay, packet);
  }

  lemma CopiesFly(s: FabricState, packet: Packet, d: Draw)
    requires NetworkLaws.InOrder(s) && !d.lost
    ensures var t := LaunchedAll(s, Copies(s.faults, d), packet);
            Flies(s, t, packet, d) && t == s.(nextSeq := t.nextSeq, inFlight := t.inFlight)
  {
    var delay, more := Delay(s.faults, d.jitter, d.reordered), Delay(s.faults, d.duplicateJitter, false);
    var t := Launched(s, delay, packet);
    LaunchJoins(s, delay, packet);
    if d.duplicated {
      assert Copies(s.faults, d) == [delay, more];
      LaunchTwice(s, delay, more, packet);
      LaunchJoins(t, more, packet);
      TwoFly(s, t, Launched(t, more, packet), packet, d);
    } else {
      assert Copies(s.faults, d) == [delay];
      LaunchOnce(s, delay, packet);
      OneFlies(s, t, packet, d);
    }
  }

  lemma CountsDoNotMatter(s: FabricState, t: FabricState)
    requires NetworkLaws.InOrder(s) && t == s.(attempts := t.attempts, stats := t.stats)
    ensures NetworkLaws.InOrder(t)
  {
  }

  lemma AttemptFlies(s: FabricState, u: FabricState, packet: Packet, d: Draw)
    requires NetworkLaws.InOrder(s) && !d.lost && u == s.(attempts := u.attempts, stats := u.stats)
    ensures var t := LaunchedAll(u, Copies(u.faults, d), packet); Flies(s, t, packet, d) && t.stats == u.stats
  {
    CountsDoNotMatter(s, u);
    CopiesFly(u, packet, d);
  }

  lemma AttemptFares(s: FabricState, packet: Packet, d: Draw)
    requires NetworkLaws.InOrder(s)
    ensures Fares(s, s.stats, Attempted(s, packet, d), packet, d)
  {
    if PartitionKey(packet.from, packet.to) !in s.partitions && IsPowered(s, packet.to) && !d.lost {
      AttemptFlies(s, s.(attempts := s.attempts + 1, stats := Drawn(s.stats, d)), packet, d);
    }
  }

  lemma OneAttempt(s: FabricState, from: NodeId, to: NodeId, bytes: seq<U8>, draws: nat -> Draw)
    ensures AttemptedAll(s, from, [to], bytes, draws) == Attempted(s, Packet(from, to, bytes), draws(0))
  {
    assert [to][..0] == [];
  }

  function OneSent(c: Counters): Counters { c.(sent := c.sent + 1) }

  lemma UnicastIsAttempt(s: FabricState, from: NodeId, to: NodeId, bytes: seq<U8>, draws: nat -> Draw)
    requires NodeAddr(to) in s.byAddr && s.byAddr[NodeAddr(to)] == to && |bytes| <= MTU && IsPowered(s, from)
    ensures AfterSend(s, from, NodeAddr(to), bytes, draws)
            == Attempted(s.(stats := OneSent(s.stats)), Packet(from, to, bytes), draws(0))
  {
    assert TargetSet(s, from, NodeAddr(to)) == {to};
    OrderedKeys.AscendingIsUnique(Targets(s, from, NodeAddr(to)), [to]);
    OneAttempt(s.(stats := OneSent(s.stats)), from, to, bytes, draws);
  }

  lemma SentAttemptFares(s: FabricState, packet: Packet, d: Draw)
    requires NetworkLaws.InOrder(s)
    ensures Fares(s, OneSent(s.stats), Attempted(s.(stats := OneSent(s.stats)), packet, d), packet, d)
  {
    var u := s.(stats := OneSent(s.stats));
    CountsDoNotMatter(s, u);
    AttemptFares(u, packet, d);
    CountsDoNotFare(s, u, Attempted(u, packet, d), packet, d);
  }

  lemma CountsDoNotFare(s: FabricState, u: FabricState, t: FabricState, packet: Packet, d: Draw)
    requires u == s.(stats := u.stats) && Fares(u, u.stats, t, packet, d)
    ensures Fares(s, u.stats, t, packet, d)
  {
  }

  /** A datagram for a node: refused if too long or from a node that is off, and else one attempt. */
  lemma UnicastFares(s: FabricState, from: NodeId, to: NodeId, bytes: seq<U8>, draws: nat -> Draw)
    requires NetworkLaws.InOrder(s) && NodeAddr(to) in s.byAddr && s.byAddr[NodeAddr(to)] == to
    ensures var t := AfterSend(s, from, NodeAddr(to), bytes, draws);
            if |bytes| > MTU || !IsPowered(s, from) then t == s
            else Fares(s, s.stats.(sent := s.stats.sent + 1), t, Packet(from, to, bytes), draws(0))
  {
    if |bytes| <= MTU && IsPowered(s, from) {
      UnicastIsAttempt(s, from, to, bytes, draws);
      SentAttemptFares(s, Packet(from, to, bytes), draws(0));
    }
  }

  // -------------------------------------------------------------------------- to a group

  predicate Reachable(s: FabricState, from: NodeId, to: NodeId) {
    PartitionKey(from, to) !in s.partitions && IsPowered(s, to)
  }

  /** Whoever is new in the air is one of the targets that can be reached. */
  ghost predicate OnlyTo(s: FabricState, t: FabricState, from: NodeId, targets: seq<NodeId>, bytes: seq<U8>) {
    forall f :: f in t.inFlight ==>
      f in s.inFlight || (f.packet == Packet(from, f.packet.to, bytes) && f.packet.to in targets && Reachable(s, from, f.packet.to))
  }

  ghost predicate InTheAir(t: FabricState, packet: Packet, number: nat) {
    exists f :: f in t.inFlight && f.packet == packet && f.number >= number
  }

  /** Each target that can be reached, and whose packet is not lost, has its packet in the air. */
  ghost predicate ToEach(s: FabricState, t: FabricState, from: NodeId, targets: seq<NodeId>, bytes: seq<U8>,
                         draws: nat -> Draw) {
    forall k :: 0 <= k < |targets| && Reachable(s, from, targets[k]) && !draws(k).lost ==>
      InTheAir(t, Packet(from, targets[k], bytes), s.nextSeq)
  }

  /** What an attempt leaves in the air. */
  ghost predicate Reaches(s: FabricState, t: FabricState, packet: Packet, d: Draw) {
    && (forall f :: f in s.inFlight ==> f in t.inFlight)
    && (forall f :: f in t.inFlight ==> f in s.inFlight || (f.packet == packet && Reachable(s, packet.from, packet.to)))
    && (Reachable(s, packet.from, packet.to) && !d.lost ==> InTheAir(t, packet, s.nextSeq))
  }

  lemma FaresReaches(s: FabricState, t: FabricState, packet: Packet, d: Draw)
    requires Fares(s, s.stats, t, packet, d)
    ensures Reaches(s, t, packet, d)
  {
    if Reachable(s, packet.from, packet.to) && !d.lost {
      assert Flight(DueAt(s.nowUs, s.faults, d.jitter, d.reordered), s.nextSeq, packet) in t.inFlight;
    }
  }

  /** What the next attempts rest on. */
  ghost predicate GoesOn(s: FabricState, t: FabricState) {
    NetworkLaws.InOrder(t) && t.members == s.members && t.partitions == s.partitions && t.nextSeq >= s.nextSeq
  }

  lemma CopiesGoOn(s: FabricState, u: FabricState, delays: seq<nat>, packet: Packet)
    requires NetworkLaws.InOrder(s) && u == s.(attempts := u.attempts, stats := u.stats)
    ensures GoesOn(s, LaunchedAll(u, delays, packet))
  {
    CountsDoNotMatter(s, u);
    LaunchesKeepOrder(u, delays, packet);
    LaunchesKeepRest(u, delays, packet);
  }

  lemma AttemptGoesOn(s: FabricState, packet: Packet, d: Draw)
    requires NetworkLaws.InOrder(s)
    ensures GoesOn(s, Attempted(s, packet, d))
  {
    if Reachable(s, packet.from, packet.to) {
      CopiesGoOn(s, s.(attempts := s.attempts + 1, stats := Drawn(s.stats, d)), Copies(s.faults, d), packet);
    } else {
      CountsDoNotMatter(s, Attempted(s, packet, d));
    }
  }

  lemma {:induction false} LaunchesKeepRest(s: FabricState, delays: seq<nat>, packet: Packet)
    ensures var t := LaunchedAll(s, delays, packet);
            t.members == s.members && t.partitions == s.partitions && t.nextSeq >= s.nextSeq
  {
    if delays != [] { LaunchesKeepRest(s, delays[..|delays| - 1], packet); }
  }

  lemma {:induction false} AttemptsReach(s: FabricState, from: NodeId, targets: seq<NodeId>, bytes: seq<U8>,
                                         draws: nat -> Draw)
    requires NetworkLaws.InOrder(s)
    ensures var t := AttemptedAll(s, from, targets, bytes, draws);
            && NetworkLaws.InOrder(t) && t.members == s.members && t.partitions == s.partitions && t.nextSeq >= s.nextSeq
            && OnlyTo(s, t, from, targets, bytes) && ToEach(s, t, from, targets, bytes, draws)
  {
    if targets != [] {
      var last := |targets| - 1;
      var u := AttemptedAll(s, from, targets[..last], bytes, draws);
      AttemptsReach(s, from, targets[..last], bytes, draws);
      AttemptFares(u, Packet(from, targets[last], bytes), draws(last));
      FaresReaches(u, AttemptedAll(s, from, targets, bytes, draws), Packet(from, targets[last], bytes), draws(last));
      AttemptGoesOn(u, Packet(from, targets[last], bytes), draws(last));
      OneMoreTarget(s, u, Attempted(u, Packet(from, targets[last], bytes), draws(last)), from, targets, bytes, draws);
    }
  }

  lemma OneMoreTarget(s: FabricState, u: FabricState, t: FabricState, from: NodeId, targets: seq<NodeId>,
                      bytes: seq<U8>, draws: nat -> Draw)
    requires targets != [] && u.members == s.members && u.partitions == s.partitions && u.nextSeq >= s.nextSeq
    requires var last := |targets| - 1;
             && OnlyTo(s, u, from, targets[..last], bytes) && ToEach(s, u, from, targets[..last], bytes, draws)
             && Reaches(u, t, Packet(from, targets[last], bytes), draws(last))
    ensures OnlyTo(s, t, from, targets, bytes) && ToEach(s, t, from, targets, bytes, draws)
  {
    var last := |targets| - 1;
    forall k | 0 <= k < |targets| && Reachable(s, from, targets[k]) && !draws(k).lost
      ensures InTheAir(t, Packet(from, targets[k], bytes), s.nextSeq)
    {
      if k < last {
        assert targets[..last][k] == targets[k];
        var f :| f in u.inFlight && f.packet == Packet(from, targets[k], bytes) && f.number >= s.nextSeq;
      } else {
        var f :| f in t.inFlight && f.packet == Packet(from, targets[last], bytes) && f.number >= u.nextSeq;
      }
    }
  }

  /** Whoever a send puts in the air has power. */
  lemma SendReachesPowered(s: FabricState, from: NodeId, addr: Addr, bytes: seq<U8>, draws: nat -> Draw)
    requires NetworkLaws.InOrder(s)
    ensures var t := AfterSend(s, from, addr, bytes, draws);
            t.members == s.members && forall f :: f in t.inFlight ==> f in s.inFlight || IsPowered(s, f.packet.to)
  {
    if SendError(s, from, bytes).None? && TargetSet(s, from, addr) != {} {
      var u := s.(stats := s.stats.(sent := s.stats.sent + 1));
      CountsDoNotMatter(s, u);
      AttemptsReach(u, from, Targets(s, from, addr), bytes, draws);
    }
  }

  predicate Belongs(s: FabricState, group: Addr, id: NodeId) {
    group in s.groups && id in s.groups[group]
  }

  lemma TargetsAre(s: FabricState, from: NodeId, addr: Addr)
    ensures forall id :: id in Targets(s, from, addr) <==> id in TargetSet(s, from, addr)
  {
  }

  lemma EachTarget(s: FabricState, t: FabricState, from: NodeId, targets: seq<NodeId>, bytes: seq<U8>,
                   draws: nat -> Draw, id: NodeId)
    requires ToEach(s, t, from, targets, bytes, draws) && (forall k :: !draws(k).lost)
    requires id in targets && Reachable(s, from, id)
    ensures InTheAir(t, Packet(from, id, bytes), s.nextSeq)
  {
    var k :| 0 <= k < |targets| && targets[k] == id;
  }

  /** What became of one node's part in a datagram for a group. */
  ghost predicate GroupFares(s: FabricState, t: FabricState, from: NodeId, group: Addr, bytes: seq<U8>,
                             draws: nat -> Draw, id: NodeId) {
    var meant := id != from && Belongs(s, group, id) && Reachable(s, from, id);
    && (forall f :: f in t.inFlight && f !in s.inFlight && f.packet.to == id ==>
          f.packet == Packet(from, id, bytes) && meant)
    && ((forall k :: !draws(k).lost) && meant ==> InTheAir(t, Packet(from, id, bytes), s.nextSeq))
  }

  lemma TargetsFare(s: FabricState, u: FabricState, from: NodeId, group: Addr, bytes: seq<U8>, draws: nat -> Draw,
                    targets: seq<NodeId>, id: NodeId)
    requires NetworkLaws.InOrder(s) && u == s.(stats := u.stats)
    requires id in targets <==> id != from && Belongs(s, group, id)
    ensures GroupFares(s, AttemptedAll(u, from, targets, bytes, draws), from, group, bytes, draws, id)
  {
    CountsDoNotMatter(s, u);
    AttemptsReach(u, from, targets, bytes, draws);
    if (forall k :: !draws(k).lost) && id in targets && Reachable(u, from, id) {
      EachTarget(u, AttemptedAll(u, from, targets, bytes, draws), from, targets, bytes, draws, id);
    }
  }

  /**
   A datagram for a group: new in the air are only packets for its members but the sender, none
   of them cut off or without power; and if no draw is a loss, each such member has one.
   */
  lemma MulticastReaches(s: FabricState, from: NodeId, group: Addr, bytes: seq<U8>, draws: nat -> Draw, id: NodeId)
    requires NetworkLaws.InOrder(s) && group.Multicast? && |bytes| <= MTU && IsPowered(s, from)
    ensures GroupFares(s, AfterSend(s, from, group, bytes, draws), from, group, bytes, draws, id)
  {
    var targets := Targets(s, from, group);
    TargetsAre(s, from, group);
    assert id in TargetSet(s, from, group) <==> id != from && Belongs(s, group, id);
    if TargetSet(s, from, group) != {} {
      TargetsFare(s, s.(stats := s.stats.(sent := s.stats.sent + 1)), from, group, bytes, draws, targets, id);
    }
  }
}
