/**
 The simulated network (net.rs): one fabric shared by every socket, with loss, delay,
 duplication, partitions and power.

 A fault model draws random numbers; here what it draws is a parameter. An address is known
 by its key and whether it is a multicast group. A `BTreeMap` of packets in the air is its
 listing in key order.
 */
module Networks {
  import opened Arith
  import opened Wrappers
  import opened Scenarios
  import OrderedKeys

  const MTU: nat := 1200

  datatype Addr = Unicast(key: nat) | Multicast(key: nat)

  function NodeAddr(id: NodeId): Addr { Unicast(id) }

  datatype Packet = Packet(from: NodeId, to: NodeId, bytes: seq<U8>)

  datatype Member = Member(powered: bool, inbox: seq<Packet>)

  /** A packet in the air, under its key: when it is due, and its number. */
  datatype Flight = Flight(due: U64, number: nat, packet: Packet) {
    predicate Before(other: Flight) { KeyBefore((due, number), (other.due, other.number)) }
  }

  type Key = (nat, nat)

  predicate KeyBefore(a: Key, b: Key) { a.0 < b.0 || (a.0 == b.0 && a.1 < b.1) }

  /** What the fault model draws for one packet. */
  datatype Draw = Draw(lost: bool, jitter: nat, reordered: bool, duplicated: bool, duplicateJitter: nat)

  /** The fabric's counters. They are `u64`s that no run brings to their end. */
  datatype Counters = Counters(
    sent: nat,
    delivered: nat,
    droppedLoss: nat,
    droppedPartition: nat,
    droppedUnreachable: nat,
    duplicated: nat,
    reordered: nat)

  /**
   The whole fabric. `attempts` and `log` are for the statements below: how many deliveries
   were tried, and the keys of the packets delivered, in order.
   */
  datatype FabricState = FabricState(
    nowUs: U64,
    faults: NetFaults,
    members: map<NodeId, Member>,
    byAddr: map<Addr, NodeId>,
    groups: map<Addr, set<NodeId>>,
    inFlight: seq<Flight>,
    nextSeq: nat,
    partitions: set<(NodeId, NodeId)>,
    stats: Counters,
    attempts: nat,
    log: seq<Key>)

  const NO_COUNTS: Counters := Counters(0, 0, 0, 0, 0, 0, 0)

  function Quiet(faults: NetFaults): FabricState {
    FabricState(0, faults, map[], map[], map[], [], 0, {}, NO_COUNTS, 0, [])
  }

  function PartitionKey(a: NodeId, b: NodeId): (NodeId, NodeId) {
    if a <= b then (a, b) else (b, a)
  }

  /** Every link between two sides. */
  function Links(left: seq<NodeId>, right: seq<NodeId>): set<(NodeId, NodeId)> {
    set a, b | a in left && b in right :: PartitionKey(a, b)
  }

  predicate IsPowered(s: FabricState, id: NodeId) {
    id in s.members && s.members[id].powered
  }

  // ------------------------------------------------------------------------- sending

  /** `BTreeMap::insert` on the listing. */
  function Inserted(flights: seq<Flight>, f: Flight): seq<Flight> {
    if flights == [] || f.Before(flights[0]) then [f] + flights
    else if flights[0].Before(f) then [flights[0]] + Inserted(flights[1..], f)
    else [f] + flights[1..]
  }

  function Launched(s: FabricState, delay: nat, packet: Packet): FabricState {
    s.(nextSeq := s.nextSeq + 1,
       inFlight := Inserted(s.inFlight, Flight(AddSat64(s.nowUs, delay), s.nextSeq, packet)))
  }

  /** The delay of a copy; the sums are plain `u64` additions. */
  function Delay(faults: NetFaults, jitter: nat, held: bool): nat {
    (faults.latencyUs + (if faults.jitterUs > 0 then jitter else 0) + (if held then faults.reorderExtraUs else 0))
    % 0x1_0000_0000_0000_0000
  }

  /** The counters after the fault model has decided about one packet. */
  function Drawn(stats: Counters, d: Draw): Counters {
    if d.lost then stats.(droppedLoss := stats.droppedLoss + 1)
    else stats.(reordered := stats.reordered + if d.reordered then 1 else 0,
                duplicated := stats.duplicated + if d.duplicated then 1 else 0)
  }

  /** One delay for each copy that survives. */
  function Copies(faults: NetFaults, d: Draw): seq<nat> {
    if d.lost then []
    else [Delay(faults, d.jitter, d.reordered)] + if d.duplicated then [Delay(faults, d.duplicateJitter, false)] else []
  }

  function LaunchedAll(s: FabricState, delays: seq<nat>, packet: Packet): FabricState {
    if delays == [] then s
    else Launched(LaunchedAll(s, delays[..|delays| - 1], packet), delays[|delays| - 1], packet)
  }

  /** One attempt to send to one target. */
  function Attempted(s: FabricState, packet: Packet, d: Draw): FabricState {
    var t := s.(attempts := s.attempts + 1);
    if PartitionKey(packet.from, packet.to) in s.partitions then
      t.(stats := s.stats.(droppedPartition := s.stats.droppedPartition + 1))
    else if !IsPowered(s, packet.to) then
      t.(stats := s.stats.(droppedUnreachable := s.stats.droppedUnreachable + 1))
    else LaunchedAll(t.(stats := Drawn(s.stats, d)), Copies(s.faults, d), packet)
  }

  function AttemptedAll(s: FabricState, from: NodeId, targets: seq<NodeId>, bytes: seq<U8>,
                        draws: nat -> Draw): FabricState {
    if targets == [] then s
    else
      var last := |targets| - 1;
      Attempted(AttemptedAll(s, from, targets[..last], bytes, draws), Packet(from, targets[last], bytes), draws(last))
  }

  /** Who a datagram is for: a group's members but its sender, or the node at an address. */
  function TargetSet(s: FabricState, from: NodeId, addr: Addr): set<NodeId> {
    if addr.Multicast? then (if addr in s.groups then s.groups[addr] - {from} else {})
    else if addr in s.byAddr then {s.byAddr[addr]}
    else {}
  }

  /** A set of nodes in the order of a `BTreeSet`. */
  ghost function NodesIn(nodes: set<NodeId>): (r: seq<NodeId>)
    ensures r == OrderedKeys.Listing(nodes)
  {
    var r := OrderedKeys.Listing(nodes);
    assert forall i :: 0 <= i < |r| ==> r[i] in r && r[i] in nodes;
    r
  }

  ghost function Targets(s: FabricState, from: NodeId, addr: Addr): seq<NodeId> {
    NodesIn(TargetSet(s, from, addr))
  }

  function SendError(s: FabricState, from: NodeId, bytes: seq<U8>): Option<NetError> {
    if |bytes| > MTU then Some(PayloadTooLarge)
    else if !IsPowered(s, from) then Some(NodeDown)
    else None
  }

  /** A send with no target counts as one attempt, which nobody receives. */
  ghost function AfterSend(s: FabricState, from: NodeId, addr: Addr, bytes: seq<U8>, draws: nat -> Draw): FabricState {
    if SendError(s, from, bytes).Some? then s
    else
      var t := s.(stats := s.stats.(sent := s.stats.sent + 1));
      if TargetSet(s, from, addr) == {} then
        t.(attempts := s.attempts + 1, stats := t.stats.(droppedUnreachable := s.stats.droppedUnreachable + 1))
      else AttemptedAll(t, from, Targets(s, from, addr), bytes, draws)
  }

  // ------------------------------------------------------------------------ delivering

  /** Whether a packet is split off as due: the bound is one past the time, and wraps at its end. */
  predicate IsDue(f: Flight, nowUs: U64) { f.due < if nowUs == U64_MAX then 0 else nowUs + 1 }

  /** The packets due at `nowUs`, or the ones that are not, in key order. */
  function DueOf(flights: seq<Flight>, nowUs: U64, due: bool): seq<Flight> {
    if flights == [] then []
    else (if IsDue(flights[0], nowUs) == due then [flights[0]] else []) + DueOf(flights[1..], nowUs, due)
  }

  function Delivered(s: FabricState, f: Flight): FabricState {
    if !IsPowered(s, f.packet.to) then s.(stats := s.stats.(droppedUnreachable := s.stats.droppedUnreachable + 1))
    else
      var member := s.members[f.packet.to];
      s.(members := s.members[f.packet.to := member.(inbox := member.inbox + [f.packet])],
         stats := s.stats.(delivered := s.stats.delivered + 1),
         log := s.log + [(f.due, f.number)])
  }

  function DeliveredAll(s: FabricState, flights: seq<Flight>): FabricState {
    if flights == [] then s
    else Delivered(DeliveredAll(s, flights[..|flights| - 1]), flights[|flights| - 1])
  }

  function AfterAdvance(s: FabricState, nowUs: U64): FabricState {
    if nowUs < s.nowUs then s
    else
      DeliveredAll(s.(nowUs := nowUs, inFlight := DueOf(s.inFlight, nowUs, false)), DueOf(s.inFlight, nowUs, true))
  }

  // ---------------------------------------------------------------------- other steps

  function AfterAttach(s: FabricState, id: NodeId): FabricState {
    s.(members := s.members[id := Member(true, [])], byAddr := s.byAddr[NodeAddr(id) := id])
  }

  function NotBound(flights: seq<Flight>, id: NodeId): (r: seq<Flight>)
    ensures |r| <= |flights|
  {
    if flights == [] then []
    else (if flights[0].packet.to == id then [] else [flights[0]]) + NotBound(flights[1..], id)
  }

  /** Powering down loses the inbox and every packet in the air towards the node. */
  function AfterPower(s: FabricState, id: NodeId, on: bool): FabricState {
    if id !in s.members then s
    else if on then s.(members := s.members[id := s.members[id].(powered := true)])
    else
      var left := NotBound(s.inFlight, id);
      s.(members := s.members[id := Member(false, [])], inFlight := left,
         stats := s.stats.(droppedUnreachable := s.stats.droppedUnreachable + |s.inFlight| - |left|))
  }

  datatype Received = Nothing | Refused(error: NetError) | Got(bytes: seq<U8>, from: Addr)

  predicate HasMail(s: FabricState, id: NodeId) {
    IsPowered(s, id) && s.members[id].inbox != []
  }

  function AfterRecv(s: FabricState, id: NodeId, room: nat): (FabricState, Received) {
    if !HasMail(s, id) then (s, Nothing)
    else
      var member := s.members[id];
      var packet := member.inbox[0];
      (s.(members := s.members[id := member.(inbox := member.inbox[1..])]),
       if |packet.bytes| > room then Refused(BufferTooSmall) else Got(packet.bytes, NodeAddr(packet.from)))
  }

  function AfterJoin(s: FabricState, id: NodeId, group: Addr): FabricState {
    if !IsPowered(s, id) then s
    else s.(groups := s.groups[group := (if group in s.groups then s.groups[group] else {}) + {id}])
  }

  // ------------------------------------------------------------------------- the fabric

  class Fabric {
    var nowUs: U64
    var faults: NetFaults
    var members: map<NodeId, Member>
    var byAddr: map<Addr, NodeId>
    var groups: map<Addr, set<NodeId>>
    var inFlight: seq<Flight>
    var nextSeq: nat
    var partitions: set<(NodeId, NodeId)>
    var stats: Counters
    ghost var attempts: nat
    ghost var log: seq<Key>

    ghost function State(): FabricState
      reads this
    {
      FabricState(nowUs, faults, members, byAddr, groups, inFlight, nextSeq, partitions, stats, attempts, log)
    }

    constructor (faults: NetFaults)
      ensures State() == Quiet(faults)
    {
      nowUs, this.faults, members, byAddr, groups := 0, faults, map[], map[], map[];
      inFlight, nextSeq, partitions, stats := [], 0, {}, NO_COUNTS;
      attempts, log := 0, [];
    }

    method Attach(id: NodeId)
      modifies this
      ensures State() == AfterAttach(old(State()), id)
    {
      members := members[id := Member(true, [])];
      byAddr := byAddr[NodeAddr(id) := id];
    }

    method SetFaults(faults: NetFaults)
      modifies this`faults
      ensures State() == old(State()).(faults := faults)
    {
      this.faults := faults;
    }

    method Partition(a: NodeId, b: NodeId)
      modifies this`partitions
      ensures State() == old(State()).(partitions := old(partitions) + {PartitionKey(a, b)})
    {
      partitions := partitions + {PartitionKey(a, b)};
    }

    method Heal(a: NodeId, b: NodeId)
      modifies this`partitions
      ensures State() == old(State()).(partitions := old(partitions) - {PartitionKey(a, b)})
    {
      partitions := partitions - {PartitionKey(a, b)};
    }

    method HealAll()
      modifies this`partitions
      ensures State() == old(State()).(partitions := {})
    {
      partitions := {};
    }

    method Split(left: seq<NodeId>, right: seq<NodeId>)
      modifies this`partitions
      ensures State() == old(State()).(partitions := old(partitions) + Links(left, right))
    {
      for i := 0 to |left|
        invariant partitions == old(partitions) + Links(left[..i], right)
      {
        assert left[..i + 1] == left[..i] + [left[i]];
        ghost var before := partitions;
        for j := 0 to |right|
          invariant partitions == before + Links([left[i]], right[..j])
        {
          assert right[..j + 1] == right[..j] + [right[j]];
          Partition(left[i], right[j]);
        }
        assert right[..|right|] == right;
        assert Links(left[..i + 1], right) == Links(left[..i], right) + Links([left[i]], right);
      }
      assert left[..|left|] == left;
    }

    method SetPowered(id: NodeId, on: bool)
      modifies this
      ensures State() == AfterPower(old(State()), id, on)
    {
      if id !in members {
        return;
      }
      members := members[id := members[id].(powered := on)];
      if on {
        return;
      }
      members := members[id := Member(false, [])];
      var kept := NotBound(inFlight, id);
      stats := stats.(droppedUnreachable := stats.droppedUnreachable + (|inFlight| - |kept|));
      inFlight := kept;
    }

    method AdvanceTo(nowUs: U64)
      modifies this
      ensures State() == AfterAdvance(old(State()), nowUs)
    {
      if nowUs < this.nowUs {
        return;
      }
      this.nowUs := nowUs;
      var due := DueOf(inFlight, nowUs, true);
      inFlight := DueOf(inFlight, nowUs, false);
      ghost var start := State();
      for k := 0 to |due|
        invariant State() == DeliveredAll(start, due[..k])
      {
        assert due[..k + 1][..k] == due[..k];
        Deliver(due[k]);
      }
      assert due[..|due|] == due;
    }

    method Deliver(f: Flight)
      modifies this`members, this`stats, this`log
      ensures State() == Delivered(old(State()), f)
    {
      var packet := f.packet;
      if packet.to !in members || !members[packet.to].powered {
        stats := stats.(droppedUnreachable := stats.droppedUnreachable + 1);
        return;
      }
      members := members[packet.to := members[packet.to].(inbox := members[packet.to].inbox + [packet])];
      stats := stats.(delivered := stats.delivered + 1);
      log := log + [(f.due, f.number)];
    }

    method SendTo(from: NodeId, addr: Addr, bytes: seq<U8>, draws: nat -> Draw) returns (error: Option<NetError>)
      modifies this
      ensures State() == AfterSend(old(State()), from, addr, bytes, draws)
      ensures error == SendError(old(State()), from, bytes)
    {
      if |bytes| > MTU {
        return Some(PayloadTooLarge);
      }
      if !(from in members && members[from].powered) {
        return Some(NodeDown);
      }
      stats := stats.(sent := stats.sent + 1);
      var to := {};
      if addr.Multicast? {
        if addr in groups { to := groups[addr] - {from}; }
      } else {
        if addr in byAddr { to := {byAddr[addr]}; }
      }
      if to == {} {
        stats := stats.(droppedUnreachable := stats.droppedUnreachable + 1);
        attempts := attempts + 1;
        return None;
      }
      var targets := InOrder(to);
      AttemptAll(from, targets, bytes, draws);
      return None;
    }

    method AttemptAll(from: NodeId, targets: seq<NodeId>, bytes: seq<U8>, draws: nat -> Draw)
      modifies this
      ensures State() == AttemptedAll(old(State()), from, targets, bytes, draws)
    {
      for k := 0 to |targets|
        invariant State() == AttemptedAll(old(State()), from, targets[..k], bytes, draws)
      {
        assert targets[..k + 1][..k] == targets[..k];
        Attempt(Packet(from, targets[k], bytes), draws(k));
      }
      assert targets[..|targets|] == targets;
    }

    method Attempt(packet: Packet, d: Draw)
      modifies this
      ensures State() == Attempted(old(State()), packet, d)
    {
      attempts := attempts + 1;
      if PartitionKey(packet.from, packet.to) in partitions {
        stats := stats.(droppedPartition := stats.droppedPartition + 1);
        return;
      }
      if !(packet.to in members && members[packet.to].powered) {
        stats := stats.(droppedUnreachable := stats.droppedUnreachable + 1);
        return;
      }
      var copies := ScheduleCopies(d);
      ghost var start := State();
      for k := 0 to |copies|
        invariant State() == LaunchedAll(start, copies[..k], packet)
      {
        assert copies[..k + 1][..k] == copies[..k];
        inFlight := Inserted(inFlight, Flight(AddSat64(nowUs, copies[k]), nextSeq, packet));
        nextSeq := nextSeq + 1;
      }
      assert copies[..|copies|] == copies;
    }

    /** Whether a datagram survives, and how late each copy is. */
    method ScheduleCopies(d: Draw) returns (copies: seq<nat>)
      modifies this`stats
      ensures stats == Drawn(old(stats), d) && copies == Copies(faults, d)
    {
      if d.lost {
        stats := stats.(droppedLoss := stats.droppedLoss + 1);
        return [];
      }
      copies := [Delay(faults, d.jitter, d.reordered)];
      if d.reordered {
        stats := stats.(reordered := stats.reordered + 1);
      }
      if d.duplicated {
        copies := copies + [Delay(faults, d.duplicateJitter, false)];
        stats := stats.(duplicated := stats.duplicated + 1);
      }
    }

    method Recv(id: NodeId, room: nat) returns (r: Received)
      modifies this`members
      ensures (State(), r) == AfterRecv(old(State()), id, room)
    {
      if id !in members {
        return Nothing;
      }
      var member := members[id];
      if !member.powered || member.inbox == [] {
        return Nothing;
      }
      var packet := member.inbox[0];
      members := members[id := member.(inbox := member.inbox[1..])];
      if |packet.bytes| > room {
        return Refused(BufferTooSmall);
      }
      return Got(packet.bytes, NodeAddr(packet.from));
    }

    method JoinMulticast(id: NodeId, group: Addr) returns (error: Option<NetError>)
      modifies this`groups
      ensures State() == AfterJoin(old(State()), id, group)
      ensures error == if IsPowered(State(), id) then None else Some(NodeDown)
    {
      if !(id in members && members[id].powered) {
        return Some(NodeDown);
      }
      groups := groups[group := (if group in groups then groups[group] else {}) + {id}];
      return None;
    }
  }

  method InOrder(nodes: set<NodeId>) returns (r: seq<NodeId>)
    ensures r == NodesIn(nodes)
  {
    var keys := OrderedKeys.Ordered(nodes);
    OrderedKeys.AscendingIsUnique(keys, OrderedKeys.Listing(nodes));
    assert forall i :: 0 <= i < |keys| ==> keys[i] in keys && keys[i] in nodes;
    r := keys;
  }
}
