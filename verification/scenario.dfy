/** What a run of the simulator is given (scenario.rs, and the fault model of net.rs). */
module Scenarios {
  import opened Arith

  type NodeId = U16

  datatype NetFaults = NetFaults(
    lossPermille: U16,
    latencyUs: U64,
    jitterUs: U64,
    reorderPermille: U16,
    reorderExtraUs: U64,
    duplicatePermille: U16)

  const PERFECT: NetFaults := NetFaults(0, 0, 0, 0, 0, 0)

  datatype NetStats = NetStats(
    sent: U64,
    delivered: U64,
    droppedLoss: U64,
    droppedPartition: U64,
    droppedUnreachable: U64,
    duplicated: U64,
    reordered: U64)

  const NOTHING_YET: NetStats := NetStats(0, 0, 0, 0, 0, 0, 0)

  datatype NetError = NodeDown | PayloadTooLarge | BufferTooSmall

  datatype NodeSpec = NodeSpec(id: NodeId, pixelCount: U64, skewUs: I64, driftPpm: I32, storageCapacity: U64)

  /** Well-formed UTF-8, by the byte ranges of section 4 of RFC 3629. */
  predicate IsUtf8(b: seq<U8>) {
    b == [] ||
    (if b[0] <= 0x7F then IsUtf8(b[1..])
     else if 0xC2 <= b[0] <= 0xDF then |b| >= 2 && IsTail(b[1]) && IsUtf8(b[2..])
     else if 0xE0 <= b[0] <= 0xEF then
       && |b| >= 3 && IsTail(b[1]) && IsTail(b[2])
       && (b[0] == 0xE0 ==> b[1] >= 0xA0) && (b[0] == 0xED ==> b[1] <= 0x9F)
       && IsUtf8(b[3..])
     else
       && 0xF0 <= b[0] <= 0xF4 && |b| >= 4 && IsTail(b[1]) && IsTail(b[2]) && IsTail(b[3])
       && (b[0] == 0xF0 ==> b[1] >= 0x90) && (b[0] == 0xF4 ==> b[1] <= 0x8F)
       && IsUtf8(b[4..]))
  }

  predicate IsTail(b: U8) { 0x80 <= b <= 0xBF }

  /** A Rust `String`, as its bytes. */
  type Utf8 = b: seq<U8> | IsUtf8(b)

  /** A `Vec` of node ids: its length fits in a `usize`. */
  type NodeIds = s: seq<NodeId> | |s| <= U64_MAX

  datatype Op =
    | Tick(node: NodeId)
    | Send(from: NodeId, to: NodeId, bytes: seq<U8>)
    | Multicast(from: NodeId, group: U8, bytes: seq<U8>)
    | Join(node: NodeId, group: U8)
    | Kill(node: NodeId)
    | Revive(node: NodeId, wipeStorage: bool)
    | Partition(a: NodeId, b: NodeId)
    | Heal(a: NodeId, b: NodeId)
    | HealAll
    | Split(left: NodeIds, right: NodeIds)
    | SetFaults(faults: NetFaults)
    | Skew(node: NodeId, offsetUs: I64)
    | Drift(node: NodeId, ppm: I32)
    | Discipline(node: NodeId, offsetUs: I64)
    | Present(node: NodeId, level: U16)
    | Store(node: NodeId, key: Utf8, value: seq<U8>)
    | Erase(node: NodeId, key: Utf8)

  /** The name of an operation's kind (world.rs). */
  function OpTag(op: Op): string {
    match op
    case Tick(_) => "tick"
    case Send(_, _, _) => "send"
    case Multicast(_, _, _) => "multicast"
    case Join(_, _) => "join"
    case Kill(_) => "kill"
    case Revive(_, _) => "revive"
    case Partition(_, _) => "partition"
    case Heal(_, _) => "heal"
    case HealAll => "heal_all"
    case Split(_, _) => "split"
    case SetFaults(_) => "set_faults"
    case Skew(_, _) => "skew"
    case Drift(_, _) => "drift"
    case Discipline(_, _) => "discipline"
    case Present(_, _) => "present"
    case Store(_, _, _) => "store"
    case Erase(_, _) => "erase"
  }

  datatype ScriptedOp = ScriptedOp(atUs: U64, op: Op)

  datatype Scenario = Scenario(seed: U64, durationUs: U64, nodes: seq<NodeSpec>, faults: NetFaults, script: seq<ScriptedOp>)
}
