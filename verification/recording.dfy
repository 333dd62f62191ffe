/**
 Recordings (record.rs): a run and what happened in it, written as lines of words and read
 back. The parser's token iterator is the words of a line and a position in them.
 */
module Recordings {
  import opened Arith
  import opened Growing
  import opened Text
  import opened Numerals
  import opened Scenarios
  import Elections
  import OrderedKeys

  type Prefix = b: seq<U8> | |b| == 4 witness [0, 0, 0, 0]

  type Role = Elections.Role

  datatype Destination = Mesh | Peer(prefix: Prefix)

  datatype Transport = Datagram | Reliable

  datatype Action =
    | SetTimer(inUs: U64)
    | Sending(to: Destination, datagram: seq<U8>, transport: Transport)
    | DisciplineClock(offsetUs: I64)
    | RoleChanged(role: Role, epoch: U32)
    | SyncLost
    | SyncAcquired

  datatype EventKind =
    | TickEvent
    | DatagramEvent(len: U64)
    | PeerDiscovered(prefix: Prefix)
    | PeerLost(prefix: Prefix)

  datatype StorageError = ValueTooLong | Full | BufferTooSmall

  datatype LedError = WrongPixelCount | PoweredOff

  datatype TraceKind =
    | Applied(tag: string)
    | Event(event: EventKind)
    | Acted(action: Action)
    | Rx(from: NodeId, len: U64, digest: U64)
    | FrameShown(digest: U64)
    | NetRefused(netError: NetError)
    | StoreRefused(storageError: StorageError)
    | LedRefused(ledError: LedError)

  datatype TraceEntry = TraceEntry(atUs: U64, node: NodeId, kind: TraceKind)

  datatype RunReport = RunReport(
    trace: seq<TraceEntry>,
    stats: NetStats,
    endUs: U64,
    frames: map<NodeId, (U64, U64)>)

  datatype Recording = Recording(scenario: Scenario, report: RunReport)

  const FORMAT_VERSION: nat := 1
  const HEADER: string := "lumen-sim-recording"

  // ------------------------------------------------------------------------- writing

  function FaultWords(f: NetFaults): seq<string> {
    [DecimalInt(f.lossPermille), DecimalInt(f.latencyUs), DecimalInt(f.jitterUs),
     DecimalInt(f.reorderPermille), DecimalInt(f.reorderExtraUs), DecimalInt(f.duplicatePermille)]
  }

  function IdWords(ids: seq<NodeId>): seq<string> {
    if ids == [] then [] else IdWords(ids[..|ids| - 1]) + [DecimalInt(ids[|ids| - 1])]
  }

  function OpWords(op: Op): seq<string> { [OpTag(op)] + OpFields(op) }

  function OpFields(op: Op): seq<string> {
    match op
    case Tick(node) => [DecimalInt(node)]
    case Send(from, to, bytes) => [DecimalInt(from), DecimalInt(to), ToHex(bytes)]
    case Multicast(from, group, bytes) => [DecimalInt(from), DecimalInt(group), ToHex(bytes)]
    case Join(node, group) => [DecimalInt(node), DecimalInt(group)]
    case Kill(node) => [DecimalInt(node)]
    case Revive(node, wipeStorage) => [DecimalInt(node), DecimalInt(if wipeStorage then 1 else 0)]
    case Partition(a, b) => [DecimalInt(a), DecimalInt(b)]
    case Heal(a, b) => [DecimalInt(a), DecimalInt(b)]
    case HealAll => []
    case Split(left, right) => [DecimalInt(|left|)] + IdWords(left) + [DecimalInt(|right|)] + IdWords(right)
    case SetFaults(faults) => FaultWords(faults)
    case Skew(node, offsetUs) => [DecimalInt(node), DecimalInt(offsetUs)]
    case Drift(node, ppm) => [DecimalInt(node), DecimalInt(ppm)]
    case Discipline(node, offsetUs) => [DecimalInt(node), DecimalInt(offsetUs)]
    case Present(node, level) => [DecimalInt(node), DecimalInt(level)]
    case Store(node, key, value) => [DecimalInt(node), ToHex(key), ToHex(value)]
    case Erase(node, key) => [DecimalInt(node), ToHex(key)]
  }

  function RoleName(role: Role): string {
    match role
    case Follower => "follower"
    case Candidate => "candidate"
    case Leader => "leader"
  }

  function ActionWords(action: Action): seq<string> {
    match action
    case SetTimer(inUs) => ["set_timer", DecimalInt(inUs)]
    case Sending(to, datagram, transport) =>
      ["send",
       (match to case Mesh => "mesh" case Peer(prefix) => ToHex(prefix)),
       (match transport case Datagram => "datagram" case Reliable => "reliable"),
       ToHex(datagram)]
    case DisciplineClock(offsetUs) => ["discipline", DecimalInt(offsetUs)]
    case RoleChanged(role, epoch) => ["role", RoleName(role), DecimalInt(epoch)]
    case SyncLost => ["sync_lost"]
    case SyncAcquired => ["sync_acquired"]
  }

  function EventWords(event: EventKind): seq<string> {
    match event
    case TickEvent => ["tick"]
    case DatagramEvent(len) => ["datagram", DecimalInt(len)]
    case PeerDiscovered(prefix) => ["peer_up", ToHex(prefix)]
    case PeerLost(prefix) => ["peer_down", ToHex(prefix)]
  }

  function NetErrorTag(e: NetError): string {
    match e
    case NodeDown => "node_down"
    case PayloadTooLarge => "payload_too_large"
    case BufferTooSmall => "buffer_too_small"
  }

  function StorageErrorTag(e: StorageError): string {
    match e
    case ValueTooLong => "value_too_long"
    case Full => "full"
    case BufferTooSmall => "buffer_too_small"
  }

  function LedErrorTag(e: LedError): string {
    match e
    case WrongPixelCount => "wrong_pixel_count"
    case PoweredOff => "powered_off"
  }

  function TraceWords(kind: TraceKind): seq<string> {
    match kind
    case Applied(tag) => ["op", tag]
    case Event(event) => ["event"] + EventWords(event)
    case Acted(action) => ["action"] + ActionWords(action)
    case Rx(from, len, digest) => ["rx", DecimalInt(from), DecimalInt(len), HexDigits(digest, 16)]
    case FrameShown(digest) => ["frame", HexDigits(digest, 16)]
    case NetRefused(e) => ["net_err", NetErrorTag(e)]
    case StoreRefused(e) => ["store_err", StorageErrorTag(e)]
    case LedRefused(e) => ["led_err", LedErrorTag(e)]
  }

  function NodeLine(n: NodeSpec): seq<string> {
    ["node", DecimalInt(n.id), DecimalInt(n.pixelCount), DecimalInt(n.skewUs), DecimalInt(n.driftPpm),
     DecimalInt(n.storageCapacity)]
  }

  function OpLine(s: ScriptedOp): seq<string> {
    ["op", DecimalInt(s.atUs)] + OpWords(s.op)
  }

  function StatsLine(s: NetStats): seq<string> {
    ["stats", DecimalInt(s.sent), DecimalInt(s.delivered), DecimalInt(s.droppedLoss), DecimalInt(s.droppedPartition),
     DecimalInt(s.droppedUnreachable), DecimalInt(s.duplicated), DecimalInt(s.reordered)]
  }

  function FramesLine(node: nat, shown: (U64, U64)): seq<string> {
    ["frames", DecimalInt(node), DecimalInt(shown.0), HexDigits(shown.1, 16)]
  }

  function TraceLine(e: TraceEntry): seq<string> {
    ["trace", DecimalInt(e.atUs), DecimalInt(e.node)] + TraceWords(e.kind)
  }

  function NodeLines(nodes: seq<NodeSpec>): seq<seq<string>> {
    if nodes == [] then [] else NodeLines(nodes[..|nodes| - 1]) + [NodeLine(nodes[|nodes| - 1])]
  }

  function OpLines(script: seq<ScriptedOp>): seq<seq<string>> {
    if script == [] then [] else OpLines(script[..|script| - 1]) + [OpLine(script[|script| - 1])]
  }

  function FramesLines(frames: map<NodeId, (U64, U64)>, keys: seq<nat>): seq<seq<string>>
    requires forall k :: k in keys ==> k in frames
  {
    if keys == [] then []
    else
      var last := |keys| - 1;
      FramesLines(frames, keys[..last]) + [FramesLine(keys[last], frames[keys[last]])]
  }

  function TraceLines(trace: seq<TraceEntry>): seq<seq<string>> {
    if trace == [] then [] else TraceLines(trace[..|trace| - 1]) + [TraceLine(trace[|trace| - 1])]
  }

  function HeadLines(s: Scenario): seq<seq<string>> {
    [[HEADER, DecimalInt(FORMAT_VERSION)], ["seed", DecimalInt(s.seed)], ["duration_us", DecimalInt(s.durationUs)],
     ["faults"] + FaultWords(s.faults)]
  }

  function MiddleLines(r: RunReport): seq<seq<string>> {
    [["end", DecimalInt(r.endUs)], StatsLine(r.stats)]
  }

  /** The words of every line of the text form; `BTreeMap` visits its keys in order. */
  ghost function RecordingLines(r: Recording): seq<seq<string>> {
    HeadLines(r.scenario) + NodeLines(r.scenario.nodes) + OpLines(r.scenario.script) + MiddleLines(r.report)
    + FramesLines(r.report.frames, OrderedKeys.Listing(r.report.frames.Keys)) + TraceLines(r.report.trace)
  }

  function Printed(lines: seq<seq<string>>): string {
    if lines == [] then "" else Printed(lines[..|lines| - 1]) + Text.Join(lines[|lines| - 1]) + "\n"
  }

  method OpToText(op: Op) returns (s: string)
    ensures s == Text.Join(OpWords(op))
  {
    if op.Split? {
      s := SplitToText(op.left, op.right);
      SplitOpWords(op);
    } else {
      s := Text.Join(OpWords(op));
    }
  }

  lemma SplitOpWords(op: Op)
    requires op.Split?
    ensures OpWords(op) == ["split", DecimalInt(|op.left|)] + IdWords(op.left) + [DecimalInt(|op.right|)] + IdWords(op.right)
  {
    var w := [DecimalInt(|op.left|)] + IdWords(op.left);
    assert ["split"] + w == ["split", DecimalInt(|op.left|)] + IdWords(op.left);
    assert OpFields(op) == w + [DecimalInt(|op.right|)] + IdWords(op.right);
    assert ["split"] + (w + [DecimalInt(|op.right|)] + IdWords(op.right))
           == (["split"] + w) + [DecimalInt(|op.right|)] + IdWords(op.right);
  }

  method SplitToText(left: NodeIds, right: NodeIds) returns (s: string)
    ensures s == Text.Join(["split", DecimalInt(|left|)] + IdWords(left) + [DecimalInt(|right|)] + IdWords(right))
  {
    ghost var words := ["split", DecimalInt(|left|)];
    s := AppendIds("split " + DecimalInt(|left|), left, words);
    words := words + IdWords(left);
    JoinSnoc(words, DecimalInt(|right|));
    s := AppendIds(s + " " + DecimalInt(|right|), right, words + [DecimalInt(|right|)]);
  }

  method AppendIds(start: string, ids: seq<NodeId>, ghost words: seq<string>) returns (s: string)
    requires words != [] && start == Text.Join(words)
    ensures s == Text.Join(words + IdWords(ids))
  {
    s := start;
    assert words + IdWords(ids[..0]) == words;
    for k := 0 to |ids|
      invariant s == Text.Join(words + IdWords(ids[..k]))
    {
      assert ids[..k + 1][..k] == ids[..k];
      JoinSnoc(words + IdWords(ids[..k]), DecimalInt(ids[k]));
      assert words + IdWords(ids[..k + 1]) == words + IdWords(ids[..k]) + [DecimalInt(ids[k])];
      s := s + " " + DecimalInt(ids[k]);
    }
    assert ids[..|ids|] == ids;
  }

  lemma {:induction false} JoinSnoc(words: seq<string>, w: string)
    requires words != []
    ensures Text.Join(words + [w]) == Text.Join(words) + " " + w
  {
    if |words| > 1 {
      JoinSnoc(words[1..], w);
      assert (words + [w])[1..] == words[1..] + [w];
    } else {
      assert (words + [w])[1..] == [w];
    }
  }

  lemma {:induction false} JoinAppend(a: seq<string>, b: seq<string>)
    requires a != [] && b != []
    ensures Text.Join(a + b) == Text.Join(a) + " " + Text.Join(b)
  {
    if |a| == 1 {
      assert (a + b)[1..] == b;
    } else {
      JoinAppend(a[1..], b);
      assert (a + b)[1..] == a[1..] + b;
    }
  }

  lemma PrintedSnoc(lines: seq<seq<string>>, words: seq<string>)
    ensures Printed(lines + [words]) == Printed(lines) + Text.Join(words) + "\n"
  {
    assert (lines + [words])[..|lines|] == lines;
  }

  method WriteText(out: string, text: string, ghost words: seq<string>, ghost lines: seq<seq<string>>)
    returns (r: string, ghost after: seq<seq<string>>)
    requires out == Printed(lines) && text == Text.Join(words)
    ensures r == Printed(after) && after == lines + [words]
  {
    PrintedSnoc(lines, words);
    after := lines + [words];
    r := out + text + "\n";
  }

  method WriteWords(out: string, words: seq<string>, ghost lines: seq<seq<string>>) returns (r: string,
                    ghost after: seq<seq<string>>)
    requires out == Printed(lines)
    ensures r == Printed(after) && after == lines + [words]
  {
    r, after := WriteText(out, Text.Join(words), words, lines);
  }

  method ToText(r: Recording) returns (out: string)
    ensures out == Printed(RecordingLines(r))
  {
    ghost var lines: seq<seq<string>>;
    out, lines := WriteHead(r.scenario);
    out, lines := WriteNodes(out, r.scenario.nodes, lines);
    out, lines := WriteScript(out, r.scenario.script, lines);
    ghost var before := lines;
    out, lines := WriteWords(out, ["end", DecimalInt(r.report.endUs)], lines);
    out, lines := WriteWords(out, StatsLine(r.report.stats), lines);
    assert lines == before + MiddleLines(r.report);
    out, lines := WriteFrames(out, r.report.frames, lines);
    out, lines := WriteTrace(out, r.report.trace, lines);
  }

  method WriteHead(s: Scenario) returns (out: string, ghost lines: seq<seq<string>>)
    ensures out == Printed(lines) && lines == HeadLines(s)
  {
    out, lines := WriteWords("", [HEADER, DecimalInt(FORMAT_VERSION)], []);
    out, lines := WriteWords(out, ["seed", DecimalInt(s.seed)], lines);
    out, lines := WriteWords(out, ["duration_us", DecimalInt(s.durationUs)], lines);
    out, lines := WriteWords(out, ["faults"] + FaultWords(s.faults), lines);
  }

  method WriteNodes(start: string, nodes: seq<NodeSpec>, ghost before: seq<seq<string>>)
    returns (out: string, ghost lines: seq<seq<string>>)
    requires start == Printed(before)
    ensures out == Printed(lines) && lines == before + NodeLines(nodes)
  {
    out, lines := start, before;
    for k := 0 to |nodes|
      invariant out == Printed(lines) && lines == before + NodeLines(nodes[..k])
    {
      assert nodes[..k + 1][..k] == nodes[..k];
      AppendSnoc(before, NodeLines(nodes[..k]), NodeLine(nodes[k]));
      out, lines := WriteWords(out, NodeLine(nodes[k]), lines);
    }
    assert nodes[..|nodes|] == nodes;
  }

  method WriteScript(start: string, script: seq<ScriptedOp>, ghost before: seq<seq<string>>)
    returns (out: string, ghost lines: seq<seq<string>>)
    requires start == Printed(before)
    ensures out == Printed(lines) && lines == before + OpLines(script)
  {
    out, lines := start, before;
    for k := 0 to |script|
      invariant out == Printed(lines) && lines == before + OpLines(script[..k])
    {
      assert script[..k + 1][..k] == script[..k];
      AppendSnoc(before, OpLines(script[..k]), OpLine(script[k]));
      var op := OpToText(script[k].op);
      var at := ["op", DecimalInt(script[k].atUs)];
      JoinAppend(at, OpWords(script[k].op));
      out, lines := WriteText(out, Text.Join(at) + " " + op, OpLine(script[k]), lines);
    }
    assert script[..|script|] == script;
  }

  method WriteFrames(start: string, frames: map<NodeId, (U64, U64)>, ghost before: seq<seq<string>>)
    returns (out: string, ghost lines: seq<seq<string>>)
    requires start == Printed(before)
    ensures out == Printed(lines) && lines == before + FramesLines(frames, OrderedKeys.Listing(frames.Keys))
  {
    out, lines := start, before;
    var keys := OrderedKeys.Ordered(frames.Keys);
    for k := 0 to |keys|
      invariant out == Printed(lines) && lines == before + FramesLines(frames, keys[..k])
    {
      assert keys[..k + 1][..k] == keys[..k];
      assert keys[k] in keys;
      AppendSnoc(before, FramesLines(frames, keys[..k]), FramesLine(keys[k], frames[keys[k]]));
      out, lines := WriteWords(out, FramesLine(keys[k], frames[keys[k]]), lines);
    }
    assert keys[..|keys|] == keys;
    OrderedKeys.AscendingIsUnique(keys, OrderedKeys.Listing(frames.Keys));
  }

  method WriteTrace(start: string, trace: seq<TraceEntry>, ghost before: seq<seq<string>>)
    returns (out: string, ghost lines: seq<seq<string>>)
    requires start == Printed(before)
    ensures out == Printed(lines) && lines == before + TraceLines(trace)
  {
    out, lines := start, before;
    for k := 0 to |trace|
      invariant out == Printed(lines) && lines == before + TraceLines(trace[..k])
    {
      assert trace[..k + 1][..k] == trace[..k];
      AppendSnoc(before, TraceLines(trace[..k]), TraceLine(trace[k]));
      out, lines := WriteWords(out, TraceLine(trace[k]), lines);
    }
    assert trace[..|trace|] == trace;
  }
}
