/**
 The parser of recordings (record.rs, from_text). The source hands the number of the line
 down to whatever may fail; here it joins the problem where a line's parse ends.
 */
module RecordingParser {
  import opened Arith
  import opened Wrappers
  import opened Text
  import opened Numerals
  import opened Scenarios
  import opened Recordings
  import Elections

  /**
   What is wrong with a line; the source says the same in a message, or panics where a pair of
   bytes would split a character.
   */
  datatype Problem =
    | Missing(what: string)
    | Bad(what: string, word: string)
    | Unknown(what: string, word: string)
    | OddHex
    | BadHex(word: string)
    | Panics(word: string)
    | NotUtf8(what: string)
    | NotFourBytes
    | WrongVersion(version: nat)

  datatype ParseError = ParseError(line: nat, problem: Problem)

  /** What was read from the words of a line, and the place of the next one. */
  datatype Parse<+T> = Parsed(value: T, at: nat) | Failed(problem: Problem) {
    predicate IsFailure() { Failed? }

    function PropagateFailure<U>(): Parse<U>
      requires Failed?
    {
      Failed(problem)
    }

    function Extract(): (T, nat)
      requires Parsed?
    {
      (value, at)
    }
  }

  type Words = seq<string>

  function NextWord(t: Words, at: nat, what: string): Parse<string> {
    if at < |t| then Parsed(t[at], at + 1) else Failed(Missing(what))
  }

  function Num(t: Words, at: nat, what: string, min: int, max: int): (r: Parse<int>)
    ensures r.Parsed? ==> min <= r.value <= max
  {
    var (word, at) :- NextWord(t, at, what);
    var v := ParseInt(word, 10, min, max);
    if v.Some? then Parsed(v.value, at) else Failed(Bad(what, word))
  }

  function NumU8(t: Words, at: nat, what: string): Parse<U8> { Num(t, at, what, 0, U8_MAX) }

  function NumU16(t: Words, at: nat, what: string): Parse<U16> { Num(t, at, what, 0, U16_MAX) }

  function NumU32(t: Words, at: nat, what: string): Parse<U32> { Num(t, at, what, 0, U32_MAX) }

  function NumU64(t: Words, at: nat, what: string): Parse<U64> { Num(t, at, what, 0, U64_MAX) }

  function NumI32(t: Words, at: nat, what: string): Parse<I32> {
    Num(t, at, what, -0x8000_0000, 0x7FFF_FFFF)
  }

  function NumI64(t: Words, at: nat, what: string): Parse<I64> {
    Num(t, at, what, -0x8000_0000_0000_0000, 0x7FFF_FFFF_FFFF_FFFF)
  }

  function HexU64(t: Words, at: nat, what: string): Parse<U64> {
    var (word, at) :- NextWord(t, at, what);
    var v := ParseInt(word, 16, 0, U64_MAX);
    if v.Some? then Parsed(v.value, at) else Failed(Bad(what, word))
  }

  predicate IsAscii(word: string) {
    forall c :: c in word ==> c < '\U{80}'
  }

  function Utf8Size(c: char): nat {
    if c < '\U{80}' then 1 else if c < '\U{800}' then 2 else if c < '\U{10000}' then 3 else 4
  }

  function Utf8Length(word: string): (n: nat)
    ensures IsAscii(word) ==> n == |word|
  {
    if word == [] then 0
    else
      assert word[0] in word && forall c :: c in word[1..] ==> c in word;
      Utf8Size(word[0]) + Utf8Length(word[1..])
  }

  /** Whether cutting the word into pairs of bytes reaches one that splits a character. */
  predicate SplitsCharacter(word: string)
    decreases |word|
  {
    if word == [] then false
    else if Utf8Size(word[0]) > 1 then Utf8Size(word[0]) > 2
    else if |word| == 1 then false
    else if Utf8Size(word[1]) > 1 then true
    else PairValue(word[..2], true).Some? && SplitsCharacter(word[2..])
  }

  /**
   A byte string from its word; `signs` where pairs are read with `from_str_radix`, each cut out
   of the text before it is read.
   */
  function ReadHex(word: string, signs: bool): Parse<seq<U8>> {
    if word == EMPTY then Parsed([], 0)
    else if Utf8Length(word) % 2 != 0 then Failed(OddHex)
    else if signs && SplitsCharacter(word) then Failed(Panics(word))
    else if !IsAscii(word) then Failed(BadHex(word))
    else
      var bytes := PairValues(word, signs);
      if bytes.Some? then Parsed(bytes.value, 0) else Failed(BadHex(word))
  }

  function Bytes(t: Words, at: nat, what: string, signs: bool): Parse<seq<U8>> {
    var (word, at) :- NextWord(t, at, what);
    var (bytes, _) :- ReadHex(word, signs);
    Parsed(bytes, at)
  }

  function TextField(t: Words, at: nat, what: string): Parse<Utf8> {
    var (bytes, at) :- Bytes(t, at, what, true);
    if IsUtf8(bytes) then Parsed(bytes, at) else Failed(NotUtf8(what))
  }

  function ReadPrefix(word: string): Parse<Prefix> {
    var (bytes, _) :- ReadHex(word, false);
    if |bytes| == 4 then Parsed(bytes, 0) else Failed(NotFourBytes)
  }

  function PrefixField(t: Words, at: nat): Parse<Prefix> {
    var (word, at) :- NextWord(t, at, "prefix");
    var (prefix, _) :- ReadPrefix(word);
    Parsed(prefix, at)
  }

  function Repeated(t: Words, at: nat, what: string, count: nat): (r: Parse<seq<NodeId>>)
    ensures r.Parsed? ==> |r.value| == count
    decreases count
  {
    if count == 0 then Parsed([], at)
    else
      var (id, at) :- NumU16(t, at, what);
      var (rest, at) :- Repeated(t, at, what, count - 1);
      Parsed([id] + rest, at)
  }

  function Ids(t: Words, at: nat, what: string): Parse<NodeIds> {
    var (count, at) :- NumU64(t, at, what);
    var (ids, at) :- Repeated(t, at, what, count);
    Parsed(ids, at)
  }

  function Faults(t: Words, at: nat): Parse<NetFaults> {
    var (loss, at) :- NumU16(t, at, "loss_permille");
    var (latency, at) :- NumU64(t, at, "latency_us");
    var (jitter, at) :- NumU64(t, at, "jitter_us");
    var (reorder, at) :- NumU16(t, at, "reorder_permille");
    var (extra, at) :- NumU64(t, at, "reorder_extra_us");
    var (duplicate, at) :- NumU16(t, at, "duplicate_permille");
    Parsed(NetFaults(loss, latency, jitter, reorder, extra, duplicate), at)
  }

  function ParseOp(t: Words, at: nat): Parse<Op> {
    var (tag, at) :- NextWord(t, at, "op tag");
    if tag == "tick" then
      var (node, at) :- NumU16(t, at, "node");
      Parsed(Tick(node), at)
    else if tag == "send" then
      var (from, at) :- NumU16(t, at, "from");
      var (to, at) :- NumU16(t, at, "to");
      var (bytes, at) :- Bytes(t, at, "bytes", true);
      Parsed(Send(from, to, bytes), at)
    else if tag == "multicast" then
      var (from, at) :- NumU16(t, at, "from");
      var (group, at) :- NumU8(t, at, "group");
      var (bytes, at) :- Bytes(t, at, "bytes", true);
      Parsed(Multicast(from, group, bytes), at)
    else if tag == "join" then
      var (node, at) :- NumU16(t, at, "node");
      var (group, at) :- NumU8(t, at, "group");
      Parsed(Op.Join(node, group), at)
    else if tag == "kill" then
      var (node, at) :- NumU16(t, at, "node");
      Parsed(Kill(node), at)
    else if tag == "revive" then
      var (node, at) :- NumU16(t, at, "node");
      var (wipe, at) :- NumU8(t, at, "wipe_storage");
      Parsed(Revive(node, wipe != 0), at)
    else if tag == "partition" then
      var (a, at) :- NumU16(t, at, "a");
      var (b, at) :- NumU16(t, at, "b");
      Parsed(Partition(a, b), at)
    else if tag == "heal" then
      var (a, at) :- NumU16(t, at, "a");
      var (b, at) :- NumU16(t, at, "b");
      Parsed(Heal(a, b), at)
    else if tag == "heal_all" then Parsed(HealAll, at)
    else ParseRareOp(tag, t, at)
  }

  /** The rest of the match on an operation's tag. */
  function ParseRareOp(tag: string, t: Words, at: nat): Parse<Op> {
    if tag == "split" then
      var (left, at) :- Ids(t, at, "left");
      var (right, at) :- Ids(t, at, "right");
      Parsed(Split(left, right), at)
    else if tag == "set_faults" then
      var (faults, at) :- Faults(t, at);
      Parsed(SetFaults(faults), at)
    else if tag == "skew" then
      var (node, at) :- NumU16(t, at, "node");
      var (offset, at) :- NumI64(t, at, "offset_us");
      Parsed(Skew(node, offset), at)
    else if tag == "drift" then
      var (node, at) :- NumU16(t, at, "node");
      var (ppm, at) :- NumI32(t, at, "ppm");
      Parsed(Drift(node, ppm), at)
    else if tag == "discipline" then
      var (node, at) :- NumU16(t, at, "node");
      var (offset, at) :- NumI64(t, at, "offset_us");
      Parsed(Discipline(node, offset), at)
    else if tag == "present" then
      var (node, at) :- NumU16(t, at, "node");
      var (level, at) :- NumU16(t, at, "level");
      Parsed(Present(node, level), at)
    else if tag == "store" then
      var (node, at) :- NumU16(t, at, "node");
      var (key, at) :- TextField(t, at, "key");
      var (value, at) :- Bytes(t, at, "value", true);
      Parsed(Store(node, key, value), at)
    else if tag == "erase" then
      var (node, at) :- NumU16(t, at, "node");
      var (key, at) :- TextField(t, at, "key");
      Parsed(Erase(node, key), at)
    else Failed(Unknown("op", tag))
  }

  const TAGS: seq<string> := [
    "tick", "send", "multicast", "join", "kill", "revive", "partition", "heal", "heal_all", "split",
    "set_faults", "skew", "drift", "discipline", "present", "store", "erase"]

  function ParseEvent(t: Words, at: nat): Parse<EventKind> {
    var (name, at) :- NextWord(t, at, "event");
    if name == "tick" then Parsed(TickEvent, at)
    else if name == "datagram" then
      var (len, at) :- NumU64(t, at, "len");
      Parsed(DatagramEvent(len), at)
    else if name == "peer_up" then
      var (prefix, at) :- PrefixField(t, at);
      Parsed(PeerDiscovered(prefix), at)
    else if name == "peer_down" then
      var (prefix, at) :- PrefixField(t, at);
      Parsed(PeerLost(prefix), at)
    else Failed(Unknown("event", name))
  }

  function ParseDestination(word: string): Parse<Destination> {
    if word == "mesh" then Parsed(Mesh, 0)
    else
      var (prefix, _) :- ReadPrefix(word);
      Parsed(Peer(prefix), 0)
  }

  function ParseRole(word: string): Parse<Role> {
    if word == "follower" then Parsed(Elections.Role.Follower, 0)
    else if word == "candidate" then Parsed(Elections.Role.Candidate, 0)
    else if word == "leader" then Parsed(Elections.Role.Leader, 0)
    else Failed(Unknown("role", word))
  }

  function ParseTransport(t: Words, at: nat): Parse<Transport> {
    var (name, at) :- NextWord(t, at, "transport");
    if name == "datagram" then Parsed(Datagram, at)
    else if name == "reliable" then Parsed(Reliable, at)
    else Failed(Unknown("transport", name))
  }

  function ParseAction(t: Words, at: nat): Parse<Action> {
    var (name, at) :- NextWord(t, at, "action");
    if name == "set_timer" then
      var (inUs, at) :- NumU64(t, at, "in_us");
      Parsed(SetTimer(inUs), at)
    else if name == "send" then
      var (word, at) :- NextWord(t, at, "destination");
      var (to, _) :- ParseDestination(word);
      var (transport, at) :- ParseTransport(t, at);
      var (datagram, at) :- Bytes(t, at, "datagram", false);
      Parsed(Sending(to, datagram, transport), at)
    else if name == "discipline" then
      var (offset, at) :- NumI64(t, at, "offset_us");
      Parsed(DisciplineClock(offset), at)
    else if name == "role" then
      var (word, at) :- NextWord(t, at, "role");
      var (role, _) :- ParseRole(word);
      var (epoch, at) :- NumU32(t, at, "epoch");
      Parsed(RoleChanged(role, epoch), at)
    else if name == "sync_lost" then Parsed(SyncLost, at)
    else if name == "sync_acquired" then Parsed(SyncAcquired, at)
    else Failed(Unknown("action", name))
  }

  function ParseNetError(t: Words, at: nat): Parse<NetError> {
    var (name, at) :- NextWord(t, at, "net_err");
    if name == "node_down" then Parsed(NodeDown, at)
    else if name == "payload_too_large" then Parsed(PayloadTooLarge, at)
    else if name == "buffer_too_small" then Parsed(NetError.BufferTooSmall, at)
    else Failed(Unknown("net_err", name))
  }

  function ParseStorageError(t: Words, at: nat): Parse<StorageError> {
    var (name, at) :- NextWord(t, at, "store_err");
    if name == "value_too_long" then Parsed(ValueTooLong, at)
    else if name == "full" then Parsed(Full, at)
    else if name == "buffer_too_small" then Parsed(StorageError.BufferTooSmall, at)
    else Failed(Unknown("store_err", name))
  }

  function ParseLedError(t: Words, at: nat): Parse<LedError> {
    var (name, at) :- NextWord(t, at, "led_err");
    if name == "wrong_pixel_count" then Parsed(WrongPixelCount, at)
    else if name == "powered_off" then Parsed(PoweredOff, at)
    else Failed(Unknown("led_err", name))
  }

  function ParseTrace(t: Words, at: nat): Parse<TraceKind> {
    var (kind, at) :- NextWord(t, at, "trace kind");
    if kind == "op" then
      var (tag, at) :- NextWord(t, at, "op tag");
      if tag in TAGS then Parsed(Applied(tag), at) else Failed(Unknown("op tag", tag))
    else if kind == "event" then
      var (event, at) :- ParseEvent(t, at);
      Parsed(Event(event), at)
    else if kind == "action" then
      var (action, at) :- ParseAction(t, at);
      Parsed(Acted(action), at)
    else if kind == "rx" then
      var (from, at) :- NumU16(t, at, "from");
      var (len, at) :- NumU64(t, at, "len");
      var (digest, at) :- HexU64(t, at, "digest");
      Parsed(Rx(from, len, digest), at)
    else if kind == "frame" then
      var (digest, at) :- HexU64(t, at, "digest");
      Parsed(FrameShown(digest), at)
    else if kind == "net_err" then
      var (e, at) :- ParseNetError(t, at);
      Parsed(NetRefused(e), at)
    else if kind == "store_err" then
      var (e, at) :- ParseStorageError(t, at);
      Parsed(StoreRefused(e), at)
    else if kind == "led_err" then
      var (e, at) :- ParseLedError(t, at);
      Parsed(LedRefused(e), at)
    else Failed(Unknown("trace kind", kind))
  }

  // ------------------------------------------------------------------------- one line

  /** Everything read so far. */
  datatype Draft = Draft(
    seed: Option<U64>,
    durationUs: Option<U64>,
    faults: NetFaults,
    nodes: seq<NodeSpec>,
    script: seq<ScriptedOp>,
    endUs: U64,
    stats: NetStats,
    frames: map<NodeId, (U64, U64)>,
    trace: seq<TraceEntry>,
    sawHeader: bool)

  const BLANK: Draft := Draft(None, None, PERFECT, [], [], 0, NOTHING_YET, map[], [], false)

  function ParseNode(t: Words, at: nat): Parse<NodeSpec> {
    var (id, at) :- NumU16(t, at, "id");
    var (pixels, at) :- NumU64(t, at, "pixel_count");
    var (skew, at) :- NumI64(t, at, "skew_us");
    var (drift, at) :- NumI32(t, at, "drift_ppm");
    var (capacity, at) :- NumU64(t, at, "storage_capacity");
    Parsed(NodeSpec(id, pixels, skew, drift, capacity), at)
  }

  function ParseStats(t: Words, at: nat): Parse<NetStats> {
    var (sent, at) :- NumU64(t, at, "sent");
    var (delivered, at) :- NumU64(t, at, "delivered");
    var (loss, at) :- NumU64(t, at, "dropped_loss");
    var (partition, at) :- NumU64(t, at, "dropped_partition");
    var (unreachable, at) :- NumU64(t, at, "dropped_unreachable");
    var (duplicated, at) :- NumU64(t, at, "duplicated");
    var (reordered, at) :- NumU64(t, at, "reordered");
    Parsed(NetStats(sent, delivered, loss, partition, unreachable, duplicated, reordered), at)
  }

  /** One line that is neither blank nor a comment. Words after the last one wanted are ignored. */
  function ParseWords(d: Draft, t: Words): Parse<Draft> {
    var (keyword, at) :- NextWord(t, 0, "keyword");
    if keyword == HEADER then
      var (version, at) :- NumU32(t, at, "version");
      if version != FORMAT_VERSION then Failed(WrongVersion(version)) else Parsed(d.(sawHeader := true), at)
    else if keyword == "seed" then
      var (seed, at) :- NumU64(t, at, "seed");
      Parsed(d.(seed := Some(seed)), at)
    else if keyword == "duration_us" then
      var (duration, at) :- NumU64(t, at, "duration_us");
      Parsed(d.(durationUs := Some(duration)), at)
    else if keyword == "faults" then
      var (faults, at) :- Faults(t, at);
      Parsed(d.(faults := faults), at)
    else if keyword == "node" then
      var (node, at) :- ParseNode(t, at);
      Parsed(d.(nodes := d.nodes + [node]), at)
    else if keyword == "op" then
      var (atUs, at) :- NumU64(t, at, "at_us");
      var (op, at) :- ParseOp(t, at);
      Parsed(d.(script := d.script + [ScriptedOp(atUs, op)]), at)
    else if keyword == "end" then
      var (end, at) :- NumU64(t, at, "end");
      Parsed(d.(endUs := end), at)
    else if keyword == "stats" then
      var (stats, at) :- ParseStats(t, at);
      Parsed(d.(stats := stats), at)
    else if keyword == "frames" then
      var (node, at) :- NumU16(t, at, "node");
      var (count, at) :- NumU64(t, at, "count");
      var (digest, at) :- HexU64(t, at, "digest");
      Parsed(d.(frames := d.frames[node := (count, digest)]), at)
    else if keyword == "trace" then
      var (atUs, at) :- NumU64(t, at, "at_us");
      var (node, at) :- NumU16(t, at, "node");
      var (kind, at) :- ParseTrace(t, at);
      Parsed(d.(trace := d.trace + [TraceEntry(atUs, node, kind)]), at)
    else Failed(Unknown("keyword", keyword))
  }

  /** Blank lines and lines that begin with `#` are skipped. */
  predicate IsSkipped(raw: string) {
    Trim(raw) == [] || Trim(raw)[0] == '#'
  }

  function ParseLine(d: Draft, raw: string, line: nat): Result<Draft, ParseError> {
    if IsSkipped(raw) then Ok(d)
    else
      match ParseWords(d, Text.Words(Trim(raw)))
      case Parsed(next, _) => Ok(next)
      case Failed(problem) => Err(ParseError(line, problem))
  }

  /** The draft after some lines, or the first error; lines are numbered from one. */
  function ParseLines(lines: seq<string>): Result<Draft, ParseError> {
    if lines == [] then Ok(BLANK)
    else
      match ParseLines(lines[..|lines| - 1])
      case Err(error) => Err(error)
      case Ok(d) => ParseLine(d, lines[|lines| - 1], |lines|)
  }

  function Finished(d: Draft): Result<Recording, ParseError> {
    if !d.sawHeader then Err(ParseError(1, Missing("header line")))
    else if d.seed.None? then Err(ParseError(1, Missing("seed")))
    else if d.durationUs.None? then Err(ParseError(1, Missing("duration_us")))
    else Ok(Recording(Scenario(d.seed.value, d.durationUs.value, d.nodes, d.faults, d.script),
                      RunReport(d.trace, d.stats, d.endUs, d.frames)))
  }

  /** What `from_text` answers. */
  function Read(text: string): Result<Recording, ParseError> {
    match ParseLines(Lines(text))
    case Err(error) => Err(error)
    case Ok(d) => Finished(d)
  }

  method FromText(text: string) returns (r: Result<Recording, ParseError>)
    ensures r == Read(text)
  {
    var d := BLANK;
    var lines := Lines(text);
    for k := 0 to |lines|
      invariant ParseLines(lines[..k]) == Ok(d)
    {
      assert lines[..k + 1][..k] == lines[..k];
      var step := ParseLine(d, lines[k], k + 1);
      if step.Err? {
        ErrorStops(lines, k + 1);
        return Err(step.error);
      }
      d := step.value;
    }
    assert lines[..|lines|] == lines;
    r := Finished(d);
  }

  /** The first error is the answer. */
  lemma {:induction false} ErrorStops(lines: seq<string>, k: nat)
    requires k <= |lines| && ParseLines(lines[..k]).Err?
    ensures ParseLines(lines) == ParseLines(lines[..k])
  {
    if k < |lines| {
      assert lines[..|lines| - 1][..k] == lines[..k];
      ErrorStops(lines[..|lines| - 1], k);
    } else {
      assert lines[..k] == lines;
    }
  }
}
