/**
 Reading back what was written: every recording whose trace names only known operations
 survives the text form, and comments never change what a text means.
 */
module RecordingLaws {
  import opened Arith
  import opened Wrappers
  import opened Text
  import opened Numerals
  import opened Scenarios
  import opened Recordings
  import opened RecordingParser
  import Growing

  // -------------------------------------------------------------------- printed words

  ghost predicate AllWords(words: seq<string>) {
    forall w :: w in words ==> IsWord(w)
  }

  lemma NumbersAreWords()
    ensures forall i: int :: IsWord(DecimalInt(i))
  {
    forall i: int ensures IsWord(DecimalInt(i)) { NumberIsWord(i); }
  }

  lemma HexIsWord(bytes: seq<U8>)
    ensures IsWord(ToHex(bytes))
  {
    if bytes != [] {
      PairsAreDigits(bytes);
      DigitsAreWord(BytePairs(bytes));
    }
  }

  lemma HexesAreWords()
    ensures forall bytes: seq<U8> :: IsWord(ToHex(bytes))
  {
    forall bytes: seq<U8> ensures IsWord(ToHex(bytes)) { HexIsWord(bytes); }
  }

  lemma DigestIsWord(digest: U64)
    ensures IsWord(HexDigits(digest, 16))
  {
    HexAreDigits(digest, 16);
    DigitsAreWord(HexDigits(digest, 16));
  }

  /** Lower-case letters, underscores and hyphens, as in every keyword of the format. */
  ghost predicate IsKeyword(s: string) {
    s != [] && forall i :: 0 <= i < |s| ==> IsKeyChar(s[i])
  }

  predicate IsKeyChar(c: char) { 'a' <= c <= 'z' || c == '_' || c == '-' }

  lemma KeywordsAreWords()
    ensures forall s: string :: IsKeyword(s) ==> IsWord(s)
  {
  }

  lemma KnownTagIsWord(tag: string)
    requires tag in TAGS
    ensures IsWord(tag)
  {
    forall k | 0 <= k < |TAGS| ensures IsKeyword(TAGS[k]) {
      if k < 9 { EarlyTag(k); } else { LateTag(k); }
    }
    KeywordsAreWords();
  }

  lemma EarlyTag(k: nat)
    requires k < 9
    ensures IsKeyword(TAGS[k])
  {
  }

  lemma LateTag(k: nat)
    requires 9 <= k < |TAGS|
    ensures IsKeyword(TAGS[k])
  {
  }

  /** Every operation's tag is a known one. */
  lemma TagIsKnown(op: Op)
    ensures OpTag(op) in TAGS
  {
    var k := match op
      case Tick(_) => 0 case Send(_, _, _) => 1 case Multicast(_, _, _) => 2 case Join(_, _) => 3
      case Kill(_) => 4 case Revive(_, _) => 5 case Partition(_, _) => 6 case Heal(_, _) => 7
      case HealAll => 8 case Split(_, _) => 9 case SetFaults(_) => 10 case Skew(_, _) => 11
      case Drift(_, _) => 12 case Discipline(_, _) => 13 case Present(_, _) => 14
      case Store(_, _, _) => 15 case Erase(_, _) => 16;
    assert OpTag(op) == TAGS[k];
  }

  lemma {:induction false} IdWordsAre(ids: seq<NodeId>)
    ensures AllWords(IdWords(ids))
  {
    if ids != [] {
      IdWordsAre(ids[..|ids| - 1]);
      OneWord(ids[|ids| - 1]);
      AllWordsAppend(IdWords(ids[..|ids| - 1]), [DecimalInt(ids[|ids| - 1])]);
    }
  }

  lemma FaultWordsAreWords(f: NetFaults)
    ensures AllWords(FaultWords(f))
  {
    NumbersAreWords();
  }

  lemma AllWordsAppend(a: Words, b: Words)
    requires AllWords(a) && AllWords(b)
    ensures AllWords(a + b)
  {
  }

  lemma OneWord(i: int)
    ensures AllWords([DecimalInt(i)])
  {
    NumberIsWord(i);
  }

  lemma SplitFieldsAreWords(op: Op)
    requires op.Split?
    ensures AllWords(OpFields(op))
  {
    var n, ls, m, rs := [DecimalInt(|op.left|)], IdWords(op.left), [DecimalInt(|op.right|)], IdWords(op.right);
    OneWord(|op.left|);
    OneWord(|op.right|);
    IdWordsAre(op.left);
    IdWordsAre(op.right);
    AllWordsAppend(n, ls);
    AllWordsAppend(n + ls, m);
    AllWordsAppend(n + ls + m, rs);
  }

  lemma NumberWords(op: Op, i: int, j: int)
    requires OpFields(op) == [DecimalInt(i), DecimalInt(j)] || OpFields(op) == [DecimalInt(i)]
    ensures AllWords(OpFields(op))
  {
    NumberIsWord(i);
    NumberIsWord(j);
  }

  lemma ThreeWords(a: string, b: string, c: string)
    requires IsWord(a) && IsWord(b) && IsWord(c)
    ensures AllWords([a, b, c]) && AllWords([a, b])
  {
  }

  lemma BytesAndTwo(op: Op, i: int, second: string, bytes: seq<U8>)
    requires OpFields(op) == [DecimalInt(i), second, ToHex(bytes)] && IsWord(second)
    ensures AllWords(OpFields(op))
  {
    NumberIsWord(i);
    HexIsWord(bytes);
    ThreeWords(DecimalInt(i), second, ToHex(bytes));
  }

  lemma ByteFieldsAreWords(op: Op)
    requires op.Send? || op.Multicast? || op.Store? || op.Erase?
    ensures AllWords(OpFields(op))
  {
    match op
    case Send(from, to, bytes) =>
      NumberIsWord(to);
      BytesAndTwo(op, from, DecimalInt(to), bytes);
    case Multicast(from, group, bytes) =>
      NumberIsWord(group);
      BytesAndTwo(op, from, DecimalInt(group), bytes);
    case Store(node, key, value) =>
      HexIsWord(key);
      BytesAndTwo(op, node, ToHex(key), value);
    case Erase(node, key) =>
      NumberIsWord(node);
      HexIsWord(key);
      ThreeWords(DecimalInt(node), ToHex(key), ToHex(key));
  }

  lemma OpFieldsAreWords(op: Op)
    ensures AllWords(OpFields(op))
  {
    match op
    case Split(_, _) => SplitFieldsAreWords(op);
    case SetFaults(faults) => FaultWordsAreWords(faults);
    case Tick(node) => NumberWords(op, node, node);
    case Kill(node) => NumberWords(op, node, node);
    case Join(node, group) => NumberWords(op, node, group);
    case Revive(node, wipe) => NumberWords(op, node, if wipe then 1 else 0);
    case Partition(a, b) => NumberWords(op, a, b);
    case Heal(a, b) => NumberWords(op, a, b);
    case HealAll =>
    case Skew(node, offset) => NumberWords(op, node, offset);
    case Drift(node, ppm) => NumberWords(op, node, ppm);
    case Discipline(node, offset) => NumberWords(op, node, offset);
    case Present(node, level) => NumberWords(op, node, level);
    case _ => ByteFieldsAreWords(op);
  }

  lemma OpWordsAreWords(op: Op)
    ensures AllWords(OpWords(op))
  {
    TagIsKnown(op);
    KnownTagIsWord(OpTag(op));
    OpFieldsAreWords(op);
  }

  lemma EventWordsAreWords(event: EventKind)
    ensures AllWords(EventWords(event))
  {
    NumbersAreWords();
    HexesAreWords();
    KeywordsAreWords();
    assert IsKeyword("tick") && IsKeyword("datagram") && IsKeyword("peer_up") && IsKeyword("peer_down");
  }

  lemma ActionKeyword(action: Action)
    ensures IsWord(ActionWords(action)[0])
  {
    KeywordsAreWords();
    match action
    case SetTimer(_) => assert IsKeyword("set_timer");
    case Sending(_, _, _) => assert IsKeyword("send");
    case DisciplineClock(_) => assert IsKeyword("discipline");
    case RoleChanged(_, _) => assert IsKeyword("role");
    case SyncLost => assert IsKeyword("sync_lost");
    case SyncAcquired => assert IsKeyword("sync_acquired");
  }

  lemma SendingWordsAreWords(action: Action)
    requires action.Sending?
    ensures AllWords(ActionWords(action)[1..])
  {
    HexesAreWords();
    KeywordsAreWords();
    assert IsKeyword("mesh") && IsKeyword("datagram") && IsKeyword("reliable");
  }

  lemma RoleIsWord(role: Role)
    ensures IsWord(RoleName(role))
  {
    KeywordsAreWords();
    assert IsKeyword("follower") && IsKeyword("candidate") && IsKeyword("leader");
  }

  lemma ActionWordsAreWords(action: Action)
    ensures AllWords(ActionWords(action))
  {
    ActionKeyword(action);
    if action.Sending? {
      SendingWordsAreWords(action);
      assert ActionWords(action) == [ActionWords(action)[0]] + ActionWords(action)[1..];
    } else {
      if action.RoleChanged? { RoleIsWord(action.role); }
      NumbersAreWords();
    }
  }

  lemma NetErrorIsWord(e: NetError)
    ensures IsWord(NetErrorTag(e))
  {
    KeywordsAreWords();
    assert IsKeyword("node_down") && IsKeyword("payload_too_large") && IsKeyword("buffer_too_small");
  }

  lemma StorageErrorIsWord(e: StorageError)
    ensures IsWord(StorageErrorTag(e))
  {
    KeywordsAreWords();
    assert IsKeyword("value_too_long") && IsKeyword("full") && IsKeyword("buffer_too_small");
  }

  lemma LedErrorIsWord(e: LedError)
    ensures IsWord(LedErrorTag(e))
  {
    KeywordsAreWords();
    assert IsKeyword("wrong_pixel_count") && IsKeyword("powered_off");
  }

  lemma TraceKeyword(kind: TraceKind)
    ensures IsWord(TraceWords(kind)[0])
  {
    KeywordsAreWords();
    match kind
    case Applied(_) => assert IsKeyword("op");
    case Event(_) => assert IsKeyword("event");
    case Acted(_) => assert IsKeyword("action");
    case Rx(_, _, _) => assert IsKeyword("rx");
    case FrameShown(_) => assert IsKeyword("frame");
    case NetRefused(_) => assert IsKeyword("net_err");
    case StoreRefused(_) => assert IsKeyword("store_err");
    case LedRefused(_) => assert IsKeyword("led_err");
  }

  lemma TraceWordsAreWords(kind: TraceKind)
    requires kind.Applied? ==> kind.tag in TAGS
    ensures AllWords(TraceWords(kind))
  {
    TraceKeyword(kind);
    match kind
    case Applied(tag) => KnownTagIsWord(tag);
    case Event(event) => EventWordsAreWords(event);
    case Acted(action) => ActionWordsAreWords(action);
    case Rx(from, len, digest) =>
      NumberIsWord(from);
      NumberIsWord(len);
      DigestIsWord(digest);
    case FrameShown(digest) => DigestIsWord(digest);
    case NetRefused(e) => NetErrorIsWord(e);
    case StoreRefused(e) => StorageErrorIsWord(e);
    case LedRefused(e) => LedErrorIsWord(e);
  }

  // -------------------------------------------------------------------- reading fields

  /** The words of `w` stand in `t` from `at`. */
  ghost predicate Holds(t: Words, at: nat, w: Words) {
    at + |w| <= |t| && t[at..at + |w|] == w
  }

  lemma HeldAt(t: Words, at: nat, w: Words, k: nat)
    requires Holds(t, at, w) && k < |w|
    ensures t[at + k] == w[k]
  {
    assert t[at..at + |w|][k] == w[k];
  }

  lemma HeldTail(t: Words, at: nat, first: string, rest: Words)
    requires Holds(t, at, [first] + rest)
    ensures Holds(t, at + 1, rest) && t[at] == first
  {
    var w := [first] + rest;
    HeldAt(t, at, w, 0);
    assert t[at + 1..at + 1 + |rest|] == t[at..at + |w|][1..];
  }

  lemma HeldParts(t: Words, at: nat, a: Words, b: Words)
    requires Holds(t, at, a + b)
    ensures Holds(t, at, a) && Holds(t, at + |a|, b)
  {
    var held := t[at..at + |a + b|];
    assert t[at..at + |a|] == held[..|a|];
    assert t[at + |a|..at + |a| + |b|] == held[|a|..];
  }

  lemma NumReads(t: Words, at: nat, what: string, min: int, max: int, i: int)
    requires at < |t| && t[at] == DecimalInt(i) && min <= i <= max
    ensures Num(t, at, what, min, max) == Parsed(i, at + 1)
  {
    NumberRoundTrip(i, min, max);
  }

  lemma DigestFits()
    ensures Pow16(16) == U64_MAX + 1
  {
    assert Pow16(1) == 16 && Pow16(2) == 0x100 && Pow16(3) == 0x1000 && Pow16(4) == 0x1_0000;
    assert Pow16(5) == 0x10_0000 && Pow16(6) == 0x100_0000 && Pow16(7) == 0x1000_0000 && Pow16(8) == 0x1_0000_0000;
    assert Pow16(9) == 16 * Pow16(8) && Pow16(10) == 16 * Pow16(9) && Pow16(11) == 16 * Pow16(10);
    assert Pow16(12) == 16 * Pow16(11) && Pow16(13) == 16 * Pow16(12) && Pow16(14) == 16 * Pow16(13);
    assert Pow16(15) == 16 * Pow16(14) && Pow16(16) == 16 * Pow16(15);
  }

  lemma DigestReads(t: Words, at: nat, what: string, digest: U64)
    requires at < |t| && t[at] == HexDigits(digest, 16)
    ensures HexU64(t, at, what) == Parsed(digest, at + 1)
  {
    DigestFits();
    HexRoundTrip(digest, 16, U64_MAX);
  }

  lemma {:induction false} AsciiIsNotSplit(word: string)
    requires IsAscii(word)
    ensures !SplitsCharacter(word)
    decreases |word|
  {
    assert word != [] ==> word[0] in word;
    if |word| > 1 {
      assert word[1] in word && forall c :: c in word[2..] ==> c in word;
      AsciiIsNotSplit(word[2..]);
    }
  }

  lemma PairsRead(s: string, bytes: seq<U8>, signs: bool)
    requires s != EMPTY && AreDigits(s) && |s| % 2 == 0 && PairValues(s, signs) == Some(bytes)
    ensures ReadHex(s, signs) == Parsed(bytes, 0)
  {
    assert IsAscii(s);
    AsciiIsNotSplit(s);
  }

  lemma HexReads(bytes: seq<U8>, signs: bool)
    ensures ReadHex(ToHex(bytes), signs) == Parsed(bytes, 0)
  {
    if bytes != [] {
      PairsAreDigits(bytes);
      PairsRoundTrip(bytes, signs);
      PairsRead(BytePairs(bytes), bytes, signs);
    }
  }

  lemma BytesRead(t: Words, at: nat, what: string, signs: bool, bytes: seq<U8>)
    requires at < |t| && t[at] == ToHex(bytes)
    ensures Bytes(t, at, what, signs) == Parsed(bytes, at + 1)
  {
    HexReads(bytes, signs);
  }

  /** `words` are numerals of the ids. */
  ghost predicate Spell(words: Words, ids: seq<NodeId>) {
    |words| == |ids| && forall k :: 0 <= k < |words| ==> ParseInt(words[k], 10, 0, U16_MAX) == Some(ids[k])
  }

  lemma SpellSnoc(words: Words, ids: seq<NodeId>, w: string, id: NodeId)
    requires Spell(words, ids) && ParseInt(w, 10, 0, U16_MAX) == Some(id)
    ensures Spell(words + [w], ids + [id])
  {
  }

  lemma {:induction false} IdWordsSpell(ids: seq<NodeId>)
    ensures Spell(IdWords(ids), ids)
  {
    if ids != [] {
      var front, id := ids[..|ids| - 1], ids[|ids| - 1];
      IdWordsSpell(front);
      NumberRoundTrip(id, 0, U16_MAX);
      SpellSnoc(IdWords(front), front, DecimalInt(id), id);
      Growing.SplitLast(ids);
    }
  }

  lemma {:induction false} RepeatedReads(t: Words, at: nat, what: string, words: Words, ids: seq<NodeId>)
    requires Holds(t, at, words) && Spell(words, ids)
    ensures Repeated(t, at, what, |ids|) == Parsed(ids, at + |ids|)
    decreases |ids|
  {
    if ids != [] {
      assert words == [words[0]] + words[1..];
      HeldTail(t, at, words[0], words[1..]);
      RepeatedReads(t, at + 1, what, words[1..], ids[1..]);
      assert ids == [ids[0]] + ids[1..];
    }
  }

  lemma IdsRead(t: Words, at: nat, what: string, count: string, words: Words, ids: NodeIds)
    requires Holds(t, at, [count] + words) && Spell(words, ids) && ParseInt(count, 10, 0, U64_MAX) == Some(|ids|)
    ensures Ids(t, at, what) == Parsed(ids, at + 1 + |ids|)
  {
    HeldTail(t, at, count, words);
    RepeatedReads(t, at + 1, what, words, ids);
  }

  lemma FaultsRead(t: Words, at: nat, f: NetFaults)
    requires at + 6 <= |t| && t[at..at + 6] == FaultWords(f)
    ensures Faults(t, at) == Parsed(f, at + 6)
  {
    var w := t[at..at + 6];
    assert t[at] == w[0] && t[at + 1] == w[1] && t[at + 2] == w[2] && t[at + 3] == w[3] && t[at + 4] == w[4] && t[at + 5] == w[5];
    NumReads(t, at, "loss_permille", 0, U16_MAX, f.lossPermille);
    NumReads(t, at + 1, "latency_us", 0, U64_MAX, f.latencyUs);
    NumReads(t, at + 2, "jitter_us", 0, U64_MAX, f.jitterUs);
    NumReads(t, at + 3, "reorder_permille", 0, U16_MAX, f.reorderPermille);
    NumReads(t, at + 4, "reorder_extra_us", 0, U64_MAX, f.reorderExtraUs);
    NumReads(t, at + 5, "duplicate_permille", 0, U16_MAX, f.duplicatePermille);
  }

  // ------------------------------------------------------------------------ operations

  /** The operation's tag stands in `t` at `at`, and its fields after it. */
  ghost predicate HoldsOp(t: Words, at: nat, op: Op) {
    at < |t| && t[at] == OpTag(op) && Holds(t, at + 1, OpFields(op))
  }

  lemma OpReads(op: Op, t: Words, at: nat)
    requires HoldsOp(t, at, op)
    ensures ParseOp(t, at) == Parsed(op, at + 1 + |OpFields(op)|)
  {
    match op
    case Tick(_) => NodeOpReads(op, t, at);
    case Kill(_) => NodeOpReads(op, t, at);
    case HealAll => NodeOpReads(op, t, at);
    case Send(_, _, _) => SendReads(op, t, at);
    case Multicast(_, _, _) => SendReads(op, t, at);
    case Join(_, _) => JoinReads(op, t, at);
    case Revive(_, _) => JoinReads(op, t, at);
    case Partition(_, _) => LinkOpReads(op, t, at);
    case Heal(_, _) => LinkOpReads(op, t, at);
    case _ => RareOpReads(op, t, at);
  }

  lemma TickReads(t: Words, at: nat, node: NodeId)
    requires at + 1 < |t| && t[at] == "tick" && t[at + 1] == DecimalInt(node)
    ensures ParseOp(t, at) == Parsed(Tick(node), at + 2)
  {
    NumReads(t, at + 1, "node", 0, U16_MAX, node);
  }

  lemma KillReads(t: Words, at: nat, node: NodeId)
    requires at + 1 < |t| && t[at] == "kill" && t[at + 1] == DecimalInt(node)
    ensures ParseOp(t, at) == Parsed(Kill(node), at + 2)
  {
    NumReads(t, at + 1, "node", 0, U16_MAX, node);
  }

  lemma NodeOpReads(op: Op, t: Words, at: nat)
    requires HoldsOp(t, at, op) && (op.Tick? || op.Kill? || op.HealAll?)
    ensures ParseOp(t, at) == Parsed(op, at + 1 + |OpFields(op)|)
  {
    match op
    case Tick(node) => HeldAt(t, at + 1, OpFields(op), 0); TickReads(t, at, node);
    case Kill(node) => HeldAt(t, at + 1, OpFields(op), 0); KillReads(t, at, node);
    case HealAll =>
  }

  lemma JoinReads(op: Op, t: Words, at: nat)
    requires HoldsOp(t, at, op) && (op.Join? || op.Revive?)
    ensures ParseOp(t, at) == Parsed(op, at + 1 + |OpFields(op)|)
  {
    HeldAt(t, at + 1, OpFields(op), 0);
    HeldAt(t, at + 1, OpFields(op), 1);
    NumReads(t, at + 1, "node", 0, U16_MAX, op.node);
    if op.Join? {
      NumReads(t, at + 2, "group", 0, U8_MAX, op.group);
    } else {
      NumReads(t, at + 2, "wipe_storage", 0, U8_MAX, if op.wipeStorage then 1 else 0);
    }
  }

  lemma PartitionReads(t: Words, at: nat, a: NodeId, b: NodeId)
    requires at + 2 < |t| && t[at] == "partition" && t[at + 1] == DecimalInt(a) && t[at + 2] == DecimalInt(b)
    ensures ParseOp(t, at) == Parsed(Partition(a, b), at + 3)
  {
    NumReads(t, at + 1, "a", 0, U16_MAX, a);
    NumReads(t, at + 2, "b", 0, U16_MAX, b);
  }

  lemma HealReads(t: Words, at: nat, a: NodeId, b: NodeId)
    requires at + 2 < |t| && t[at] == "heal" && t[at + 1] == DecimalInt(a) && t[at + 2] == DecimalInt(b)
    ensures ParseOp(t, at) == Parsed(Heal(a, b), at + 3)
  {
    NumReads(t, at + 1, "a", 0, U16_MAX, a);
    NumReads(t, at + 2, "b", 0, U16_MAX, b);
  }

  lemma LinkOpReads(op: Op, t: Words, at: nat)
    requires HoldsOp(t, at, op) && (op.Partition? || op.Heal?)
    ensures ParseOp(t, at) == Parsed(op, at + 1 + |OpFields(op)|)
  {
    HeldAt(t, at + 1, OpFields(op), 0);
    HeldAt(t, at + 1, OpFields(op), 1);
    match op
    case Partition(a, b) => PartitionReads(t, at, a, b);
    case Heal(a, b) => HealReads(t, at, a, b);
  }

  /** By length, or for the one of length four by its second letter, no tag of the first half of the match. */
  predicate IsRareTag(tag: string) {
    |tag| == 5 || |tag| == 7 || |tag| == 10 || (|tag| == 4 && tag[1] == 'k')
  }

  lemma RareTag(tag: string, t: Words, at: nat)
    requires at < |t| && t[at] == tag && IsRareTag(tag)
    ensures ParseOp(t, at) == ParseRareOp(tag, t, at + 1)
  {
    assert tag != "tick" && tag != "send" && tag != "multicast" && tag != "join" && tag != "kill" && tag != "revive";
    assert tag != "partition" && tag != "heal" && tag != "heal_all";
  }

  lemma SkewParses(t: Words, at: nat, node: NodeId, offset: I64)
    requires NumU16(t, at, "node") == Parsed(node, at + 1) && NumI64(t, at + 1, "offset_us") == Parsed(offset, at + 2)
    ensures ParseRareOp("skew", t, at) == Parsed(Skew(node, offset), at + 2)
    ensures ParseRareOp("discipline", t, at) == Parsed(Discipline(node, offset), at + 2)
  {
  }

  lemma TwoFields(t: Words, at: nat, a: string, b: string)
    requires Holds(t, at, [a, b])
    ensures at + 2 <= |t| && t[at] == a && t[at + 1] == b
  {
    HeldAt(t, at, [a, b], 0);
    HeldAt(t, at, [a, b], 1);
  }

  lemma ClockReads(t: Words, at: nat, node: NodeId, offset: I64)
    requires Holds(t, at, [DecimalInt(node), DecimalInt(offset)])
    ensures ParseRareOp("skew", t, at) == Parsed(Skew(node, offset), at + 2)
    ensures ParseRareOp("discipline", t, at) == Parsed(Discipline(node, offset), at + 2)
  {
    TwoFields(t, at, DecimalInt(node), DecimalInt(offset));
    NumReads(t, at, "node", 0, U16_MAX, node);
    NumReads(t, at + 1, "offset_us", -0x8000_0000_0000_0000, 0x7FFF_FFFF_FFFF_FFFF, offset);
    SkewParses(t, at, node, offset);
  }

  lemma DriftParses(t: Words, at: nat, node: NodeId, ppm: I32)
    requires NumU16(t, at, "node") == Parsed(node, at + 1) && NumI32(t, at + 1, "ppm") == Parsed(ppm, at + 2)
    ensures ParseRareOp("drift", t, at) == Parsed(Drift(node, ppm), at + 2)
  {
  }

  lemma PresentParses(t: Words, at: nat, node: NodeId, level: U16)
    requires NumU16(t, at, "node") == Parsed(node, at + 1) && NumU16(t, at + 1, "level") == Parsed(level, at + 2)
    ensures ParseRareOp("present", t, at) == Parsed(Present(node, level), at + 2)
  {
  }

  lemma DriftFieldsRead(t: Words, at: nat, node: NodeId, ppm: I32)
    requires Holds(t, at, [DecimalInt(node), DecimalInt(ppm)])
    ensures ParseRareOp("drift", t, at) == Parsed(Drift(node, ppm), at + 2)
  {
    TwoFields(t, at, DecimalInt(node), DecimalInt(ppm));
    NumReads(t, at, "node", 0, U16_MAX, node);
    NumReads(t, at + 1, "ppm", -0x8000_0000, 0x7FFF_FFFF, ppm);
    DriftParses(t, at, node, ppm);
  }

  lemma PresentFieldsRead(t: Words, at: nat, node: NodeId, level: U16)
    requires Holds(t, at, [DecimalInt(node), DecimalInt(level)])
    ensures ParseRareOp("present", t, at) == Parsed(Present(node, level), at + 2)
  {
    TwoFields(t, at, DecimalInt(node), DecimalInt(level));
    NumReads(t, at, "node", 0, U16_MAX, node);
    NumReads(t, at + 1, "level", 0, U16_MAX, level);
    PresentParses(t, at, node, level);
  }

  lemma SplitFromParts(t: Words, at: nat, left: NodeIds, mid: nat, right: NodeIds, end: nat)
    requires Ids(t, at, "left") == Parsed(left, mid) && Ids(t, mid, "right") == Parsed(right, end)
    ensures ParseRareOp("split", t, at) == Parsed(Split(left, right), end)
  {
  }

  lemma SplitParses(t: Words, at: nat, n: string, ls: Words, left: NodeIds, m: string, rs: Words, right: NodeIds)
    requires Holds(t, at, [n] + ls) && Holds(t, at + 1 + |ls|, [m] + rs) && Spell(ls, left) && Spell(rs, right)
    requires ParseInt(n, 10, 0, U64_MAX) == Some(|left|) && ParseInt(m, 10, 0, U64_MAX) == Some(|right|)
    ensures ParseRareOp("split", t, at) == Parsed(Split(left, right), at + |left| + |right| + 2)
  {
    IdsRead(t, at, "left", n, ls, left);
    IdsRead(t, at + 1 + |left|, "right", m, rs, right);
    SplitFromParts(t, at, left, at + 1 + |left|, right, at + |left| + |right| + 2);
  }

  lemma SplitFields(op: Op, n: string, ls: Words, m: string, rs: Words)
    requires op.Split? && n == DecimalInt(|op.left|) && ls == IdWords(op.left) && m == DecimalInt(|op.right|) && rs == IdWords(op.right)
    ensures OpFields(op) == ([n] + ls) + ([m] + rs) && |OpFields(op)| == |op.left| + |op.right| + 2
    ensures Spell(ls, op.left) && Spell(rs, op.right)
    ensures ParseInt(n, 10, 0, U64_MAX) == Some(|op.left|) && ParseInt(m, 10, 0, U64_MAX) == Some(|op.right|)
  {
    IdWordsSpell(op.left);
    IdWordsSpell(op.right);
    NumberRoundTrip(|op.left|, 0, U64_MAX);
    NumberRoundTrip(|op.right|, 0, U64_MAX);
  }

  lemma SplitFieldsRead(op: Op, t: Words, at: nat)
    requires op.Split? && Holds(t, at, OpFields(op))
    ensures ParseRareOp("split", t, at) == Parsed(op, at + |OpFields(op)|)
  {
    var n, ls, m, rs := DecimalInt(|op.left|), IdWords(op.left), DecimalInt(|op.right|), IdWords(op.right);
    SplitFields(op, n, ls, m, rs);
    SplitHeld(t, at, n, ls, m, rs);
    SplitParses(t, at, n, ls, op.left, m, rs, op.right);
  }

  lemma SplitHeld(t: Words, at: nat, n: string, ls: Words, m: string, rs: Words)
    requires Holds(t, at, ([n] + ls) + ([m] + rs))
    ensures Holds(t, at, [n] + ls) && Holds(t, at + 1 + |ls|, [m] + rs)
  {
    HeldParts(t, at, [n] + ls, [m] + rs);
  }

  lemma StoreParses(t: Words, at: nat, node: NodeId, key: Utf8, value: seq<U8>)
    requires NumU16(t, at, "node") == Parsed(node, at + 1) && TextField(t, at + 1, "key") == Parsed(key, at + 2)
    requires Bytes(t, at + 2, "value", true) == Parsed(value, at + 3)
    ensures ParseRareOp("store", t, at) == Parsed(Store(node, key, value), at + 3)
  {
  }

  lemma EraseParses(t: Words, at: nat, node: NodeId, key: Utf8)
    requires NumU16(t, at, "node") == Parsed(node, at + 1) && TextField(t, at + 1, "key") == Parsed(key, at + 2)
    ensures ParseRareOp("erase", t, at) == Parsed(Erase(node, key), at + 2)
  {
  }

  lemma StoreFieldsRead(t: Words, at: nat, node: NodeId, key: Utf8, value: seq<U8>)
    requires Holds(t, at, [DecimalInt(node), ToHex(key), ToHex(value)])
    ensures ParseRareOp("store", t, at) == Parsed(Store(node, key, value), at + 3)
  {
    var w := [DecimalInt(node), ToHex(key), ToHex(value)];
    HeldAt(t, at, w, 0);
    HeldAt(t, at, w, 1);
    HeldAt(t, at, w, 2);
    NumReads(t, at, "node", 0, U16_MAX, node);
    BytesRead(t, at + 1, "key", true, key);
    BytesRead(t, at + 2, "value", true, value);
    StoreParses(t, at, node, key, value);
  }

  lemma EraseFieldsRead(t: Words, at: nat, node: NodeId, key: Utf8)
    requires Holds(t, at, [DecimalInt(node), ToHex(key)])
    ensures ParseRareOp("erase", t, at) == Parsed(Erase(node, key), at + 2)
  {
    TwoFields(t, at, DecimalInt(node), ToHex(key));
    NumReads(t, at, "node", 0, U16_MAX, node);
    BytesRead(t, at + 1, "key", true, key);
    EraseParses(t, at, node, key);
  }

  lemma SetFaultsParses(t: Words, at: nat, faults: NetFaults)
    requires Faults(t, at) == Parsed(faults, at + 6)
    ensures ParseRareOp("set_faults", t, at) == Parsed(SetFaults(faults), at + 6)
  {
  }

  predicate IsRare(op: Op) {
    || op.Split? || op.SetFaults? || op.Skew? || op.Drift? || op.Discipline? || op.Present? || op.Store? || op.Erase?
  }

  lemma RareTags(op: Op)
    requires IsRare(op)
    ensures IsRareTag(OpTag(op))
  {
  }

  lemma SetFaultsFieldsRead(op: Op, t: Words, at: nat)
    requires op.SetFaults? && Holds(t, at, OpFields(op))
    ensures ParseRareOp(OpTag(op), t, at) == Parsed(op, at + |OpFields(op)|)
  {
    FaultsRead(t, at, op.faults);
    SetFaultsParses(t, at, op.faults);
  }

  lemma NodeFieldsRead(op: Op, t: Words, at: nat)
    requires (op.Skew? || op.Discipline? || op.Drift? || op.Present?) && Holds(t, at, OpFields(op))
    ensures ParseRareOp(OpTag(op), t, at) == Parsed(op, at + |OpFields(op)|)
  {
    match op
    case Skew(node, offset) => ClockReads(t, at, node, offset);
    case Discipline(node, offset) => ClockReads(t, at, node, offset);
    case Drift(node, ppm) => DriftFieldsRead(t, at, node, ppm);
    case Present(node, level) => PresentFieldsRead(t, at, node, level);
  }

  lemma RecordFieldsRead(op: Op, t: Words, at: nat)
    requires (op.Store? || op.Erase?) && Holds(t, at, OpFields(op))
    ensures ParseRareOp(OpTag(op), t, at) == Parsed(op, at + |OpFields(op)|)
  {
    match op
    case Store(node, key, value) => StoreFieldsRead(t, at, node, key, value);
    case Erase(node, key) => EraseFieldsRead(t, at, node, key);
  }

  /** The fields of the operations of the second half of the match. */
  lemma RareFieldsRead(op: Op, t: Words, at: nat)
    requires IsRare(op) && Holds(t, at, OpFields(op))
    ensures ParseRareOp(OpTag(op), t, at) == Parsed(op, at + |OpFields(op)|)
  {
    if op.Split? {
      SplitFieldsRead(op, t, at);
    } else if op.SetFaults? {
      SetFaultsFieldsRead(op, t, at);
    } else if op.Store? || op.Erase? {
      RecordFieldsRead(op, t, at);
    } else {
      NodeFieldsRead(op, t, at);
    }
  }

  lemma RareOpReads(op: Op, t: Words, at: nat)
    requires HoldsOp(t, at, op) && IsRare(op)
    ensures ParseOp(t, at) == Parsed(op, at + 1 + |OpFields(op)|)
  {
    RareTags(op);
    RareTag(OpTag(op), t, at);
    RareFieldsRead(op, t, at + 1);
  }

  lemma SendReads(op: Op, t: Words, at: nat)
    requires HoldsOp(t, at, op) && (op.Send? || op.Multicast?)
    ensures ParseOp(t, at) == Parsed(op, at + 1 + |OpFields(op)|)
  {
    var w := OpFields(op);
    HeldAt(t, at + 1, w, 0);
    HeldAt(t, at + 1, w, 1);
    HeldAt(t, at + 1, w, 2);
    NumReads(t, at + 1, "from", 0, U16_MAX, op.from);
    if op.Send? {
      NumReads(t, at + 2, "to", 0, U16_MAX, op.to);
    } else {
      NumReads(t, at + 2, "group", 0, U8_MAX, op.group);
    }
    BytesRead(t, at + 3, "bytes", true, op.bytes);
  }

  // ----------------------------------------------------------------------------- trace

  lemma PrefixReads(t: Words, at: nat, prefix: Prefix)
    requires at < |t| && t[at] == ToHex(prefix)
    ensures PrefixField(t, at) == Parsed(prefix, at + 1)
  {
    HexReads(prefix, false);
  }

  lemma EventReads(event: EventKind, t: Words, at: nat)
    requires Holds(t, at, EventWords(event))
    ensures ParseEvent(t, at) == Parsed(event, at + |EventWords(event)|)
  {
    var w := EventWords(event);
    HeldAt(t, at, w, 0);
    if |w| > 1 { HeldAt(t, at, w, 1); }
    match event
    case TickEvent =>
    case DatagramEvent(len) => NumReads(t, at + 1, "len", 0, U64_MAX, len);
    case PeerDiscovered(prefix) => PrefixReads(t, at + 1, prefix);
    case PeerLost(prefix) => PrefixReads(t, at + 1, prefix);
  }

  /** A prefix is never written as the word for the whole mesh. */
  lemma DestinationReads(to: Destination)
    ensures ParseDestination(match to case Mesh => "mesh" case Peer(prefix) => ToHex(prefix)) == Parsed(to, 0)
  {
    if to.Peer? {
      HexReads(to.prefix, false);
      assert |ToHex(to.prefix)| == 8;
    }
  }

  lemma TransportReads(transport: Transport, t: Words, at: nat)
    requires at < |t| && t[at] == match transport case Datagram => "datagram" case Reliable => "reliable"
    ensures ParseTransport(t, at) == Parsed(transport, at + 1)
  {
  }

  lemma SendingReads(action: Action, t: Words, at: nat)
    requires Holds(t, at, ActionWords(action)) && action.Sending?
    ensures ParseAction(t, at) == Parsed(action, at + 4)
  {
    var w := ActionWords(action);
    HeldAt(t, at, w, 0);
    HeldAt(t, at, w, 1);
    HeldAt(t, at, w, 2);
    HeldAt(t, at, w, 3);
    DestinationReads(action.to);
    TransportReads(action.transport, t, at + 2);
    BytesRead(t, at + 3, "datagram", false, action.datagram);
  }

  lemma TimerReads(t: Words, at: nat, inUs: U64)
    requires Holds(t, at, ["set_timer", DecimalInt(inUs)])
    ensures ParseAction(t, at) == Parsed(SetTimer(inUs), at + 2)
  {
    TwoFields(t, at, "set_timer", DecimalInt(inUs));
    NumReads(t, at + 1, "in_us", 0, U64_MAX, inUs);
  }

  lemma CorrectionReads(t: Words, at: nat, offset: I64)
    requires Holds(t, at, ["discipline", DecimalInt(offset)])
    ensures ParseAction(t, at) == Parsed(DisciplineClock(offset), at + 2)
  {
    TwoFields(t, at, "discipline", DecimalInt(offset));
    NumReads(t, at + 1, "offset_us", -0x8000_0000_0000_0000, 0x7FFF_FFFF_FFFF_FFFF, offset);
  }

  lemma RoleReads(t: Words, at: nat, role: Role, epoch: U32)
    requires Holds(t, at, ["role", RoleName(role), DecimalInt(epoch)])
    ensures ParseAction(t, at) == Parsed(RoleChanged(role, epoch), at + 3)
  {
    var w := ["role", RoleName(role), DecimalInt(epoch)];
    HeldAt(t, at, w, 0);
    HeldAt(t, at, w, 1);
    HeldAt(t, at, w, 2);
    NumReads(t, at + 2, "epoch", 0, U32_MAX, epoch);
  }

  lemma ActionReads(action: Action, t: Words, at: nat)
    requires Holds(t, at, ActionWords(action))
    ensures ParseAction(t, at) == Parsed(action, at + |ActionWords(action)|)
  {
    match action
    case SetTimer(inUs) => TimerReads(t, at, inUs);
    case Sending(_, _, _) => SendingReads(action, t, at);
    case DisciplineClock(offset) => CorrectionReads(t, at, offset);
    case RoleChanged(role, epoch) => RoleReads(t, at, role, epoch);
    case SyncLost => HeldAt(t, at, ["sync_lost"], 0);
    case SyncAcquired => HeldAt(t, at, ["sync_acquired"], 0);
  }

  lemma ErrorReads(kind: TraceKind, t: Words, at: nat)
    requires Holds(t, at, TraceWords(kind)) && (kind.NetRefused? || kind.StoreRefused? || kind.LedRefused?)
    ensures ParseTrace(t, at) == Parsed(kind, at + 2)
  {
    HeldAt(t, at, TraceWords(kind), 0);
    HeldAt(t, at, TraceWords(kind), 1);
    match kind
    case NetRefused(e) => assert ParseNetError(t, at + 1) == Parsed(e, at + 2);
    case StoreRefused(e) => assert ParseStorageError(t, at + 1) == Parsed(e, at + 2);
    case LedRefused(e) => assert ParseLedError(t, at + 1) == Parsed(e, at + 2);
  }

  lemma DigestTraceReads(kind: TraceKind, t: Words, at: nat)
    requires Holds(t, at, TraceWords(kind)) && (kind.Rx? || kind.FrameShown?)
    ensures ParseTrace(t, at) == Parsed(kind, at + |TraceWords(kind)|)
  {
    var w := TraceWords(kind);
    HeldAt(t, at, w, 0);
    HeldAt(t, at, w, 1);
    if kind.Rx? {
      HeldAt(t, at, w, 2);
      HeldAt(t, at, w, 3);
      NumReads(t, at + 1, "from", 0, U16_MAX, kind.from);
      NumReads(t, at + 2, "len", 0, U64_MAX, kind.len);
      DigestReads(t, at + 3, "digest", kind.digest);
    } else {
      DigestReads(t, at + 1, "digest", kind.digest);
    }
  }

  lemma TraceReads(kind: TraceKind, t: Words, at: nat)
    requires Holds(t, at, TraceWords(kind)) && (kind.Applied? ==> kind.tag in TAGS)
    ensures ParseTrace(t, at) == Parsed(kind, at + |TraceWords(kind)|)
  {
    match kind
    case Applied(tag) => HeldAt(t, at, TraceWords(kind), 0); HeldAt(t, at, TraceWords(kind), 1);
    case Event(event) => HeldTail(t, at, "event", EventWords(event)); EventReads(event, t, at + 1);
    case Acted(action) => HeldTail(t, at, "action", ActionWords(action)); ActionReads(action, t, at + 1);
    case Rx(_, _, _) => DigestTraceReads(kind, t, at);
    case FrameShown(_) => DigestTraceReads(kind, t, at);
    case NetRefused(_) => ErrorReads(kind, t, at);
    case StoreRefused(_) => ErrorReads(kind, t, at);
    case LedRefused(_) => ErrorReads(kind, t, at);
  }
}
