/** Whole recordings: `from_text` undoes `to_text`, and comments are free. */
module RecordingRoundTrip {
  import opened Arith
  import opened Wrappers
  import opened Growing
  import opened Text
  import opened Numerals
  import opened Scenarios
  import opened Recordings
  import opened RecordingParser
  import opened RecordingLaws
  import OrderedKeys

  // ----------------------------------------------------------------------- one line

  /** A line as it is printed: words, the first of them no comment. */
  ghost predicate IsLine(w: Words) {
    w != [] && AllWords(w) && w[0] != [] && w[0][0] != '#'
  }

  lemma {:induction false} JoinedChars(words: Words)
    requires AllWords(words) && words != []
    ensures Text.Join(words) != [] && !IsWhite(Text.Join(words)[|Text.Join(words)| - 1])
    ensures forall c :: c in Text.Join(words) ==> !IsWhite(c) || c == ' '
  {
    assert words[0] in words && forall i :: 0 <= i < |words[0]| ==> words[0][i] in words[0];
    if |words| > 1 {
      JoinedChars(words[1..]);
      assert Text.Join(words) == words[0] + " " + Text.Join(words[1..]);
    }
  }

  /** A printed line reads as its words. */
  lemma PrintedLineReads(w: Words, d: Draft, line: nat)
    requires IsLine(w)
    ensures ParseLine(d, Text.Join(w), line)
            == match ParseWords(d, w) case Parsed(next, _) => Ok(next) case Failed(problem) => Err(ParseError(line, problem))
  {
    SplitJoin(w);
    TrimmedWords(Text.Join(w));
  }

  /** The lines of the text are the printed lines. */
  lemma {:induction false} PrintedLines(ls: seq<Words>)
    requires forall w :: w in ls ==> IsLine(w)
    ensures Printed(ls) == [] || Printed(ls)[|Printed(ls)| - 1] == '\n'
    ensures Lines(Printed(ls)) == JoinEach(ls)
  {
    if ls != [] {
      var before, w := ls[..|ls| - 1], ls[|ls| - 1];
      assert w in ls && before + [w] == ls;
      PrintedLines(before);
      PrintedLast(before, w);
    }
  }

  function JoinEach(ls: seq<Words>): (r: seq<string>)
    ensures |r| == |ls| && forall k :: 0 <= k < |ls| ==> r[k] == Text.Join(ls[k])
  {
    if ls == [] then [] else JoinEach(ls[..|ls| - 1]) + [Text.Join(ls[|ls| - 1])]
  }

  lemma PrintedLast(before: seq<Words>, w: Words)
    requires IsLine(w)
    requires Printed(before) == [] || Printed(before)[|Printed(before)| - 1] == '\n'
    ensures Printed(before + [w]) == Printed(before) + (Text.Join(w) + "\n")
    ensures Lines(Printed(before + [w])) == Lines(Printed(before)) + [Text.Join(w)]
  {
    var text := Text.Join(w);
    PrintedSnoc(before, w);
    assert Printed(before) + text + "\n" == Printed(before) + (text + "\n");
    JoinedChars(w);
    LinesAppend(Printed(before), text + "\n");
    OneLine(text);
  }

  lemma OneLine(text: string)
    requires '\n' !in text && (text == [] || text[|text| - 1] != '\r')
    ensures Lines(text + "\n") == [text]
  {
    var s := text + "\n";
    LinesCut(s, |text|);
    assert s[..|text|] == text && s[|text| + 1..] == [];
  }

  // ------------------------------------------------------------------------ all lines

  /** The draft after lines given as their words. */
  function ParseAll(ls: seq<Words>): Result<Draft, ParseError> {
    if ls == [] then Ok(BLANK)
    else
      match ParseAll(ls[..|ls| - 1])
      case Err(error) => Err(error)
      case Ok(d) =>
        match ParseWords(d, ls[|ls| - 1])
        case Parsed(next, _) => Ok(next)
        case Failed(problem) => Err(ParseError(|ls|, problem))
  }

  lemma {:induction false} LinesReadAsWords(lines: seq<string>, ls: seq<Words>)
    requires |lines| == |ls| && forall k :: 0 <= k < |ls| ==> lines[k] == Text.Join(ls[k]) && IsLine(ls[k])
    ensures ParseLines(lines) == ParseAll(ls)
  {
    if ls != [] {
      var last := |ls| - 1;
      LinesReadAsWords(lines[..last], ls[..last]);
      if ParseAll(ls[..last]).Ok? {
        PrintedLineReads(ls[last], ParseAll(ls[..last]).value, |lines|);
      }
    }
  }

  lemma OneMore(ls: seq<Words>, w: Words, d: Draft, next: Draft, at: nat)
    requires ParseAll(ls) == Ok(d) && ParseWords(d, w) == Parsed(next, at)
    ensures ParseAll(ls + [w]) == Ok(next)
  {
    assert (ls + [w])[..|ls|] == ls;
  }

  // ------------------------------------------------------------------------- the parts

  lemma HeaderReads()
    ensures ParseAll([[HEADER, DecimalInt(FORMAT_VERSION)]]) == Ok(BLANK.(sawHeader := true))
  {
    var t := [HEADER, DecimalInt(FORMAT_VERSION)];
    NumReads(t, 1, "version", 0, U32_MAX, FORMAT_VERSION);
    assert ParseWords(BLANK, t) == Parsed(BLANK.(sawHeader := true), 2);
    OneMore([], t, BLANK, BLANK.(sawHeader := true), 2);
    assert [] + [t] == [t];
  }

  lemma SeedReads(ls: seq<Words>, d: Draft, seed: U64)
    requires ParseAll(ls) == Ok(d)
    ensures ParseAll(ls + [["seed", DecimalInt(seed)]]) == Ok(d.(seed := Some(seed)))
  {
    var t := ["seed", DecimalInt(seed)];
    NumReads(t, 1, "seed", 0, U64_MAX, seed);
    assert ParseWords(d, t) == Parsed(d.(seed := Some(seed)), 2);
    OneMore(ls, t, d, d.(seed := Some(seed)), 2);
  }

  lemma DurationReads(ls: seq<Words>, d: Draft, duration: U64)
    requires ParseAll(ls) == Ok(d)
    ensures ParseAll(ls + [["duration_us", DecimalInt(duration)]]) == Ok(d.(durationUs := Some(duration)))
  {
    var t := ["duration_us", DecimalInt(duration)];
    NumReads(t, 1, "duration_us", 0, U64_MAX, duration);
    assert ParseWords(d, t) == Parsed(d.(durationUs := Some(duration)), 2);
    OneMore(ls, t, d, d.(durationUs := Some(duration)), 2);
  }

  lemma FaultsLineReads(ls: seq<Words>, d: Draft, faults: NetFaults)
    requires ParseAll(ls) == Ok(d)
    ensures ParseAll(ls + [["faults"] + FaultWords(faults)]) == Ok(d.(faults := faults))
  {
    var t := ["faults"] + FaultWords(faults);
    assert t[1..1 + 6] == FaultWords(faults);
    FaultsRead(t, 1, faults);
    assert ParseWords(d, t) == Parsed(d.(faults := faults), 7);
    OneMore(ls, t, d, d.(faults := faults), 7);
  }

  lemma HeadReads(s: Scenario)
    ensures ParseAll(HeadLines(s)) == Ok(BLANK.(sawHeader := true, seed := Some(s.seed),
                                               durationUs := Some(s.durationUs), faults := s.faults))
  {
    var ls := HeadLines(s);
    var d := BLANK.(sawHeader := true);
    HeaderReads();
    SeedReads([ls[0]], d, s.seed);
    SeedThenDuration(s, [ls[0], ls[1]], d.(seed := Some(s.seed)));
    assert [ls[0]] + [ls[1]] == [ls[0], ls[1]] && [ls[0], ls[1]] + [ls[2]] + [ls[3]] == ls;
  }

  lemma SeedThenDuration(s: Scenario, ls: seq<Words>, d: Draft)
    requires ParseAll(ls) == Ok(d)
    ensures ParseAll(ls + [["duration_us", DecimalInt(s.durationUs)]] + [["faults"] + FaultWords(s.faults)])
            == Ok(d.(durationUs := Some(s.durationUs), faults := s.faults))
  {
    DurationReads(ls, d, s.durationUs);
    FaultsLineReads(ls + [["duration_us", DecimalInt(s.durationUs)]], d.(durationUs := Some(s.durationUs)), s.faults);
  }

  lemma NodeReads(d: Draft, n: NodeSpec)
    ensures ParseWords(d, NodeLine(n)) == Parsed(d.(nodes := d.nodes + [n]), 6)
  {
    var t := NodeLine(n);
    NumReads(t, 1, "id", 0, U16_MAX, n.id);
    NumReads(t, 2, "pixel_count", 0, U64_MAX, n.pixelCount);
    NumReads(t, 3, "skew_us", -0x8000_0000_0000_0000, 0x7FFF_FFFF_FFFF_FFFF, n.skewUs);
    NumReads(t, 4, "drift_ppm", -0x8000_0000, 0x7FFF_FFFF, n.driftPpm);
    NumReads(t, 5, "storage_capacity", 0, U64_MAX, n.storageCapacity);
    assert ParseNode(t, 1) == Parsed(n, 6);
  }

  lemma NodeAdds(ls: seq<Words>, d: Draft, x: NodeSpec)
    requires ParseAll(ls) == Ok(d)
    ensures ParseAll(ls + [NodeLine(x)]) == Ok(d.(nodes := d.nodes + [x]))
  {
    NodeReads(d, x);
    OneMore(ls, NodeLine(x), d, d.(nodes := d.nodes + [x]), 6);
  }

  lemma {:induction false} NodesRead(ls: seq<Words>, d: Draft, nodes: seq<NodeSpec>)
    requires ParseAll(ls) == Ok(d)
    ensures ParseAll(ls + NodeLines(nodes)) == Ok(d.(nodes := d.nodes + nodes))
  {
    if nodes == [] {
      assert ls + NodeLines(nodes) == ls && d.nodes + nodes == d.nodes;
    } else {
      var before, x := nodes[..|nodes| - 1], nodes[|nodes| - 1];
      var mid := d.(nodes := d.nodes + before);
      NodesRead(ls, d, before);
      NodeAdds(ls + NodeLines(before), mid, x);
      AppendSnoc(ls, NodeLines(before), NodeLine(x));
      AppendSnoc(d.nodes, before, x);
      SplitLast(nodes);
    }
  }

  lemma OpLineReads(d: Draft, s: ScriptedOp)
    ensures ParseWords(d, OpLine(s)) == Parsed(d.(script := d.script + [s]), |OpLine(s)|)
  {
    var t := OpLine(s);
    NumReads(t, 1, "at_us", 0, U64_MAX, s.atUs);
    assert t[3..3 + |OpFields(s.op)|] == OpFields(s.op);
    OpReads(s.op, t, 2);
  }

  lemma OpAdds(ls: seq<Words>, d: Draft, x: ScriptedOp)
    requires ParseAll(ls) == Ok(d)
    ensures ParseAll(ls + [OpLine(x)]) == Ok(d.(script := d.script + [x]))
  {
    OpLineReads(d, x);
    OneMore(ls, OpLine(x), d, d.(script := d.script + [x]), |OpLine(x)|);
  }

  lemma {:induction false} OpsRead(ls: seq<Words>, d: Draft, script: seq<ScriptedOp>)
    requires ParseAll(ls) == Ok(d)
    ensures ParseAll(ls + OpLines(script)) == Ok(d.(script := d.script + script))
  {
    if script == [] {
      assert ls + OpLines(script) == ls && d.script + script == d.script;
    } else {
      var before, x := script[..|script| - 1], script[|script| - 1];
      var mid := d.(script := d.script + before);
      OpsRead(ls, d, before);
      OpAdds(ls + OpLines(before), mid, x);
      AppendSnoc(ls, OpLines(before), OpLine(x));
      AppendSnoc(d.script, before, x);
      SplitLast(script);
    }
  }

  lemma StatsReads(d: Draft, s: NetStats)
    ensures ParseWords(d, StatsLine(s)) == Parsed(d.(stats := s), 8)
  {
    var t := StatsLine(s);
    NumReads(t, 1, "sent", 0, U64_MAX, s.sent);
    NumReads(t, 2, "delivered", 0, U64_MAX, s.delivered);
    NumReads(t, 3, "dropped_loss", 0, U64_MAX, s.droppedLoss);
    NumReads(t, 4, "dropped_partition", 0, U64_MAX, s.droppedPartition);
    NumReads(t, 5, "dropped_unreachable", 0, U64_MAX, s.droppedUnreachable);
    NumReads(t, 6, "duplicated", 0, U64_MAX, s.duplicated);
    NumReads(t, 7, "reordered", 0, U64_MAX, s.reordered);
    assert ParseStats(t, 1) == Parsed(s, 8);
  }

  lemma MiddleReads(ls: seq<Words>, d: Draft, r: RunReport)
    requires ParseAll(ls) == Ok(d)
    ensures ParseAll(ls + MiddleLines(r)) == Ok(d.(endUs := r.endUs, stats := r.stats))
  {
    var end := ["end", DecimalInt(r.endUs)];
    var mid := d.(endUs := r.endUs);
    NumReads(end, 1, "end", 0, U64_MAX, r.endUs);
    assert ParseWords(d, end) == Parsed(mid, 2);
    OneMore(ls, end, d, mid, 2);
    StatsReads(mid, r.stats);
    OneMore(ls + [end], StatsLine(r.stats), mid, mid.(stats := r.stats), 8);
    assert ls + MiddleLines(r) == ls + [end] + [StatsLine(r.stats)];
  }

  lemma FramesLineReads(d: Draft, node: NodeId, shown: (U64, U64))
    ensures ParseWords(d, FramesLine(node, shown)) == Parsed(d.(frames := d.frames[node := shown]), 4)
  {
    var t := FramesLine(node, shown);
    NumReads(t, 1, "node", 0, U16_MAX, node);
    NumReads(t, 2, "count", 0, U64_MAX, shown.0);
    DigestReads(t, 3, "digest", shown.1);
  }

  /** The frames of the nodes in `keys`. */
  function FramesOf(frames: map<NodeId, (U64, U64)>, keys: seq<nat>): map<NodeId, (U64, U64)> {
    map k | k in frames && k in keys :: frames[k]
  }

  lemma FramesAdd(ls: seq<Words>, d: Draft, node: NodeId, shown: (U64, U64))
    requires ParseAll(ls) == Ok(d)
    ensures ParseAll(ls + [FramesLine(node, shown)]) == Ok(d.(frames := d.frames[node := shown]))
  {
    FramesLineReads(d, node, shown);
    OneMore(ls, FramesLine(node, shown), d, d.(frames := d.frames[node := shown]), 4);
  }

  lemma {:induction false} FramesRead(ls: seq<Words>, d: Draft, frames: map<NodeId, (U64, U64)>, keys: seq<nat>)
    requires ParseAll(ls) == Ok(d) && d.frames == map[] && forall k :: k in keys ==> k in frames
    ensures ParseAll(ls + FramesLines(frames, keys)) == Ok(d.(frames := FramesOf(frames, keys)))
  {
    if keys == [] {
      assert ls + FramesLines(frames, keys) == ls;
      assert FramesOf(frames, keys) == d.frames;
    } else {
      var before, node := keys[..|keys| - 1], keys[|keys| - 1];
      var mid := d.(frames := FramesOf(frames, before));
      FramesRead(ls, d, frames, before);
      FramesGrow(frames, keys);
      FramesAdd(ls + FramesLines(frames, before), mid, node, frames[node]);
      AppendSnoc(ls, FramesLines(frames, before), FramesLine(node, frames[node]));
    }
  }

  lemma FramesGrow(frames: map<NodeId, (U64, U64)>, keys: seq<nat>)
    requires keys != [] && forall k :: k in keys ==> k in frames
    ensures keys[|keys| - 1] in frames
    ensures var before, node := keys[..|keys| - 1], keys[|keys| - 1];
            FramesOf(frames, before)[node := frames[node]] == FramesOf(frames, keys)
  {
    assert keys[|keys| - 1] in keys;
    assert keys == keys[..|keys| - 1] + [keys[|keys| - 1]];
  }

  ghost predicate TagsKnown(trace: seq<TraceEntry>) {
    forall e :: e in trace && e.kind.Applied? ==> e.kind.tag in TAGS
  }

  lemma TraceLineReads(d: Draft, e: TraceEntry)
    requires e.kind.Applied? ==> e.kind.tag in TAGS
    ensures ParseWords(d, TraceLine(e)) == Parsed(d.(trace := d.trace + [e]), |TraceLine(e)|)
  {
    var t := TraceLine(e);
    NumReads(t, 1, "at_us", 0, U64_MAX, e.atUs);
    NumReads(t, 2, "node", 0, U16_MAX, e.node);
    assert t[3..3 + |TraceWords(e.kind)|] == TraceWords(e.kind);
    TraceReads(e.kind, t, 3);
  }

  lemma TraceAdds(ls: seq<Words>, d: Draft, x: TraceEntry)
    requires ParseAll(ls) == Ok(d)
    requires x.kind.Applied? ==> x.kind.tag in TAGS
    ensures ParseAll(ls + [TraceLine(x)]) == Ok(d.(trace := d.trace + [x]))
  {
    TraceLineReads(d, x);
    OneMore(ls, TraceLine(x), d, d.(trace := d.trace + [x]), |TraceLine(x)|);
  }

  lemma {:induction false} TracesRead(ls: seq<Words>, d: Draft, trace: seq<TraceEntry>)
    requires ParseAll(ls) == Ok(d) && TagsKnown(trace)
    ensures ParseAll(ls + TraceLines(trace)) == Ok(d.(trace := d.trace + trace))
  {
    if trace == [] {
      assert ls + TraceLines(trace) == ls && d.trace + trace == d.trace;
    } else {
      var before, x := trace[..|trace| - 1], trace[|trace| - 1];
      var mid := d.(trace := d.trace + before);
      assert x in trace;
      TracesRead(ls, d, before);
      TraceAdds(ls + TraceLines(before), mid, x);
      AppendSnoc(ls, TraceLines(before), TraceLine(x));
      AppendSnoc(d.trace, before, x);
      SplitLast(trace);
    }
  }

  // ------------------------------------------------------------------------ the round trip

  ghost predicate AllLines(ls: seq<Words>) {
    forall w :: w in ls ==> IsLine(w)
  }

  lemma KeywordLine(keyword: string, rest: Words)
    requires IsKeyword(keyword) && AllWords(rest)
    ensures IsLine([keyword] + rest)
  {
    KeywordsAreWords();
    assert IsKeyChar(keyword[0]);
  }

  lemma HeadAreLines(s: Scenario)
    ensures AllLines(HeadLines(s))
  {
    var ls := HeadLines(s);
    NumbersAreWords();
    FaultWordsAreWords(s.faults);
    assert IsKeyword(HEADER) && IsKeyword("seed") && IsKeyword("duration_us") && IsKeyword("faults");
    KeywordLine(HEADER, [DecimalInt(FORMAT_VERSION)]);
    KeywordLine("seed", [DecimalInt(s.seed)]);
    KeywordLine("duration_us", [DecimalInt(s.durationUs)]);
    KeywordLine("faults", FaultWords(s.faults));
    assert [HEADER] + [DecimalInt(FORMAT_VERSION)] == ls[0];
    assert ["seed"] + [DecimalInt(s.seed)] == ls[1] && ["duration_us"] + [DecimalInt(s.durationUs)] == ls[2];
  }

  lemma NodeIsLine(n: NodeSpec)
    ensures IsLine(NodeLine(n))
  {
    var w := NodeLine(n);
    assert AllWords(w[1..]) by { NumbersAreWords(); }
    assert IsKeyword("node") && w == ["node"] + w[1..];
    KeywordLine("node", w[1..]);
  }

  lemma {:induction false} NodesAreLines(nodes: seq<NodeSpec>)
    ensures AllLines(NodeLines(nodes))
  {
    if nodes != [] {
      NodesAreLines(nodes[..|nodes| - 1]);
      NodeIsLine(nodes[|nodes| - 1]);
    }
  }

  lemma OpIsLine(s: ScriptedOp)
    ensures IsLine(OpLine(s))
  {
    OpWordsAreWords(s.op);
    NumberIsWord(s.atUs);
    assert IsKeyword("op") && OpLine(s) == ["op"] + ([DecimalInt(s.atUs)] + OpWords(s.op));
    KeywordLine("op", [DecimalInt(s.atUs)] + OpWords(s.op));
  }

  lemma {:induction false} OpsAreLines(script: seq<ScriptedOp>)
    ensures AllLines(OpLines(script))
  {
    if script != [] {
      OpsAreLines(script[..|script| - 1]);
      OpIsLine(script[|script| - 1]);
    }
  }

  lemma MiddleAreLines(r: RunReport)
    ensures AllLines(MiddleLines(r))
  {
    var ls := MiddleLines(r);
    assert AllWords(ls[0][1..]) && AllWords(ls[1][1..]) by { NumbersAreWords(); }
    assert IsKeyword("end") && IsKeyword("stats") && ls[0] == ["end"] + ls[0][1..] && ls[1] == ["stats"] + ls[1][1..];
    KeywordLine("end", ls[0][1..]);
    KeywordLine("stats", ls[1][1..]);
  }

  lemma FramesIsLine(node: nat, shown: (U64, U64))
    ensures IsLine(FramesLine(node, shown))
  {
    var w := FramesLine(node, shown);
    NumberIsWord(node);
    NumberIsWord(shown.0);
    DigestIsWord(shown.1);
    assert IsKeyword("frames") && w == ["frames"] + w[1..];
    KeywordLine("frames", w[1..]);
  }

  lemma {:induction false} FramesAreLines(frames: map<NodeId, (U64, U64)>, keys: seq<nat>)
    requires forall k :: k in keys ==> k in frames
    ensures AllLines(FramesLines(frames, keys))
  {
    if keys != [] {
      var last := |keys| - 1;
      FramesAreLines(frames, keys[..last]);
      FramesIsLine(keys[last], frames[keys[last]]);
    }
  }

  lemma TraceIsLine(e: TraceEntry)
    requires e.kind.Applied? ==> e.kind.tag in TAGS
    ensures IsLine(TraceLine(e))
  {
    TraceWordsAreWords(e.kind);
    NumberIsWord(e.atUs);
    NumberIsWord(e.node);
    assert IsKeyword("trace") && TraceLine(e) == ["trace"] + ([DecimalInt(e.atUs), DecimalInt(e.node)] + TraceWords(e.kind));
    KeywordLine("trace", [DecimalInt(e.atUs), DecimalInt(e.node)] + TraceWords(e.kind));
  }

  lemma {:induction false} TraceAreLines(trace: seq<TraceEntry>)
    requires TagsKnown(trace)
    ensures AllLines(TraceLines(trace))
  {
    if trace != [] {
      TraceAreLines(trace[..|trace| - 1]);
      assert trace[|trace| - 1] in trace;
      TraceIsLine(trace[|trace| - 1]);
    }
  }

  lemma RecordingAreLines(r: Recording)
    requires TagsKnown(r.report.trace)
    ensures AllLines(RecordingLines(r))
  {
    HeadAreLines(r.scenario);
    NodesAreLines(r.scenario.nodes);
    OpsAreLines(r.scenario.script);
    MiddleAreLines(r.report);
    FramesAreLines(r.report.frames, OrderedKeys.Listing(r.report.frames.Keys));
    TraceAreLines(r.report.trace);
  }

  /** The draft once the scenario is read. */
  function ScenarioDraft(s: Scenario): Draft {
    BLANK.(sawHeader := true, seed := Some(s.seed), durationUs := Some(s.durationUs), faults := s.faults,
           nodes := s.nodes, script := s.script)
  }

  lemma ScenarioReads(s: Scenario)
    ensures ParseAll(HeadLines(s) + NodeLines(s.nodes) + OpLines(s.script)) == Ok(ScenarioDraft(s))
  {
    var d := BLANK.(sawHeader := true, seed := Some(s.seed), durationUs := Some(s.durationUs), faults := s.faults);
    HeadReads(s);
    NodesRead(HeadLines(s), d, s.nodes);
    FromEmpty(s.nodes);
    FromEmpty(s.script);
    OpsRead(HeadLines(s) + NodeLines(s.nodes), d.(nodes := s.nodes), s.script);
  }

  lemma ReportReads(ls: seq<Words>, d: Draft, r: RunReport)
    requires ParseAll(ls) == Ok(d) && d.frames == map[] && d.trace == [] && TagsKnown(r.trace)
    ensures ParseAll(ls + MiddleLines(r) + FramesLines(r.frames, OrderedKeys.Listing(r.frames.Keys)) + TraceLines(r.trace))
            == Ok(d.(endUs := r.endUs, stats := r.stats, frames := r.frames, trace := r.trace))
  {
    var keys := OrderedKeys.Listing(r.frames.Keys);
    var d1 := d.(endUs := r.endUs, stats := r.stats);
    MiddleReads(ls, d, r);
    FramesRead(ls + MiddleLines(r), d1, r.frames, keys);
    assert FramesOf(r.frames, keys) == r.frames && d.trace + r.trace == r.trace;
    TracesRead(ls + MiddleLines(r) + FramesLines(r.frames, keys), d1.(frames := r.frames), r.trace);
  }

  lemma RecordingReads(r: Recording)
    requires TagsKnown(r.report.trace)
    ensures ParseAll(RecordingLines(r)).Ok? && Finished(ParseAll(RecordingLines(r)).value) == Ok(r)
  {
    var s := r.scenario;
    ScenarioReads(s);
    ReportReads(HeadLines(s) + NodeLines(s.nodes) + OpLines(s.script), ScenarioDraft(s), r.report);
  }

  /** What a parse yields names only known operations in its trace. */
  lemma {:induction false} ParsedTagsAreKnown(lines: seq<string>)
    ensures ParseLines(lines).Ok? ==> TagsKnown(ParseLines(lines).value.trace)
  {
    if lines != [] {
      ParsedTagsAreKnown(lines[..|lines| - 1]);
      if ParseLines(lines[..|lines| - 1]).Ok? {
        LineKeepsTags(ParseLines(lines[..|lines| - 1]).value, lines[|lines| - 1], |lines|);
      }
    }
  }

  lemma TraceTagIsKnown(t: Words, at: nat)
    ensures ParseTrace(t, at).Parsed? && ParseTrace(t, at).value.Applied? ==> ParseTrace(t, at).value.tag in TAGS
  {
  }

  lemma OtherWordsKeepTrace(d: Draft, t: Words)
    requires t == [] || t[0] != "trace"
    ensures ParseWords(d, t).Parsed? ==> ParseWords(d, t).value.trace == d.trace
  {
  }

  lemma TraceWordsKeepTags(d: Draft, t: Words)
    requires t != [] && t[0] == "trace" && TagsKnown(d.trace)
    ensures ParseWords(d, t).Parsed? ==> TagsKnown(ParseWords(d, t).value.trace)
  {
    TraceTagIsKnown(t, 3);
  }

  lemma LineKeepsTags(d: Draft, raw: string, line: nat)
    requires TagsKnown(d.trace)
    ensures ParseLine(d, raw, line).Ok? ==> TagsKnown(ParseLine(d, raw, line).value.trace)
  {
    var t := Text.Words(Trim(raw));
    if t != [] && t[0] == "trace" {
      TraceWordsKeepTags(d, t);
    } else {
      OtherWordsKeepTrace(d, t);
    }
  }

  lemma KnownTagsSurvive(r: Recording)
    requires TagsKnown(r.report.trace)
    ensures Read(Printed(RecordingLines(r))) == Ok(r)
  {
    var ls := RecordingLines(r);
    RecordingAreLines(r);
    PrintedLines(ls);
    LinesReadAsWords(Lines(Printed(ls)), ls);
    RecordingReads(r);
  }

  lemma ReadTagsAreKnown(text: string)
    ensures Read(text).Ok? ==> TagsKnown(Read(text).value.report.trace)
  {
    ParsedTagsAreKnown(Lines(text));
  }

  /**
   A recording survives its text form exactly when its trace names only known operations.
   Every run of the simulator does.
   */
  lemma RoundTrip(r: Recording)
    ensures Read(Printed(RecordingLines(r))) == Ok(r) <==> TagsKnown(r.report.trace)
  {
    ReadTagsAreKnown(Printed(RecordingLines(r)));
    if TagsKnown(r.report.trace) { KnownTagsSurvive(r); }
  }

  // ------------------------------------------------------------------------- comments

  /** The same result, except that an error may name another line. */
  predicate SameButLine<T(==)>(a: Result<T, ParseError>, b: Result<T, ParseError>) {
    match a
    case Ok(x) => b == Ok(x)
    case Err(e) => b.Err? && b.error.problem == e.problem
  }

  lemma {:induction false} InsertedLine(a: seq<string>, comment: string, b: seq<string>)
    requires IsSkipped(comment)
    ensures SameButLine(ParseLines(a + b), ParseLines(a + [comment] + b))
    decreases |b|
  {
    var with := a + [comment] + b;
    if b == [] {
      assert a + b == a && with[..|with| - 1] == a;
    } else {
      var last := |b| - 1;
      InsertedLine(a, comment, b[..last]);
      assert (a + b)[..|a + b| - 1] == a + b[..last];
      assert with[..|with| - 1] == a + [comment] + b[..last];
    }
  }

  /** A blank line or a comment between any two lines never changes what a text means. */
  lemma CommentsAreFree(before: string, comment: string, after: string)
    requires before == [] || before[|before| - 1] == '\n'
    requires IsSkipped(comment) && '\n' !in comment
    ensures SameButLine(Read(before + after), Read(before + (comment + "\n") + after))
  {
    LinesAppend(before, after);
    LinesAppend(before, comment + "\n");
    LinesAppend(before + (comment + "\n"), after);
    CommentLine(comment);
    InsertedLine(Lines(before), WithoutReturn(comment), Lines(after));
  }

  lemma CommentLine(comment: string)
    requires IsSkipped(comment) && '\n' !in comment
    ensures Lines(comment + "\n") == [WithoutReturn(comment)] && IsSkipped(WithoutReturn(comment))
  {
    var s := comment + "\n";
    LinesCut(s, |comment|);
    assert s[..|comment|] == comment && s[|comment| + 1..] == [];
    TrimmedWords(comment);
    if comment != [] && comment[|comment| - 1] == '\r' {
      var rest := comment[..|comment| - 1];
      assert comment == rest + ['\r'];
      WordsDropLast(rest, '\r');
      TrimmedWords(rest);
    }
  }
}
