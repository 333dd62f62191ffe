/** Some lines of a recording (record.rs): the names, the order of fields and the numerals of the text form. */
module RecordingSample {
  import opened Arith
  import opened Scenarios
  import opened Recordings
  import opened Numerals
  import Elections

  lemma Digits()
    ensures DecimalInt(0) == "0" && DecimalInt(1) == "1" && DecimalInt(2) == "2" && DecimalInt(3) == "3"
    ensures DecimalInt(4) == "4" && DecimalInt(5) == "5" && DecimalInt(6) == "6" && DecimalInt(7) == "7"
    ensures DecimalInt(-2) == "-2" && DecimalInt(10) == "10" && DecimalInt(-13) == "-13"
  {
  }

  lemma SixteenDigits()
    ensures HexDigits(255, 16) == "00000000000000ff"
  {
    assert HexDigits(0, 14) == "00000000000000";
    assert HexDigits(15, 15) == HexDigits(0, 14) + ['f'];
  }

  lemma HeadPrints()
    ensures var head := HeadLines(Scenario(4, 10, [], NetFaults(1, 2, 3, 4, 5, 6), []));
            |head| == 4 && head[0] == ["lumen-sim-recording", "1"] && head[1] == ["seed", "4"]
            && head[2] == ["duration_us", "10"] && head[3] == ["faults", "1", "2", "3", "4", "5", "6"]
    ensures NodeLine(NodeSpec(1, 2, -13, 4, 5)) == ["node", "1", "2", "-13", "4", "5"]
    ensures MiddleLines(RunReport([], NetStats(1, 2, 3, 4, 5, 6, 7), 10, map[]))
            == [["end", "10"], ["stats", "1", "2", "3", "4", "5", "6", "7"]]
    ensures FramesLine(1, (2, 255)) == ["frames", "1", "2", "00000000000000ff"]
  {
    Digits();
    SixteenDigits();
    assert FaultWords(NetFaults(1, 2, 3, 4, 5, 6)) == ["1", "2", "3", "4", "5", "6"];
  }

  lemma SendPrints()
    ensures OpLine(ScriptedOp(10, Send(1, 2, [0xAB]))) == ["op", "10", "send", "1", "2", "ab"]
    ensures OpLine(ScriptedOp(10, Multicast(3, 4, []))) == ["op", "10", "multicast", "3", "4", "-"]
    ensures OpLine(ScriptedOp(10, Join(3, 4))) == ["op", "10", "join", "3", "4"]
  {
    Digits();
    assert ToHex([0xAB]) == "ab";
  }

  lemma SplitPrints()
    ensures OpLine(ScriptedOp(10, Split([6], [7, 5]))) == ["op", "10", "split", "1", "6", "2", "7", "5"]
  {
    Digits();
    assert [6][..0] == [] && [7, 5][..1] == [7] && [7][..0] == [];
    assert IdWords([6]) == ["6"] && IdWords([7]) == ["7"] && IdWords([7, 5]) == ["7", "5"];
  }

  lemma OpsPrint()
    ensures OpLine(ScriptedOp(10, Revive(5, true))) == ["op", "10", "revive", "5", "1"]
    ensures OpLine(ScriptedOp(10, Partition(5, 6))) == ["op", "10", "partition", "5", "6"]
    ensures OpLine(ScriptedOp(10, SetFaults(NetFaults(1, 2, 3, 4, 5, 6)))) == ["op", "10", "set_faults", "1", "2", "3", "4", "5", "6"]
    ensures OpLine(ScriptedOp(10, Skew(1, -2))) == ["op", "10", "skew", "1", "-2"]
    ensures OpLine(ScriptedOp(10, Present(1, 2))) == ["op", "10", "present", "1", "2"]
  {
    Digits();
  }

  lemma StorePrints()
    ensures OpLine(ScriptedOp(10, Store(1, [0x6B], [0x2C]))) == ["op", "10", "store", "1", "6b", "2c"]
  {
    Digits();
    assert ToHex([0x6B]) == "6b" && ToHex([0x2C]) == "2c";
  }

  lemma TracePrints()
    ensures TraceLine(TraceEntry(10, 1, Applied("send"))) == ["trace", "10", "1", "op", "send"]
    ensures TraceLine(TraceEntry(10, 2, Event(DatagramEvent(3)))) == ["trace", "10", "2", "event", "datagram", "3"]
    ensures TraceLine(TraceEntry(10, 2, Rx(1, 3, 255))) == ["trace", "10", "2", "rx", "1", "3", "00000000000000ff"]
    ensures TraceLine(TraceEntry(10, 2, NetRefused(NodeDown))) == ["trace", "10", "2", "net_err", "node_down"]
    ensures TraceLine(TraceEntry(10, 1, Acted(RoleChanged(Elections.Leader, 5)))) == ["trace", "10", "1", "action", "role", "leader", "5"]
  {
    Digits();
    SixteenDigits();
  }

  lemma SendingPrints()
    ensures TraceLine(TraceEntry(10, 1, Acted(Sending(Mesh, [0xFF], Reliable))))
            == ["trace", "10", "1", "action", "send", "mesh", "reliable", "ff"]
  {
    Digits();
    assert ToHex([0xFF]) == "ff";
  }
}
