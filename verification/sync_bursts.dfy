/**
 Bursts of time sync (sync.rs): in every run, a correction is the median of the 32 offsets gathered
 in a row since the last one or since sync was lost, none of them of a slow round trip.
 */
module SyncBursts {
  import opened Arith
  import opened Wrappers
  import opened TimeSync

  /** The run of a new machine. */
  function Now(run: seq<SyncEvent>): (s: Machine)
    ensures s.Valid()
  {
    if run == [] then Initial() else Next(Now(run[..|run| - 1]), run[|run| - 1]).0
  }

  function Said(run: seq<SyncEvent>): Outcome
    requires run != []
  {
    Next(Now(run[..|run| - 1]), run[|run| - 1]).1
  }

  lemma {:induction false} NowIsAfterRun(s: Machine, run: seq<SyncEvent>, e: SyncEvent)
    requires s.Valid()
    ensures AfterRun(s, run).Valid() && AfterRun(s, run + [e]) == Next(AfterRun(s, run), e).0
    decreases |run|
  {
    if run == [] {
      assert [e][1..] == [] && ([] + [e]) == [e];
    } else {
      assert (run + [e])[1..] == run[1..] + [e];
      NowIsAfterRun(Next(s, run[0]).0, run[1..], e);
    }
  }

  /** `Now` is the machine's own run. */
  lemma {:induction false} RunsAlike(run: seq<SyncEvent>)
    ensures Now(run) == AfterRun(Initial(), run)
  {
    if run != [] {
      var before := run[..|run| - 1];
      RunsAlike(before);
      NowIsAfterRun(Initial(), before, run[|run| - 1]);
      assert before + [run[|run| - 1]] == run;
    }
  }

  /** The fastest round trip of a run. */
  function Fastest(run: seq<SyncEvent>): Option<nat> {
    if run == [] then None
    else
      var before, e := Fastest(run[..|run| - 1]), run[|run| - 1];
      if !e.SampleSeen? || (before.Some? && before.value <= e.sample.RttUs()) then before else Some(e.sample.RttUs())
  }

  /** When the last tick of a run was heard. */
  function LastTick(run: seq<SyncEvent>): Option<nat> {
    if run == [] then None
    else if run[|run| - 1].TickSeen? then Some(run[|run| - 1].nowUs)
    else LastTick(run[..|run| - 1])
  }

  /** The last event of a run is a round trip fast enough to count, against the fastest so far. */
  predicate Counts(run: seq<SyncEvent>) {
    run != [] && run[|run| - 1].SampleSeen? && FastEnough(run[|run| - 1].sample.RttUs(), Fastest(run).value)
  }

  /** The offsets gathered so far and not yet used: a burst of 32 is used up, and so is one when sync is lost. */
  function Gathered(run: seq<SyncEvent>): seq<int> {
    if run == [] || Said(run) == Lost then []
    else
      var before := Gathered(run[..|run| - 1]);
      if !Counts(run) then before
      else if |before| == 31 then []
      else before + [run[|run| - 1].sample.OffsetUs()]
  }

  lemma {:induction false} FastestIsKnown(run: seq<SyncEvent>)
    ensures Now(run).minRttUs == Fastest(run)
    ensures Now(run).lastTickUs == LastTick(run)
  {
    if run != [] { FastestIsKnown(run[..|run| - 1]); }
  }

  ghost predicate Holds(s: Machine, offsets: seq<int>) {
    s.Valid() && s.count == |offsets| && s.samples[..s.count] == offsets
  }

  lemma SampleGathers(s: Machine, nowUs: nat, sample: Sample, offsets: seq<int>, fastest: nat)
    requires Holds(s, offsets) && fastest == Best(s.minRttUs, sample.RttUs())
    ensures var t := Sampled(s, nowUs, sample).0;
            Holds(t, if !FastEnough(sample.RttUs(), fastest) then offsets
                     else if |offsets| == 31 then [] else offsets + [sample.OffsetUs()])
  {
    var added := s.samples[s.count := sample.OffsetUs()];
    assert added[..s.count + 1] == offsets + [sample.OffsetUs()];
  }

  lemma OthersGather(s: Machine, e: SyncEvent, offsets: seq<int>)
    requires Holds(s, offsets) && !e.SampleSeen?
    ensures Holds(Next(s, e).0, if Next(s, e).1 == Lost then [] else offsets)
  {
  }

  lemma {:induction false} GatheredIsHeld(run: seq<SyncEvent>)
    ensures Holds(Now(run), Gathered(run))
  {
    if run != [] {
      var before, e := run[..|run| - 1], run[|run| - 1];
      GatheredIsHeld(before);
      FastestIsKnown(before);
      FastestIsKnown(run);
      if e.SampleSeen? {
        SampleGathers(Now(before), e.nowUs, e.sample, Gathered(before), Fastest(run).value);
      } else {
        OthersGather(Now(before), e, Gathered(before));
      }
    }
  }

  /**
   In every run of a new machine: it corrects exactly when a round trip that counts makes 32 in a
   row since the last correction or loss, and then by the median of their offsets, saying nothing
   of a correction by nothing.
   */
  lemma CorrectionsAreOfBursts(before: seq<SyncEvent>, e: SyncEvent)
    ensures var run := before + [e];
            var whole := Counts(run) && |Gathered(before)| == 31;
            && (Said(run).Discipline? <==>
                  whole && Consensus(Gathered(before) + [e.sample.OffsetUs()]) != 0)
            && (Said(run).Discipline? ==> Said(run).offsetUs == Consensus(Gathered(before) + [e.sample.OffsetUs()]))
            && (whole ==> Now(run).state.Synced?)
  {
    var run := before + [e];
    assert run[..|run| - 1] == before;
    GatheredIsHeld(before);
    FastestIsKnown(before);
    FastestIsKnown(run);
    if e.SampleSeen? && |Gathered(before)| == 31 {
      assert Now(before).samples[31 := e.sample.OffsetUs()] == Gathered(before) + [e.sample.OffsetUs()];
    }
  }

  /** Sync is lost exactly when it was there and three seconds have passed since the last tick. */
  lemma LostWhenTicksStop(before: seq<SyncEvent>, e: SyncEvent)
    ensures Said(before + [e]) == Lost <==>
      e.TimePassed? && !Now(before).state.Unsynced? && LastTick(before).Some?
      && e.nowUs >= LastTick(before).value + 3_000_000
    ensures Said(before + [e]) == Lost ==> Now(before + [e]).state.Unsynced? && Gathered(before + [e]) == []
  {
    assert (before + [e])[..|before|] == before;
    FastestIsKnown(before);
  }

  /**
   A synced machine has something to do exactly when its deadline has come, and until then time
   changes nothing; one that is not syncing at all has nothing to do; and the deadline of one that
   is syncing has come exactly when sync is lost.
   */
  lemma DeadlineIsExact(s: Machine, nowUs: nat)
    requires nowUs < U64_MAX
    ensures s.state.Synced? ==> (NextDeadline(s, nowUs) == 0 <==> Timed(s, nowUs).1 != Idle)
    ensures !s.state.Syncing? && NextDeadline(s, nowUs) > 0 ==> Timed(s, nowUs) == (s, Idle)
    ensures s.state.Syncing? ==> (NextDeadline(s, nowUs) == 0 <==> Timed(s, nowUs).1 == Lost)
    ensures NextDeadline(s, nowUs) <= 30_000_000 || s.lastProbeUs > nowUs
  {
  }
}
