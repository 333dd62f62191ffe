/**
 Time sync (sync.rs): how far off this clock is, measured by round trips.

 Offset and delay are the formulas of section 8 of RFC 5905. A burst of 32 accepted
 samples yields one correction, their median. `CorrectionsAreClose` bounds the error
 of every correction of a run by the fastest round trip known at its start.
 */
module TimeSync {
  import opened Arith
  import opened Wrappers
  import opened Sorting

  const SAMPLES_REQUIRED: nat := 32
  const RTT_TOLERANCE_EIGHTHS: nat := 12
  const RESYNC_INTERVAL_US: nat := 30_000_000
  const MISSED_TICKS_ALLOWED: nat := 3
  const TICK_PERIOD_US: nat := 1_000_000

  datatype SyncState = Unsynced | Syncing | Synced

  /** One round trip: sent, received and answered by the peer's clock, back here. */
  datatype Sample = Sample(t1: nat, t2: nat, t3: nat, t4: nat) {
    function OffsetUs(): int {
      Wrap64(HalfTowardZero((t2 - t1) + (t3 - t4)))
    }

    function RttUs(): nat {
      Max(SubSat(t4, t1) - SubSat(t3, t2), 0)
    }
  }

  datatype Outcome = Idle | Probe | Discipline(offsetUs: int) | Acquired | Lost

  datatype Machine = Machine(
    state: SyncState,
    samples: seq<int>,
    count: nat,
    minRttUs: Option<nat>,
    lastTickUs: Option<nat>,
    lastProbeUs: nat,
    appliedOffsetUs: int)
  {
    ghost predicate Valid() {
      |samples| == SAMPLES_REQUIRED && count < SAMPLES_REQUIRED
    }
  }

  function Initial(): Machine {
    Machine(Unsynced, seq(SAMPLES_REQUIRED, _ => 0), 0, None, None, 0, 0)
  }

  function Best(minRttUs: Option<nat>, rtt: nat): nat {
    if minRttUs.Some? then Min(minRttUs.value, rtt) else rtt
  }

  /** Whether a round trip is fast enough to count, against the fastest known. */
  predicate FastEnough(rtt: nat, best: nat) {
    MulSat64(rtt, 8) <= MulSat64(best, RTT_TOLERANCE_EIGHTHS)
  }

  const Ascending: (int, int) -> bool := (a, b) => a <= b

  /** The median of an even number of offsets: the middle two, averaged toward zero. */
  function Consensus(samples: seq<int>): int
    requires |samples| == SAMPLES_REQUIRED
  {
    var sorted := Sort(samples, Ascending);
    Wrap64(HalfTowardZero(sorted[SAMPLES_REQUIRED / 2 - 1] + sorted[SAMPLES_REQUIRED / 2]))
  }

  function AddSatSigned(a: int, b: int): int {
    Max(Min(a + b, 0x7FFF_FFFF_FFFF_FFFF), -0x8000_0000_0000_0000)
  }

  /** After a tick from the timebase. */
  function Ticked(s: Machine, nowUs: nat): (Machine, Outcome) {
    var t := s.(lastTickUs := Some(nowUs));
    if s.state.Unsynced? then (t.(state := Syncing, lastProbeUs := nowUs), Probe) else (t, Idle)
  }

  /** After a completed round trip. */
  function Sampled(s: Machine, nowUs: nat, sample: Sample): (Machine, Outcome)
    requires s.Valid()
  {
    var rtt := sample.RttUs();
    var best := Best(s.minRttUs, rtt);
    var t := s.(minRttUs := Some(best), lastProbeUs := nowUs);
    if !FastEnough(rtt, best) then (t, Probe)
    else
      var samples := s.samples[s.count := sample.OffsetUs()];
      if s.count + 1 < SAMPLES_REQUIRED then (t.(samples := samples, count := s.count + 1), Probe)
      else
        var correction := Consensus(samples);
        (t.(samples := samples, count := 0, state := Synced,
            appliedOffsetUs := AddSatSigned(s.appliedOffsetUs, correction)),
         if correction != 0 then Discipline(correction) else if s.state.Synced? then Idle else Acquired)
  }

  predicate TicksMissed(s: Machine, nowUs: nat) {
    s.lastTickUs.Some? && SubSat(nowUs, s.lastTickUs.value) >= TICK_PERIOD_US * MISSED_TICKS_ALLOWED
  }

  /** After time has passed. */
  function Timed(s: Machine, nowUs: nat): (Machine, Outcome) {
    if TicksMissed(s, nowUs) then
      if s.state.Unsynced? then (s, Idle) else (s.(state := Unsynced, count := 0), Lost)
    else
      match s.state
      case Unsynced => (s, Idle)
      case Syncing => (s.(lastProbeUs := nowUs), Probe)
      case Synced =>
        if SubSat(nowUs, s.lastProbeUs) >= RESYNC_INTERVAL_US then (s.(lastProbeUs := nowUs), Probe) else (s, Idle)
  }

  /** Time makes the machine probe: ticks still come, and it is syncing or due to sync again. */
  predicate ProbesInTime(s: Machine, nowUs: nat) {
    && !TicksMissed(s, nowUs)
    && (s.state.Syncing? || (s.state.Synced? && SubSat(nowUs, s.lastProbeUs) >= RESYNC_INTERVAL_US))
  }

  /** A round trip makes the machine probe: it was too slow to count, or more are needed. */
  predicate ProbesOn(s: Machine, sample: Sample) {
    !FastEnough(sample.RttUs(), Best(s.minRttUs, sample.RttUs())) || s.count + 1 < SAMPLES_REQUIRED
  }

  /** These are exactly when the machine answers with a probe. */
  lemma ProbesExactly(s: Machine, nowUs: nat, sample: Sample)
    requires s.Valid()
    ensures Timed(s, nowUs).1.Probe? <==> ProbesInTime(s, nowUs)
    ensures Sampled(s, nowUs, sample).1.Probe? <==> ProbesOn(s, sample)
  {
  }

  /** How long until the machine next has something to do. */
  function NextDeadline(s: Machine, nowUs: nat): nat {
    var resync := if s.state.Synced? then SubSat(AddSat64(s.lastProbeUs, RESYNC_INTERVAL_US), nowUs) else TICK_PERIOD_US;
    if s.state.Unsynced? || s.lastTickUs.None? then resync
    else Min(resync, SubSat(AddSat64(s.lastTickUs.value, TICK_PERIOD_US * MISSED_TICKS_ALLOWED), nowUs))
  }

  class Sync {
    var state: SyncState
    var samples: array<int>
    var count: nat
    var minRttUs: Option<nat>
    var lastTickUs: Option<nat>
    var lastProbeUs: nat
    var appliedOffsetUs: int

    function State(): Machine
      reads this, samples
    {
      Machine(state, samples[..], count, minRttUs, lastTickUs, lastProbeUs, appliedOffsetUs)
    }

    constructor ()
      ensures State() == Initial() && fresh(samples)
    {
      state := Unsynced;
      samples := new int[SAMPLES_REQUIRED](_ => 0);
      count, minRttUs, lastTickUs, lastProbeUs, appliedOffsetUs := 0, None, None, 0, 0;
    }

    method OnTick(nowUs: nat) returns (outcome: Outcome)
      modifies this
      ensures samples == old(samples)
      ensures (State(), outcome) == Ticked(old(State()), nowUs)
    {
      lastTickUs := Some(nowUs);
      if state.Unsynced? {
        state := Syncing;
        lastProbeUs := nowUs;
        return Probe;
      }
      return Idle;
    }

    /** Keep an offset, pushing the oldest out of a full buffer. */
    method Push(offset: int)
      requires count <= samples.Length == SAMPLES_REQUIRED
      modifies this`count, samples
      ensures old(count) < SAMPLES_REQUIRED ==> count == old(count) + 1 && samples[..] == old(samples[..])[old(count) := offset]
      ensures old(count) == SAMPLES_REQUIRED ==> count == old(count) && samples[..] == old(samples[..])[1..] + [offset]
    {
      if count < SAMPLES_REQUIRED {
        samples[count] := offset;
        count := count + 1;
      } else {
        forall i | 0 <= i < SAMPLES_REQUIRED {
          samples[i] := if i + 1 < SAMPLES_REQUIRED then samples[i + 1] else offset;
        }
      }
    }

    method OnSample(nowUs: nat, sample: Sample) returns (outcome: Outcome)
      requires State().Valid()
      modifies this, samples
      ensures samples == old(samples) && State().Valid()
      ensures (State(), outcome) == Sampled(old(State()), nowUs, sample)
    {
      var rtt := sample.RttUs();
      var best := Best(minRttUs, rtt);
      minRttUs := Some(best);
      if MulSat64(rtt, 8) > MulSat64(best, RTT_TOLERANCE_EIGHTHS) {
        lastProbeUs := nowUs;
        return Probe;
      }
      Push(sample.OffsetUs());
      if count < SAMPLES_REQUIRED {
        lastProbeUs := nowUs;
        return Probe;
      }
      var correction := Consensus(samples[..]);
      appliedOffsetUs := AddSatSigned(appliedOffsetUs, correction);
      var was := state;
      state := Synced;
      lastProbeUs := nowUs;
      count := 0;
      if was != Synced {
        if correction != 0 {
          return Discipline(correction);
        }
        return Acquired;
      }
      if correction != 0 {
        return Discipline(correction);
      }
      return Idle;
    }

    method OnTimer(nowUs: nat) returns (outcome: Outcome)
      modifies this
      ensures samples == old(samples)
      ensures (State(), outcome) == Timed(old(State()), nowUs)
    {
      if lastTickUs.Some? {
        if SubSat(nowUs, lastTickUs.value) >= TICK_PERIOD_US * MISSED_TICKS_ALLOWED {
          if state != Unsynced {
            state, count := Unsynced, 0;
            return Lost;
          }
          return Idle;
        }
      }
      match state {
        case Unsynced =>
        case Syncing =>
          lastProbeUs := nowUs;
          return Probe;
        case Synced =>
          if SubSat(nowUs, lastProbeUs) >= RESYNC_INTERVAL_US {
            lastProbeUs := nowUs;
            return Probe;
          }
      }
      return Idle;
    }
  }

  // ------------------------------------------------------------ one sample's error

  /** A round trip to a peer whose clock is `theta` ahead, with the given path delays. */
  ghost predicate Genuine(sample: Sample, theta: int, out: nat, back: nat) {
    && sample.t2 == sample.t1 + out + theta
    && sample.t3 >= sample.t2
    && sample.t4 == sample.t1 + out + (sample.t3 - sample.t2) + back
  }

  ghost predicate Fits64(x: int) {
    -0x8000_0000_0000_0000 <= x < 0x8000_0000_0000_0000
  }

  /** The measured delay is exact, and the offset is off by at most half of it, rounded up. */
  lemma SampleError(sample: Sample, theta: int, out: nat, back: nat)
    requires Genuine(sample, theta, out, back) && Fits64(HalfTowardZero(2 * theta + out - back))
    ensures sample.RttUs() == out + back
    ensures -((out + back + 1) / 2) <= sample.OffsetUs() - theta <= (out + back + 1) / 2
  {
    assert (sample.t2 - sample.t1) + (sample.t3 - sample.t4) == 2 * theta + out - back;
  }

  /** The filter admits up to one and a half times the fastest, unless the bound overflows a `u64`. */
  lemma FilterBound(rtt: nat, best: nat)
    requires rtt <= U64_MAX && best <= U64_MAX
    ensures FastEnough(rtt, best) <==> 2 * rtt <= 3 * best || 12 * best > U64_MAX
  {
  }

  // ------------------------------------------------------------------- the median

  /** How many of `s` lie in `lo..=hi`. */
  ghost function CountWithin(s: seq<int>, lo: int, hi: int): (n: nat)
    ensures n <= |s|
  {
    if s == [] then 0 else (if lo <= s[0] <= hi then 1 else 0) + CountWithin(s[1..], lo, hi)
  }

  lemma {:induction false} CountSplit(s: seq<int>, t: seq<int>, lo: int, hi: int)
    ensures CountWithin(s + t, lo, hi) == CountWithin(s, lo, hi) + CountWithin(t, lo, hi)
  {
    if s == [] {
      assert s + t == t;
    } else {
      CountSplit(s[1..], t, lo, hi);
      assert (s + t)[1..] == s[1..] + t;
    }
  }

  lemma {:induction false} CountNone(s: seq<int>, lo: int, hi: int)
    requires forall i :: 0 <= i < |s| ==> !(lo <= s[i] <= hi)
    ensures CountWithin(s, lo, hi) == 0
  {
    if s != [] { CountNone(s[1..], lo, hi); }
  }

  lemma {:induction false} CountByMultiset(s: seq<int>, t: seq<int>, lo: int, hi: int)
    requires multiset(s) == multiset(t)
    ensures CountWithin(s, lo, hi) == CountWithin(t, lo, hi)
  {
    if s == [] {
      assert |multiset(t)| == 0;
    } else {
      assert s[0] in multiset(t);
      var i :| 0 <= i < |t| && t[i] == s[0];
      assert t == t[..i] + ([s[0]] + t[i + 1..]);
      TailMultiset(s);
      assert multiset(t[..i] + t[i + 1..]) == multiset(s[1..]);
      CountByMultiset(s[1..], t[..i] + t[i + 1..], lo, hi);
      CountSplit(t[..i], t[i + 1..], lo, hi);
      CountSplit(t[..i], [s[0]] + t[i + 1..], lo, hi);
    }
  }

  /** If more than half of the elements lie in a range, so do the middle ones. */
  lemma MiddleWithin(samples: seq<int>, lo: int, hi: int)
    requires |samples| == SAMPLES_REQUIRED && CountWithin(samples, lo, hi) >= 17
    ensures var sorted := Sort(samples, Ascending);
            lo <= sorted[15] <= sorted[16] <= hi
  {
    var sorted := Sort(samples, Ascending);
    SortSorted(samples, Ascending);
    CountByMultiset(samples, sorted, lo, hi);
    assert Ascending(sorted[15], sorted[16]);
    CountSplit(sorted[..16], sorted[16..], lo, hi);
    assert sorted == sorted[..16] + sorted[16..];
    if sorted[15] < lo {
      forall i | 0 <= i < 16 ensures sorted[..16][i] < lo {
        assert i < 15 ==> Ascending(sorted[i], sorted[15]);
      }
      CountNone(sorted[..16], lo, hi);
    }
    if sorted[16] > hi {
      forall i | 0 <= i < 16 ensures sorted[16..][i] > hi {
        assert i > 0 ==> Ascending(sorted[16], sorted[16 + i]);
      }
      CountNone(sorted[16..], lo, hi);
    }
  }

  /** The correction lies in every range that holds at least 17 of the 32 offsets. */
  lemma MedianIsRobust(samples: seq<int>, lo: int, hi: int)
    requires |samples| == SAMPLES_REQUIRED && Fits64(lo) && Fits64(hi)
    requires CountWithin(samples, lo, hi) >= 17
    ensures lo <= Consensus(samples) <= hi
  {
    var sorted := Sort(samples, Ascending);
    MiddleWithin(samples, lo, hi);
    AverageWithin(sorted[15], sorted[16], lo, hi);
  }

  lemma AverageWithin(a: int, b: int, lo: int, hi: int)
    requires lo <= a <= b <= hi && Fits64(lo) && Fits64(hi)
    ensures lo <= Wrap64(HalfTowardZero(a + b)) <= hi
  {
  }

  lemma SortedConsensus(s: seq<int>)
    requires |s| == SAMPLES_REQUIRED && Sorted(s, Ascending)
    ensures Consensus(s) == Wrap64(HalfTowardZero(s[15] + s[16]))
  {
    SortSorted(s, Ascending);
    SortedUnique(s, Sort(s, Ascending), Ascending);
  }

  /** Sixteen outliers of 32 are enough to move it. */
  lemma HalfIsNotEnough()
    ensures exists samples ::
      |samples| == SAMPLES_REQUIRED && CountWithin(samples, 0, 0) == 16 && Consensus(samples) > 0
  {
    var zeros, tens := seq(16, _ => 0), seq(16, _ => 10);
    CountSplit(zeros, tens, 0, 0);
    CountAll(zeros, 0, 0);
    CountNone(tens, 0, 0);
    SortedConsensus(zeros + tens);
  }

  lemma {:induction false} CountAll(s: seq<int>, lo: int, hi: int)
    requires forall i :: 0 <= i < |s| ==> lo <= s[i] <= hi
    ensures CountWithin(s, lo, hi) == |s|
  {
    if s != [] { CountAll(s[1..], lo, hi); }
  }

  // ------------------------------------------------------------------ whole runs

  datatype SyncEvent =
    | TickSeen(nowUs: nat)
    | SampleSeen(nowUs: nat, sample: Sample)
    | TimePassed(nowUs: nat)

  function Next(s: Machine, e: SyncEvent): (Machine, Outcome)
    requires s.Valid()
  {
    match e
    case TickSeen(nowUs) => Ticked(s, nowUs)
    case SampleSeen(nowUs, sample) => Sampled(s, nowUs, sample)
    case TimePassed(nowUs) => Timed(s, nowUs)
  }

  function AfterRun(s: Machine, run: seq<SyncEvent>): Machine
    requires s.Valid()
    decreases |run|
  {
    if run == [] then s else AfterRun(Next(s, run[0]).0, run[1..])
  }

  /** The corrections a run asks for, in order. */
  ghost function Corrections(s: Machine, run: seq<SyncEvent>): seq<int>
    requires s.Valid()
    decreases |run|
  {
    if run == [] then []
    else
      var (t, outcome) := Next(s, run[0]);
      (if outcome.Discipline? then [outcome.offsetUs] else []) + Corrections(t, run[1..])
  }

  /** The worst error of an accepted sample when `best` is the fastest round trip known. */
  function ErrorBound(best: nat): nat {
    (3 * best / 2 + 1) / 2
  }

  ghost predicate Near(x: int, theta: int, bound: nat) {
    theta - bound <= x <= theta + bound
  }

  /** Every offset collected so far is near `theta`, and a round trip of `best` is known. */
  ghost predicate Collecting(s: Machine, theta: int, best: nat) {
    && s.Valid()
    && s.minRttUs.Some? && s.minRttUs.value <= best
    && forall i :: 0 <= i < s.count ==> Near(s.samples[i], theta, ErrorBound(best))
  }

  /** A genuine round trip, of times a node can hold. */
  ghost predicate Fair(sample: Sample, theta: int, out: nat, back: nat) {
    Genuine(sample, theta, out, back) && Fits64(HalfTowardZero(2 * theta + out - back)) && out + back <= U64_MAX
  }

  /** A round trip to a peer whose clock is `theta` ahead, over paths of some delay. */
  ghost predicate RoundTrip(sample: Sample, theta: int) {
    exists out: nat, back: nat :: Fair(sample, theta, out, back)
  }

  ghost predicate RealSample(e: SyncEvent, theta: int) {
    e.SampleSeen? ==> RoundTrip(e.sample, theta)
  }

  /** What the theorems ask of the true offset and the fastest known round trip. */
  ghost predicate Measurable(theta: int, best: nat) {
    12 * best <= U64_MAX && Fits64(theta - ErrorBound(best)) && Fits64(theta + ErrorBound(best))
  }

  lemma AcceptedIsNear(sample: Sample, theta: int, fastest: nat, best: nat)
    requires RoundTrip(sample, theta) && fastest <= best && 12 * best <= U64_MAX
    requires FastEnough(sample.RttUs(), fastest)
    ensures Near(sample.OffsetUs(), theta, ErrorBound(best))
  {
    var out: nat, back: nat :| Fair(sample, theta, out, back);
    SampleError(sample, theta, out, back);
    FilterBound(out + back, fastest);
  }

  lemma ConsensusIsNear(samples: seq<int>, theta: int, best: nat)
    requires |samples| == SAMPLES_REQUIRED && Measurable(theta, best)
    requires forall i :: 0 <= i < |samples| ==> Near(samples[i], theta, ErrorBound(best))
    ensures Near(Consensus(samples), theta, ErrorBound(best))
  {
    CountAll(samples, theta - ErrorBound(best), theta + ErrorBound(best));
    MedianIsRobust(samples, theta - ErrorBound(best), theta + ErrorBound(best));
  }

  lemma NextStaysNear(s: Machine, e: SyncEvent, theta: int, best: nat)
    requires Collecting(s, theta, best) && RealSample(e, theta) && Measurable(theta, best)
    ensures Collecting(Next(s, e).0, theta, best)
    ensures Next(s, e).1.Discipline? ==> Near(Next(s, e).1.offsetUs, theta, ErrorBound(best))
  {
    if e.SampleSeen? {
      var fastest := Best(s.minRttUs, e.sample.RttUs());
      if FastEnough(e.sample.RttUs(), fastest) {
        AcceptedIsNear(e.sample, theta, fastest, best);
        if s.count + 1 == SAMPLES_REQUIRED {
          ConsensusIsNear(s.samples[s.count := e.sample.OffsetUs()], theta, best);
        }
      }
    }
  }

  /**
   With a constant true offset and any path delays, every correction of a run is off by
   at most half of one and a half times the fastest round trip known at its start.
   */
  lemma {:induction false} CorrectionsAreClose(s: Machine, run: seq<SyncEvent>, theta: int, best: nat)
    requires Collecting(s, theta, best) && forall e :: e in run ==> RealSample(e, theta)
    requires Measurable(theta, best)
    ensures forall c :: c in Corrections(s, run) ==> Near(c, theta, ErrorBound(best))
    decreases |run|
  {
    if run != [] {
      NextStaysNear(s, run[0], theta, best);
      CorrectionsAreClose(Next(s, run[0]).0, run[1..], theta, best);
    }
  }

  /** A machine that has seen no round trip yet, as a new one. */
  predicate Unmeasured(s: Machine) {
    |s.samples| == SAMPLES_REQUIRED && s.count == 0 && s.minRttUs.None?
  }

  /** The delay of the first round trip of a run. */
  function FirstRtt(run: seq<SyncEvent>): Option<nat>
    decreases |run|
  {
    if run == [] then None
    else if run[0].SampleSeen? then Some(run[0].sample.RttUs())
    else FirstRtt(run[1..])
  }

  lemma FirstSampleIsKept(s: Machine, nowUs: nat, sample: Sample, theta: int)
    requires Unmeasured(s) && RoundTrip(sample, theta) && 12 * sample.RttUs() <= U64_MAX
    ensures Collecting(Sampled(s, nowUs, sample).0, theta, sample.RttUs())
    ensures !Sampled(s, nowUs, sample).1.Discipline?
  {
    AcceptedIsNear(sample, theta, sample.RttUs(), sample.RttUs());
  }

  /**
   From a new machine on: every correction is off by at most half of one and a half times the
   first round trip, and without a round trip there is none.
   */
  lemma {:induction false} AllCorrectionsAreClose(s: Machine, run: seq<SyncEvent>, theta: int)
    requires Unmeasured(s) && forall e :: e in run ==> RealSample(e, theta)
    ensures FirstRtt(run).None? ==> Corrections(s, run) == []
    ensures FirstRtt(run).Some? && Measurable(theta, FirstRtt(run).value) ==>
      forall c :: c in Corrections(s, run) ==> Near(c, theta, ErrorBound(FirstRtt(run).value))
    decreases |run|
  {
    if run != [] {
      var e, rest := run[0], run[1..];
      if !e.SampleSeen? {
        AllCorrectionsAreClose(Next(s, e).0, rest, theta);
      } else if Measurable(theta, e.sample.RttUs()) {
        assert RealSample(e, theta);
        FirstSampleIsKept(s, e.nowUs, e.sample, theta);
        CorrectionsAreClose(Next(s, e).0, rest, theta, e.sample.RttUs());
      }
    }
  }

  // ------------------------------------------------------------ corrections applied

  /** The offset that is left once what the machine asked for has been done. */
  function Left(theta: int, outcome: Outcome): int {
    if outcome.Discipline? then theta - outcome.offsetUs else theta
  }

  /** Each round trip of the run is one at the offset there is when it is taken. */
  ghost predicate RealRun(s: Machine, theta: int, run: seq<SyncEvent>)
    requires s.Valid()
    decreases |run|
  {
    run == [] ||
    (var (t, outcome) := Next(s, run[0]);
     RealSample(run[0], theta) && RealRun(t, Left(theta, outcome), run[1..]))
  }

  function Sum(corrections: seq<int>): int {
    if corrections == [] then 0 else corrections[0] + Sum(corrections[1..])
  }

  ghost predicate Small(theta: int, bound: nat) {
    -(bound as int) <= theta && theta <= bound
  }

  /** What a machine that has met a round trip of `best` keeps while its corrections are applied. */
  ghost predicate Closing(s: Machine, theta: int, best: nat) {
    && Collecting(s, theta, best) && Measurable(theta, best)
    && (s.state.Synced? ==> Small(theta, ErrorBound(best)))
  }

  lemma NextCloses(s: Machine, e: SyncEvent, theta: int, best: nat)
    requires Closing(s, theta, best) && RealSample(e, theta)
    ensures Closing(Next(s, e).0, Left(theta, Next(s, e).1), best)
  {
    NextStaysNear(s, e, theta, best);
    if e.SampleSeen? {
      var fastest := Best(s.minRttUs, e.sample.RttUs());
      if FastEnough(e.sample.RttUs(), fastest) && s.count + 1 == SAMPLES_REQUIRED {
        AcceptedIsNear(e.sample, theta, fastest, best);
        ConsensusIsNear(s.samples[s.count := e.sample.OffsetUs()], theta, best);
      }
    }
  }

  lemma {:induction false} RunCloses(s: Machine, theta: int, run: seq<SyncEvent>, best: nat)
    requires Closing(s, theta, best) && RealRun(s, theta, run)
    ensures Closing(AfterRun(s, run), theta - Sum(Corrections(s, run)), best)
    decreases |run|
  {
    if run != [] {
      var (t, outcome) := Next(s, run[0]);
      NextCloses(s, run[0], theta, best);
      RunCloses(t, Left(theta, outcome), run[1..], best);
      FirstCorrection(s, run);
    }
  }

  lemma FirstCorrection(s: Machine, run: seq<SyncEvent>)
    requires s.Valid() && run != []
    ensures var (t, outcome) := Next(s, run[0]);
            Sum(Corrections(s, run)) == (if outcome.Discipline? then outcome.offsetUs else 0) + Sum(Corrections(t, run[1..]))
  {
    var (t, outcome) := Next(s, run[0]);
    var rest := Corrections(t, run[1..]);
    if outcome.Discipline? {
      assert Corrections(s, run) == [outcome.offsetUs] + rest;
      assert ([outcome.offsetUs] + rest)[1..] == rest;
    } else {
      assert Corrections(s, run) == [] + rest == rest;
    }
  }

  /**
   With every correction applied as it is asked for: whenever a new machine is synced, what is
   left of its offset is at most half of one and a half times the first round trip, for good.
   */
  lemma {:induction false} SyncedIsClose(s: Machine, theta: int, run: seq<SyncEvent>)
    requires Unmeasured(s) && !s.state.Synced? && RealRun(s, theta, run)
    requires FirstRtt(run).Some? ==> Measurable(theta, FirstRtt(run).value)
    ensures AfterRun(s, run).state.Synced? ==>
      FirstRtt(run).Some? && Small(theta - Sum(Corrections(s, run)), ErrorBound(FirstRtt(run).value))
    decreases |run|
  {
    if run != [] {
      var e, rest := run[0], run[1..];
      FirstCorrection(s, run);
      if e.SampleSeen? {
        FirstSampleIsKept(s, e.nowUs, e.sample, theta);
        RunCloses(Next(s, e).0, theta, rest, e.sample.RttUs());
      } else {
        SyncedIsClose(Next(s, e).0, theta, rest);
      }
    }
  }
}
