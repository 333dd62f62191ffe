/**
 Source stacks (sources.rs): a priority stack with greedy admission, where what is
 shown is always recomputed from the whole stack.
 */
module Sources {
  import opened Arith
  import opened Wrappers
  import Sorting

  type Uuid = nat

  const AMBIENT_FLOOR_MAX: nat := 63
  const CONCURRENCY_FLOOR: nat := 2

  /** A whole in the 16.16 fixed-point fractions of a fade. */
  const ONE: nat := 65_536

  datatype PushError =
    | NoExpiry(priority: nat)
    | AlreadyExpired(expiresAtUs: nat)
    | NoRoom

  datatype Removal = Expired | Popped | Superseded

  /** `elapsed` of `spanMs`, as a fixed-point fraction that stops at one. */
  function Fraction(spanMs: nat, elapsedUs: nat): int {
    var span := 1_000 * spanMs;
    if elapsedUs >= span then ONE else elapsedUs * ONE / span
  }

  datatype Source = Source(
    id: Uuid,
    zone: Uuid,
    scene: Uuid,
    priority: nat,
    expiresAtUs: Option<nat>,
    fadeInMs: nat,
    fadeOutMs: nat,
    pushedAtUs: nat,
    cost: nat)
  {
    predicate IsAmbient() { priority <= AMBIENT_FLOOR_MAX }

    predicate HasExpired(nowUs: nat) { expiresAtUs.Some? && nowUs >= expiresAtUs.value }

    function FadeInAlpha(nowUs: nat): int { Fraction(fadeInMs, SubSat(nowUs, pushedAtUs)) }

    predicate Outranks(other: Source) {
      priority > other.priority || (priority == other.priority && pushedAtUs > other.pushedAtUs)
    }
  }

  datatype Fading = Fading(source: Source, startedAtUs: nat, reason: Removal) {
    function Progress(nowUs: nat): int { Fraction(source.fadeOutMs, SubSat(nowUs, startedAtUs)) }

    predicate IsDone(nowUs: nat) { Progress(nowUs) >= ONE }
  }

  datatype Change =
    | Admitted(id: Uuid)
    | Rejected(id: Uuid, cost: nat, spare: nat)
    | Removed(id: Uuid, reason: Removal)
    | FadeFinished(id: Uuid)

  lemma QuotientAtLeast(a: nat, d: nat, m: nat)
    requires d > 0 && m * d <= a
    ensures m <= a / d
  {
    var q := a / d;
    assert a < q * d + d;
    if q < m { MulMonotone(q + 1, m, d); }
  }

  lemma QuotientBelow(a: nat, d: nat, m: nat)
    requires d > 0 && a < m * d
    ensures a / d < m
  {
    var q := a / d;
    assert q * d <= a;
    if q >= m { MulMonotone(m, q, d); }
  }

  /** A fade is over exactly when its span has passed, and until then short of one. */
  lemma FadeEnds(spanMs: nat, elapsedUs: nat)
    ensures 0 <= Fraction(spanMs, elapsedUs) <= ONE
    ensures Fraction(spanMs, elapsedUs) == ONE <==> elapsedUs >= 1_000 * spanMs
  {
    var span := 1_000 * spanMs;
    if elapsedUs < span {
      QuotientAtLeast(elapsedUs * ONE, span, 0);
      QuotientBelow(elapsedUs * ONE, span, ONE);
    }
  }

  /** Until it is over, a fade is the part of its span that has passed, rounded down. */
  lemma FadeIsProportional(spanMs: nat, elapsedUs: nat)
    requires elapsedUs < 1_000 * spanMs
    ensures var span, w := 1_000 * spanMs, Fraction(spanMs, elapsedUs);
            w * span <= elapsedUs * ONE < w * span + span
  {
    var span, a := 1_000 * spanMs, elapsedUs * ONE;
    assert a / span * span <= a < a / span * span + span;
  }

  /** A fade never runs backwards. */
  lemma FadesClimb(spanMs: nat, earlier: nat, later: nat)
    requires earlier <= later
    ensures Fraction(spanMs, earlier) <= Fraction(spanMs, later)
  {
    var span := 1_000 * spanMs;
    if later < span {
      QuotientsClimb(earlier * ONE, later * ONE, span);
    } else {
      FadeEnds(spanMs, earlier);
    }
  }

  lemma QuotientsClimb(a: nat, b: nat, d: nat)
    requires a <= b && d > 0
    ensures a / d <= b / d
  {
    var q := a / d;
    assert q * d <= a;
    QuotientAtLeast(b, d, q);
  }

  // ------------------------------------------------------------------- the specification

  datatype StackState = StackState(
    active: seq<Source>,
    fading: seq<Fading>,
    budget: nat,
    maxConcurrent: nat,
    admitted: seq<Uuid>,
    rejected: seq<Uuid>)

  /** A state and the changes reported on the way to it. */
  datatype Effect = Effect(after: StackState, changes: seq<Change>)

  function Fresh(budget: nat, maxConcurrent: nat): StackState {
    StackState([], [], budget, Max(maxConcurrent, CONCURRENCY_FLOOR), [], [])
  }

  /** The order of the stack: highest priority, then most recent, then highest id. */
  predicate NotBelow(a: Source, b: Source) {
    a.priority > b.priority ||
    (a.priority == b.priority &&
     (a.pushedAtUs > b.pushedAtUs ||
      (a.pushedAtUs == b.pushedAtUs && a.id >= b.id)))
  }

  /** Where the first source with this id is. */
  function Position(active: seq<Source>, id: Uuid): (at: Option<nat>)
    ensures at.Some? ==> at.value < |active| && active[at.value].id == id
    ensures at.None? ==> forall s :: s in active ==> s.id != id
  {
    if active == [] then None
    else if active[0].id == id then Some(0)
    else
      var rest := Position(active[1..], id);
      if rest.Some? then Some(rest.value + 1) else None
  }

  function RemoveAt<T>(s: seq<T>, i: nat): seq<T>
    requires i < |s|
  {
    s[..i] + s[i + 1..]
  }

  /** What one admission pass has decided so far. */
  datatype Tally = Tally(spent: nat, admitted: seq<Uuid>, rejected: seq<Uuid>)

  predicate Fits(t: Tally, s: Source, budget: nat, maxConcurrent: nat) {
    Min(t.spent + s.cost, U32_MAX) <= budget && |t.admitted| < maxConcurrent
  }

  /** The decision on the next source down; `spent` is a `u32` that wraps. */
  function Decided(t: Tally, s: Source, budget: nat, maxConcurrent: nat): Tally {
    if Fits(t, s, budget, maxConcurrent)
    then Tally((t.spent + s.cost) % 0x1_0000_0000, t.admitted + [s.id], t.rejected)
    else t.(rejected := t.rejected + [s.id])
  }

  /** One admission pass over the stack, from the top. */
  function Tallied(active: seq<Source>, budget: nat, maxConcurrent: nat): Tally {
    if active == [] then Tally(0, [], [])
    else
      var last := |active| - 1;
      Decided(Tallied(active[..last], budget, maxConcurrent), active[last], budget, maxConcurrent)
  }

  /** What the pass reports of one source, given what was decided last time. */
  function Report(t: Tally, s: Source, budget: nat, maxConcurrent: nat, wasAdmitted: seq<Uuid>, wasRejected: seq<Uuid>)
    : seq<Change>
  {
    if Fits(t, s, budget, maxConcurrent) then
      if s.id in wasAdmitted then [] else [Admitted(s.id)]
    else
      if s.id in wasRejected then [] else [Rejected(s.id, s.cost, SubSat(budget, t.spent))]
  }

  function Reports(active: seq<Source>, budget: nat, maxConcurrent: nat, wasAdmitted: seq<Uuid>, wasRejected: seq<Uuid>)
    : seq<Change>
  {
    if active == [] then []
    else
      var last := |active| - 1;
      Reports(active[..last], budget, maxConcurrent, wasAdmitted, wasRejected)
      + Report(Tallied(active[..last], budget, maxConcurrent), active[last], budget, maxConcurrent, wasAdmitted, wasRejected)
  }

  function AfterReadmit(s: StackState): Effect {
    var t := Tallied(s.active, s.budget, s.maxConcurrent);
    Effect(s.(admitted := t.admitted, rejected := t.rejected),
           Reports(s.active, s.budget, s.maxConcurrent, s.admitted, s.rejected))
  }

  function Refusal(s: StackState, nowUs: nat, source: Source): Option<PushError> {
    if !source.IsAmbient() && source.expiresAtUs.None? then Some(NoExpiry(source.priority))
    else if source.HasExpired(nowUs) then Some(AlreadyExpired(source.expiresAtUs.value))
    else if source.cost > s.budget then Some(NoRoom)
    else None
  }

  /** The stack without the source that a push of `id` replaces. */
  function Vacated(active: seq<Source>, id: Uuid): seq<Source> {
    var at := Position(active, id);
    if at.Some? then RemoveAt(active, at.value) else active
  }

  /** The stack once `source` is in its place. */
  function Placed(active: seq<Source>, source: Source): seq<Source> {
    Sorting.Sort(Vacated(active, source.id) + [source], NotBelow)
  }

  function Replacement(active: seq<Source>, id: Uuid): seq<Change> {
    if Position(active, id).Some? then [Removed(id, Superseded)] else []
  }

  function AfterPush(s: StackState, nowUs: nat, source: Source): Effect {
    if Refusal(s, nowUs, source).Some? then Effect(s, [])
    else
      var e := AfterReadmit(s.(active := Placed(s.active, source)));
      Effect(e.after, Replacement(s.active, source.id) + e.changes)
  }

  /** The fades under way once `source` has started to leave. */
  function Leaving(fading: seq<Fading>, nowUs: nat, source: Source, reason: Removal): seq<Fading> {
    if source.fadeOutMs == 0 then fading else fading + [Fading(source, nowUs, reason)]
  }

  function LeavingChanges(source: Source, reason: Removal): seq<Change> {
    [Removed(source.id, reason)] + if source.fadeOutMs == 0 then [FadeFinished(source.id)] else []
  }

  function AfterPop(s: StackState, nowUs: nat, id: Uuid): Effect {
    var at := Position(s.active, id);
    if at.None? then Effect(s, [])
    else
      var source := s.active[at.value];
      var e := AfterReadmit(s.(active := RemoveAt(s.active, at.value),
                             fading := Leaving(s.fading, nowUs, source, Popped)));
      Effect(e.after, LeavingChanges(source, Popped) + e.changes)
  }

  function AfterRenew(s: StackState, id: Uuid, expiresAtUs: nat): StackState {
    var at := Position(s.active, id);
    if at.None? then s
    else s.(active := s.active[at.value := s.active[at.value].(expiresAtUs := Some(expiresAtUs))])
  }

  /** The sources that have lapsed, or those that have not, in order. */
  function Sieve(active: seq<Source>, nowUs: nat, lapsed: bool): seq<Source> {
    if active == [] then []
    else
      var last := |active| - 1;
      Sieve(active[..last], nowUs, lapsed) + if active[last].HasExpired(nowUs) == lapsed then [active[last]] else []
  }

  function AllLeaving(fading: seq<Fading>, nowUs: nat, sources: seq<Source>): seq<Fading> {
    if sources == [] then fading
    else
      var last := |sources| - 1;
      Leaving(AllLeaving(fading, nowUs, sources[..last]), nowUs, sources[last], Expired)
  }

  function AllLeavingChanges(sources: seq<Source>): seq<Change> {
    if sources == [] then []
    else
      var last := |sources| - 1;
      AllLeavingChanges(sources[..last]) + LeavingChanges(sources[last], Expired)
  }

  function StillFading(fading: seq<Fading>, nowUs: nat): seq<Fading> {
    if fading == [] then []
    else
      var last := |fading| - 1;
      StillFading(fading[..last], nowUs) + if fading[last].IsDone(nowUs) then [] else [fading[last]]
  }

  function FinishedFades(fading: seq<Fading>, nowUs: nat): seq<Change> {
    if fading == [] then []
    else
      var last := |fading| - 1;
      FinishedFades(fading[..last], nowUs) + if fading[last].IsDone(nowUs) then [FadeFinished(fading[last].source.id)] else []
  }

  function AfterAdvance(s: StackState, nowUs: nat): Effect {
    var lapsed := Sieve(s.active, nowUs, true);
    var fading := AllLeaving(s.fading, nowUs, lapsed);
    var e := AfterReadmit(s.(active := Sieve(s.active, nowUs, false), fading := StillFading(fading, nowUs)));
    Effect(e.after, AllLeavingChanges(lapsed) + FinishedFades(fading, nowUs) + e.changes)
  }

  // ----------------------------------------------------------------------- the stack

  class SourceStack {
    var active: seq<Source>
    var fading: seq<Fading>
    const budget: nat
    const maxConcurrent: nat
    var admitted: seq<Uuid>
    var rejected: seq<Uuid>

    ghost function State(): StackState
      reads this
    {
      StackState(active, fading, budget, maxConcurrent, admitted, rejected)
    }

    constructor (budget: nat, maxConcurrent: nat)
      ensures State() == Fresh(budget, maxConcurrent)
    {
      active, fading, admitted, rejected := [], [], [], [];
      this.budget := budget;
      this.maxConcurrent := Max(maxConcurrent, CONCURRENCY_FLOOR);
    }

    /** The source whose id heads the admitted list. */
    function Top(): Option<Source>
      reads this
    {
      if admitted == [] then None
      else
        var at := Position(active, admitted[0]);
        if at.Some? then Some(active[at.value]) else None
    }

    method Push(nowUs: nat, source: Source) returns (r: Result<(), PushError>, changes: seq<Change>)
      modifies this
      ensures Effect(State(), changes) == AfterPush(old(State()), nowUs, source)
      ensures r == match Refusal(old(State()), nowUs, source) case Some(e) => Err(e) case None => Ok(())
    {
      changes := [];
      if !source.IsAmbient() && source.expiresAtUs.None? {
        return Err(NoExpiry(source.priority)), changes;
      }
      if source.expiresAtUs.Some? {
        if nowUs >= source.expiresAtUs.value {
          return Err(AlreadyExpired(source.expiresAtUs.value)), changes;
        }
      }
      if source.cost > budget {
        return Err(NoRoom), changes;
      }
      var existing := Position(active, source.id);
      if existing.Some? {
        active := RemoveAt(active, existing.value);
        changes := changes + [Removed(source.id, Superseded)];
      }
      active := active + [source];
      active := Sorting.Sort(active, NotBelow);
      ghost var placed := State();
      assert placed == old(State()).(active := Placed(old(active), source));
      assert changes == Replacement(old(active), source.id);
      var news := Readmit();
      assert Effect(State(), news) == AfterReadmit(placed);
      changes := changes + news;
      r := Ok(());
    }

    method Pop(nowUs: nat, id: Uuid) returns (found: bool, changes: seq<Change>)
      modifies this
      ensures Effect(State(), changes) == AfterPop(old(State()), nowUs, id)
      ensures found <==> exists s :: s in old(active) && s.id == id
    {
      var at := Position(active, id);
      if at.None? {
        return false, [];
      }
      var source := active[at.value];
      assert source in active;
      active := RemoveAt(active, at.value);
      changes := BeginFade(nowUs, source, Popped);
      var news := Readmit();
      changes := changes + news;
      found := true;
    }

    method Renew(id: Uuid, expiresAtUs: nat) returns (found: bool)
      modifies this
      ensures State() == AfterRenew(old(State()), id, expiresAtUs)
      ensures found <==> exists s :: s in old(active) && s.id == id
    {
      var at := Position(active, id);
      if at.None? {
        return false;
      }
      var source := active[at.value];
      assert source in active;
      active := active[at.value := source.(expiresAtUs := Some(expiresAtUs))];
      return true;
    }

    method Advance(nowUs: nat) returns (changes: seq<Change>)
      modifies this
      ensures Effect(State(), changes) == AfterAdvance(old(State()), nowUs)
    {
      changes := [];
      var expired := RemoveLapsed(nowUs);
      for k := 0 to |expired|
        invariant State() == old(State()).(active := Sieve(old(active), nowUs, false), fading := fading)
        invariant fading == AllLeaving(old(fading), nowUs, expired[..k])
        invariant changes == AllLeavingChanges(expired[..k])
      {
        assert expired[..k + 1][..k] == expired[..k];
        var news := BeginFade(nowUs, expired[k], Expired);
        changes := changes + news;
      }
      assert expired[..|expired|] == expired;
      var finished := FinishFades(nowUs);
      changes := changes + finished;
      ghost var settled := State();
      var news := Readmit();
      assert Effect(State(), news) == AfterReadmit(settled);
      changes := changes + news;
    }

    method RemoveLapsed(nowUs: nat) returns (expired: seq<Source>)
      modifies this`active
      ensures active == Sieve(old(active), nowUs, false)
      ensures expired == Sieve(old(active), nowUs, true)
    {
      expired := [];
      var i := 0;
      ghost var seen := 0;
      while i < |active|
        invariant 0 <= seen <= |old(active)| && i <= |active|
        invariant active[..i] == Sieve(old(active)[..seen], nowUs, false) && active[i..] == old(active)[seen..]
        invariant expired == Sieve(old(active)[..seen], nowUs, true)
        decreases |active| - i
      {
        assert old(active)[..seen + 1][..seen] == old(active)[..seen];
        assert active[i] == active[i..][0] == old(active)[seen];
        assert active[i..][1..] == active[i + 1..];
        if active[i].HasExpired(nowUs) {
          expired := expired + [active[i]];
          active := RemoveAt(active, i);
        } else {
          assert active[..i + 1] == active[..i] + [active[i]];
          i := i + 1;
        }
        seen := seen + 1;
      }
      assert active == active[..i] && old(active)[..seen] == old(active);
    }

    method FinishFades(nowUs: nat) returns (changes: seq<Change>)
      modifies this`fading
      ensures fading == StillFading(old(fading), nowUs)
      ensures changes == FinishedFades(old(fading), nowUs)
    {
      changes := [];
      var j := 0;
      ghost var seen := 0;
      while j < |fading|
        invariant 0 <= seen <= |old(fading)| && j <= |fading|
        invariant fading[..j] == StillFading(old(fading)[..seen], nowUs) && fading[j..] == old(fading)[seen..]
        invariant changes == FinishedFades(old(fading)[..seen], nowUs)
        decreases |fading| - j
      {
        assert old(fading)[..seen + 1][..seen] == old(fading)[..seen];
        assert fading[j] == fading[j..][0] == old(fading)[seen];
        assert fading[j..][1..] == fading[j + 1..];
        if fading[j].IsDone(nowUs) {
          changes := changes + [FadeFinished(fading[j].source.id)];
          fading := RemoveAt(fading, j);
        } else {
          assert fading[..j + 1] == fading[..j] + [fading[j]];
          j := j + 1;
        }
        seen := seen + 1;
      }
      assert fading == fading[..j] && old(fading)[..seen] == old(fading);
    }

    method BeginFade(nowUs: nat, source: Source, reason: Removal) returns (changes: seq<Change>)
      modifies this`fading
      ensures fading == Leaving(old(fading), nowUs, source, reason)
      ensures changes == LeavingChanges(source, reason)
    {
      changes := [Removed(source.id, reason)];
      if source.fadeOutMs == 0 {
        changes := changes + [FadeFinished(source.id)];
        return;
      }
      fading := fading + [Fading(source, nowUs, reason)];
    }

    method Readmit() returns (changes: seq<Change>)
      modifies this`admitted, this`rejected
      ensures Effect(State(), changes) == AfterReadmit(old(State()))
    {
      var wasAdmitted, wasRejected := admitted, rejected;
      var spent: nat, nowAdmitted: seq<Uuid>, nowRejected: seq<Uuid> := 0, [], [];
      changes := [];
      for k := 0 to |active|
        invariant Tally(spent, nowAdmitted, nowRejected) == Tallied(active[..k], budget, maxConcurrent)
        invariant changes == Reports(active[..k], budget, maxConcurrent, wasAdmitted, wasRejected)
      {
        var s := active[k];
        assert active[..k + 1][..k] == active[..k];
        var fitsBudget := Min(spent + s.cost, U32_MAX) <= budget;
        var fitsCount := |nowAdmitted| < maxConcurrent;
        if fitsBudget && fitsCount {
          if s.id !in wasAdmitted {
            changes := changes + [Admitted(s.id)];
          }
          spent := (spent + s.cost) % 0x1_0000_0000;
          nowAdmitted := nowAdmitted + [s.id];
        } else {
          if s.id !in wasRejected {
            changes := changes + [Rejected(s.id, s.cost, SubSat(budget, spent))];
          }
          nowRejected := nowRejected + [s.id];
        }
      }
      assert active[..|active|] == active;
      admitted, rejected := nowAdmitted, nowRejected;
    }
  }
}
