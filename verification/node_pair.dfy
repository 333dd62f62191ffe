/**
 Runs of two nodes (node.rs), of which one asks the other for the time. Each answers as it does;
 messages may be lost, late, repeated and overtaken, but none arrives that was not sent; and
 anything else may happen to either. What the asking node samples then are round trips between
 the two clocks, so the corrections it asks for bring its clock close to the other's.
 */
module NodePair {
  import opened Arith
  import opened Wrappers
  import opened Nodes
  import opened NodeLaws
  import opened NodeClock
  import opened NodeExchange
  import Elections
  import Growing
  import TimeSync

  /** What was asked of a shell, when in true time, and how far ahead of it the clock was. */
  datatype Posted = Posted(atUs: nat, skewUs: int, action: Action)

  /** Something happens to the node that asks, or to the other. */
  datatype Turn = Turn(asker: bool, atUs: nat, event: Event)

  /** Both nodes, how far each one's clock is ahead of true time, and all they have sent. */
  datatype Pair = Pair(a: NodeState, b: NodeState, skewA: int, skewB: int, atUs: nat, sentA: seq<Posted>, sentB: seq<Posted>)

  /** Half the range of the offsets: times and offsets within it are measured without wrapping. */
  const HORIZON_US: nat := 0x4000_0000_0000_0000

  ghost predicate Sound(p: Pair) { p.a.sync.Valid() && p.b.sync.Valid() }

  function Reading(atUs: nat, skewUs: int): nat { if atUs + skewUs < 0 then 0 else atUs + skewUs }

  function PostedAll(out: seq<Action>, atUs: nat, skewUs: int): seq<Posted> {
    seq(|out|, k requires 0 <= k < |out| => Posted(atUs, skewUs, out[k]))
  }

  /** What the node whose turn it is does. */
  ghost predicate Does(p: Pair, turn: Turn, e: Effect)
    requires Sound(p)
  {
    e == if turn.asker then AfterEvent(p.a, Reading(turn.atUs, p.skewA), turn.event)
         else AfterEvent(p.b, Reading(turn.atUs, p.skewB), turn.event)
  }

  /** The asking node's clock is set as it asks, if `applied`; the other's runs on. */
  function NextPair(p: Pair, turn: Turn, applied: bool, e: Effect): Pair {
    if turn.asker then
      p.(a := e.after, atUs := turn.atUs, sentA := p.sentA + PostedAll(e.out, turn.atUs, p.skewA),
         skewA := p.skewA + if applied then TimeSync.Sum(Disciplines(e.out)) else 0)
    else p.(b := e.after, atUs := turn.atUs, sentB := p.sentB + PostedAll(e.out, turn.atUs, p.skewB))
  }

  ghost predicate Follows(p: Pair, turn: Turn, applied: bool, q: Pair)
    requires Sound(p)
  {
    forall e :: Does(p, turn, e) ==> q == NextPair(p, turn, applied, e)
  }

  lemma TheEffect(p: Pair, turn: Turn, applied: bool, q: Pair) returns (e: Effect)
    requires Sound(p) && Follows(p, turn, applied, q)
    ensures Does(p, turn, e) && q == NextPair(p, turn, applied, e)
    ensures Sound(q)
    ensures if turn.asker then Deals(p.a, Reading(turn.atUs, p.skewA), turn.event, e)
            else Deals(p.b, Reading(turn.atUs, p.skewB), turn.event, e)
  {
    if turn.asker {
      e := AfterEvent(p.a, Reading(turn.atUs, p.skewA), turn.event);
      EventDeals(p.a, Reading(turn.atUs, p.skewA), turn.event);
      SyncStaysValid(p.a, Reading(turn.atUs, p.skewA), turn.event);
    } else {
      e := AfterEvent(p.b, Reading(turn.atUs, p.skewB), turn.event);
      EventDeals(p.b, Reading(turn.atUs, p.skewB), turn.event);
      SyncStaysValid(p.b, Reading(turn.atUs, p.skewB), turn.event);
    }
  }

  ghost predicate WasSent(sent: seq<Posted>, to: Destination, message: Message) {
    exists k :: 0 <= k < |sent| && sent[k].action.Send? && sent[k].action.to == to && sent[k].action.message == message
  }

  /** Every answer the asking node is handed is one the other sent it. */
  ghost predicate AnswersArrive(p: Pair, event: Event) {
    IsResp(event, p.a.mesh) ==> WasSent(p.sentB, Peer(p.a.prefix), event.received.message)
  }

  /** Every request the other node is handed as the asking node's is one that sent it. */
  ghost predicate RequestsArrive(p: Pair, event: Event) {
    IsKnown(event, p.b.mesh) && event.received.sender == p.a.prefix && event.received.message.SyncReq? ==>
      WasSent(p.sentA, Peer(p.b.prefix), event.received.message)
  }

  ghost predicate Requests(e: Effect) { exists a :: a in e.out && SendsReq(a) }

  /** A clock that has been set back is not asked from at a reading it was asked from before. */
  ghost predicate AskedOnce(sent: seq<Posted>, t1: nat, skewUs: int) {
    forall k :: 0 <= k < |sent| && SendsReq(sent[k].action) && sent[k].action.message.t1 == t1 ==> sent[k].skewUs == skewUs
  }

  /** A turn that can be: time goes on, clocks are not before their start, and only what was sent arrives. */
  ghost predicate Plays(p: Pair, turn: Turn)
    requires Sound(p)
  {
    && p.atUs <= turn.atUs <= HORIZON_US
    && -(HORIZON_US as int) <= p.skewB - p.skewA <= HORIZON_US
    && (if turn.asker then
          && turn.atUs + p.skewA >= 0 && AnswersArrive(p, turn.event)
          && (forall e :: Does(p, turn, e) && Requests(e) ==> AskedOnce(p.sentA, turn.atUs + p.skewA, p.skewA))
        else turn.atUs + p.skewB >= 0 && RequestsArrive(p, turn.event))
  }

  // ------------------------------------------------------------------------- honesty

  /** Every request carries the reading of the clock it was sent by, and one skew for each reading. */
  ghost predicate HonestRequests(sent: seq<Posted>, nowUs: nat) {
    forall k :: 0 <= k < |sent| && SendsReq(sent[k].action) ==>
      && sent[k].atUs <= nowUs
      && sent[k].action.message.t1 == sent[k].atUs + sent[k].skewUs
      && AskedOnce(sent, sent[k].action.message.t1, sent[k].skewUs)
  }

  ghost predicate AskedBefore(sent: seq<Posted>, t1: nat, atUs: nat) {
    exists k :: 0 <= k < |sent| && SendsReq(sent[k].action) && sent[k].action.message.t1 == t1 && sent[k].atUs <= atUs
  }

  /** Every answer to the asking node carries the other's reading, and was asked for before. */
  ghost predicate HonestAnswers(p: Pair) {
    forall k :: 0 <= k < |p.sentB| && SendsResp(p.sentB[k].action) && p.sentB[k].action.to == Peer(p.a.prefix) ==>
      HonestAnswer(p, p.sentB[k])
  }

  ghost predicate HonestAnswer(p: Pair, sent: Posted)
    requires SendsResp(sent.action)
  {
    var m := sent.action.message;
    sent.atUs <= p.atUs && m.t2 == m.t3 == sent.atUs + p.skewB && AskedBefore(p.sentA, m.t1, sent.atUs)
  }

  ghost predicate AskedAtSkew(sent: seq<Posted>, t1: nat, skewUs: int) {
    exists k :: 0 <= k < |sent| && SendsReq(sent[k].action) && sent[k].action.message.t1 == t1 && sent[k].skewUs == skewUs
  }

  /** What is outstanding was asked with the clock as it still is. */
  ghost predicate HonestPending(p: Pair) {
    p.a.pendingProbeT1.Some? ==> AskedAtSkew(p.sentA, p.a.pendingProbeT1.value, p.skewA)
  }

  ghost predicate Honest(p: Pair) {
    Sound(p) && HonestRequests(p.sentA, p.atUs) && HonestAnswers(p) && HonestPending(p)
  }

  /** New requests, all at one reading, leave each reading its one skew. */
  lemma NewRequests(sent: seq<Posted>, out: seq<Action>, atUs: nat, skewUs: int)
    requires HonestRequests(sent, atUs)
    requires forall a :: a in out && SendsReq(a) ==> a.message.t1 == atUs + skewUs && AskedOnce(sent, atUs + skewUs, skewUs)
    ensures HonestRequests(sent + PostedAll(out, atUs, skewUs), atUs)
  {
    var all := sent + PostedAll(out, atUs, skewUs);
    forall k | |sent| <= k < |all| && SendsReq(all[k].action)
      ensures all[k].atUs == atUs && all[k].skewUs == skewUs && all[k].action.message.t1 == all[k].atUs + skewUs == atUs + skewUs
      ensures AskedOnce(sent, atUs + skewUs, skewUs)
    {
      assert all[k].action == out[k - |sent|];
    }
    forall k, j | 0 <= k < |all| && SendsReq(all[k].action) && 0 <= j < |all| && SendsReq(all[j].action)
                  && all[j].action.message.t1 == all[k].action.message.t1
      ensures all[j].skewUs == all[k].skewUs
    {
      if k < |sent| { assert all[k] == sent[k]; }
      if j < |sent| { assert all[j] == sent[j]; }
    }
  }

  lemma RequestsStayHonest(p: Pair, turn: Turn, e: Effect)
    requires Honest(p) && Plays(p, turn) && turn.asker && Does(p, turn, e)
    requires Deals(p.a, Reading(turn.atUs, p.skewA), turn.event, e)
    ensures HonestRequests(p.sentA + PostedAll(e.out, turn.atUs, p.skewA), turn.atUs)
  {
    NewRequests(p.sentA, e.out, turn.atUs, p.skewA);
  }

  lemma AnswersStayHonest(p: Pair, q: Pair)
    requires HonestAnswers(p) && q.sentB == p.sentB && p.sentA <= q.sentA && q.atUs >= p.atUs
    requires q.skewB == p.skewB && q.a.prefix == p.a.prefix
    ensures HonestAnswers(q)
  {
    forall k | 0 <= k < |q.sentB| && SendsResp(q.sentB[k].action) && q.sentB[k].action.to == Peer(q.a.prefix)
      ensures HonestAnswer(q, q.sentB[k])
    {
      assert HonestAnswer(p, p.sentB[k]);
      var m := p.sentB[k].action.message;
      var i :| 0 <= i < |p.sentA| && SendsReq(p.sentA[i].action) && p.sentA[i].action.message.t1 == m.t1
               && p.sentA[i].atUs <= p.sentB[k].atUs;
      assert q.sentA[i] == p.sentA[i];
    }
  }

  lemma PendingStaysHonest(p: Pair, turn: Turn, applied: bool, e: Effect)
    requires Honest(p) && Plays(p, turn) && turn.asker
    requires Deals(p.a, Reading(turn.atUs, p.skewA), turn.event, e)
    ensures HonestPending(NextPair(p, turn, applied, e))
  {
    var q := NextPair(p, turn, applied, e);
    if q.a.pendingProbeT1.Some? {
      assert Disciplines(e.out) == [] && q.skewA == p.skewA;
      if q.a.pendingProbeT1 == p.a.pendingProbeT1 {
        var k :| 0 <= k < |p.sentA| && SendsReq(p.sentA[k].action)
                 && p.sentA[k].action.message.t1 == p.a.pendingProbeT1.value && p.sentA[k].skewUs == p.skewA;
        assert q.sentA[k] == p.sentA[k];
      } else {
        var a :| a in e.out && SendsReq(a);
        var k :| 0 <= k < |e.out| && e.out[k] == a;
        assert q.sentA[|p.sentA| + k] == Posted(turn.atUs, p.skewA, a);
      }
    }
  }

  /** What the other node answers now is honest. */
  lemma NewAnswerIsHonest(p: Pair, turn: Turn, a: Action)
    requires Honest(p) && Plays(p, turn) && !turn.asker
    requires SendsResp(a) && a.to == Peer(p.a.prefix) && AnswersFor(p.b, Reading(turn.atUs, p.skewB), turn.event, a)
    ensures a.message.t2 == a.message.t3 == turn.atUs + p.skewB && AskedBefore(p.sentA, a.message.t1, turn.atUs)
  {
    var k :| 0 <= k < |p.sentA| && p.sentA[k].action.Send? && p.sentA[k].action.message == SyncReq(a.message.t1);
    assert SendsReq(p.sentA[k].action);
  }

  lemma NewAnswersAreHonest(p: Pair, turn: Turn, applied: bool, e: Effect)
    requires Honest(p) && Plays(p, turn) && !turn.asker
    requires Deals(p.b, Reading(turn.atUs, p.skewB), turn.event, e)
    ensures HonestAnswers(NextPair(p, turn, applied, e))
  {
    var q := NextPair(p, turn, applied, e);
    forall k | 0 <= k < |q.sentB| && SendsResp(q.sentB[k].action) && q.sentB[k].action.to == Peer(q.a.prefix)
      ensures HonestAnswer(q, q.sentB[k])
    {
      if k < |p.sentB| {
        assert HonestAnswer(p, p.sentB[k]);
      } else {
        assert q.sentB[k] == Posted(turn.atUs, p.skewB, e.out[k - |p.sentB|]);
        NewAnswerIsHonest(p, turn, q.sentB[k].action);
      }
    }
  }

  lemma TurnStaysHonest(p: Pair, turn: Turn, applied: bool, q: Pair)
    requires Honest(p) && Plays(p, turn) && Follows(p, turn, applied, q)
    ensures Honest(q)
  {
    var e := TheEffect(p, turn, applied, q);
    if turn.asker {
      RequestsStayHonest(p, turn, e);
      AnswersStayHonest(p, q);
      PendingStaysHonest(p, turn, applied, e);
    } else {
      NewAnswersAreHonest(p, turn, applied, e);
    }
  }

  // ----------------------------------------------------------------------- round trips

  /** Whatever the asking node samples is a round trip between the two clocks. */
  lemma SampledIsRoundTrip(p: Pair, turn: Turn)
    requires Honest(p) && Plays(p, turn) && turn.asker
    ensures var h := Heard(p.a, Reading(turn.atUs, p.skewA), turn.event);
            h.Some? ==> TimeSync.RealSample(h.value, p.skewB - p.skewA)
  {
    var h := Heard(p.a, Reading(turn.atUs, p.skewA), turn.event);
    if h.Some? && h.value.SampleSeen? {
      var m := turn.event.received.message;
      var k :| 0 <= k < |p.sentB| && p.sentB[k].action.Send? && p.sentB[k].action.to == Peer(p.a.prefix)
               && p.sentB[k].action.message == m;
      assert HonestAnswer(p, p.sentB[k]);
      var asked := AskedWhen(p, m.t1, p.sentB[k].atUs);
      assert TimeSync.Fair(h.value.sample, p.skewB - p.skewA, p.sentB[k].atUs - asked, turn.atUs - p.sentB[k].atUs);
    }
  }

  /** What is outstanding and was answered was asked with the clock as it is. */
  lemma AskedWhen(p: Pair, t1: nat, lastUs: nat) returns (atUs: nat)
    requires Honest(p) && p.a.pendingProbeT1 == Some(t1) && AskedBefore(p.sentA, t1, lastUs)
    ensures atUs <= lastUs && t1 == atUs + p.skewA
  {
    var k :| 0 <= k < |p.sentA| && SendsReq(p.sentA[k].action) && p.sentA[k].action.message.t1 == t1
             && p.sentA[k].atUs <= lastUs;
    var j :| 0 <= j < |p.sentA| && SendsReq(p.sentA[j].action) && p.sentA[j].action.message.t1 == t1
             && p.sentA[j].skewUs == p.skewA;
    assert AskedOnce(p.sentA, t1, p.sentA[j].skewUs);
    atUs := p.sentA[k].atUs;
  }

  // -------------------------------------------------------------------- what a turn does

  /** What the asking node's sync machine is handed in a turn. */
  function HeardIn(p: Pair, turn: Turn): seq<TimeSync.SyncEvent> {
    var heard := Heard(p.a, Reading(turn.atUs, p.skewA), turn.event);
    if turn.asker && heard.Some? then [heard.value] else []
  }

  ghost predicate AllReal(run: seq<TimeSync.SyncEvent>, theta: int) {
    forall h :: h in run ==> TimeSync.RealSample(h, theta)
  }

  /** The corrections among what was asked of a shell, in order. */
  function Asked(sent: seq<Posted>): seq<int> {
    if sent == [] then []
    else (if sent[0].action.DisciplineClock? then [sent[0].action.offsetUs] else []) + Asked(sent[1..])
  }

  lemma {:induction false} AskedAppends(a: seq<Posted>, b: seq<Posted>)
    ensures Asked(a + b) == Asked(a) + Asked(b)
  {
    if a == [] {
      assert a + b == b;
    } else {
      assert (a + b)[1..] == a[1..] + b;
      AskedAppends(a[1..], b);
      Growing.AppendAll(if a[0].action.DisciplineClock? then [a[0].action.offsetUs] else [], Asked(a[1..]), Asked(b));
    }
  }

  lemma {:induction false} AskedIsDisciplines(out: seq<Action>, atUs: nat, skewUs: int)
    ensures Asked(PostedAll(out, atUs, skewUs)) == Disciplines(out)
  {
    if out != [] {
      assert PostedAll(out, atUs, skewUs)[1..] == PostedAll(out[1..], atUs, skewUs);
      AskedIsDisciplines(out[1..], atUs, skewUs);
    }
  }

  /** The machine and the offset before and after a turn, what it heard and what it asked for. */
  datatype Leg = Leg(before: TimeSync.Machine, theta: int, heard: seq<TimeSync.SyncEvent>, asked: seq<int>,
                     after: TimeSync.Machine, left: int)

  /** The machine goes on with what it heard, if anything, and asks for what it asks then. */
  ghost predicate Goes(leg: Leg)
    requires leg.before.Valid()
  {
    && |leg.heard| <= 1
    && (leg.heard == [] ==> leg.after == leg.before && leg.asked == [])
    && (forall h :: h in leg.heard ==> GoesOn(leg, h))
  }

  ghost predicate GoesOn(leg: Leg, h: TimeSync.SyncEvent)
    requires leg.before.Valid()
  {
    leg.after == TimeSync.Next(leg.before, h).0 && leg.asked == Correction(TimeSync.Next(leg.before, h).1)
  }

  lemma TurnGoes(p: Pair, turn: Turn, e: Effect, after: TimeSync.Machine, left: int)
    requires Sound(p) && Does(p, turn, e) && after == if turn.asker then e.after.sync else p.a.sync
    ensures Goes(Leg(p.a.sync, p.skewB - p.skewA, HeardIn(p, turn), AskedIn(turn, e), after, left))
  {
    if turn.asker { EventDrives(p.a, Reading(turn.atUs, p.skewA), turn.event); }
  }

  /** The samples of a leg are round trips at its offset, and the machine and the offset go on with them. */
  ghost predicate IsLeg(leg: Leg, applied: bool) {
    && leg.before.Valid() && leg.after.Valid() && Goes(leg) && AllReal(leg.heard, leg.theta)
    && leg.left == leg.theta - if applied then TimeSync.Sum(leg.asked) else 0
  }

  /** The leg of a turn: the machine goes on with what it heard, and the clock with what was asked. */
  ghost predicate IsLegOf(leg: Leg, p: Pair, turn: Turn, applied: bool, q: Pair) {
    && IsLeg(leg, applied) && leg.heard == HeardIn(p, turn)
    && leg.before == p.a.sync && leg.theta == p.skewB - p.skewA && leg.after == q.a.sync && leg.left == q.skewB - q.skewA
    && Asked(q.sentA) == Asked(p.sentA) + leg.asked
  }

  /** What a turn asks of the asking node's clock. */
  function AskedIn(turn: Turn, e: Effect): seq<int> { if turn.asker then Disciplines(e.out) else [] }

  lemma ClockGoesOn(p: Pair, turn: Turn, applied: bool, e: Effect)
    ensures var q, asked := NextPair(p, turn, applied, e), AskedIn(turn, e);
            && q.skewB - q.skewA == p.skewB - p.skewA - (if applied then TimeSync.Sum(asked) else 0)
            && Asked(q.sentA) == Asked(p.sentA) + asked
            && q.a.sync == if turn.asker then e.after.sync else p.a.sync
  {
    if turn.asker {
      AskedAppends(p.sentA, PostedAll(e.out, turn.atUs, p.skewA));
      AskedIsDisciplines(e.out, turn.atUs, p.skewA);
    }
  }

  lemma TurnIsReal(p: Pair, turn: Turn)
    requires Honest(p) && Plays(p, turn)
    ensures AllReal(HeardIn(p, turn), p.skewB - p.skewA)
  {
    if turn.asker { SampledIsRoundTrip(p, turn); }
  }

  /** The machine and the clock go on with a turn. */
  ghost predicate MovesOn(leg: Leg, p: Pair, turn: Turn, applied: bool, q: Pair) {
    && leg.before == p.a.sync && leg.theta == p.skewB - p.skewA && leg.heard == HeardIn(p, turn)
    && leg.after == q.a.sync && leg.left == q.skewB - q.skewA
    && leg.before.Valid() && leg.after.Valid() && Goes(leg)
    && leg.left == leg.theta - (if applied then TimeSync.Sum(leg.asked) else 0)
    && Asked(q.sentA) == Asked(p.sentA) + leg.asked
  }

  lemma TurnMovesOn(p: Pair, turn: Turn, applied: bool, q: Pair) returns (leg: Leg)
    requires Sound(p) && Follows(p, turn, applied, q)
    ensures MovesOn(leg, p, turn, applied, q)
  {
    var e := TheEffect(p, turn, applied, q);
    ClockGoesOn(p, turn, applied, e);
    TurnGoes(p, turn, e, q.a.sync, q.skewB - q.skewA);
    leg := Leg(p.a.sync, p.skewB - p.skewA, HeardIn(p, turn), AskedIn(turn, e), q.a.sync, q.skewB - q.skewA);
  }

  lemma LegOfTurn(leg: Leg, p: Pair, turn: Turn, applied: bool, q: Pair)
    requires MovesOn(leg, p, turn, applied, q) && AllReal(leg.heard, leg.theta)
    ensures IsLegOf(leg, p, turn, applied, q)
  {
  }

  // -------------------------------------------------------------------------- whole runs

  /** Each turn of a run is one that can be, and leads from one pair to the next. */
  ghost predicate IsTurn(pairs: seq<Pair>, turns: seq<Turn>, k: nat, applied: bool)
    requires k < |turns| && |pairs| == |turns| + 1
  {
    Sound(pairs[k]) && Plays(pairs[k], turns[k]) && Follows(pairs[k], turns[k], applied, pairs[k + 1])
  }

  ghost predicate IsRun(pairs: seq<Pair>, turns: seq<Turn>, applied: bool) {
    |pairs| == |turns| + 1 && forall k :: 0 <= k < |turns| ==> IsTurn(pairs, turns, k, applied)
  }

  /** What the asking node's sync machine is handed in a run, from some turn on. */
  function HeardFrom(pairs: seq<Pair>, turns: seq<Turn>, k: nat): seq<TimeSync.SyncEvent>
    requires k <= |turns| && |pairs| == |turns| + 1
    decreases |turns| - k
  {
    if k == |turns| then [] else HeardIn(pairs[k], turns[k]) + HeardFrom(pairs, turns, k + 1)
  }

  lemma AllRealGoesOn(first: seq<TimeSync.SyncEvent>, rest: seq<TimeSync.SyncEvent>, theta: int)
    requires AllReal(first, theta) && AllReal(rest, theta)
    ensures AllReal(first + rest, theta)
  {
  }

  /** The machine's run, leg by leg. */
  lemma RunGoesOn(leg: Leg, rest: seq<TimeSync.SyncEvent>)
    requires leg.before.Valid() && leg.after.Valid() && Goes(leg)
    ensures TimeSync.AfterRun(leg.before, leg.heard + rest) == TimeSync.AfterRun(leg.after, rest)
    ensures TimeSync.Corrections(leg.before, leg.heard + rest) == leg.asked + TimeSync.Corrections(leg.after, rest)
  {
    if |leg.heard| == 1 {
      assert GoesOn(leg, leg.heard[0]);
      assert (leg.heard + rest)[1..] == rest;
    } else {
      assert [] + rest == rest;
      assert [] + TimeSync.Corrections(leg.after, rest) == TimeSync.Corrections(leg.after, rest);
    }
  }

  lemma OneCorrection(outcome: TimeSync.Outcome)
    ensures TimeSync.Sum(Correction(outcome)) == if outcome.Discipline? then outcome.offsetUs else 0
  {
    assert Correction(outcome) != [] ==> Correction(outcome)[1..] == [];
  }

  lemma RealRunGoesOn(leg: Leg, rest: seq<TimeSync.SyncEvent>)
    requires IsLeg(leg, true) && TimeSync.RealRun(leg.after, leg.left, rest)
    ensures TimeSync.RealRun(leg.before, leg.theta, leg.heard + rest)
  {
    if |leg.heard| == 1 {
      assert GoesOn(leg, leg.heard[0]);
      assert (leg.heard + rest)[1..] == rest;
      OneCorrection(TimeSync.Next(leg.before, leg.heard[0]).1);
    } else {
      assert [] + rest == rest;
    }
  }

  lemma {:induction false} SumAppends(a: seq<int>, b: seq<int>)
    ensures TimeSync.Sum(a + b) == TimeSync.Sum(a) + TimeSync.Sum(b)
  {
    if a == [] {
      assert a + b == b;
    } else {
      SumAppends(a[1..], b);
      assert (a + b)[1..] == a[1..] + b;
    }
  }

  ghost predicate IsAfter(before: TimeSync.Machine, run: seq<TimeSync.SyncEvent>, after: TimeSync.Machine) {
    before.Valid() && after == TimeSync.AfterRun(before, run)
  }

  /** What a run of the machine comes to, from one offset to what is left of it. */
  ghost predicate Spans(before: TimeSync.Machine, theta: int, run: seq<TimeSync.SyncEvent>, asked: seq<int>,
                        after: TimeSync.Machine, left: int, applied: bool) {
    before.Valid() &&
    forall m :: IsAfter(before, run, m) ==>
      && after == m && asked == TimeSync.Corrections(before, run)
      && (if applied then TimeSync.RealRun(before, theta, run) && left == theta - TimeSync.Sum(asked)
          else AllReal(run, theta) && left == theta)
  }

  lemma SpansMeans(before: TimeSync.Machine, theta: int, run: seq<TimeSync.SyncEvent>, asked: seq<int>,
                   after: TimeSync.Machine, left: int, applied: bool)
    requires Spans(before, theta, run, asked, after, left, applied)
    ensures after == TimeSync.AfterRun(before, run) && asked == TimeSync.Corrections(before, run)
    ensures if applied then TimeSync.RealRun(before, theta, run) && left == theta - TimeSync.Sum(asked)
            else AllReal(run, theta) && left == theta
  {
    assert IsAfter(before, run, TimeSync.AfterRun(before, run));
  }

  lemma LegSpansApplied(leg: Leg, rest: seq<TimeSync.SyncEvent>, asked: seq<int>, after: TimeSync.Machine, left: int)
    requires IsLeg(leg, true) && Spans(leg.after, leg.left, rest, asked, after, left, true)
    ensures Spans(leg.before, leg.theta, leg.heard + rest, leg.asked + asked, after, left, true)
  {
    SpansMeans(leg.after, leg.left, rest, asked, after, left, true);
    RunGoesOn(leg, rest);
    SumAppends(leg.asked, asked);
    RealRunGoesOn(leg, rest);
  }

  lemma LegSpansUnapplied(leg: Leg, rest: seq<TimeSync.SyncEvent>, asked: seq<int>, after: TimeSync.Machine, left: int)
    requires IsLeg(leg, false) && Spans(leg.after, leg.left, rest, asked, after, left, false)
    ensures Spans(leg.before, leg.theta, leg.heard + rest, leg.asked + asked, after, left, false)
  {
    SpansMeans(leg.after, leg.left, rest, asked, after, left, false);
    RunGoesOn(leg, rest);
    AllRealGoesOn(leg.heard, rest, leg.theta);
  }

  /** Legs that follow each other. */
  datatype Legs = Done | Then(leg: Leg, rest: Legs)

  /** They lead from one machine and offset to another. */
  ghost predicate Lead(legs: Legs, before: TimeSync.Machine, theta: int, after: TimeSync.Machine, left: int, applied: bool) {
    match legs
    case Done => before.Valid() && after == before && left == theta
    case Then(leg, rest) =>
      leg.before == before && leg.theta == theta && IsLeg(leg, applied) && Lead(rest, leg.after, leg.left, after, left, applied)
  }

  function HeardOf(legs: Legs): seq<TimeSync.SyncEvent> {
    match legs
    case Done => []
    case Then(leg, rest) => leg.heard + HeardOf(rest)
  }

  function AskedOf(legs: Legs): seq<int> {
    match legs
    case Done => []
    case Then(leg, rest) => leg.asked + AskedOf(rest)
  }

  lemma {:induction false} LegsSpanApplied(legs: Legs, before: TimeSync.Machine, theta: int, after: TimeSync.Machine, left: int)
    requires Lead(legs, before, theta, after, left, true)
    ensures Spans(before, theta, HeardOf(legs), AskedOf(legs), after, left, true)
  {
    if legs.Then? {
      LegsSpanApplied(legs.rest, legs.leg.after, legs.leg.left, after, left);
      LegSpansApplied(legs.leg, HeardOf(legs.rest), AskedOf(legs.rest), after, left);
    }
  }

  lemma {:induction false} LegsSpanUnapplied(legs: Legs, before: TimeSync.Machine, theta: int, after: TimeSync.Machine, left: int)
    requires Lead(legs, before, theta, after, left, false)
    ensures Spans(before, theta, HeardOf(legs), AskedOf(legs), after, left, false)
  {
    if legs.Then? {
      LegsSpanUnapplied(legs.rest, legs.leg.after, legs.leg.left, after, left);
      LegSpansUnapplied(legs.leg, HeardOf(legs.rest), AskedOf(legs.rest), after, left);
    }
  }

  /** A new node and any other, before anything was sent. */
  ghost predicate Starts(p: Pair, me: Elections.Candidacy, nowUs: nat) {
    && p.a == Initial(me, p.a.prefix, p.a.mesh, nowUs) && p.b.sync.Valid()
    && p.sentA == [] && p.sentB == []
  }

  lemma StartIsHonest(p: Pair, me: Elections.Candidacy, nowUs: nat)
    requires Starts(p, me, nowUs)
    ensures Honest(p) && TimeSync.Unmeasured(p.a.sync) && p.a.sync == TimeSync.Initial() && Asked(p.sentA) == []
  {
  }

  lemma {:induction false} RunStaysHonest(pairs: seq<Pair>, turns: seq<Turn>, applied: bool, n: nat)
    requires IsRun(pairs, turns, applied) && n <= |turns| && Honest(pairs[0])
    ensures Honest(pairs[n])
  {
    if n != 0 {
      RunStaysHonest(pairs, turns, applied, n - 1);
      assert IsTurn(pairs, turns, n - 1, applied);
      TurnStaysHonest(pairs[n - 1], turns[n - 1], applied, pairs[n]);
    }
  }

  ghost predicate HonestAt(pairs: seq<Pair>, n: nat)
    requires n < |pairs|
  {
    Honest(pairs[n])
  }

  ghost predicate HonestThroughout(pairs: seq<Pair>) {
    forall n :: 0 <= n < |pairs| ==> HonestAt(pairs, n)
  }

  lemma RealInRun(pairs: seq<Pair>, turns: seq<Turn>, applied: bool, k: nat)
    requires IsRun(pairs, turns, applied) && HonestThroughout(pairs) && k < |turns|
    ensures AllReal(HeardIn(pairs[k], turns[k]), pairs[k].skewB - pairs[k].skewA)
  {
    assert HonestAt(pairs, k) && IsTurn(pairs, turns, k, applied);
    TurnIsReal(pairs[k], turns[k]);
  }

  lemma MovesInRun(pairs: seq<Pair>, turns: seq<Turn>, applied: bool, k: nat) returns (leg: Leg)
    requires IsRun(pairs, turns, applied) && k < |turns|
    ensures MovesOn(leg, pairs[k], turns[k], applied, pairs[k + 1])
  {
    assert IsTurn(pairs, turns, k, applied);
    leg := TurnMovesOn(pairs[k], turns[k], applied, pairs[k + 1]);
  }

  /** Of a turn of a run: what was sampled is real, and machine and clock go on with it. */
  lemma TurnInRun(pairs: seq<Pair>, turns: seq<Turn>, applied: bool, k: nat) returns (leg: Leg)
    requires IsRun(pairs, turns, applied) && HonestThroughout(pairs) && k < |turns|
    ensures IsLegOf(leg, pairs[k], turns[k], applied, pairs[k + 1])
  {
    RealInRun(pairs, turns, applied, k);
    leg := MovesInRun(pairs, turns, applied, k);
    LegOfTurn(leg, pairs[k], turns[k], applied, pairs[k + 1]);
  }

  /** The legs from one pair to another, what was heard on the way and what was asked. */
  ghost predicate Joins(legs: Legs, p: Pair, q: Pair, heard: seq<TimeSync.SyncEvent>, applied: bool) {
    && Lead(legs, p.a.sync, p.skewB - p.skewA, q.a.sync, q.skewB - q.skewA, applied)
    && HeardOf(legs) == heard && Asked(q.sentA) == Asked(p.sentA) + AskedOf(legs)
  }

  lemma LegSays(leg: Leg, more: Legs, p: Pair, q: Pair, last: Pair)
    requires Asked(q.sentA) == Asked(p.sentA) + leg.asked && Asked(last.sentA) == Asked(q.sentA) + AskedOf(more)
    ensures HeardOf(Then(leg, more)) == leg.heard + HeardOf(more)
    ensures Asked(last.sentA) == Asked(p.sentA) + AskedOf(Then(leg, more))
  {
    Growing.AppendAll(Asked(p.sentA), leg.asked, AskedOf(more));
  }

  /** A run of the pair is one of the machine, leg by leg. */
  lemma {:induction false} RunHasLegs(pairs: seq<Pair>, turns: seq<Turn>, applied: bool, k: nat) returns (legs: Legs)
    requires IsRun(pairs, turns, applied) && HonestThroughout(pairs) && k <= |turns|
    ensures Joins(legs, pairs[k], pairs[|turns|], HeardFrom(pairs, turns, k), applied)
    decreases |turns| - k
  {
    if k == |turns| {
      legs := Done;
      assert HonestAt(pairs, k);
    } else {
      var leg := TurnInRun(pairs, turns, applied, k);
      var more := RunHasLegs(pairs, turns, applied, k + 1);
      var p, q, last := pairs[k], pairs[k + 1], pairs[|turns|];
      LegSays(leg, more, p, q, last);
      legs := Then(leg, more);
    }
  }

  lemma RunFromStart(pairs: seq<Pair>, turns: seq<Turn>, me: Elections.Candidacy, nowUs: nat, applied: bool)
    returns (legs: Legs)
    requires IsRun(pairs, turns, applied) && Starts(pairs[0], me, nowUs)
    ensures Asked(pairs[|turns|].sentA) == AskedOf(legs) && HeardFrom(pairs, turns, 0) == HeardOf(legs)
    ensures Lead(legs, TimeSync.Initial(), pairs[0].skewB - pairs[0].skewA,
                   pairs[|turns|].a.sync, pairs[|turns|].skewB - pairs[|turns|].skewA, applied)
  {
    StartIsHonest(pairs[0], me, nowUs);
    forall n | 0 <= n < |pairs| ensures HonestAt(pairs, n) { RunStaysHonest(pairs, turns, applied, n); }
    legs := RunHasLegs(pairs, turns, applied, 0);
    assert [] + AskedOf(legs) == AskedOf(legs);
  }

  lemma OffsetIsMeasurable(pairs: seq<Pair>, turns: seq<Turn>, applied: bool)
    requires IsRun(pairs, turns, applied) && turns != []
    ensures forall best: nat :: 12 * best <= U64_MAX ==> TimeSync.Measurable(pairs[0].skewB - pairs[0].skewA, best)
  {
    assert IsTurn(pairs, turns, 0, applied);
  }

  lemma AskedIsNear(legs: Legs, theta: int, after: TimeSync.Machine, left: int)
    requires Lead(legs, TimeSync.Initial(), theta, after, left, false)
    ensures var first := TimeSync.FirstRtt(HeardOf(legs));
            && (first.None? ==> AskedOf(legs) == [])
            && (first.Some? && TimeSync.Measurable(theta, first.value) ==>
                  forall c :: c in AskedOf(legs) ==> TimeSync.Near(c, theta, TimeSync.ErrorBound(first.value)))
  {
    LegsSpanUnapplied(legs, TimeSync.Initial(), theta, after, left);
    SpansMeans(TimeSync.Initial(), theta, HeardOf(legs), AskedOf(legs), after, left, false);
    TimeSync.AllCorrectionsAreClose(TimeSync.Initial(), HeardOf(legs), theta);
  }

  lemma LeftIsSmall(legs: Legs, theta: int, after: TimeSync.Machine, left: int)
    requires Lead(legs, TimeSync.Initial(), theta, after, left, true)
    ensures var first := TimeSync.FirstRtt(HeardOf(legs));
            after.state.Synced? && (first.Some? ==> TimeSync.Measurable(theta, first.value)) ==>
              first.Some? && TimeSync.Small(left, TimeSync.ErrorBound(first.value))
  {
    var first := TimeSync.FirstRtt(HeardOf(legs));
    LegsSpanApplied(legs, TimeSync.Initial(), theta, after, left);
    SpansMeans(TimeSync.Initial(), theta, HeardOf(legs), AskedOf(legs), after, left, true);
    if first.Some? ==> TimeSync.Measurable(theta, first.value) {
      TimeSync.SyncedIsClose(TimeSync.Initial(), theta, HeardOf(legs));
    }
  }

  /** What the asking node asked for is near the offset, by its first round trip. */
  ghost predicate AskedNearly(heard: seq<TimeSync.SyncEvent>, asked: seq<int>, theta: int) {
    var first := TimeSync.FirstRtt(heard);
    && (first.None? ==> asked == [])
    && (first.Some? && 12 * first.value <= U64_MAX ==>
          forall c :: c in asked ==> TimeSync.Near(c, theta, TimeSync.ErrorBound(first.value)))
  }

  /** What is left of the offset once synced is small, by the first round trip. */
  ghost predicate LeftSmall(heard: seq<TimeSync.SyncEvent>, after: TimeSync.Machine, left: int) {
    var first := TimeSync.FirstRtt(heard);
    after.state.Synced? && (first.Some? ==> 12 * first.value <= U64_MAX) ==>
      first.Some? && TimeSync.Small(left, TimeSync.ErrorBound(first.value))
  }

  lemma LegsAskNearly(legs: Legs, p: Pair, q: Pair)
    requires Lead(legs, TimeSync.Initial(), p.skewB - p.skewA, q.a.sync, q.skewB - q.skewA, false)
    requires forall best: nat :: 12 * best <= U64_MAX ==> TimeSync.Measurable(p.skewB - p.skewA, best)
    ensures AskedNearly(HeardOf(legs), AskedOf(legs), p.skewB - p.skewA)
  {
    AskedIsNear(legs, p.skewB - p.skewA, q.a.sync, q.skewB - q.skewA);
  }

  lemma LegsLeaveLittle(legs: Legs, p: Pair, q: Pair)
    requires Lead(legs, TimeSync.Initial(), p.skewB - p.skewA, q.a.sync, q.skewB - q.skewA, true)
    requires forall best: nat :: 12 * best <= U64_MAX ==> TimeSync.Measurable(p.skewB - p.skewA, best)
    ensures LeftSmall(HeardOf(legs), q.a.sync, q.skewB - q.skewA)
  {
    LeftIsSmall(legs, p.skewB - p.skewA, q.a.sync, q.skewB - q.skewA);
  }

  /**
   A new node whose clock is left alone: each correction it asks for is how far the other's clock
   is ahead of its own, to within half of one and a half times the first round trip.
   */
  lemma PairMeasuresClosely(pairs: seq<Pair>, turns: seq<Turn>, me: Elections.Candidacy, nowUs: nat)
    requires IsRun(pairs, turns, false) && Starts(pairs[0], me, nowUs)
    ensures AskedNearly(HeardFrom(pairs, turns, 0), Asked(pairs[|turns|].sentA), pairs[0].skewB - pairs[0].skewA)
  {
    var legs := RunFromStart(pairs, turns, me, nowUs, false);
    if turns != [] {
      OffsetIsMeasurable(pairs, turns, false);
      LegsAskNearly(legs, pairs[0], pairs[|turns|]);
    }
  }

  /**
   A new node whose clock is set as it asks: whenever it has synced to the mesh, the two clocks
   differ by at most half of one and a half times the first round trip.
   */
  lemma PairSyncsClosely(pairs: seq<Pair>, turns: seq<Turn>, me: Elections.Candidacy, nowUs: nat)
    requires IsRun(pairs, turns, true) && Starts(pairs[0], me, nowUs)
    ensures var q := pairs[|turns|]; LeftSmall(HeardFrom(pairs, turns, 0), q.a.sync, q.skewB - q.skewA)
  {
    var legs := RunFromStart(pairs, turns, me, nowUs, true);
    if turns != [] {
      OffsetIsMeasurable(pairs, turns, true);
      LegsLeaveLittle(legs, pairs[0], pairs[|turns|]);
    }
  }
}
