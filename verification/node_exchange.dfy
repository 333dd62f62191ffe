/**
 Time sync between two nodes (node.rs): what one sends, the other answers and the first makes of
 it is a round trip between their clocks, in every run in which only what was sent arrives; and so
 the corrections a node asks for are close to how far ahead the other's clock really is.

 True time is the same for both. A node's clock reads true time and its skew. Messages may be lost,
 delayed, repeated and overtaken, and anything else may happen to either node between them.
 */
module NodeExchange {
  import opened Arith
  import opened Wrappers
  import opened Nodes
  import opened NodeLaws
  import opened NodeClock
  import Elections
  import TimeSync

  // --------------------------------------------------------------------- one event

  predicate SendsReq(a: Action) { a.Send? && a.message.SyncReq? }

  predicate SendsResp(a: Action) { a.Send? && a.message.SyncResp? }

  predicate IsKnown(event: Event, mesh: MeshPrefix) {
    event.Datagram? && event.received.Known? && event.received.mesh == mesh
  }

  /** The event is a request by a sender of the mesh. */
  predicate IsReq(event: Event, mesh: MeshPrefix, sender: Prefix, t1: nat) {
    IsKnown(event, mesh) && event.received.sender == sender && event.received.message == SyncReq(t1)
  }

  predicate IsResp(event: Event, mesh: MeshPrefix) {
    IsKnown(event, mesh) && event.received.message.SyncResp?
  }

  /** A request carries the reading of its sender's clock, and then it is the one outstanding. */
  ghost predicate RequestsNow(e: Effect, nowUs: nat) {
    forall a :: a in e.out && SendsReq(a) ==> a.message.t1 == nowUs
  }

  /** What is outstanding was before, or is asked now. */
  ghost predicate Outstands(s: NodeState, e: Effect, nowUs: nat) {
    e.after.pendingProbeT1.Some? ==>
      e.after.pendingProbeT1 == s.pendingProbeT1
      || (e.after.pendingProbeT1 == Some(nowUs) && exists a :: a in e.out && SendsReq(a))
  }

  ghost predicate AnswersNothing(out: seq<Action>) {
    forall a :: a in out ==> !SendsResp(a)
  }

  lemma ReqSentRequests(s: NodeState, nowUs: nat)
    ensures var e := ReqSent(s, nowUs);
            RequestsNow(e, nowUs) && Outstands(s, e, nowUs) && AnswersNothing(e.out)
  {
    var e := ReqSent(s, nowUs);
    if e.out != [] { assert e.out[0] in e.out && SendsReq(e.out[0]); }
  }

  lemma OutstandsStill(s: NodeState, t: NodeState, e: Effect, before: seq<Action>, after: seq<Action>, nowUs: nat)
    requires Outstands(t, e, nowUs) && (t.pendingProbeT1.Some? ==> t.pendingProbeT1 == s.pendingProbeT1)
    ensures Outstands(s, Effect(e.after, before + e.out + after), nowUs)
  {
    if exists a :: a in e.out && SendsReq(a) {
      var a :| a in e.out && SendsReq(a);
      assert a in before + e.out + after;
    }
  }

  /** What a node's event makes it request, and what then is outstanding. */
  lemma TimerRequests(s: NodeState, nowUs: nat)
    ensures var e := AfterTimer(s, nowUs);
            RequestsNow(e, nowUs) && Outstands(s, e, nowUs) && AnswersNothing(e.out)
  {
    var t := Forgotten(s, nowUs);
    var (election, became) := Elections.Timed(t.election, nowUs);
    ElectionActKeeps(t.(election := election), nowUs, became);
    var e := ElectionActed(t.(election := election), nowUs, became);
    var (sync, outcome) := TimeSync.Timed(e.after.sync, nowUs);
    var u := e.after.(sync := sync);
    ReqSentRequests(u, nowUs);
    OutstandsStill(s, u, SyncActed(u, nowUs, outcome), e.out, Announcement(IsSynced(s), AfterTimer(s, nowUs).after), nowUs);
  }

  lemma TickRequests(s: NodeState, nowUs: nat, sender: Prefix, tick: Message)
    requires tick.Tick?
    ensures var e := AfterTickMessage(s, nowUs, sender, tick);
            RequestsNow(e, nowUs) && Outstands(s, e, nowUs) && AnswersNothing(e.out)
  {
    var (election, became) := Elections.Ticked(s.election, nowUs, tick.master, tick.epoch);
    var t := s.(masterPrefix := Some(sender), election := election);
    assert became.Idle? || became.Became?;
    var first := if became.Became? then [RoleChanged(became.role, election.epoch)] else [];
    if !Leads(t) {
      var u := t.(sync := TimeSync.Ticked(t.sync, nowUs).0);
      ReqSentRequests(u, nowUs);
      OutstandsStill(s, u, ReqSent(u, nowUs), first, [], nowUs);
      assert first + ReqSent(u, nowUs).out + [] == first + ReqSent(u, nowUs).out;
    }
  }

  lemma SyncActRequests(s: NodeState, nowUs: nat, outcome: TimeSync.Outcome)
    ensures var e := SyncActed(s, nowUs, outcome);
            RequestsNow(e, nowUs) && Outstands(s, e, nowUs) && AnswersNothing(e.out)
            && (!outcome.Probe? ==> e.after == s) && (outcome.Probe? ==> Disciplines(e.out) == [])
  {
    ReqSentRequests(s, nowUs);
    if outcome.Probe? { NoDisciplines(SyncActed(s, nowUs, outcome).out); }
  }

  lemma RespRequests(s: NodeState, nowUs: nat, resp: Message)
    requires resp.SyncResp? && s.sync.Valid()
    ensures var e := AfterResp(s, nowUs, resp);
            RequestsNow(e, nowUs) && Outstands(s, e, nowUs) && AnswersNothing(e.out)
            && (Disciplines(e.out) != [] ==> e.after.pendingProbeT1.None?)
  {
    if s.pendingProbeT1 == Some(resp.t1) {
      var t := s.(pendingProbeT1 := None, probeDeadlineUs := U64_MAX);
      var (sync, outcome) := TimeSync.Sampled(t.sync, nowUs, TimeSync.Sample(resp.t1, resp.t2, resp.t3, nowUs));
      SyncActRequests(t.(sync := sync), nowUs, outcome);
    }
  }

  /** Nothing more is said of syncing. */
  ghost predicate Aside(out: seq<Action>) {
    forall a :: a in out ==> !a.Send? && !a.DisciplineClock?
  }

  /** All that the proofs below ask of what a node does in an event. */
  ghost predicate Deals(s: NodeState, nowUs: nat, event: Event, e: Effect) {
    && e.after.prefix == s.prefix && e.after.mesh == s.mesh
    && RequestsNow(e, nowUs) && Outstands(s, e, nowUs)
    && (Disciplines(e.out) != [] ==> e.after.pendingProbeT1.None?)
    && (forall a :: a in e.out && SendsResp(a) ==> AnswersFor(s, nowUs, event, a))
  }

  /** An answer goes to whoever asked, with what it asked and the clock's reading twice. */
  predicate AnswersFor(s: NodeState, nowUs: nat, event: Event, a: Action)
    requires SendsResp(a)
  {
    && a.to.Peer? && a.to.prefix != s.prefix && IsReq(event, s.mesh, a.to.prefix, a.message.t1)
    && a.message == SyncResp(a.message.t1, nowUs, nowUs)
  }

  lemma DealsStill(s: NodeState, nowUs: nat, event: Event, e: Effect, more: seq<Action>)
    requires Deals(s, nowUs, event, e) && Aside(more)
    ensures Deals(s, nowUs, event, Effect(e.after, e.out + more))
  {
    DisciplinesAppend(e.out, more);
    NoDisciplines(more);
    OutstandsStill(s, s, e, [], more, nowUs);
    assert [] + e.out + more == e.out + more;
  }

  lemma TimerDeals(s: NodeState, nowUs: nat)
    ensures Deals(s, nowUs, TimerFired, AfterTimer(s, nowUs))
  {
    TimerRequests(s, nowUs);
    TimerKeepsName(s, nowUs);
    TimerSetsNoClock(s, nowUs);
    RequestsDeal(s, nowUs, TimerFired, AfterTimer(s, nowUs));
  }

  lemma TimerKeepsName(s: NodeState, nowUs: nat)
    ensures AfterTimer(s, nowUs).after.prefix == s.prefix && AfterTimer(s, nowUs).after.mesh == s.mesh
  {
    var t := Forgotten(s, nowUs);
    var (election, became) := Elections.Timed(t.election, nowUs);
    ElectionActKeeps(t.(election := election), nowUs, became);
  }

  lemma TimerSetsNoClock(s: NodeState, nowUs: nat)
    ensures Disciplines(AfterTimer(s, nowUs).out) == []
  {
    NoDisciplines(AfterTimer(s, nowUs).out);
  }

  lemma RequestsDeal(s: NodeState, nowUs: nat, event: Event, e: Effect)
    requires RequestsNow(e, nowUs) && Outstands(s, e, nowUs) && AnswersNothing(e.out)
    requires e.after.prefix == s.prefix && e.after.mesh == s.mesh
    requires Disciplines(e.out) == [] || e.after.pendingProbeT1.None?
    ensures Deals(s, nowUs, event, e)
  {
  }

  lemma TickDeals(s: NodeState, nowUs: nat, event: Event, sender: Prefix, tick: Message)
    requires tick.Tick?
    ensures Deals(s, nowUs, event, AfterTickMessage(s, nowUs, sender, tick))
  {
    TickRequests(s, nowUs, sender, tick);
    NoDisciplines(AfterTickMessage(s, nowUs, sender, tick).out);
  }

  lemma ReqDeals(s: NodeState, nowUs: nat, sender: Prefix, t1: nat)
    requires sender != s.prefix
    ensures Deals(s, nowUs, Datagram(Known(s.mesh, sender, SyncReq(t1))), Sent(s, Peer(sender), SyncResp(t1, nowUs, nowUs)))
  {
    NoDisciplines(Sent(s, Peer(sender), SyncResp(t1, nowUs, nowUs)).out);
  }

  lemma RespDeals(s: NodeState, nowUs: nat, event: Event, resp: Message)
    requires resp.SyncResp? && s.sync.Valid()
    ensures Deals(s, nowUs, event, AfterResp(s, nowUs, resp))
  {
    RespRequests(s, nowUs, resp);
  }

  lemma MessageDeals(s: NodeState, nowUs: nat, received: Received)
    requires s.sync.Valid() && Heeded(s, received)
    ensures Deals(s, nowUs, Datagram(received), AfterMessage(s, nowUs, received.sender, received.message))
  {
    match received.message
    case Tick(_, _, _) => TickDeals(s, nowUs, Datagram(received), received.sender, received.message);
    case SyncReq(t1) => ReqDeals(s, nowUs, received.sender, t1);
    case SyncResp(_, _, _) => RespDeals(s, nowUs, Datagram(received), received.message);
  }

  lemma EventDeals(s: NodeState, nowUs: nat, event: Event)
    requires s.sync.Valid()
    ensures Deals(s, nowUs, event, AfterEvent(s, nowUs, event))
  {
    var e := Handled(s, nowUs, event);
    match event {
      case TimerFired => TimerDeals(s, nowUs);
      case Datagram(received) =>
        if Heeded(s, received) {
          var said := AfterMessage(s, nowUs, received.sender, received.message);
          MessageDeals(s, nowUs, received);
          DealsStill(s, nowUs, event, said, Announcement(IsSynced(s), said.after));
        }
      case _ =>
    }
    DealsStill(s, nowUs, event, e, [SetTimer(NextDeadline(e.after, nowUs))]);
  }

  // ------------------------------------------------------------------- one exchange

  lemma AnswerIs(b: NodeState, nowUs: nat, sender: Prefix, t1: nat)
    requires b.sync.Valid() && sender != b.prefix
    ensures AfterEvent(b, nowUs, Datagram(Known(b.mesh, sender, SyncReq(t1)))).out
            == [Send(Peer(sender), SyncResp(t1, nowUs, nowUs), NextSequence(b.sequence)),
                SetTimer(NextDeadline(b.(sequence := NextSequence(b.sequence)), nowUs))]
  {
    assert IsSynced(b.(sequence := NextSequence(b.sequence))) == IsSynced(b);
  }

  /** Whatever makes a node request, its request carries the reading of its clock. */
  lemma RequestsCarryTheReading(s: NodeState, nowUs: nat, event: Event, a: Action)
    requires s.sync.Valid() && a in AfterEvent(s, nowUs, event).out && SendsReq(a)
    ensures a.message == SyncReq(nowUs)
  {
    EventDeals(s, nowUs, event);
  }

  /**
   A node asks at `t1` by its clock; another of its mesh, whose clock is `theta` ahead, is handed
   the request `out` microseconds later; and the answer comes back `back` microseconds after that.
   The answer is one message, to whoever asked, and if the request is still outstanding, what the
   first node then samples is a round trip between their clocks over paths of just those delays.
   */
  lemma Exchange(a: NodeState, b: NodeState, t1: nat, theta: int, out: nat, back: nat)
    requires b.sync.Valid() && a.mesh == b.mesh && a.prefix != b.prefix && t1 + out + theta >= 0
    ensures var t2, t4 := t1 + out + theta, t1 + out + back;
            var answer, sample := SyncResp(t1, t2, t2), TimeSync.Sample(t1, t2, t2, t4);
            && AfterEvent(b, t2, Datagram(Known(a.mesh, a.prefix, SyncReq(t1)))).out
               == [Send(Peer(a.prefix), answer, NextSequence(b.sequence)),
                   SetTimer(NextDeadline(b.(sequence := NextSequence(b.sequence)), t2))]
            && (a.pendingProbeT1 == Some(t1) ==>
                  Heard(a, t4, Datagram(Known(b.mesh, b.prefix, answer))) == Some(TimeSync.SampleSeen(t4, sample)))
            && TimeSync.Genuine(sample, theta, out, back)
  {
    AnswerIs(b, t1 + out + theta, a.prefix, t1);
  }
}
