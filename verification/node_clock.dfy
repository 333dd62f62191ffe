/**
 What a node tells its clock: the corrections it asks for are those of its sync machine, run on
 the ticks, answers and timers it is handed, and so they are close to the true offset.
 */
module NodeClock {
  import opened Wrappers
  import opened Nodes
  import opened NodeLaws
  import Elections
  import Growing
  import TimeSync

  /** What the sync machine is handed in an event, if anything. */
  function Heard(s: NodeState, nowUs: nat, event: Event): Option<TimeSync.SyncEvent> {
    match event
    case TimerFired => Some(TimeSync.TimePassed(nowUs))
    case Datagram(received) =>
      if !Heeded(s, received) then None
      else (
        match received.message
        case Tick(_, master, epoch) =>
          if Elections.Ticked(s.election, nowUs, master, epoch).0.role.Leader? then None else Some(TimeSync.TickSeen(nowUs))
        case SyncReq(_) => None
        case SyncResp(t1, t2, t3) =>
          if s.pendingProbeT1 == Some(t1) then Some(TimeSync.SampleSeen(nowUs, TimeSync.Sample(t1, t2, t3, nowUs))) else None)
    case PeerDiscovered => None
    case PeerLost => None
  }

  function AllHeard(s: NodeState, moments: seq<Moment>): seq<TimeSync.SyncEvent>
    requires s.sync.Valid()
    decreases |moments|
  {
    if moments == [] then []
    else
      SyncStaysValid(s, moments[0].nowUs, moments[0].event);
      var heard := Heard(s, moments[0].nowUs, moments[0].event);
      (if heard.Some? then [heard.value] else [])
      + AllHeard(AfterEvent(s, moments[0].nowUs, moments[0].event).after, moments[1..])
  }

  /** The corrections among what a node asks of its shell, in order. */
  function Disciplines(out: seq<Action>): seq<int> {
    if out == [] then []
    else (if out[0].DisciplineClock? then [out[0].offsetUs] else []) + Disciplines(out[1..])
  }

  lemma {:induction false} DisciplinesAppend(a: seq<Action>, b: seq<Action>)
    ensures Disciplines(a + b) == Disciplines(a) + Disciplines(b)
  {
    if a == [] {
      assert a + b == b;
    } else {
      assert (a + b)[1..] == a[1..] + b;
      DisciplinesAppend(a[1..], b);
      Growing.AppendAll(if a[0].DisciplineClock? then [a[0].offsetUs] else [], Disciplines(a[1..]), Disciplines(b));
    }
  }

  lemma {:induction false} NoDisciplines(out: seq<Action>)
    requires forall a :: a in out ==> !a.DisciplineClock?
    ensures Disciplines(out) == []
  {
    if out != [] { NoDisciplines(out[1..]); }
  }

  /** The correction an outcome asks for, if it asks for one. */
  function Correction(outcome: TimeSync.Outcome): seq<int> {
    if outcome.Discipline? then [outcome.offsetUs] else []
  }

  /** What an event does to the sync machine, and what the node then asks of its clock. */
  ghost predicate Drives(s: NodeState, heard: Option<TimeSync.SyncEvent>, e: Effect)
    requires s.sync.Valid()
  {
    match heard
    case None => e.after.sync == s.sync && Disciplines(e.out) == []
    case Some(h) =>
      var (sync, outcome) := TimeSync.Next(s.sync, h);
      e.after.sync == sync && Disciplines(e.out) == Correction(outcome)
  }

  lemma TimerDrives(s: NodeState, nowUs: nat)
    requires s.sync.Valid()
    ensures Drives(s, Some(TimeSync.TimePassed(nowUs)), AfterTimer(s, nowUs))
  {
    var t := Forgotten(s, nowUs);
    var (election, became) := Elections.Timed(t.election, nowUs);
    ElectionActKeeps(t.(election := election), nowUs, became);
    var e := ElectionActed(t.(election := election), nowUs, became);
    var (sync, outcome) := TimeSync.Timed(e.after.sync, nowUs);
    SyncActKeeps(e.after.(sync := sync), nowUs, outcome);
    NoDisciplines(AfterTimer(s, nowUs).out);
  }

  lemma TickDrives(s: NodeState, nowUs: nat, sender: Prefix, tick: Message)
    requires s.sync.Valid() && tick.Tick?
    ensures Disciplines(AfterTickMessage(s, nowUs, sender, tick).out) == []
    ensures AfterTickMessage(s, nowUs, sender, tick).after.sync
            == if Elections.Ticked(s.election, nowUs, tick.master, tick.epoch).0.role.Leader? then s.sync
               else TimeSync.Ticked(s.sync, nowUs).0
  {
    NoDisciplines(AfterTickMessage(s, nowUs, sender, tick).out);
  }

  lemma RespDrives(s: NodeState, nowUs: nat, resp: Message)
    requires s.sync.Valid() && resp.SyncResp? && s.pendingProbeT1 == Some(resp.t1)
    ensures var (sync, outcome) := TimeSync.Sampled(s.sync, nowUs, TimeSync.Sample(resp.t1, resp.t2, resp.t3, nowUs));
            var e := AfterResp(s, nowUs, resp);
            e.after.sync == sync && Disciplines(e.out) == Correction(outcome)
  {
    var out := AfterResp(s, nowUs, resp).out;
    assert out != [] ==> out[1..] == [];
  }

  lemma MessageDrives(s: NodeState, nowUs: nat, received: Received)
    requires s.sync.Valid() && Heeded(s, received)
    ensures Drives(s, Heard(s, nowUs, Datagram(received)), AfterMessage(s, nowUs, received.sender, received.message))
  {
    match received.message
    case Tick(_, _, _) => TickDrives(s, nowUs, received.sender, received.message);
    case SyncReq(_) => NoDisciplines(AfterMessage(s, nowUs, received.sender, received.message).out);
    case SyncResp(t1, _, _) => if s.pendingProbeT1 == Some(t1) { RespDrives(s, nowUs, received.message); }
  }

  lemma MoreSaid(s: NodeState, heard: Option<TimeSync.SyncEvent>, e: Effect, more: seq<Action>)
    requires s.sync.Valid() && Drives(s, heard, e) && forall a :: a in more ==> !a.DisciplineClock?
    ensures Drives(s, heard, Effect(e.after, e.out + more))
  {
    DisciplinesAppend(e.out, more);
    NoDisciplines(more);
  }

  lemma EventDrives(s: NodeState, nowUs: nat, event: Event)
    requires s.sync.Valid()
    ensures Drives(s, Heard(s, nowUs, event), AfterEvent(s, nowUs, event))
  {
    var heard, e := Heard(s, nowUs, event), Handled(s, nowUs, event);
    match event {
      case TimerFired => TimerDrives(s, nowUs);
      case Datagram(received) =>
        if Heeded(s, received) {
          var said := AfterMessage(s, nowUs, received.sender, received.message);
          MessageDrives(s, nowUs, received);
          MoreSaid(s, heard, said, Announcement(IsSynced(s), said.after));
        }
      case _ =>
    }
    MoreSaid(s, heard, e, [SetTimer(NextDeadline(e.after, nowUs))]);
  }

  /**
   In every run of a node its sync machine runs on exactly what the node hands it, and the
   corrections the node asks for are exactly those of the machine.
   */
  lemma {:induction false} NodeRunsItsSync(s: NodeState, moments: seq<Moment>)
    requires s.sync.Valid()
    ensures Run(s, moments).after.sync == TimeSync.AfterRun(s.sync, AllHeard(s, moments))
    ensures Disciplines(Run(s, moments).out) == TimeSync.Corrections(s.sync, AllHeard(s, moments))
    decreases |moments|
  {
    if moments != [] {
      var m := moments[0];
      EventDrives(s, m.nowUs, m.event);
      SyncStaysValid(s, m.nowUs, m.event);
      var first := AfterEvent(s, m.nowUs, m.event);
      var rest := AllHeard(first.after, moments[1..]);
      NodeRunsItsSync(first.after, moments[1..]);
      DisciplinesAppend(first.out, Run(first.after, moments[1..]).out);
      match Heard(s, m.nowUs, m.event)
      case None => assert AllHeard(s, moments) == rest;
      case Some(h) => assert AllHeard(s, moments)[1..] == rest;
    }
  }

  /**
   End to end: if every answer a new node samples is a round trip to a clock that is `theta`
   ahead, each correction it asks for is off by at most half of one and a half times the first
   round trip, and a node that samples none asks for none.
   */
  lemma ClockIsCorrectedClosely(me: Elections.Candidacy, prefix: Prefix, mesh: MeshPrefix, nowUs: nat,
                                moments: seq<Moment>, theta: int)
    requires forall h :: h in AllHeard(Initial(me, prefix, mesh, nowUs), moments) ==> TimeSync.RealSample(h, theta)
    ensures var s := Initial(me, prefix, mesh, nowUs);
            var first := TimeSync.FirstRtt(AllHeard(s, moments));
            var asked := Disciplines(Run(s, moments).out);
            && (first.None? ==> asked == [])
            && (first.Some? && TimeSync.Measurable(theta, first.value) ==>
                  forall c :: c in asked ==> TimeSync.Near(c, theta, TimeSync.ErrorBound(first.value)))
  {
    var s := Initial(me, prefix, mesh, nowUs);
    NodeRunsItsSync(s, moments);
    TimeSync.AllCorrectionsAreClose(s.sync, AllHeard(s, moments), theta);
  }

  /**
   The same with the corrections applied: whenever a new node has synced to the mesh, what is left
   of its offset is at most half of one and a half times its first round trip.
   */
  lemma SyncedClockIsClose(me: Elections.Candidacy, prefix: Prefix, mesh: MeshPrefix, nowUs: nat,
                           moments: seq<Moment>, theta: int)
    requires var heard := AllHeard(Initial(me, prefix, mesh, nowUs), moments);
             && TimeSync.RealRun(TimeSync.Initial(), theta, heard)
             && (TimeSync.FirstRtt(heard).Some? ==> TimeSync.Measurable(theta, TimeSync.FirstRtt(heard).value))
    ensures var s := Initial(me, prefix, mesh, nowUs);
            var first := TimeSync.FirstRtt(AllHeard(s, moments));
            var e := Run(s, moments);
            e.after.sync.state.Synced? ==>
              first.Some? && TimeSync.Small(theta - TimeSync.Sum(Disciplines(e.out)), TimeSync.ErrorBound(first.value))
  {
    var s := Initial(me, prefix, mesh, nowUs);
    NodeRunsItsSync(s, moments);
    TimeSync.SyncedIsClose(s.sync, theta, AllHeard(s, moments));
  }
}
