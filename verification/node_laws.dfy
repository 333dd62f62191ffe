/**
 What every run of a node keeps: what it announces is what it is, and one lost datagram never
 stops its probes.
 */
module NodeLaws {
  import opened Arith
  import opened Wrappers
  import opened Nodes
  import Elections
  import TimeSync

  datatype Moment = Moment(nowUs: nat, event: Event)

  lemma ElectionActKeeps(s: NodeState, nowUs: nat, outcome: Elections.Outcome)
    ensures ElectionActed(s, nowUs, outcome).after == s.(sequence := ElectionActed(s, nowUs, outcome).after.sequence)
  {
  }

  lemma SyncActKeeps(s: NodeState, nowUs: nat, outcome: TimeSync.Outcome)
    ensures SyncActed(s, nowUs, outcome).after.sync == s.sync
    ensures SyncActed(s, nowUs, outcome).after.election == s.election
  {
  }

  lemma TimerKeepsSync(s: NodeState, nowUs: nat)
    requires s.sync.Valid()
    ensures AfterTimer(s, nowUs).after.sync.Valid()
  {
    var t := Forgotten(s, nowUs);
    var (election, became) := Elections.Timed(t.election, nowUs);
    ElectionActKeeps(t.(election := election), nowUs, became);
    var e := ElectionActed(t.(election := election), nowUs, became);
    var (sync, outcome) := TimeSync.Timed(e.after.sync, nowUs);
    SyncActKeeps(e.after.(sync := sync), nowUs, outcome);
  }

  lemma TickKeepsSync(s: NodeState, nowUs: nat, sender: Prefix, tick: Message)
    requires tick.Tick? && s.sync.Valid()
    ensures AfterTickMessage(s, nowUs, sender, tick).after.sync.Valid()
  {
  }

  lemma RespKeepsSync(s: NodeState, nowUs: nat, resp: Message)
    requires resp.SyncResp? && s.sync.Valid()
    ensures AfterResp(s, nowUs, resp).after.sync.Valid()
  {
    var (sync, outcome) := TimeSync.Sampled(s.sync, nowUs, TimeSync.Sample(resp.t1, resp.t2, resp.t3, nowUs));
    SyncActKeeps(s.(pendingProbeT1 := None, probeDeadlineUs := U64_MAX, sync := sync), nowUs, outcome);
  }

  lemma SyncStaysValid(s: NodeState, nowUs: nat, event: Event)
    requires s.sync.Valid()
    ensures AfterEvent(s, nowUs, event).after.sync.Valid()
  {
    match event
    case TimerFired => TimerKeepsSync(s, nowUs);
    case Datagram(received) =>
      if Heeded(s, received) {
        match received.message
        case Tick(_, _, _) => TickKeepsSync(s, nowUs, received.sender, received.message);
        case SyncReq(_) =>
        case SyncResp(_, _, _) => RespKeepsSync(s, nowUs, received.message);
      }
    case PeerDiscovered =>
    case PeerLost =>
  }

  /** The state after a run, and everything asked for on the way. */
  function Run(s: NodeState, moments: seq<Moment>): (e: Effect)
    requires s.sync.Valid()
    ensures e.after.sync.Valid()
    decreases |moments|
  {
    if moments == [] then Effect(s, [])
    else
      SyncStaysValid(s, moments[0].nowUs, moments[0].event);
      var first := AfterEvent(s, moments[0].nowUs, moments[0].event);
      var rest := Run(first.after, moments[1..]);
      Effect(rest.after, first.out + rest.out)
  }

  // ------------------------------------------------------------------- announcements

  /** What a shell that follows the announcements believes about sync. */
  function Believed(was: bool, out: seq<Action>): bool
    decreases |out|
  {
    if out == [] then was
    else Believed(if out[0].SyncAcquired? then true else if out[0].SyncLost? then false else was, out[1..])
  }

  /** Each announcement changes what was believed. */
  predicate Alternates(was: bool, out: seq<Action>)
    decreases |out|
  {
    out == [] ||
    (&& (out[0].SyncAcquired? ==> !was) && (out[0].SyncLost? ==> was)
     && Alternates(if out[0].SyncAcquired? then true else if out[0].SyncLost? then false else was, out[1..]))
  }

  /** What a shell that follows the role changes believes about leading. */
  function BelievedLeader(was: bool, out: seq<Action>): bool
    decreases |out|
  {
    if out == [] then was
    else BelievedLeader(if out[0].RoleChanged? then out[0].role.Leader? else was, out[1..])
  }

  lemma {:induction false} BeliefsAppend(was: bool, leads: bool, a: seq<Action>, b: seq<Action>)
    ensures Believed(was, a + b) == Believed(Believed(was, a), b)
    ensures Alternates(was, a + b) <==> Alternates(was, a) && Alternates(Believed(was, a), b)
    ensures BelievedLeader(leads, a + b) == BelievedLeader(BelievedLeader(leads, a), b)
    decreases |a|
  {
    if a == [] {
      assert a + b == b;
    } else {
      assert (a + b)[1..] == a[1..] + b;
      BeliefsAppend(if a[0].SyncAcquired? then true else if a[0].SyncLost? then false else was,
                    if a[0].RoleChanged? then a[0].role.Leader? else leads, a[1..], b);
    }
  }

  ghost predicate NoSyncNews(out: seq<Action>) {
    forall a :: a in out ==> !a.SyncAcquired? && !a.SyncLost?
  }

  ghost predicate NoRoleNews(out: seq<Action>) {
    forall a :: a in out ==> !a.RoleChanged?
  }

  lemma {:induction false} NoNews(was: bool, leads: bool, out: seq<Action>)
    ensures NoSyncNews(out) ==> Believed(was, out) == was && Alternates(was, out)
    ensures NoRoleNews(out) ==> BelievedLeader(leads, out) == leads
    decreases |out|
  {
    if out != [] { NoNews(was, leads, out[1..]); }
  }

  lemma AnnouncementIsTrue(was: bool, s: NodeState)
    ensures Believed(was, Announcement(was, s)) == IsSynced(s) && Alternates(was, Announcement(was, s))
    ensures NoRoleNews(Announcement(was, s))
  {
    var out := Announcement(was, s);
    assert out != [] ==> out[1..] == [];
  }

  /** Acting on an election's outcome announces the role, once and truly. */
  lemma ElectionNews(s: NodeState, nowUs: nat, outcome: Elections.Outcome, was: bool)
    requires outcome.Became? ==> s.election.role == outcome.role
    requires !outcome.Became? ==> Leads(s) == was
    ensures var e := ElectionActed(s, nowUs, outcome);
            NoSyncNews(e.out) && BelievedLeader(was, e.out) == Leads(s)
            && e.after == s.(sequence := e.after.sequence)
  {
    var e := ElectionActed(s, nowUs, outcome);
    if outcome.Became? {
      assert e.out[1..] == if outcome.role.Leader? then TickSent(s, nowUs).out else [];
      NoNews(true, Leads(s), e.out[1..]);
    } else {
      NoNews(true, was, e.out);
    }
  }

  lemma SyncNews(s: NodeState, nowUs: nat, outcome: TimeSync.Outcome)
    ensures var e := SyncActed(s, nowUs, outcome);
            && NoSyncNews(e.out) && NoRoleNews(e.out)
            && e.after.election == s.election && e.after.sync == s.sync
  {
  }

  /** What a handler of an event must do for the announcements to stay true. */
  ghost predicate Truthful(s: NodeState, e: Effect) {
    && Alternates(IsSynced(s), e.out) && Believed(IsSynced(s), e.out) == IsSynced(e.after)
    && BelievedLeader(Leads(s), e.out) == Leads(e.after)
  }

  /** Parts that are silent about sync, then the announcement. */
  lemma TruthfulParts(s: NodeState, t: NodeState, a: seq<Action>, b: seq<Action>)
    requires NoSyncNews(a) && BelievedLeader(Leads(s), a) == Leads(t) && NoSyncNews(b) && NoRoleNews(b)
    ensures Truthful(s, Effect(t, a + b + Announcement(IsSynced(s), t)))
  {
    var was, leads, news := IsSynced(s), Leads(s), Announcement(IsSynced(s), t);
    BeliefsAppend(was, leads, a + b, news);
    BeliefsAppend(was, leads, a, b);
    NoNews(was, leads, a);
    NoNews(was, Leads(t), b);
    AnnouncementIsTrue(was, t);
    NoNews(was, Leads(t), news);
  }

  lemma TimerIsTruthful(s: NodeState, nowUs: nat)
    ensures Truthful(s, AfterTimer(s, nowUs))
  {
    var t := Forgotten(s, nowUs);
    var (election, became) := Elections.Timed(t.election, nowUs);
    ElectionNews(t.(election := election), nowUs, became, Leads(s));
    var e := ElectionActed(t.(election := election), nowUs, became);
    var (sync, outcome) := TimeSync.Timed(e.after.sync, nowUs);
    var u := e.after.(sync := sync);
    SyncNews(u, nowUs, outcome);
    var f := SyncActed(u, nowUs, outcome);
    TruthfulParts(s, f.after, e.out, f.out);
  }

  lemma TickMessageParts(s: NodeState, nowUs: nat, sender: Prefix, tick: Message)
    requires tick.Tick?
    ensures var e := AfterTickMessage(s, nowUs, sender, tick);
            NoSyncNews(e.out) && BelievedLeader(Leads(s), e.out) == Leads(e.after)
  {
    var (election, became) := Elections.Ticked(s.election, nowUs, tick.master, tick.epoch);
    var t := s.(masterPrefix := Some(sender), election := election);
    assert became.Idle? || became.Became?;
    var e := AfterTickMessage(s, nowUs, sender, tick);
    var first := if became.Became? then [RoleChanged(became.role, election.epoch)] else [];
    assert first != [] ==> first[1..] == [];
    assert BelievedLeader(Leads(s), first) == Leads(t);
    var rest := e.out[|first|..];
    assert e.out == first + rest && NoSyncNews(rest) && NoRoleNews(rest);
    BeliefsAppend(true, Leads(s), first, rest);
    NoNews(true, Leads(t), rest);
  }

  lemma MessageParts(s: NodeState, nowUs: nat, sender: Prefix, message: Message)
    requires s.sync.Valid()
    ensures var e := AfterMessage(s, nowUs, sender, message);
            NoSyncNews(e.out) && BelievedLeader(Leads(s), e.out) == Leads(e.after)
  {
    match message
    case Tick(_, _, _) => TickMessageParts(s, nowUs, sender, message);
    case SyncReq(t1) => NoNews(true, Leads(s), AfterMessage(s, nowUs, sender, message).out);
    case SyncResp(_, _, _) => RespParts(s, nowUs, message);
  }

  lemma RespParts(s: NodeState, nowUs: nat, resp: Message)
    requires s.sync.Valid() && resp.SyncResp?
    ensures var e := AfterResp(s, nowUs, resp);
            && NoSyncNews(e.out) && NoRoleNews(e.out)
            && Leads(e.after) == Leads(s) && BelievedLeader(Leads(s), e.out) == Leads(s)
  {
    if s.pendingProbeT1 == Some(resp.t1) {
      var (sync, outcome) := TimeSync.Sampled(s.sync, nowUs, TimeSync.Sample(resp.t1, resp.t2, resp.t3, nowUs));
      SyncNews(s.(pendingProbeT1 := None, probeDeadlineUs := U64_MAX, sync := sync), nowUs, outcome);
    }
    NoNews(true, Leads(s), AfterResp(s, nowUs, resp).out);
  }

  lemma DatagramIsTruthful(s: NodeState, nowUs: nat, received: Received)
    requires s.sync.Valid()
    ensures Truthful(s, AfterDatagram(s, nowUs, received))
  {
    if Heeded(s, received) {
      var e := AfterMessage(s, nowUs, received.sender, received.message);
      MessageParts(s, nowUs, received.sender, received.message);
      TruthfulParts(s, e.after, e.out, []);
      assert e.out + [] == e.out;
    }
  }

  lemma EventIsTruthful(s: NodeState, nowUs: nat, event: Event)
    requires s.sync.Valid()
    ensures Truthful(s, AfterEvent(s, nowUs, event))
  {
    match event {
      case TimerFired => TimerIsTruthful(s, nowUs);
      case Datagram(received) => DatagramIsTruthful(s, nowUs, received);
      case _ =>
    }
    var e := Handled(s, nowUs, event);
    var wake := [SetTimer(NextDeadline(e.after, nowUs))];
    BeliefsAppend(IsSynced(s), Leads(s), e.out, wake);
    NoNews(IsSynced(e.after), Leads(e.after), wake);
  }

  /**
   In every run, sync is announced gained and lost in turn, and a shell that follows the
   announcements always knows whether the node is synced and whether it leads.
   */
  lemma {:induction false} AnnouncementsAreTrue(s: NodeState, moments: seq<Moment>)
    requires s.sync.Valid()
    ensures Truthful(s, Run(s, moments))
    decreases |moments|
  {
    if moments != [] {
      var m := moments[0];
      EventIsTruthful(s, m.nowUs, m.event);
      SyncStaysValid(s, m.nowUs, m.event);
      var first := AfterEvent(s, m.nowUs, m.event);
      AnnouncementsAreTrue(first.after, moments[1..]);
      BeliefsAppend(IsSynced(s), Leads(s), first.out, Run(first.after, moments[1..]).out);
    }
  }

  /** From a fresh node: nothing is believed until it is announced. */
  lemma FreshNodeIsTruthful(me: Elections.Candidacy, prefix: Prefix, mesh: MeshPrefix, nowUs: nat, moments: seq<Moment>)
    ensures var e := Run(Initial(me, prefix, mesh, nowUs), moments);
            && Alternates(false, e.out) && Believed(false, e.out) == IsSynced(e.after)
            && BelievedLeader(false, e.out) == Leads(e.after)
  {
    AnnouncementsAreTrue(Initial(me, prefix, mesh, nowUs), moments);
  }

  // ------------------------------------------------------------------------- probes

  /** The deadline is that of the outstanding probe, or never. */
  predicate ProbeTimed(s: NodeState) {
    s.probeDeadlineUs == if s.pendingProbeT1.Some? then AddSat64(s.pendingProbeT1.value, PROBE_TIMEOUT_US) else U64_MAX
  }

  function Outstanding(s: NodeState): nat { if s.pendingProbeT1.Some? then 1 else 0 }

  predicate IsProbe(a: Action) { a.Send? && a.message.SyncReq? }

  function Probes(out: seq<Action>): nat {
    if out == [] then 0 else (if IsProbe(out[0]) then 1 else 0) + Probes(out[1..])
  }

  lemma {:induction false} ProbesAppend(a: seq<Action>, b: seq<Action>)
    ensures Probes(a + b) == Probes(a) + Probes(b)
  {
    if a == [] {
      assert a + b == b;
    } else {
      assert (a + b)[1..] == a[1..] + b;
      ProbesAppend(a[1..], b);
    }
  }

  lemma {:induction false} NoProbes(out: seq<Action>)
    requires forall a :: a in out ==> !IsProbe(a)
    ensures Probes(out) == 0
  {
    if out != [] { NoProbes(out[1..]); }
  }

  /** Whether the event is the answer to the outstanding probe. */
  predicate Answers(s: NodeState, event: Event) {
    && event.Datagram? && Heeded(s, event.received) && event.received.message.SyncResp?
    && s.pendingProbeT1 == Some(event.received.message.t1)
  }

  /** Whether the event ends the outstanding probe: it is answered, or given up on. */
  predicate EndsProbe(s: NodeState, nowUs: nat, event: Event) {
    Answers(s, event) || (event.TimerFired? && s.pendingProbeT1.Some? && nowUs >= s.probeDeadlineUs)
  }

  function Ended(s: NodeState, nowUs: nat, event: Event): nat {
    if EndsProbe(s, nowUs, event) then 1 else 0
  }

  lemma ReqAccounts(s: NodeState, nowUs: nat)
    requires ProbeTimed(s)
    ensures var e := ReqSent(s, nowUs);
            ProbeTimed(e.after) && Outstanding(e.after) == Outstanding(s) + Probes(e.out)
  {
    var e := ReqSent(s, nowUs);
    assert e.out != [] ==> e.out[1..] == [];
  }

  lemma SyncActAccounts(s: NodeState, nowUs: nat, outcome: TimeSync.Outcome)
    requires ProbeTimed(s)
    ensures var e := SyncActed(s, nowUs, outcome);
            ProbeTimed(e.after) && Outstanding(e.after) == Outstanding(s) + Probes(e.out)
  {
    if outcome.Probe? {
      ReqAccounts(s, nowUs);
    } else {
      NoProbes(SyncActed(s, nowUs, outcome).out);
    }
  }

  lemma TimerAccounts(s: NodeState, nowUs: nat)
    requires ProbeTimed(s)
    ensures var e := AfterTimer(s, nowUs);
            ProbeTimed(e.after) && Outstanding(e.after) + Ended(s, nowUs, TimerFired) == Outstanding(s) + Probes(e.out)
  {
    var t := Forgotten(s, nowUs);
    var (election, became) := Elections.Timed(t.election, nowUs);
    var e := ElectionActed(t.(election := election), nowUs, became);
    NoProbes(e.out);
    var (sync, outcome) := TimeSync.Timed(e.after.sync, nowUs);
    var u := e.after.(sync := sync);
    SyncActAccounts(u, nowUs, outcome);
    var f := SyncActed(u, nowUs, outcome);
    var news := Announcement(IsSynced(s), f.after);
    ProbesAppend(e.out + f.out, news);
    ProbesAppend(e.out, f.out);
    NoProbes(news);
  }

  lemma TickMessageAccounts(s: NodeState, nowUs: nat, sender: Prefix, tick: Message)
    requires ProbeTimed(s) && tick.Tick?
    ensures var e := AfterTickMessage(s, nowUs, sender, tick);
            ProbeTimed(e.after) && Outstanding(e.after) == Outstanding(s) + Probes(e.out)
  {
    var (election, became) := Elections.Ticked(s.election, nowUs, tick.master, tick.epoch);
    assert became.Idle? || became.Became?;
    var t := s.(masterPrefix := Some(sender), election := election);
    var first := if became.Became? then [RoleChanged(became.role, election.epoch)] else [];
    NoProbes(first);
    if !Leads(t) {
      var (sync, outcome) := TimeSync.Ticked(t.sync, nowUs);
      var u := t.(sync := sync);
      ReqAccounts(u, nowUs);
      ProbesAppend(first, ReqSent(u, nowUs).out);
    }
  }

  lemma DatagramAccounts(s: NodeState, nowUs: nat, received: Received)
    requires ProbeTimed(s) && s.sync.Valid()
    ensures var e := AfterDatagram(s, nowUs, received);
            && ProbeTimed(e.after)
            && Outstanding(e.after) + Ended(s, nowUs, Datagram(received)) == Outstanding(s) + Probes(e.out)
  {
    if Heeded(s, received) {
      var e := AfterMessage(s, nowUs, received.sender, received.message);
      var news := Announcement(IsSynced(s), e.after);
      ProbesAppend(e.out, news);
      NoProbes(news);
      match received.message
      case Tick(_, _, _) => TickMessageAccounts(s, nowUs, received.sender, received.message);
      case SyncReq(_) => NoProbes(e.out);
      case SyncResp(_, _, _) => RespAccounts(s, nowUs, received.message);
    }
  }

  lemma RespAccounts(s: NodeState, nowUs: nat, resp: Message)
    requires ProbeTimed(s) && s.sync.Valid() && resp.SyncResp?
    ensures var e := AfterResp(s, nowUs, resp);
            ProbeTimed(e.after)
            && Outstanding(e.after) + (if s.pendingProbeT1 == Some(resp.t1) then 1 else 0) == Outstanding(s) + Probes(e.out)
  {
    if s.pendingProbeT1 == Some(resp.t1) {
      var t := s.(pendingProbeT1 := None, probeDeadlineUs := U64_MAX);
      var (sync, outcome) := TimeSync.Sampled(t.sync, nowUs, TimeSync.Sample(resp.t1, resp.t2, resp.t3, nowUs));
      SyncActAccounts(t.(sync := sync), nowUs, outcome);
    }
  }

  lemma EventAccounts(s: NodeState, nowUs: nat, event: Event)
    requires ProbeTimed(s) && s.sync.Valid()
    ensures var e := AfterEvent(s, nowUs, event);
            ProbeTimed(e.after) && Outstanding(e.after) + Ended(s, nowUs, event) == Outstanding(s) + Probes(e.out)
  {
    match event {
      case TimerFired => TimerAccounts(s, nowUs);
      case Datagram(received) => DatagramAccounts(s, nowUs, received);
      case _ =>
    }
    var e := Handled(s, nowUs, event);
    var wake := [SetTimer(NextDeadline(e.after, nowUs))];
    ProbesAppend(e.out, wake);
    NoProbes(wake);
  }

  function AllEnded(s: NodeState, moments: seq<Moment>): nat
    requires s.sync.Valid()
    decreases |moments|
  {
    if moments == [] then 0
    else
      SyncStaysValid(s, moments[0].nowUs, moments[0].event);
      Ended(s, moments[0].nowUs, moments[0].event)
      + AllEnded(AfterEvent(s, moments[0].nowUs, moments[0].event).after, moments[1..])
  }

  /**
   In every run at most one probe is outstanding: of the probes sent all but that one were
   answered or given up on, and its deadline is its own.
   */
  lemma {:induction false} OneProbeAtATime(s: NodeState, moments: seq<Moment>)
    requires ProbeTimed(s) && s.sync.Valid()
    ensures var e := Run(s, moments);
            ProbeTimed(e.after) && Outstanding(s) + Probes(e.out) == AllEnded(s, moments) + Outstanding(e.after)
    decreases |moments|
  {
    if moments != [] {
      var m := moments[0];
      EventAccounts(s, m.nowUs, m.event);
      SyncStaysValid(s, m.nowUs, m.event);
      var first := AfterEvent(s, m.nowUs, m.event);
      OneProbeAtATime(first.after, moments[1..]);
      ProbesAppend(first.out, Run(first.after, moments[1..]).out);
    }
  }

  /**
   Every event ends by asking to be woken no later than the outstanding probe times out, and
   a timer at that time forgets it: a lost datagram never blocks the probes after it.
   */
  lemma WakesForTheProbe(s: NodeState, nowUs: nat, event: Event)
    requires ProbeTimed(s) && s.sync.Valid()
    ensures var e := AfterEvent(s, nowUs, event);
            && |e.out| > 0 && e.out[|e.out| - 1].SetTimer?
            && (var wait := e.out[|e.out| - 1].inUs;
                && wait >= 1_000
                && (e.after.pendingProbeT1.Some? ==>
                      wait <= Max(1_000, SubSat(AddSat64(e.after.pendingProbeT1.value, PROBE_TIMEOUT_US), nowUs))))
    ensures event.TimerFired? && s.pendingProbeT1.Some? && nowUs >= AddSat64(s.pendingProbeT1.value, PROBE_TIMEOUT_US) ==>
              var after := AfterEvent(s, nowUs, event).after;
              after.pendingProbeT1.None? || after.pendingProbeT1 == Some(nowUs)
  {
    EventAccounts(s, nowUs, event);
  }

  /**
   It is the earliest of what the election, the sync machine and an outstanding probe wait for, and
   a millisecond if that is sooner.
   */
  lemma WaitsForTheEarliest(s: NodeState, nowUs: nat, event: Event)
    requires ProbeTimed(s) && s.sync.Valid()
    ensures var e := AfterEvent(s, nowUs, event);
            var t, wait := e.after, e.out[|e.out| - 1].inUs;
            var until := if t.pendingProbeT1.Some? then AddSat64(t.pendingProbeT1.value, PROBE_TIMEOUT_US) else U64_MAX;
            var probe := SubSat(until, nowUs);
            var election, sync := Elections.NextDeadline(t.election, nowUs), TimeSync.NextDeadline(t.sync, nowUs);
            && (wait > 1_000 ==> wait <= election && wait <= sync && wait <= probe)
            && (wait == 1_000 || wait == election || wait == sync || wait == probe)
            && (wait == 1_000 ==> election <= 1_000 || sync <= 1_000 || probe <= 1_000)
  {
    EventAccounts(s, nowUs, event);
  }

  // ------------------------------------------------------------------- probing leaders

  /**
   Whether the node knows whom to ask, waits for no other answer, and has a reason to ask: on a
   timer, ticks still come and it is syncing or due to sync again; on an answer, the round trip
   was too slow to count or more are needed.
   */
  predicate ProbeDue(s: NodeState, nowUs: nat, event: Event) {
    s.masterPrefix.Some? &&
    match event
    case TimerFired =>
      (s.pendingProbeT1.None? || nowUs >= s.probeDeadlineUs) && TimeSync.ProbesInTime(s.sync, nowUs)
    case Datagram(received) =>
      Answers(s, event)
      && (var resp := received.message;
          TimeSync.ProbesOn(s.sync, TimeSync.Sample(resp.t1, resp.t2, resp.t3, nowUs)))
    case _ => false
  }

  /**
   A node that leads after an event has probed during it exactly when a probe was due: only
   the handling of ticks asks who leads.
   */
  lemma LeaderProbes(s: NodeState, nowUs: nat, event: Event)
    requires ProbeTimed(s) && s.sync.Valid() && Leads(AfterEvent(s, nowUs, event).after)
    ensures Probes(AfterEvent(s, nowUs, event).out) > 0 <==> ProbeDue(s, nowUs, event)
  {
    EventAccounts(s, nowUs, event);
    match event
    case TimerFired => TimerProbes(s, nowUs);
    case Datagram(received) =>
      if Heeded(s, received) {
        match received.message
        case Tick(_, _, _) => LeaderIgnoresTick(s, nowUs, received.sender, received.message);
        case SyncReq(_) =>
        case SyncResp(t1, _, _) => if s.pendingProbeT1 == Some(t1) { RespProbes(s, nowUs, received.message); }
      }
    case PeerDiscovered =>
    case PeerLost =>
  }

  lemma TimerProbes(s: NodeState, nowUs: nat)
    requires ProbeTimed(s) && s.sync.Valid()
    ensures Outstanding(AfterTimer(s, nowUs).after)
            == Outstanding(Forgotten(s, nowUs)) + if ProbeDue(s, nowUs, TimerFired) then 1 else 0
  {
    var t := Forgotten(s, nowUs);
    var (election, became) := Elections.Timed(t.election, nowUs);
    ElectionActKeeps(t.(election := election), nowUs, became);
  }

  lemma LeaderIgnoresTick(s: NodeState, nowUs: nat, sender: Prefix, tick: Message)
    requires tick.Tick? && Leads(AfterTickMessage(s, nowUs, sender, tick).after)
    ensures AfterTickMessage(s, nowUs, sender, tick).after.pendingProbeT1 == s.pendingProbeT1
  {
  }

  lemma RespProbes(s: NodeState, nowUs: nat, resp: Message)
    requires resp.SyncResp? && s.sync.Valid() && s.pendingProbeT1 == Some(resp.t1)
    ensures AfterResp(s, nowUs, resp).after.pendingProbeT1.Some?
            <==> s.masterPrefix.Some? && TimeSync.ProbesOn(s.sync, TimeSync.Sample(resp.t1, resp.t2, resp.t3, nowUs))
  {
    TimeSync.ProbesExactly(s.sync, nowUs, TimeSync.Sample(resp.t1, resp.t2, resp.t3, nowUs));
  }

  /** A leader that is not syncing and has nothing outstanding. */
  predicate AtRest(s: NodeState) {
    Leads(s) && s.sync.state.Unsynced? && s.pendingProbeT1.None?
  }

  /** Such a leader never probes, for as long as it leads. */
  lemma RestingLeaderIsQuiet(s: NodeState, nowUs: nat, event: Event)
    requires ProbeTimed(s) && s.sync.Valid() && AtRest(s)
    ensures var e := AfterEvent(s, nowUs, event);
            Leads(e.after) ==> Probes(e.out) == 0 && AtRest(e.after)
  {
    if Leads(AfterEvent(s, nowUs, event).after) {
      LeaderProbes(s, nowUs, event);
      EventAccounts(s, nowUs, event);
    }
  }

  /** A new node stands for election when its timer first has something to do. */
  lemma NewNodeStands(me: Elections.Candidacy, nowUs: nat)
    requires nowUs >= 3_000_000
    ensures var s := Initial(me, 1, 7, 0);
            && AfterEvent(s, nowUs, TimerFired).after
               == s.(election := Elections.Timed(s.election, nowUs).0, sequence := 1)
            && Elections.Timed(s.election, nowUs).0.role.Candidate?
  {
  }

  /** A candidate that hears a worse tick starts syncing with its sender. */
  lemma CandidateSyncs(s: NodeState, nowUs: nat, sender: Prefix, tick: Message)
    requires tick.Tick? && s.election.role.Candidate? && !tick.master.Beats(s.election.me) && sender != s.prefix
    requires s.sync.Valid() && s.sync.state.Unsynced? && s.pendingProbeT1.None?
    ensures var after := AfterEvent(s, nowUs, Datagram(Known(s.mesh, sender, tick))).after;
            && after.election == Elections.Ticked(s.election, nowUs, tick.master, tick.epoch).0
            && after.election.role.Candidate?
            && after.sync == TimeSync.Ticked(s.sync, nowUs).0
            && after.masterPrefix == Some(sender) && after.pendingProbeT1 == Some(nowUs)
            && after.probeDeadlineUs == AddSat64(nowUs, PROBE_TIMEOUT_US)
  {
  }

  /** Any other leader may: a candidate that heard a worse tick starts syncing, and then leads. */
  lemma ALeaderCanProbe()
    ensures var s := Initial(Elections.Candidacy(5, 1), 1, 7, 0);
            var heard := Datagram(Known(7, 2, Tick(3_500_000, Elections.Candidacy(1, 2), 0)));
            var before := Run(s, [Moment(3_000_000, TimerFired), Moment(3_500_000, heard)]).after;
            var last := AfterEvent(before, 5_000_000, TimerFired);
            Leads(last.after) && Probes(last.out) == 1
  {
    var s := Initial(Elections.Candidacy(5, 1), 1, 7, 0);
    var tick := Tick(3_500_000, Elections.Candidacy(1, 2), 0);
    var a, b := Moment(3_000_000, TimerFired), Moment(3_500_000, Datagram(Known(7, 2, tick)));
    NewNodeStands(s.election.me, 3_000_000);
    var one := AfterEvent(s, a.nowUs, a.event).after;
    CandidateSyncs(one, 3_500_000, 2, tick);
    var before := AfterEvent(one, b.nowUs, b.event).after;
    RunStep(s, a, [b]);
    RunStep(one, b, []);
    assert [a] + [b] == [a, b] && [b] + [] == [b];
    LeaderProbes(before, 5_000_000, TimerFired);
    EventAccounts(before, 5_000_000, TimerFired);
  }

  lemma RunStep(s: NodeState, m: Moment, rest: seq<Moment>)
    requires s.sync.Valid()
    ensures AfterEvent(s, m.nowUs, m.event).after.sync.Valid()
    ensures Run(s, [m] + rest).after == Run(AfterEvent(s, m.nowUs, m.event).after, rest).after
  {
    SyncStaysValid(s, m.nowUs, m.event);
    assert ([m] + rest)[1..] == rest;
  }
}
