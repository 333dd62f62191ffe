/**
 What a node sends (node.rs): every message under the next number, its ticks with its own
 candidacy, epoch and clock, its requests to whoever it heard a tick from last, and word of every
 change of role with the epoch it is for.
 */
module NodeSending {
  import opened Arith
  import opened Wrappers
  import opened Nodes
  import opened NodeLaws
  import Elections
  import Growing
  import TimeSync

  /** The numbers of the messages among what a node asks of its shell, in order. */
  function Numbers(out: seq<Action>): seq<nat> {
    if out == [] then [] else (if out[0].Send? then [out[0].sequence] else []) + Numbers(out[1..])
  }

  /** The `count` numbers after `from`, in 32 bits. */
  function Counting(from: nat, count: nat): seq<nat> {
    seq(count, k requires 0 <= k < count => (from + 1 + k) % 0x1_0000_0000)
  }

  lemma {:induction false} NumbersAppend(a: seq<Action>, b: seq<Action>)
    ensures Numbers(a + b) == Numbers(a) + Numbers(b)
  {
    if a == [] {
      assert a + b == b;
    } else {
      assert (a + b)[1..] == a[1..] + b;
      NumbersAppend(a[1..], b);
      Growing.AppendAll(if a[0].Send? then [a[0].sequence] else [], Numbers(a[1..]), Numbers(b));
    }
  }

  lemma {:induction false} NoNumbers(out: seq<Action>)
    requires forall a :: a in out ==> !a.Send?
    ensures Numbers(out) == []
  {
    if out != [] { NoNumbers(out[1..]); }
  }

  lemma CountingAppend(from: nat, a: nat, b: nat)
    ensures Counting(from, a) + Counting((from + a) % 0x1_0000_0000, b) == Counting(from, a + b)
  {
    var tail, all := Counting((from + a) % 0x1_0000_0000, b), Counting(from, a + b);
    forall k | 0 <= k < b ensures tail[k] == all[a + k] {
      WrapTwice(from + a, 1 + k);
    }
  }

  lemma WrapTwice(x: nat, y: nat)
    ensures (x % 0x1_0000_0000 + y) % 0x1_0000_0000 == (x + y) % 0x1_0000_0000
  {
  }

  /** The messages take the next numbers, and the last of them is kept. */
  ghost predicate CountsOn(from: nat, out: seq<Action>, after: nat) {
    Numbers(out) == Counting(from, |Numbers(out)|) && after == (from + |Numbers(out)|) % 0x1_0000_0000
  }

  lemma CountsOnAppend(from: nat, a: seq<Action>, mid: nat, b: seq<Action>, after: nat)
    requires CountsOn(from, a, mid) && CountsOn(mid, b, after)
    ensures CountsOn(from, a + b, after)
  {
    NumbersAppend(a, b);
    CountingAppend(from, |Numbers(a)|, |Numbers(b)|);
    WrapTwice(from + |Numbers(a)|, |Numbers(b)|);
  }

  lemma CountsOnNothing(from: nat, out: seq<Action>)
    requires from < 0x1_0000_0000 && forall a :: a in out ==> !a.Send?
    ensures CountsOn(from, out, from)
  {
    NoNumbers(out);
  }

  /** What a node may say in an event, by its clock and the state the event leaves it in. */
  predicate Says(t: NodeState, nowUs: nat, a: Action) {
    match a
    case Send(to, message, _) =>
      (match message
       case Tick(showTimeUs, master, epoch) =>
         to == Mesh && showTimeUs == nowUs && master == t.election.me && epoch == t.election.epoch
         && !t.election.role.Follower?
       case SyncReq(t1) => t.masterPrefix.Some? && to == Peer(t.masterPrefix.value) && t1 == nowUs
       case SyncResp(_, t2, t3) => to.Peer? && t2 == t3 == nowUs)
    case RoleChanged(role, epoch) => role == t.election.role && epoch == t.election.epoch
    case DisciplineClock(_) => true
    case SyncLost => true
    case SyncAcquired => true
    case SetTimer(_) => true
  }

  ghost predicate SaysAll(t: NodeState, nowUs: nat, out: seq<Action>) {
    forall a :: a in out ==> Says(t, nowUs, a)
  }

  /** What is said depends on the election and the last ticker only. */
  ghost predicate SpeaksAs(s: NodeState, t: NodeState) {
    s.election == t.election && s.masterPrefix == t.masterPrefix
  }

  lemma SaidAs(s: NodeState, t: NodeState, nowUs: nat, out: seq<Action>)
    requires SaysAll(s, nowUs, out) && SpeaksAs(s, t)
    ensures SaysAll(t, nowUs, out)
  {
  }

  /** One part of an event: the numbers go on, and what it says is in order. */
  ghost predicate Speaks(s: NodeState, nowUs: nat, e: Effect) {
    CountsOn(s.sequence, e.out, e.after.sequence) && SaysAll(e.after, nowUs, e.out)
  }

  lemma SentCounts(s: NodeState, to: Destination, message: Message)
    ensures CountsOn(s.sequence, Sent(s, to, message).out, Sent(s, to, message).after.sequence)
  {
    var out := Sent(s, to, message).out;
    assert out[1..] == [];
  }

  lemma TickSpeaks(s: NodeState, nowUs: nat)
    requires !s.election.role.Follower?
    ensures Speaks(s, nowUs, TickSent(s, nowUs)) && SpeaksAs(s, TickSent(s, nowUs).after)
  {
    SentCounts(s, Mesh, Tick(nowUs, s.election.me, s.election.epoch));
  }

  lemma ReqSpeaks(s: NodeState, nowUs: nat)
    requires s.sequence < 0x1_0000_0000
    ensures Speaks(s, nowUs, ReqSent(s, nowUs)) && SpeaksAs(s, ReqSent(s, nowUs).after)
  {
    if s.masterPrefix.Some? && s.pendingProbeT1.None? {
      SentCounts(s.(pendingProbeT1 := Some(nowUs), probeDeadlineUs := AddSat64(nowUs, PROBE_TIMEOUT_US)),
                 Peer(s.masterPrefix.value), SyncReq(nowUs));
    } else {
      CountsOnNothing(s.sequence, []);
    }
  }

  lemma ElectionActSpeaks(s: NodeState, nowUs: nat, outcome: Elections.Outcome)
    requires s.sequence < 0x1_0000_0000
    requires outcome.Announce? || outcome.SendTick? ==> !s.election.role.Follower?
    requires outcome.Became? ==> outcome.role == s.election.role
    ensures Speaks(s, nowUs, ElectionActed(s, nowUs, outcome)) && SpeaksAs(s, ElectionActed(s, nowUs, outcome).after)
  {
    match outcome
    case Announce => TickSpeaks(s, nowUs);
    case SendTick => TickSpeaks(s, nowUs);
    case Became(role) =>
      CountsOnNothing(s.sequence, [RoleChanged(role, s.election.epoch)]);
      if role.Leader? {
        TickSpeaks(s, nowUs);
        var e := TickSent(s, nowUs);
        CountsOnAppend(s.sequence, [RoleChanged(role, s.election.epoch)], s.sequence, e.out, e.after.sequence);
      }
    case Idle => CountsOnNothing(s.sequence, []);
  }

  lemma SyncActSpeaks(s: NodeState, nowUs: nat, outcome: TimeSync.Outcome)
    requires s.sequence < 0x1_0000_0000
    ensures Speaks(s, nowUs, SyncActed(s, nowUs, outcome)) && SpeaksAs(s, SyncActed(s, nowUs, outcome).after)
  {
    if outcome.Probe? { ReqSpeaks(s, nowUs); } else { CountsOnNothing(s.sequence, SyncActed(s, nowUs, outcome).out); }
  }

  /** Two parts of an event, and what is said besides. */
  lemma SpeaksInTurn(s: NodeState, nowUs: nat, e: Effect, f: Effect, more: seq<Action>)
    requires Speaks(s, nowUs, e) && Speaks(e.after, nowUs, f) && SpeaksAs(e.after, f.after)
    requires f.after.sequence < 0x1_0000_0000 && forall a :: a in more ==> a.SyncLost? || a.SyncAcquired? || a.SetTimer?
    ensures Speaks(s, nowUs, Effect(f.after, e.out + f.out + more))
  {
    CountsOnAppend(s.sequence, e.out, e.after.sequence, f.out, f.after.sequence);
    CountsOnNothing(f.after.sequence, more);
    CountsOnAppend(s.sequence, e.out + f.out, f.after.sequence, more, f.after.sequence);
    SaidAs(e.after, f.after, nowUs, e.out);
  }

  lemma SilentSpeaks(s: NodeState, t: NodeState, nowUs: nat)
    requires t.sequence == s.sequence < 0x1_0000_0000
    ensures Speaks(s, nowUs, Effect(t, []))
  {
    CountsOnNothing(s.sequence, []);
  }

  lemma CountIsSmall(from: nat, out: seq<Action>, after: nat)
    requires CountsOn(from, out, after)
    ensures after < 0x1_0000_0000
  {
  }

  lemma TimerSpeaks(s: NodeState, nowUs: nat)
    requires s.sequence < 0x1_0000_0000
    ensures Speaks(s, nowUs, AfterTimer(s, nowUs)) && AfterTimer(s, nowUs).after.masterPrefix == s.masterPrefix
  {
    var t := Forgotten(s, nowUs);
    var (election, became) := Elections.Timed(t.election, nowUs);
    var u := t.(election := election);
    ElectionActSpeaks(u, nowUs, became);
    var e := ElectionActed(u, nowUs, became);
    CountIsSmall(s.sequence, e.out, e.after.sequence);
    var (sync, outcome) := TimeSync.Timed(e.after.sync, nowUs);
    var v := e.after.(sync := sync);
    SyncActSpeaks(v, nowUs, outcome);
    var f := SyncActed(v, nowUs, outcome);
    CountIsSmall(v.sequence, f.out, f.after.sequence);
    SpeaksInTurn(s, nowUs, e, f, Announcement(IsSynced(s), f.after));
  }

  lemma TickMessageSpeaks(s: NodeState, nowUs: nat, sender: Prefix, tick: Message)
    requires tick.Tick? && s.sequence < 0x1_0000_0000
    ensures var e := AfterTickMessage(s, nowUs, sender, tick);
            Speaks(s, nowUs, e) && e.after.masterPrefix == Some(sender)
  {
    var (election, became) := Elections.Ticked(s.election, nowUs, tick.master, tick.epoch);
    var t := s.(masterPrefix := Some(sender), election := election);
    assert became.Idle? || became.Became?;
    var e := Effect(t, if became.Became? then [RoleChanged(became.role, election.epoch)] else []);
    CountsOnNothing(s.sequence, e.out);
    if !Leads(t) {
      var u := t.(sync := TimeSync.Ticked(t.sync, nowUs).0);
      ReqSpeaks(u, nowUs);
      var f := if TimeSync.Ticked(t.sync, nowUs).1.Probe? then ReqSent(u, nowUs) else Effect(u, []);
      CountsOnNothing(u.sequence, []);
      CountIsSmall(u.sequence, f.out, f.after.sequence);
      SpeaksInTurn(s, nowUs, e, f, []);
      assert e.out + f.out + [] == e.out + f.out;
    }
  }

  lemma RespSpeaks(s: NodeState, nowUs: nat, resp: Message)
    requires resp.SyncResp? && s.sync.Valid() && s.sequence < 0x1_0000_0000
    ensures Speaks(s, nowUs, AfterResp(s, nowUs, resp)) && SpeaksAs(s, AfterResp(s, nowUs, resp).after)
  {
    if s.pendingProbeT1 == Some(resp.t1) {
      var t := s.(pendingProbeT1 := None, probeDeadlineUs := U64_MAX);
      var (sync, outcome) := TimeSync.Sampled(t.sync, nowUs, TimeSync.Sample(resp.t1, resp.t2, resp.t3, nowUs));
      SyncActSpeaks(t.(sync := sync), nowUs, outcome);
    } else {
      SilentSpeaks(s, s, nowUs);
    }
  }

  lemma ReqMessageSpeaks(s: NodeState, nowUs: nat, sender: Prefix, t1: nat)
    ensures Speaks(s, nowUs, Sent(s, Peer(sender), SyncResp(t1, nowUs, nowUs)))
  {
    SentCounts(s, Peer(sender), SyncResp(t1, nowUs, nowUs));
  }

  /** Whose ticks a node follows after an event: the sender of the one it heeds, if it heeds one. */
  function LastTicker(s: NodeState, event: Event): Option<Prefix> {
    if event.Datagram? && Heeded(s, event.received) && event.received.message.Tick? then Some(event.received.sender)
    else s.masterPrefix
  }

  lemma MessageSpeaks(s: NodeState, nowUs: nat, received: Received)
    requires s.sync.Valid() && s.sequence < 0x1_0000_0000 && Heeded(s, received)
    ensures var e := AfterMessage(s, nowUs, received.sender, received.message);
            Speaks(s, nowUs, e) && e.after.masterPrefix == LastTicker(s, Datagram(received))
  {
    match received.message
    case Tick(_, _, _) => TickMessageSpeaks(s, nowUs, received.sender, received.message);
    case SyncReq(t1) => ReqMessageSpeaks(s, nowUs, received.sender, t1);
    case SyncResp(_, _, _) => RespSpeaks(s, nowUs, received.message);
  }

  lemma AndBesides(s: NodeState, nowUs: nat, e: Effect, more: seq<Action>)
    requires Speaks(s, nowUs, e) && forall a :: a in more ==> a.SyncLost? || a.SyncAcquired? || a.SetTimer?
    ensures Speaks(s, nowUs, Effect(e.after, e.out + more))
  {
    CountIsSmall(s.sequence, e.out, e.after.sequence);
    CountsOnNothing(e.after.sequence, more);
    CountsOnAppend(s.sequence, e.out, e.after.sequence, more, e.after.sequence);
  }

  /** All that an event makes a node say is in order, and it follows whoever it heard a tick from last. */
  lemma EventSpeaks(s: NodeState, nowUs: nat, event: Event)
    requires s.sync.Valid() && s.sequence < 0x1_0000_0000
    ensures var e := AfterEvent(s, nowUs, event);
            Speaks(s, nowUs, e) && e.after.masterPrefix == LastTicker(s, event)
  {
    var e := Handled(s, nowUs, event);
    match event {
      case TimerFired => TimerSpeaks(s, nowUs);
      case Datagram(received) =>
        if Heeded(s, received) {
          MessageSpeaks(s, nowUs, received);
          var said := AfterMessage(s, nowUs, received.sender, received.message);
          AndBesides(s, nowUs, said, Announcement(IsSynced(s), said.after));
        } else {
          SilentSpeaks(s, s, nowUs);
        }
      case _ => SilentSpeaks(s, s, nowUs);
    }
    AndBesides(s, nowUs, e, [SetTimer(NextDeadline(e.after, nowUs))]);
  }

  /** In every run of a new node the messages it sends are numbered from one on, in 32 bits. */
  lemma {:induction false} MessagesAreNumbered(s: NodeState, moments: seq<Moment>)
    requires s.sync.Valid() && s.sequence < 0x1_0000_0000
    ensures CountsOn(s.sequence, Run(s, moments).out, Run(s, moments).after.sequence)
    decreases |moments|
  {
    if moments == [] {
      CountsOnNothing(s.sequence, []);
    } else {
      var m := moments[0];
      EventSpeaks(s, m.nowUs, m.event);
      SyncStaysValid(s, m.nowUs, m.event);
      var e := AfterEvent(s, m.nowUs, m.event);
      CountIsSmall(s.sequence, e.out, e.after.sequence);
      MessagesAreNumbered(e.after, moments[1..]);
      var rest := Run(e.after, moments[1..]);
      CountsOnAppend(s.sequence, e.out, e.after.sequence, rest.out, rest.after.sequence);
    }
  }
}
