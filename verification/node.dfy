/**
 One mesh participant (node.rs): the election and the time sync of a device, and the messages
 between them. Messages are values; how they are framed as bytes is not part of this model.
 */
module Nodes {
  import opened Arith
  import opened Wrappers
  import Elections
  import TimeSync

  const PROBE_TIMEOUT_US: nat := 1_000_000

  /** The four bytes that name a sender, and the two that name a mesh. */
  type Prefix = nat
  type MeshPrefix = nat

  datatype Message =
    | Tick(showTimeUs: nat, master: Elections.Candidacy, epoch: nat)
    | SyncReq(t1: nat)
    | SyncResp(t1: nat, t2: nat, t3: nat)

  /** What a datagram's bytes turn out to be. */
  datatype Received =
    | Rubbish
    | Unknown(mesh: MeshPrefix, sender: Prefix)
    | Known(mesh: MeshPrefix, sender: Prefix, message: Message)
    | Other(mesh: MeshPrefix, sender: Prefix)

  datatype Event =
    | TimerFired
    | Datagram(received: Received)
    | PeerDiscovered
    | PeerLost

  datatype Destination = Mesh | Peer(prefix: Prefix)

  datatype Action =
    | Send(to: Destination, message: Message, sequence: nat)
    | DisciplineClock(offsetUs: int)
    | RoleChanged(role: Elections.Role, epoch: nat)
    | SyncLost
    | SyncAcquired
    | SetTimer(inUs: nat)

  datatype NodeState = NodeState(
    prefix: Prefix,
    mesh: MeshPrefix,
    election: Elections.ElectionState,
    sync: TimeSync.Machine,
    sequence: nat,
    masterPrefix: Option<Prefix>,
    pendingProbeT1: Option<nat>,
    probeDeadlineUs: nat)

  /** A state, and what was asked of the shell on the way to it. */
  datatype Effect = Effect(after: NodeState, out: seq<Action>)

  function Initial(me: Elections.Candidacy, prefix: Prefix, mesh: MeshPrefix, nowUs: nat): NodeState {
    NodeState(prefix, mesh, Elections.Initial(me, nowUs), TimeSync.Initial(), 0, None, None, U64_MAX)
  }

  /** A leader defines the timebase, so it is synced by definition. */
  predicate IsSynced(s: NodeState) {
    s.election.role.Leader? || s.sync.state.Synced?
  }

  predicate Leads(s: NodeState) { s.election.role.Leader? }

  // ------------------------------------------------------------------------- sending

  function NextSequence(sequence: nat): nat { (sequence + 1) % 0x1_0000_0000 }

  function Sent(s: NodeState, to: Destination, message: Message): Effect {
    var sequence := NextSequence(s.sequence);
    Effect(s.(sequence := sequence), [Send(to, message, sequence)])
  }

  function TickSent(s: NodeState, nowUs: nat): Effect {
    Sent(s, Mesh, Tick(nowUs, s.election.me, s.election.epoch))
  }

  /** A probe, unless there is nobody to ask or one is still outstanding. */
  function ReqSent(s: NodeState, nowUs: nat): Effect {
    if s.masterPrefix.None? || s.pendingProbeT1.Some? then Effect(s, [])
    else
      Sent(s.(pendingProbeT1 := Some(nowUs), probeDeadlineUs := AddSat64(nowUs, PROBE_TIMEOUT_US)),
           Peer(s.masterPrefix.value), SyncReq(nowUs))
  }

  function Announcement(was: bool, s: NodeState): seq<Action> {
    if IsSynced(s) == was then [] else if IsSynced(s) then [SyncAcquired] else [SyncLost]
  }

  // ------------------------------------------------------------------------- timers

  function Forgotten(s: NodeState, nowUs: nat): NodeState {
    if nowUs >= s.probeDeadlineUs then s.(pendingProbeT1 := None, probeDeadlineUs := U64_MAX) else s
  }

  /** What an election's outcome makes the node do. */
  function ElectionActed(s: NodeState, nowUs: nat, outcome: Elections.Outcome): Effect {
    match outcome
    case Announce => TickSent(s, nowUs)
    case SendTick => TickSent(s, nowUs)
    case Became(role) =>
      var change := RoleChanged(role, s.election.epoch);
      if role.Leader? then
        var e := TickSent(s, nowUs);
        Effect(e.after, [change] + e.out)
      else Effect(s, [change])
    case Idle => Effect(s, [])
  }

  /** What a time sync outcome makes the node do. */
  function SyncActed(s: NodeState, nowUs: nat, outcome: TimeSync.Outcome): Effect {
    match outcome
    case Probe => ReqSent(s, nowUs)
    case Discipline(offsetUs) => Effect(s, [DisciplineClock(offsetUs)])
    case _ => Effect(s, [])
  }

  function AfterTimer(s: NodeState, nowUs: nat): Effect {
    var t := Forgotten(s, nowUs);
    var (election, became) := Elections.Timed(t.election, nowUs);
    var e := ElectionActed(t.(election := election), nowUs, became);
    var (sync, outcome) := TimeSync.Timed(e.after.sync, nowUs);
    var f := SyncActed(e.after.(sync := sync), nowUs, outcome);
    Effect(f.after, e.out + f.out + Announcement(IsSynced(s), f.after))
  }

  // ------------------------------------------------------------------------- messages

  function AfterTickMessage(s: NodeState, nowUs: nat, sender: Prefix, tick: Message): Effect
    requires tick.Tick?
  {
    var (election, became) := Elections.Ticked(s.election, nowUs, tick.master, tick.epoch);
    var t := s.(masterPrefix := Some(sender), election := election);
    var e := match became
      case Became(role) => Effect(t, [RoleChanged(role, t.election.epoch)])
      case Announce => TickSent(t, nowUs)
      case SendTick => TickSent(t, nowUs)
      case Idle => Effect(t, []);
    if Leads(e.after) then e
    else
      var (sync, outcome) := TimeSync.Ticked(e.after.sync, nowUs);
      var u := e.after.(sync := sync);
      if outcome.Probe? then
        var f := ReqSent(u, nowUs);
        Effect(f.after, e.out + f.out)
      else Effect(u, e.out)
  }

  function AfterResp(s: NodeState, nowUs: nat, resp: Message): Effect
    requires resp.SyncResp? && s.sync.Valid()
  {
    if s.pendingProbeT1 != Some(resp.t1) then Effect(s, [])
    else
      var t := s.(pendingProbeT1 := None, probeDeadlineUs := U64_MAX);
      var (sync, outcome) := TimeSync.Sampled(t.sync, nowUs, TimeSync.Sample(resp.t1, resp.t2, resp.t3, nowUs));
      SyncActed(t.(sync := sync), nowUs, outcome)
  }

  function AfterMessage(s: NodeState, nowUs: nat, sender: Prefix, message: Message): Effect
    requires s.sync.Valid()
  {
    match message
    case Tick(_, _, _) => AfterTickMessage(s, nowUs, sender, message)
    case SyncReq(t1) => Sent(s, Peer(sender), SyncResp(t1, nowUs, nowUs))
    case SyncResp(_, _, _) => AfterResp(s, nowUs, message)
  }

  /** Only a known message of this mesh from another sender is acted on. */
  predicate Heeded(s: NodeState, received: Received) {
    received.Known? && received.mesh == s.mesh && received.sender != s.prefix
  }

  function AfterDatagram(s: NodeState, nowUs: nat, received: Received): Effect
    requires s.sync.Valid()
  {
    if !Heeded(s, received) then Effect(s, [])
    else
      var e := AfterMessage(s, nowUs, received.sender, received.message);
      Effect(e.after, e.out + Announcement(IsSynced(s), e.after))
  }

  // -------------------------------------------------------------------------- events

  function NextDeadline(s: NodeState, nowUs: nat): nat {
    Max(Min(Min(Elections.NextDeadline(s.election, nowUs), TimeSync.NextDeadline(s.sync, nowUs)),
            SubSat(s.probeDeadlineUs, nowUs)),
        1_000)
  }

  function Handled(s: NodeState, nowUs: nat, event: Event): Effect
    requires s.sync.Valid()
  {
    match event
    case TimerFired => AfterTimer(s, nowUs)
    case Datagram(received) => AfterDatagram(s, nowUs, received)
    case PeerDiscovered => Effect(s, [])
    case PeerLost => Effect(s, [])
  }

  function AfterEvent(s: NodeState, nowUs: nat, event: Event): Effect
    requires s.sync.Valid()
  {
    var e := Handled(s, nowUs, event);
    Effect(e.after, e.out + [SetTimer(NextDeadline(e.after, nowUs))])
  }

  // ------------------------------------------------------------------------- the node

  class Node {
    const prefix: Prefix
    const mesh: MeshPrefix
    const election: Elections.Election
    const sync: TimeSync.Sync
    var sequence: nat
    var masterPrefix: Option<Prefix>
    var pendingProbeT1: Option<nat>
    var probeDeadlineUs: nat

    ghost function State(): NodeState
      reads this, election, sync, sync.samples
    {
      NodeState(prefix, mesh, election.State(), sync.State(), sequence, masterPrefix, pendingProbeT1, probeDeadlineUs)
    }

    constructor (me: Elections.Candidacy, prefix: Prefix, mesh: MeshPrefix, nowUs: nat)
      ensures State() == Initial(me, prefix, mesh, nowUs)
      ensures fresh(election) && fresh(sync) && fresh(sync.samples)
    {
      this.prefix, this.mesh := prefix, mesh;
      election := new Elections.Election(me, nowUs);
      sync := new TimeSync.Sync();
      sequence, masterPrefix, pendingProbeT1, probeDeadlineUs := 0, None, None, U64_MAX;
    }

    method OnEvent(nowUs: nat, event: Event) returns (out: seq<Action>)
      requires State().sync.Valid()
      modifies this, election, sync, sync.samples
      ensures sync.samples == old(sync.samples)
      ensures Effect(State(), out) == AfterEvent(old(State()), nowUs, event)
    {
      match event {
        case TimerFired => out := OnTimer(nowUs);
        case Datagram(received) => out := OnDatagram(nowUs, received);
        case PeerDiscovered => out := [];
        case PeerLost => out := [];
      }
      var wait := NextDeadlineUs(nowUs);
      out := out + [SetTimer(wait)];
    }

    method NextDeadlineUs(nowUs: nat) returns (wait: nat)
      ensures wait == NextDeadline(State(), nowUs)
    {
      var probe := SubSat(probeDeadlineUs, nowUs);
      wait := Max(Min(Min(Elections.NextDeadline(election.State(), nowUs), TimeSync.NextDeadline(sync.State(), nowUs)), probe),
                  1_000);
    }

    predicate Synced()
      reads this, election, sync
    {
      election.role.Leader? || sync.state.Synced?
    }

    method OnTimer(nowUs: nat) returns (out: seq<Action>)
      requires State().sync.Valid()
      modifies this, election, sync
      ensures sync.samples == old(sync.samples)
      ensures Effect(State(), out) == AfterTimer(old(State()), nowUs)
    {
      var before := Synced();
      if nowUs >= probeDeadlineUs {
        pendingProbeT1, probeDeadlineUs := None, U64_MAX;
      }
      var became := election.OnTimer(nowUs);
      out := ActOnElection(nowUs, became);
      var outcome := sync.OnTimer(nowUs);
      var more := ActOnSync(nowUs, outcome);
      var news := AnnounceSyncChange(before);
      out := out + more + news;
    }

    method ActOnElection(nowUs: nat, outcome: Elections.Outcome) returns (out: seq<Action>)
      modifies this`sequence
      ensures Effect(State(), out) == ElectionActed(old(State()), nowUs, outcome)
    {
      match outcome {
        case Announce => out := SendTick(nowUs);
        case SendTick => out := SendTick(nowUs);
        case Became(role) =>
          out := [RoleChanged(role, election.epoch)];
          if role.Leader? {
            var tick := SendTick(nowUs);
            out := out + tick;
          }
        case Idle => out := [];
      }
    }

    method ActOnSync(nowUs: nat, outcome: TimeSync.Outcome) returns (out: seq<Action>)
      modifies this
      ensures Effect(State(), out) == SyncActed(old(State()), nowUs, outcome)
    {
      match outcome {
        case Probe => out := SendSyncReq(nowUs);
        case Discipline(offsetUs) => out := [DisciplineClock(offsetUs)];
        case _ => out := [];
      }
    }

    method OnDatagram(nowUs: nat, received: Received) returns (out: seq<Action>)
      requires State().sync.Valid()
      modifies this, election, sync, sync.samples
      ensures sync.samples == old(sync.samples)
      ensures Effect(State(), out) == AfterDatagram(old(State()), nowUs, received)
    {
      if received.Rubbish? {
        return [];
      }
      if received.mesh != mesh {
        return [];
      }
      if received.sender == prefix {
        return [];
      }
      if !received.Known? {
        return [];
      }
      var before := Synced();
      match received.message {
        case Tick(_, _, _) => out := OnTickMessage(nowUs, received.sender, received.message);
        case SyncReq(t1) => out := Transmit(Peer(received.sender), SyncResp(t1, nowUs, nowUs));
        case SyncResp(_, _, _) => out := OnSyncResp(nowUs, received.message);
      }
      var news := AnnounceSyncChange(before);
      out := out + news;
    }

    method OnTickMessage(nowUs: nat, sender: Prefix, tick: Message) returns (out: seq<Action>)
      requires tick.Tick?
      modifies this, election, sync
      ensures sync.samples == old(sync.samples)
      ensures Effect(State(), out) == AfterTickMessage(old(State()), nowUs, sender, tick)
    {
      masterPrefix := Some(sender);
      var became := election.OnTick(nowUs, tick.master, tick.epoch);
      match became {
        case Became(role) => out := [RoleChanged(role, election.epoch)];
        case Announce => out := SendTick(nowUs);
        case SendTick => out := SendTick(nowUs);
        case Idle => out := [];
      }
      if election.role.Leader? {
        return;
      }
      var outcome := sync.OnTick(nowUs);
      if outcome.Probe? {
        var probe := SendSyncReq(nowUs);
        out := out + probe;
      }
    }

    method OnSyncResp(nowUs: nat, resp: Message) returns (out: seq<Action>)
      requires resp.SyncResp? && State().sync.Valid()
      modifies this, sync, sync.samples
      ensures sync.samples == old(sync.samples)
      ensures Effect(State(), out) == AfterResp(old(State()), nowUs, resp)
    {
      if pendingProbeT1.None? {
        return [];
      }
      if resp.t1 != pendingProbeT1.value {
        return [];
      }
      pendingProbeT1, probeDeadlineUs := None, U64_MAX;
      var outcome := sync.OnSample(nowUs, TimeSync.Sample(resp.t1, resp.t2, resp.t3, nowUs));
      out := ActOnSync(nowUs, outcome);
    }

    method AnnounceSyncChange(was: bool) returns (out: seq<Action>)
      ensures out == Announcement(was, State())
    {
      var now := Synced();
      if now == was {
        return [];
      }
      return if now then [SyncAcquired] else [SyncLost];
    }

    method SendTick(nowUs: nat) returns (out: seq<Action>)
      modifies this`sequence
      ensures Effect(State(), out) == TickSent(old(State()), nowUs)
    {
      out := Transmit(Mesh, Tick(nowUs, election.me, election.epoch));
    }

    method SendSyncReq(nowUs: nat) returns (out: seq<Action>)
      modifies this
      ensures Effect(State(), out) == ReqSent(old(State()), nowUs)
    {
      if masterPrefix.None? {
        return [];
      }
      if pendingProbeT1.Some? {
        return [];
      }
      pendingProbeT1 := Some(nowUs);
      probeDeadlineUs := AddSat64(nowUs, PROBE_TIMEOUT_US);
      out := Transmit(Peer(masterPrefix.value), SyncReq(nowUs));
    }

    /** The one place a message leaves from, so that every one has its own number. */
    method Transmit(to: Destination, message: Message) returns (out: seq<Action>)
      modifies this`sequence
      ensures Effect(State(), out) == Sent(old(State()), to, message)
    {
      sequence := NextSequence(sequence);
      out := [Send(to, message, sequence)];
    }
  }
}
