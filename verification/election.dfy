/**
 Timebase election (election.rs): one device's role, driven by ticks and timers.

 `Election` is the machine as the source keeps it, field by field. `Ticked` and
 `Timed` are its two transitions on values, which the theorems about a whole mesh
 and about a node are stated over.
 */
module Elections {
  import opened Arith
  import opened Wrappers

  const FOLLOWER_TIMEOUT_US: nat := 3_000_000
  const CANDIDATE_SETTLE_US: nat := 2_000_000
  const LEADER_TICK_INTERVAL_US: nat := 1_000_000
  const YIELD_HYSTERESIS: nat := 3

  datatype Role = Follower | Candidate | Leader

  datatype Candidacy = Candidacy(capacity: nat, uuid: nat) {
    /** Higher capacity wins, and the lower uuid breaks a tie. */
    predicate Beats(other: Candidacy) {
      capacity > other.capacity || (capacity == other.capacity && uuid < other.uuid)
    }
  }

  datatype Outcome = Idle | Announce | SendTick | Became(role: Role)

  datatype ElectionState = ElectionState(
    me: Candidacy,
    role: Role,
    epoch: nat,
    sinceUs: nat,
    lastTickSentUs: nat,
    betterTicks: nat,
    bestSeen: Option<Candidacy>)

  function Initial(me: Candidacy, nowUs: nat): ElectionState {
    ElectionState(me, Follower, 0, nowUs, 0, 0, None)
  }

  /** The better of the best candidacy seen so far and a new one. */
  function Better(best: Option<Candidacy>, who: Candidacy): Option<Candidacy> {
    if best.Some? && best.value.Beats(who) then best else Some(who)
  }

  /** The machine after a tick from `who`. */
  function Ticked(s: ElectionState, nowUs: nat, who: Candidacy, epoch: nat): (ElectionState, Outcome) {
    if who.uuid == s.me.uuid then (s, Idle)
    else
      var e := s.(epoch := Max(s.epoch, epoch));
      match s.role
      case Follower => (e.(sinceUs := nowUs), Idle)
      case Candidate =>
        if who.Beats(s.me) then (e.(role := Follower, sinceUs := nowUs, bestSeen := None), Became(Follower))
        else (e.(bestSeen := Better(s.bestSeen, who)), Idle)
      case Leader =>
        if !who.Beats(s.me) then (e.(betterTicks := 0), Idle)
        else
          var seen := Min(s.betterTicks + 1, U8_MAX);
          if seen >= YIELD_HYSTERESIS then (e.(role := Follower, sinceUs := nowUs, betterTicks := 0), Became(Follower))
          else (e.(betterTicks := seen), Idle)
  }

  /** The machine after time has passed and nothing else happened. */
  function Timed(s: ElectionState, nowUs: nat): (ElectionState, Outcome) {
    match s.role
    case Follower =>
      if SubSat(nowUs, s.sinceUs) < FOLLOWER_TIMEOUT_US then (s, Idle)
      else (s.(role := Candidate, sinceUs := nowUs, bestSeen := None), Announce)
    case Candidate =>
      if SubSat(nowUs, s.sinceUs) < CANDIDATE_SETTLE_US then (s, Idle)
      else if s.bestSeen.Some? && s.bestSeen.value.Beats(s.me) then
        (s.(role := Follower, sinceUs := nowUs), Became(Follower))
      else
        (s.(role := Leader, epoch := Min(s.epoch + 1, U32_MAX), sinceUs := nowUs, lastTickSentUs := nowUs, betterTicks := 0),
         Became(Leader))
    case Leader =>
      if SubSat(nowUs, s.lastTickSentUs) < LEADER_TICK_INTERVAL_US then (s, Idle)
      else (s.(lastTickSentUs := nowUs), SendTick)
  }

  /** How long until the machine next has something to do. */
  function NextDeadline(s: ElectionState, nowUs: nat): nat {
    var (from, interval) := match s.role
      case Follower => (s.sinceUs, FOLLOWER_TIMEOUT_US)
      case Candidate => (s.sinceUs, CANDIDATE_SETTLE_US)
      case Leader => (s.lastTickSentUs, LEADER_TICK_INTERVAL_US);
    SubSat(AddSat64(from, interval), nowUs)
  }

  class Election {
    const me: Candidacy
    var role: Role
    var epoch: nat
    var sinceUs: nat
    var lastTickSentUs: nat
    var betterTicks: nat
    var bestSeen: Option<Candidacy>

    function State(): ElectionState
      reads this
    {
      ElectionState(me, role, epoch, sinceUs, lastTickSentUs, betterTicks, bestSeen)
    }

    constructor (me: Candidacy, nowUs: nat)
      ensures State() == Initial(me, nowUs)
    {
      this.me := me;
      role, epoch, sinceUs, lastTickSentUs, betterTicks, bestSeen := Follower, 0, nowUs, 0, 0, None;
    }

    method Note(who: Candidacy)
      modifies this`bestSeen
      ensures bestSeen == Better(old(bestSeen), who)
    {
      if bestSeen.None? || !bestSeen.value.Beats(who) {
        bestSeen := Some(who);
      }
    }

    method OnTick(nowUs: nat, who: Candidacy, epoch: nat) returns (outcome: Outcome)
      modifies this
      ensures (State(), outcome) == Ticked(old(State()), nowUs, who, epoch)
    {
      if who.uuid == me.uuid {
        return Idle;
      }
      if epoch > this.epoch {
        this.epoch := epoch;
      }
      match role {
        case Follower =>
          sinceUs := nowUs;
        case Candidate =>
          Note(who);
          if who.Beats(me) {
            role, sinceUs, bestSeen := Follower, nowUs, None;
            return Became(Follower);
          }
        case Leader =>
          if who.Beats(me) {
            betterTicks := Min(betterTicks + 1, U8_MAX);
            if betterTicks >= YIELD_HYSTERESIS {
              role, sinceUs, betterTicks := Follower, nowUs, 0;
              return Became(Follower);
            }
          } else {
            betterTicks := 0;
          }
      }
      return Idle;
    }

    method OnTimer(nowUs: nat) returns (outcome: Outcome)
      modifies this
      ensures (State(), outcome) == Timed(old(State()), nowUs)
    {
      match role {
        case Follower =>
          if SubSat(nowUs, sinceUs) >= FOLLOWER_TIMEOUT_US {
            role, sinceUs, bestSeen := Candidate, nowUs, None;
            return Announce;
          }
        case Candidate =>
          if SubSat(nowUs, sinceUs) >= CANDIDATE_SETTLE_US {
            if bestSeen.Some? && bestSeen.value.Beats(me) {
              role, sinceUs := Follower, nowUs;
              return Became(Follower);
            }
            role, epoch := Leader, Min(epoch + 1, U32_MAX);
            sinceUs, lastTickSentUs, betterTicks := nowUs, nowUs, 0;
            return Became(Leader);
          }
        case Leader =>
          if SubSat(nowUs, lastTickSentUs) >= LEADER_TICK_INTERVAL_US {
            lastTickSentUs := nowUs;
            return SendTick;
          }
      }
      return Idle;
    }
  }

  /** Every device computes the same winner: more capacity wins, then the lower uuid, strictly and totally. */
  lemma BeatsIsStrictTotalOrder(a: Candidacy, b: Candidacy, c: Candidacy)
    ensures a.capacity > b.capacity ==> a.Beats(b)
    ensures a.capacity == b.capacity && a.uuid < b.uuid ==> a.Beats(b)
    ensures !a.Beats(a)
    ensures a.Beats(b) ==> !b.Beats(a)
    ensures a.Beats(b) && b.Beats(c) ==> a.Beats(c)
    ensures a != b ==> a.Beats(b) || b.Beats(a)
  {
  }

  /**
   A shell that sleeps for the deadline neither spins nor oversleeps: there is
   something to do exactly when the deadline has come. The last microsecond a `u64`
   can hold is the exception when the deadline itself saturates.
   */
  lemma DeadlineIsExact(s: ElectionState, nowUs: nat)
    requires nowUs <= U64_MAX && s.sinceUs <= U64_MAX && s.lastTickSentUs <= U64_MAX
    ensures var (from, interval) := match s.role
              case Follower => (s.sinceUs, FOLLOWER_TIMEOUT_US)
              case Candidate => (s.sinceUs, CANDIDATE_SETTLE_US)
              case Leader => (s.lastTickSentUs, LEADER_TICK_INTERVAL_US);
            (NextDeadline(s, nowUs) == 0 <==> Timed(s, nowUs).1 != Idle)
            <==> !(from + interval > U64_MAX && nowUs == U64_MAX)
  {
  }

  /** Until its deadline has come, the machine does not change by itself. */
  lemma QuietBeforeDeadline(s: ElectionState, nowUs: nat)
    requires NextDeadline(s, nowUs) > 0
    ensures Timed(s, nowUs) == (s, Idle)
  {
  }
}
