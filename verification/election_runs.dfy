/**
 What other devices' ticks do to one device over a run (election.rs), told by their capacities:
 weaker devices never unseat it, and three ticks of stronger ones running always do.
 */
module ElectionRuns {
  import opened Elections

  datatype Event = TickHeard(atUs: nat, who: Candidacy, epoch: nat) | TimePassed(atUs: nat)

  function Next(s: ElectionState, e: Event): (ElectionState, Outcome) {
    match e
    case TickHeard(atUs, who, epoch) => Ticked(s, atUs, who, epoch)
    case TimePassed(atUs) => Timed(s, atUs)
  }

  function AfterRun(s: ElectionState, run: seq<Event>): ElectionState
    decreases |run|
  {
    if run == [] then s else AfterRun(Next(s, run[0]).0, run[1..])
  }

  /** Less capacity, or the same and a higher uuid. */
  predicate IsWeaker(a: Candidacy, b: Candidacy) {
    a.capacity < b.capacity || (a.capacity == b.capacity && a.uuid > b.uuid)
  }

  ghost predicate OnlyWeaker(me: Candidacy, run: seq<Event>) {
    forall e :: e in run && e.TickHeard? ==> IsWeaker(e.who, me)
  }

  ghost predicate OnlyStronger(me: Candidacy, run: seq<Event>) {
    forall e :: e in run ==> e.TickHeard? && IsWeaker(me, e.who)
  }

  /** Whether a timer fires at or after a time. */
  ghost predicate TimerBy(run: seq<Event>, atUs: nat) {
    exists e :: e in run && e.TimePassed? && e.atUs >= atUs
  }

  /** Running for the role without having heard of anybody stronger. */
  ghost predicate Unchallenged(s: ElectionState) {
    s.role.Candidate? && (s.bestSeen.Some? ==> IsWeaker(s.bestSeen.value, s.me))
  }

  lemma WeakerTickIsIgnored(s: ElectionState, e: Event)
    requires Unchallenged(s) || s.role.Leader?
    requires e.TickHeard? ==> IsWeaker(e.who, s.me)
    ensures var t := Next(s, e).0;
            && t.me == s.me && (Unchallenged(t) || t.role.Leader?)
            && (s.role.Leader? ==> t.role.Leader? && t.betterTicks <= s.betterTicks)
            && (t.role.Candidate? ==> t.sinceUs == s.sinceUs)
            && (s.role.Candidate? && t.role.Leader? ==> t.betterTicks == 0)
            && (s.role.Candidate? && e.TimePassed? && e.atUs >= s.sinceUs + CANDIDATE_SETTLE_US ==> t.role.Leader?)
  {
  }

  /**
   Whatever weaker devices say, and whenever timers fire: a leader goes on leading and counts
   nothing against itself, and a candidate goes on until it has waited its time, and then leads.
   */
  lemma {:induction false} WeakerNeverUnseat(s: ElectionState, run: seq<Event>)
    requires (Unchallenged(s) || s.role.Leader?) && OnlyWeaker(s.me, run)
    ensures var t := AfterRun(s, run);
            && t.me == s.me && (Unchallenged(t) || t.role.Leader?)
            && (s.role.Leader? ==> t.role.Leader? && t.betterTicks <= s.betterTicks)
            && (TimerBy(run, s.sinceUs + CANDIDATE_SETTLE_US) ==> t.role.Leader?)
    decreases |run|
  {
    if run != [] {
      var e, rest := run[0], run[1..];
      var t := Next(s, e).0;
      assert e in run;
      WeakerTickIsIgnored(s, e);
      assert forall other :: other in rest ==> other in run;
      WeakerNeverUnseat(t, rest);
      if t.role.Candidate? && TimerBy(run, s.sinceUs + CANDIDATE_SETTLE_US) {
        var f :| f in run && f.TimePassed? && f.atUs >= s.sinceUs + CANDIDATE_SETTLE_US;
        assert f in rest;
      }
    }
  }

  /** One tick of a stronger device ends a candidacy. */
  lemma StrongerEndsCandidacy(s: ElectionState, atUs: nat, who: Candidacy, epoch: nat)
    requires s.role.Candidate? && IsWeaker(s.me, who) && who.uuid != s.me.uuid
    ensures Ticked(s, atUs, who, epoch).1 == Became(Follower) && Ticked(s, atUs, who, epoch).0.role.Follower?
  {
  }

  /** A leader yields at the third tick of stronger devices running, and not before. */
  lemma {:induction false} ThirdStrongerTickUnseats(s: ElectionState, run: seq<Event>)
    requires s.role.Leader? && s.betterTicks + |run| <= 3 && s.betterTicks < 3 && OnlyStronger(s.me, run)
    requires forall e :: e in run && e.TickHeard? ==> e.who.uuid != s.me.uuid
    ensures var t := AfterRun(s, run);
            && t.me == s.me
            && (if s.betterTicks + |run| < 3 then t.role.Leader? && t.betterTicks == s.betterTicks + |run|
                else t.role.Follower?)
    decreases |run|
  {
    if run != [] {
      var e, rest := run[0], run[1..];
      assert e in run && forall other :: other in rest ==> other in run;
      if s.betterTicks < 2 {
        ThirdStrongerTickUnseats(Next(s, e).0, rest);
      } else {
        assert rest == [];
      }
    }
  }

  /** Somebody of more capacity, or as much and a lower uuid, was heard of while running for the role. */
  predicate HeardOfStronger(s: ElectionState) {
    s.bestSeen.Some? && IsWeaker(s.me, s.bestSeen.value)
  }

  /**
   What time does to each role: a follower stands three seconds after it last heard a tick; a
   candidate leads two seconds after it stood, in a new epoch, or follows whom it heard of; and a
   leader ticks every second.
   */
  lemma Timetable(s: ElectionState, nowUs: nat)
    requires s.epoch <= 0xFFFF_FFFF
    ensures var (t, outcome) := Timed(s, nowUs);
            match s.role
            case Follower =>
              if nowUs >= s.sinceUs + 3_000_000 then t.role.Candidate? && outcome == Announce && t.sinceUs == nowUs
              else t == s && outcome == Idle
            case Candidate =>
              if nowUs < s.sinceUs + 2_000_000 then t == s && outcome == Idle
              else if HeardOfStronger(s) then t.role.Follower? && outcome == Became(Follower) && t.epoch == s.epoch
              else t.role.Leader? && outcome == Became(Leader)
                   && t.epoch == (if s.epoch < 0xFFFF_FFFF then s.epoch + 1 else 0xFFFF_FFFF)
            case Leader =>
              if nowUs >= s.lastTickSentUs + 1_000_000 then t == s.(lastTickSentUs := nowUs) && outcome == SendTick
              else t == s && outcome == Idle
  {
  }

  /** A follower that hears ticks within three seconds of each other never stands, whoever they are from. */
  lemma {:induction false} FollowersStayWhileTicked(s: ElectionState, run: seq<Event>)
    requires s.role.Follower? && InTime(s.sinceUs, run)
    requires forall e :: e in run && e.TickHeard? ==> e.who.uuid != s.me.uuid
    ensures AfterRun(s, run).role.Follower?
    decreases |run|
  {
    if run != [] {
      var e, rest := run[0], run[1..];
      assert e in run && forall other :: other in rest ==> other in run;
      FollowersStayWhileTicked(Next(s, e).0, rest);
    }
  }

  /** No timer fires three seconds or more after the tick before it. */
  ghost predicate InTime(heardUs: nat, run: seq<Event>)
    decreases |run|
  {
    run == [] ||
    (match run[0]
     case TickHeard(atUs, _, _) => InTime(atUs, run[1..])
     case TimePassed(atUs) => atUs < heardUs + 3_000_000 && InTime(heardUs, run[1..]))
  }
}
