/**
 Channels (channels.rs): claim-and-lease ownership, and latest-wins over a sequence
 number that wraps.
 */
module Channels {
  import opened Arith
  import opened Wrappers

  type Producer = nat

  datatype Owner = Owner(producer: Producer, priority: nat, leaseUntilUs: nat, lastSeq: Option<nat>)

  datatype ClaimOutcome =
    | Taken
    | Preempted(previous: Producer)
    | Refused(holder: Producer)
    | Renewed

  datatype ChannelState = ChannelState(owner: Option<Owner>, value: int, updatedAtUs: Option<nat>)

  /** Whether `number` is ahead of `last` by less than half the numbers there are. */
  predicate IsNewer(number: nat, last: nat) {
    number != last && (number - last) % 0x1_0000 < U16_MAX / 2
  }

  function LeaseUntil(nowUs: nat, leaseMs: nat): nat {
    AddSat64(nowUs, MulSat64(leaseMs, 1_000))
  }

  /** After a producer claims the channel. */
  function Claimed(s: ChannelState, nowUs: nat, producer: Producer, priority: nat, leaseMs: nat): (ChannelState,
                   ClaimOutcome) {
    var until := LeaseUntil(nowUs, leaseMs);
    var taken := s.(owner := Some(Owner(producer, priority, until, None)));
    if s.owner.None? then (taken, Taken)
    else
      var held := s.owner.value;
      if held.producer == producer then
        (s.(owner := Some(held.(priority := priority, leaseUntilUs := until))), Renewed)
      else if priority > held.priority then (taken, Preempted(held.producer))
      else (s, Refused(held.producer))
  }

  function Released(s: ChannelState, producer: Producer): ChannelState {
    if s.owner.Some? && s.owner.value.producer == producer then s.(owner := None) else s
  }

  /** Whether a packet is taken. */
  predicate Takes(s: ChannelState, producer: Producer, number: nat) {
    && s.owner.Some? && s.owner.value.producer == producer
    && (s.owner.value.lastSeq.Some? ==> IsNewer(number, s.owner.value.lastSeq.value))
  }

  function Published(s: ChannelState, nowUs: nat, producer: Producer, number: nat, value: int): ChannelState {
    if Takes(s, producer, number) then
      ChannelState(Some(s.owner.value.(lastSeq := Some(number))), value, Some(nowUs))
    else s
  }

  function Advanced(s: ChannelState, nowUs: nat): ChannelState {
    if s.owner.Some? && nowUs >= s.owner.value.leaseUntilUs then s.(owner := None) else s
  }

  class Channel {
    var owner: Option<Owner>
    var value: int
    var updatedAtUs: Option<nat>

    ghost function State(): ChannelState
      reads this
    {
      ChannelState(owner, value, updatedAtUs)
    }

    constructor (default: int)
      ensures State() == ChannelState(None, default, None)
    {
      owner, value, updatedAtUs := None, default, None;
    }

    /** A new owner's sequence numbers start afresh; the value is kept. */
    method Take(producer: Producer, priority: nat, leaseUntilUs: nat)
      modifies this`owner
      ensures owner == Some(Owner(producer, priority, leaseUntilUs, None))
    {
      owner := Some(Owner(producer, priority, leaseUntilUs, None));
    }

    method Claim(nowUs: nat, producer: Producer, priority: nat, leaseMs: nat) returns (r: ClaimOutcome)
      modifies this
      ensures (State(), r) == Claimed(old(State()), nowUs, producer, priority, leaseMs)
    {
      var until := LeaseUntil(nowUs, leaseMs);
      match owner {
        case None =>
          Take(producer, priority, until);
          return Taken;
        case Some(held) =>
          if held.producer == producer {
            owner := Some(held.(priority := priority, leaseUntilUs := until));
            return Renewed;
          }
          if priority > held.priority {
            Take(producer, priority, until);
            return Preempted(held.producer);
          }
          return Refused(held.producer);
      }
    }

    method Release(producer: Producer) returns (released: bool)
      modifies this
      ensures State() == Released(old(State()), producer)
      ensures released <==> old(owner).Some? && owner.None?
    {
      if owner.Some? && owner.value.producer == producer {
        owner := None;
        return true;
      }
      return false;
    }

    method Publish(nowUs: nat, producer: Producer, number: nat, newValue: int) returns (taken: bool)
      modifies this
      ensures State() == Published(old(State()), nowUs, producer, number, newValue)
      ensures taken <==> Takes(old(State()), producer, number)
    {
      if owner.None? || owner.value.producer != producer {
        return false;
      }
      var held := owner.value;
      if held.lastSeq.Some? {
        if !IsNewer(number, held.lastSeq.value) {
          return false;
        }
      }
      owner := Some(held.(lastSeq := Some(number)));
      value := newValue;
      updatedAtUs := Some(nowUs);
      return true;
    }

    method Advance(nowUs: nat) returns (lost: Option<Producer>)
      modifies this
      ensures State() == Advanced(old(State()), nowUs)
      ensures lost == if old(owner).Some? && owner.None? then Some(old(owner).value.producer) else None
    {
      if owner.None? || nowUs < owner.value.leaseUntilUs {
        return None;
      }
      lost := Some(owner.value.producer);
      owner := None;
    }
  }

  // -------------------------------------------------------------- sequence numbers

  function Wire(counter: int): nat {
    counter % 0x1_0000
  }

  /**
   On the wire numbers of two counters, the comparison answers exactly when their true
   distance, taken modulo 2^16, is one to 32766 ahead.
   */
  lemma NewerByDistance(counter: int, newest: int)
    ensures IsNewer(Wire(counter), Wire(newest)) <==> 0 < Wire(counter - newest) < 0x7FFF
  {
    assert (Wire(counter) - Wire(newest)) % 0x1_0000 == Wire(counter - newest);
  }

  /** It agrees with the true order on a window of distances, and on neither side further. */
  lemma WindowIsExact(counter: int, newest: int)
    ensures -0x8001 <= counter - newest <= 0x7FFE ==> (IsNewer(Wire(counter), Wire(newest)) <==> counter > newest)
    ensures counter - newest == 0x7FFF ==> !IsNewer(Wire(counter), Wire(newest))
    ensures counter - newest == -0x8002 ==> IsNewer(Wire(counter), Wire(newest))
  {
    NewerByDistance(counter, newest);
  }

  // -------------------------------------------------------------- one owner's tenure

  /** What can reach a channel while `owner` holds it. Packets carry a true counter. */
  datatype Event =
    | Packet(nowUs: nat, from: Producer, counter: int, value: int)
    | ClaimSeen(nowUs: nat, from: Producer, priority: nat, leaseMs: nat)
    | ReleaseSeen(from: Producer)
    | TimePassed(nowUs: nat)

  function Next(s: ChannelState, e: Event): ChannelState {
    match e
    case Packet(nowUs, from, counter, value) => Published(s, nowUs, from, Wire(counter), value)
    case ClaimSeen(nowUs, from, priority, leaseMs) => Claimed(s, nowUs, from, priority, leaseMs).0
    case ReleaseSeen(from) => Released(s, from)
    case TimePassed(nowUs) => Advanced(s, nowUs)
  }

  ghost predicate OwnedBy(s: ChannelState, p: Producer) {
    s.owner.Some? && s.owner.value.producer == p
  }

  /** The whole run is within one tenure of `p`: no event ends it. */
  ghost predicate Tenure(s: ChannelState, p: Producer, run: seq<Event>)
    decreases |run|
  {
    OwnedBy(s, p) && (run == [] || Tenure(Next(s, run[0]), p, run[1..]))
  }

  /** The packet with the higher counter: `best`, or this one if it is from `p`. */
  function Newest(best: Option<(int, int)>, p: Producer, e: Event): Option<(int, int)> {
    if e.Packet? && e.from == p && (best.None? || e.counter > best.value.0) then Some((e.counter, e.value)) else best
  }

  /** The packet with the highest counter among `best` and the packets of `p` in `run`. */
  function Highest(best: Option<(int, int)>, p: Producer, run: seq<Event>): Option<(int, int)>
    decreases |run|
  {
    if run == [] then best else Highest(Newest(best, p, run[0]), p, run[1..])
  }

  /** Each packet of `p` has a counter within 32766 of the highest before it. */
  ghost predicate Paced(best: Option<(int, int)>, p: Producer, run: seq<Event>)
    decreases |run|
  {
    run == [] ||
    (var e := run[0];
     && (e.Packet? && e.from == p && best.Some? ==> -0x7FFE <= e.counter - best.value.0 <= 0x7FFE)
     && Paced(Newest(best, p, e), p, run[1..]))
  }

  /** The channel shows the value of the packet with the highest counter so far. */
  ghost predicate Shows(s: ChannelState, best: Option<(int, int)>) {
    && s.owner.Some?
    && (best.None? ==> s.owner.value.lastSeq.None?)
    && (best.Some? ==> s.owner.value.lastSeq == Some(Wire(best.value.0)) && s.value == best.value.1)
  }

  lemma NewestIsShown(s: ChannelState, p: Producer, best: Option<(int, int)>, e: Event)
    requires OwnedBy(s, p) && OwnedBy(Next(s, e), p) && Shows(s, best)
    requires e.Packet? && e.from == p && best.Some? ==> -0x7FFE <= e.counter - best.value.0 <= 0x7FFE
    ensures Shows(Next(s, e), Newest(best, p, e))
  {
    if e.Packet? && e.from == p && best.Some? {
      WindowIsExact(e.counter, best.value.0);
    }
  }

  /** Within a tenure, across wraps and renewals, the channel keeps the latest value sent. */
  lemma {:induction false} LatestWins(s: ChannelState, p: Producer, best: Option<(int, int)>, run: seq<Event>,
                                      end: ChannelState)
    requires Tenure(s, p, run) && Paced(best, p, run) && Shows(s, best)
    requires end == AfterRun(s, run)
    ensures Shows(end, Highest(best, p, run))
    decreases |run|
  {
    if run != [] {
      NewestIsShown(s, p, best, run[0]);
      LatestWins(Next(s, run[0]), p, Newest(best, p, run[0]), run[1..], end);
    }
  }

  function AfterRun(s: ChannelState, run: seq<Event>): ChannelState
    decreases |run|
  {
    if run == [] then s else AfterRun(Next(s, run[0]), run[1..])
  }

  // ---------------------------------------------------------------------- handovers

  /** Every claim of a producer in the run carries that producer's own priority. */
  ghost predicate FixedPriorities(run: seq<Event>, priority: Producer -> nat) {
    forall e :: e in run && e.ClaimSeen? ==> e.priority == priority(e.from) <= U8_MAX
  }

  ghost predicate HoldsOwnPriority(s: ChannelState, priority: Producer -> nat) {
    s.owner.Some? ==> s.owner.value.priority == priority(s.owner.value.producer) <= U8_MAX
  }

  predicate IsHandover(s: ChannelState, e: Event) {
    e.ClaimSeen? && Claimed(s, e.nowUs, e.from, e.priority, e.leaseMs).1.Preempted?
  }

  function Handovers(s: ChannelState, run: seq<Event>): nat
    decreases |run|
  {
    if run == [] then 0
    else (if IsHandover(s, run[0]) then 1 else 0) + Handovers(Next(s, run[0]), run[1..])
  }

  /** The channel is owned throughout the run. */
  ghost predicate NeverVacant(s: ChannelState, run: seq<Event>)
    decreases |run|
  {
    s.owner.Some? && (run == [] || NeverVacant(Next(s, run[0]), run[1..]))
  }

  /** By how much an owner's renewal lowers its own priority. */
  function Lowered(s: ChannelState, e: Event): nat {
    if e.ClaimSeen? && s.owner.Some? && s.owner.value.producer == e.from
    then SubSat(s.owner.value.priority, e.priority)
    else 0
  }

  function AllLowered(s: ChannelState, run: seq<Event>): nat
    decreases |run|
  {
    if run == [] then 0 else Lowered(s, run[0]) + AllLowered(Next(s, run[0]), run[1..])
  }

  /**
   Between vacancies every handover raises the priority by at least one, so there are no more
   of them than the priority has risen and owners have lowered it by renewing.
   */
  lemma {:induction false} HandoversArePaidFor(s: ChannelState, run: seq<Event>)
    requires NeverVacant(s, run)
    ensures var end := AfterRun(s, run);
            end.owner.Some? && s.owner.value.priority + Handovers(s, run) <= end.owner.value.priority + AllLowered(s, run)
    decreases |run|
  {
    if run != [] { HandoversArePaidFor(Next(s, run[0]), run[1..]); }
  }

  /** If each producer keeps to one priority nothing is ever lowered. */
  lemma {:induction false} FixedPrioritiesHold(s: ChannelState, run: seq<Event>, priority: Producer -> nat)
    requires NeverVacant(s, run) && FixedPriorities(run, priority) && HoldsOwnPriority(s, priority)
    ensures AllLowered(s, run) == 0 && HoldsOwnPriority(AfterRun(s, run), priority)
    decreases |run|
  {
    if run != [] {
      assert run[0] in run;
      FixedPrioritiesHold(Next(s, run[0]), run[1..], priority);
    }
  }

  /** With fixed priorities there are then at most 255 handovers between vacancies. */
  lemma HandoversAreBounded(s: ChannelState, run: seq<Event>, priority: Producer -> nat)
    requires NeverVacant(s, run) && FixedPriorities(run, priority) && HoldsOwnPriority(s, priority)
    ensures var end := AfterRun(s, run);
            && end.owner.Some? && HoldsOwnPriority(end, priority)
            && s.owner.value.priority + Handovers(s, run) <= end.owner.value.priority <= U8_MAX
  {
    HandoversArePaidFor(s, run);
    FixedPrioritiesHold(s, run, priority);
  }

  /** A channel that producer 1 holds at priority 5. */
  function HeldByOne(): ChannelState {
    Claimed(ChannelState(None, 0, None), 0, 1, 5, 1_000).0
  }

  /** Producer 2 outbids, lowers its own priority and is outbid, `n` times over. */
  function Trades(n: nat): seq<Event> {
    if n == 0 then [] else [ClaimSeen(0, 2, 6, 1_000), ClaimSeen(0, 2, 4, 1_000), ClaimSeen(0, 1, 5, 1_000)] + Trades(n - 1)
  }

  /**
   A producer that may lower its priority can make two producers trade the channel any number
   of times, each round ending where it began.
   */
  lemma {:induction false} TradesNeverEnd(n: nat)
    ensures NeverVacant(HeldByOne(), Trades(n)) && AfterRun(HeldByOne(), Trades(n)) == HeldByOne()
    ensures Handovers(HeldByOne(), Trades(n)) == 2 * n
  {
    if n > 0 {
      TradesNeverEnd(n - 1);
      OneTrade(Trades(n - 1));
    }
  }

  lemma OneTrade(rest: seq<Event>)
    ensures var s := HeldByOne();
            var run := [ClaimSeen(0, 2, 6, 1_000), ClaimSeen(0, 2, 4, 1_000), ClaimSeen(0, 1, 5, 1_000)] + rest;
            && (NeverVacant(s, run) <==> NeverVacant(s, rest))
            && AfterRun(s, run) == AfterRun(s, rest) && Handovers(s, run) == 2 + Handovers(s, rest)
  {
    var s := HeldByOne();
    var a, b, c := ClaimSeen(0, 2, 6, 1_000), ClaimSeen(0, 2, 4, 1_000), ClaimSeen(0, 1, 5, 1_000);
    var run := [a, b, c] + rest;
    assert run[1..] == [b, c] + rest && ([b, c] + rest)[1..] == [c] + rest && ([c] + rest)[1..] == rest;
    assert run[0] == a && ([b, c] + rest)[0] == b && ([c] + rest)[0] == c;
    assert Next(Next(Next(s, a), b), c) == s;
    assert IsHandover(s, a) && !IsHandover(Next(s, a), b) && IsHandover(Next(Next(s, a), b), c);
    assert NeverVacant(s, run) == NeverVacant(Next(s, a), [b, c] + rest);
    assert NeverVacant(Next(s, a), [b, c] + rest) == NeverVacant(Next(Next(s, a), b), [c] + rest);
    assert Handovers(s, run) == 1 + Handovers(Next(s, a), [b, c] + rest);
    assert Handovers(Next(s, a), [b, c] + rest) == Handovers(Next(Next(s, a), b), [c] + rest);
    assert AfterRun(s, run) == AfterRun(Next(s, a), [b, c] + rest) == AfterRun(Next(Next(s, a), b), [c] + rest);
  }

  // --------------------------------------------------------------------------- a lease

  /** The event neither ends nor moves the lease of `p`, which holds at `priority` until `endUs`. */
  predicate Leaves(e: Event, p: Producer, priority: nat, endUs: nat) {
    match e
    case Packet(_, _, _, _) => true
    case ClaimSeen(_, from, other, _) => from != p && other <= priority
    case ReleaseSeen(from) => from != p
    case TimePassed(nowUs) => nowUs < endUs
  }

  ghost predicate HeldUntil(s: ChannelState, p: Producer, priority: nat, endUs: nat) {
    OwnedBy(s, p) && s.owner.value.priority == priority && s.owner.value.leaseUntilUs == endUs
  }

  lemma {:induction false} LeaseStands(s: ChannelState, p: Producer, priority: nat, endUs: nat, run: seq<Event>)
    requires HeldUntil(s, p, priority, endUs) && forall e :: e in run ==> Leaves(e, p, priority, endUs)
    ensures HeldUntil(AfterRun(s, run), p, priority, endUs)
    decreases |run|
  {
    if run != [] {
      assert run[0] in run;
      LeaseStands(Next(s, run[0]), p, priority, endUs, run[1..]);
    }
  }

  /**
   A claim of `leaseMs` milliseconds at `nowUs` that is granted or renewed stands against packets,
   claims of no higher priority, releases by others and all time before its end, and is lost to
   time exactly from its end on; the end is the last microsecond there is if it would be later.
   */
  lemma LeaseIsKept(s: ChannelState, nowUs: nat, p: Producer, priority: nat, leaseMs: nat, run: seq<Event>, laterUs: nat)
    requires !Claimed(s, nowUs, p, priority, leaseMs).1.Refused?
    requires forall e :: e in run ==> Leaves(e, p, priority, Min(nowUs + 1_000 * leaseMs, U64_MAX))
    ensures var t := AfterRun(Claimed(s, nowUs, p, priority, leaseMs).0, run);
            && OwnedBy(t, p)
            && (OwnedBy(Next(t, TimePassed(laterUs)), p) <==> laterUs < Min(nowUs + 1_000 * leaseMs, U64_MAX))
  {
    LeaseStands(Claimed(s, nowUs, p, priority, leaseMs).0, p, priority, Min(nowUs + 1_000 * leaseMs, U64_MAX), run);
  }

  /** From the claim that makes it a producer's on, a channel shows the latest value of that tenure. */
  lemma NewOwnerStartsAfresh(s: ChannelState, nowUs: nat, p: Producer, priority: nat, leaseMs: nat, run: seq<Event>)
    requires !OwnedBy(s, p) && Paced(None, p, run) && Tenure(Claimed(s, nowUs, p, priority, leaseMs).0, p, run)
    ensures Shows(AfterRun(Claimed(s, nowUs, p, priority, leaseMs).0, run), Highest(None, p, run))
  {
    var t := Claimed(s, nowUs, p, priority, leaseMs).0;
    LatestWins(t, p, None, run, AfterRun(t, run));
  }
}
