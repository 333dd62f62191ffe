/**
 Replicated records (records.rs): hybrid logical clocks, who may sign what, and the
 store that gossip keeps in step.

 A `Uuid` is sixteen bytes compared in order, which is the order of the number they
 spell. A signature check is a fixed predicate of key and record: the bytes a
 signature covers are a function of the record.
 */
module Records {
  import opened Arith
  import opened Wrappers
  import opened OrderedKeys

  type Uuid = nat
  type Key = nat
  type Verifier = (Key, Record) -> bool

  // ------------------------------------------------------- hybrid logical clocks

  /** Wall milliseconds in the high 48 bits, a counter in the low 16. */
  type Hlc = h: nat | h <= U64_MAX

  const WALL_LIMIT: nat := 0x1_0000_0000_0000

  function WallMs(h: Hlc): nat { h / 0x1_0000 }

  /** The shift drops the top sixteen bits of the wall time. */
  function NewHlc(wallMs: nat, counter: nat): Hlc
    requires counter <= U16_MAX
  {
    wallMs * 0x1_0000 % 0x1_0000_0000_0000_0000 + counter
  }

  /** The next timestamp for a local write at `wallMs`. */
  function Tick(h: Hlc, wallMs: nat): Hlc {
    if wallMs > WallMs(h) then NewHlc(wallMs, 0) else AddSat64(h, 1)
  }

  /** Merge a timestamp seen from a peer. */
  function Observe(h: Hlc, other: Hlc, wallMs: nat): Hlc {
    var highest := Max(h, other);
    Tick(highest, Max(wallMs, WallMs(highest)))
  }

  /** Exactly when a tick moves forward: a wall time that fits, or a counter with room. */
  lemma TickClimbs(h: Hlc, wallMs: nat)
    ensures Tick(h, wallMs) > h <==>
      if wallMs > WallMs(h) then wallMs % WALL_LIMIT > WallMs(h) else h < U64_MAX
    ensures wallMs < WALL_LIMIT ==> (Tick(h, wallMs) > h <==> h < U64_MAX)
  {
    assert wallMs * 0x1_0000 % 0x1_0000_0000_0000_0000 == wallMs % WALL_LIMIT * 0x1_0000;
  }

  /** A wall time of 2^48 milliseconds sends the clock back to zero. */
  lemma TickFallsBack()
    ensures Tick(NewHlc(5, 0), WALL_LIMIT) == 0 < NewHlc(5, 0)
  {
  }

  /** Observing a peer's timestamp passes both clocks, short of saturation. */
  lemma ObserveClimbs(h: Hlc, other: Hlc, wallMs: nat)
    requires wallMs < WALL_LIMIT
    ensures Observe(h, other, wallMs) > Max(h, other) || Observe(h, other, wallMs) == U64_MAX
  {
    TickClimbs(Max(h, other), Max(wallMs, WallMs(Max(h, other))));
  }

  // ------------------------------------------------------------------- records

  datatype RecordType = Device | Zone | Effect | Scene | Show | Schedule | Binding | Channel | KeyRecord {
    predicate IsSelfSigned() { Device? }
  }

  datatype Record = Record(id: Uuid, kind: RecordType, hlc: Hlc, author: Uuid, body: seq<nat>, signature: nat) {
    /** Timestamp first, then author. */
    predicate Supersedes(other: Record) {
      hlc > other.hlc || (hlc == other.hlc && author > other.author)
    }
  }

  datatype RejectReason = BadSignature | UnknownAuthor | NotItsOwnDeviceRecord | WrongAuthority | Superseded

  datatype Authority = Authority(controllers: map<Uuid, Key>, devices: map<Uuid, Key>) {
    /** The key that may have signed `record`, and nothing else. */
    function KeyFor(record: Record): Result<Key, RejectReason> {
      if record.kind.IsSelfSigned() then
        if record.author != record.id then Err(NotItsOwnDeviceRecord)
        else if record.author in devices then Ok(devices[record.author])
        else Err(UnknownAuthor)
      else if record.author in devices && record.author !in controllers then Err(WrongAuthority)
      else if record.author in controllers then Ok(controllers[record.author])
      else Err(UnknownAuthor)
    }

    /** `record` is signed by the key that may sign it. */
    predicate Vouches(verify: Verifier, record: Record) {
      KeyFor(record).Ok? && verify(KeyFor(record).value, record)
    }
  }

  /** A device that is no controller can only get a record about itself accepted. */
  lemma DeviceSpeaksForItself(authority: Authority, verify: Verifier, record: Record)
    requires authority.Vouches(verify, record)
    ensures record.author !in authority.controllers ==>
      record.kind.Device? && record.id == record.author && record.author in authority.devices
    ensures record.author !in authority.devices ==> !record.kind.Device?
  {
  }

  /** A device speaks for itself by its own key, and a controller for all else by its own. */
  lemma VouchedExactly(authority: Authority, verify: Verifier, record: Record)
    ensures authority.Vouches(verify, record) <==>
      if record.kind == Device then
        record.author == record.id && record.id in authority.devices && verify(authority.devices[record.id], record)
      else
        record.author in authority.controllers && verify(authority.controllers[record.author], record)
  {
  }

  // --------------------------------------------------------------------- store

  type Held = map<Uuid, Record>

  datatype StoreState = StoreState(records: Held, clock: Hlc)

  /** Why `record` is refused, if it is. */
  function Refusal(held: Held, record: Record, authority: Authority, verify: Verifier): Option<RejectReason> {
    if record.id in held && !record.Supersedes(held[record.id]) then Some(Superseded)
    else if authority.KeyFor(record).Err? then Some(authority.KeyFor(record).error)
    else if !verify(authority.KeyFor(record).value, record) then Some(BadSignature)
    else None
  }

  function Accepted(s: StoreState, record: Record, authority: Authority, verify: Verifier, wallMs: nat): StoreState {
    if Refusal(s.records, record, authority, verify).Some? then s
    else StoreState(s.records[record.id := record], Observe(s.clock, record.hlc, wallMs))
  }

  datatype DigestEntry = DigestEntry(id: Uuid, hlc: Hlc)

  /** `digest` lists every record held, once, in id order. */
  ghost predicate IsDigest(digest: seq<DigestEntry>, held: Held) {
    && (forall i, j :: 0 <= i < j < |digest| ==> digest[i].id < digest[j].id)
    && (forall e :: e in digest ==> e.id in held && e.hlc == held[e.id].hlc)
    && (forall id :: id in held ==> DigestEntry(id, held[id].hlc) in digest)
  }

  /** A peer's digest offers a record this node lacks or has an older copy of. */
  predicate Offers(theirs: seq<DigestEntry>, held: Held, id: Uuid) {
    exists e :: e in theirs && e.id == id && Lacks(held, e)
  }

  predicate Lacks(held: Held, e: DigestEntry) {
    e.id in held ==> e.hlc > held[e.id].hlc
  }

  /** This node holds a record that the peer's digest lacks or is behind on. */
  predicate Leads(theirs: seq<DigestEntry>, held: Held, id: Uuid) {
    id in held && forall e :: e in theirs && e.id == id ==> held[id].hlc > e.hlc
  }

  class Store {
    var records: Held
    var clock: Hlc

    ghost function State(): StoreState
      reads this
    {
      StoreState(records, clock)
    }

    constructor ()
      ensures State() == StoreState(map[], 0)
    {
      records, clock := map[], 0;
    }

    /**
     A timestamp for a record authored here. Whatever the wall clock did, it is later than every
     one given before, and the record that carries it supersedes every record held.
     */
    method Stamp(wallMs: nat) returns (h: Hlc)
      modifies this`clock
      ensures State() == Next(old(State()), Stamped(wallMs)) && h == clock
      ensures h > old(clock) <==>
        if wallMs > WallMs(old(clock)) then wallMs % WALL_LIMIT > WallMs(old(clock)) else old(clock) < U64_MAX
      ensures ClockLeads(old(State())) && wallMs < WALL_LIMIT && old(clock) < U64_MAX ==>
        ClockLeads(State()) && forall id, r: Record :: id in records && r.hlc == h ==> r.Supersedes(records[id])
    {
      TickClimbs(clock, wallMs);
      clock := Tick(clock, wallMs);
      h := clock;
    }

    /** Take a record in, once it is known to be newer and properly signed. */
    method Accept(record: Record, authority: Authority, verify: Verifier, wallMs: nat)
        returns (r: Result<(), RejectReason>)
      modifies this
      ensures State() == Accepted(old(State()), record, authority, verify, wallMs)
      ensures var refusal := Refusal(old(records), record, authority, verify);
              r == if refusal.Some? then Err(refusal.value) else Ok(())
    {
      if record.id in records && !record.Supersedes(records[record.id]) {
        return Err(Superseded);
      }
      var key := authority.KeyFor(record);
      if key.Err? {
        return Err(key.error);
      }
      if !verify(key.value, record) {
        return Err(BadSignature);
      }
      clock := Observe(clock, record.hlc, wallMs);
      records := records[record.id := record];
      return Ok(());
    }

    /** What this node holds, in id order. */
    method Digest() returns (digest: seq<DigestEntry>)
      ensures IsDigest(digest, records)
    {
      digest := [];
      var ids := Ordered(records.Keys);
      for i := 0 to |ids|
        invariant |digest| == i
        invariant forall k :: 0 <= k < i ==> digest[k] == DigestEntry(ids[k], records[ids[k]].hlc)
      {
        digest := digest + [DigestEntry(ids[i], records[ids[i]].hlc)];
      }
      forall id | id in records ensures DigestEntry(id, records[id].hlc) in digest {
        var k :| 0 <= k < |ids| && ids[k] == id;
        assert digest[k] == DigestEntry(id, records[id].hlc);
      }
    }

    /** The ids a digest offers that this node wants, in the digest's order. */
    method Wanted(theirs: seq<DigestEntry>) returns (ids: seq<Uuid>)
      ensures ids == Lacked(theirs, records)
      ensures forall id :: id in ids <==> Offers(theirs, records, id)
    {
      ids := [];
      for i := 0 to |theirs|
        invariant ids == Lacked(theirs[..i], records)
        invariant forall id :: id in ids <==> Offers(theirs[..i], records, id)
      {
        var e := theirs[i];
        assert theirs[..i + 1] == theirs[..i] + [e];
        forall id ensures Offers(theirs[..i + 1], records, id) <==>
            Offers(theirs[..i], records, id) || (e.id == id && Lacks(records, e)) {
          OffersOneMore(theirs[..i], e, records, id);
        }
        if Lacks(records, e) {
          ids := ids + [e.id];
        }
      }
      assert theirs[..|theirs|] == theirs;
    }

    /** What to ask for and what to send, having compared two digests. */
    method Reconcile(theirs: seq<DigestEntry>) returns (pull: seq<Uuid>, push: seq<Uuid>)
      ensures Ascending(pull) && forall id :: id in pull <==> Offers(theirs, records, id)
      ensures Ascending(push) && forall id :: id in push <==> Leads(theirs, records, id)
    {
      var wanted := Wanted(theirs);
      pull := Ordered(set id | id in wanted);

      var peer: map<Uuid, Hlc> := map[];
      for i := 0 to |theirs|
        invariant forall e :: e in theirs[..i] ==> e.id in peer && e.hlc <= peer[e.id]
        invariant forall id :: id in peer ==> DigestEntry(id, peer[id]) in theirs[..i]
      {
        var e := theirs[i];
        assert theirs[..i + 1] == theirs[..i] + [e];
        if e.id !in peer || e.hlc > peer[e.id] {
          peer := peer[e.id := e.hlc];
        }
      }
      assert theirs[..|theirs|] == theirs;
      push := Ordered(set id | id in records && (id in peer ==> records[id].hlc > peer[id]));
      forall id ensures id in push <==> Leads(theirs, records, id) {
        if id in peer { assert DigestEntry(id, peer[id]) in theirs; }
      }
    }

    /** The records held among `ids`, in the order asked for. */
    method Collect(ids: seq<Uuid>) returns (rs: seq<Record>)
      ensures rs == Collected(records, ids)
    {
      rs := [];
      for i := 0 to |ids|
        invariant rs + Collected(records, ids[i..]) == Collected(records, ids)
      {
        if ids[i] in records {
          rs := rs + [records[ids[i]]];
        }
      }
    }
  }

  /** The ids of the entries that are news here, once for each such entry. */
  function Lacked(theirs: seq<DigestEntry>, held: Held): seq<Uuid> {
    if theirs == [] then []
    else
      var last := |theirs| - 1;
      Lacked(theirs[..last], held) + if Lacks(held, theirs[last]) then [theirs[last].id] else []
  }

  function Collected(held: Held, ids: seq<Uuid>): seq<Record> {
    if ids == [] then []
    else (if ids[0] in held then [held[ids[0]]] else []) + Collected(held, ids[1..])
  }

  lemma OffersOneMore(theirs: seq<DigestEntry>, e: DigestEntry, held: Held, id: Uuid)
    ensures Offers(theirs + [e], held, id) <==> Offers(theirs, held, id) || (e.id == id && Lacks(held, e))
  {
    assert e in theirs + [e];
    if Offers(theirs, held, id) {
      var f :| f in theirs && f.id == id && Lacks(held, f);
      assert f in theirs + [e];
    }
  }

  // -------------------------------------------------------------- clocks over runs

  datatype ClockEvent =
    | Stamped(wallMs: nat)
    | Received(record: Record, authority: Authority, verify: Verifier, wallMs: nat)

  function Next(s: StoreState, e: ClockEvent): StoreState {
    match e
    case Stamped(wallMs) => s.(clock := Tick(s.clock, wallMs))
    case Received(record, authority, verify, wallMs) => Accepted(s, record, authority, verify, wallMs)
  }

  /** The clock has passed every record held, or has run out of numbers. */
  ghost predicate ClockLeads(s: StoreState) {
    s.clock == U64_MAX || forall id :: id in s.records ==> s.records[id].hlc < s.clock
  }

  /** The state after each event of a run, oldest first. */
  function Trace(s: StoreState, run: seq<ClockEvent>): (t: seq<StoreState>)
    ensures |t| == |run| + 1 && t[0] == s
    decreases |run|
  {
    if run == [] then [s] else [s] + Trace(Next(s, run[0]), run[1..])
  }

  /**
   However the wall clock moves: the clock never goes back, and until it saturates
   it stays ahead of every record held. A stamp is the clock, so every stamp beats
   every record held when it was made and every earlier stamp.
   */
  lemma {:induction false} ClockRun(s: StoreState, run: seq<ClockEvent>, i: nat)
    requires ClockLeads(s) && i < |run|
    requires forall e :: e in run ==> e.wallMs < WALL_LIMIT
    ensures var t := Trace(s, run);
            && ClockLeads(t[i]) && ClockLeads(t[i + 1])
            && t[0].clock <= t[i].clock <= t[i + 1].clock
            && (run[i].Stamped? && t[i].clock < U64_MAX ==> t[0].clock <= t[i].clock < t[i + 1].clock)
            && (t[i + 1].records != t[i].records ==> t[i + 1].clock > t[i].clock || t[i + 1].clock == U64_MAX)
    decreases |run|
  {
    var e := run[0];
    TickClimbs(s.clock, e.wallMs);
    if e.Received? { ObserveClimbs(s.clock, e.record.hlc, e.wallMs); }
    if i > 0 { ClockRun(Next(s, e), run[1..], i - 1); }
  }

  /**
   A stamp taken short of saturation beats every earlier stamp of the run and every
   record held when it is taken.
   */
  lemma {:induction false} StampBeatsThePast(s: StoreState, run: seq<ClockEvent>, i: nat, j: nat)
    requires ClockLeads(s) && i < j < |run| && run[i].Stamped? && run[j].Stamped?
    requires forall e :: e in run ==> e.wallMs < WALL_LIMIT
    requires Trace(s, run)[j + 1].clock < U64_MAX
    ensures var t := Trace(s, run);
            && t[i + 1].clock < t[j + 1].clock
            && forall id :: id in t[j].records ==> t[j].records[id].hlc < t[j + 1].clock
    decreases |run|
  {
    var next := Next(s, run[0]);
    ClockRun(s, run, 0);
    if i == 0 {
      ClockRun(next, run[1..], j - 1);
    } else {
      StampBeatsThePast(next, run[1..], i - 1, j - 1);
    }
  }

  /** Not before: a later timestamp, or the same and no lower author. */
  predicate AtLeast(a: Record, b: Record) { a.hlc > b.hlc || (a.hlc == b.hlc && a.author >= b.author) }

  /** The event brings a record of this id that its authority vouches for. */
  predicate Brings(e: ClockEvent, id: Uuid) {
    e.Received? && e.record.id == id && e.authority.Vouches(e.verify, e.record)
  }

  /** What a store holds of an id after a run is one of the records it held or was brought, and before none of them. */
  ghost predicate HoldsLatest(s: StoreState, run: seq<ClockEvent>, id: Uuid, end: StoreState) {
    && (id in s.records ==> id in end.records && AtLeast(end.records[id], s.records[id]))
    && (forall e :: e in run && Brings(e, id) ==> id in end.records && AtLeast(end.records[id], e.record))
    && (id in end.records ==>
          (id in s.records && end.records[id] == s.records[id]) || exists e :: e in run && Brings(e, id) && e.record == end.records[id])
  }

  lemma NextHoldsLatest(s: StoreState, e: ClockEvent, id: Uuid)
    ensures HoldsLatest(s, [e], id, Next(s, e))
  {
    assert e in [e];
  }

  lemma LatestOfBoth(s: StoreState, e: ClockEvent, mid: StoreState, rest: seq<ClockEvent>, id: Uuid, end: StoreState)
    requires HoldsLatest(s, [e], id, mid) && HoldsLatest(mid, rest, id, end)
    ensures HoldsLatest(s, [e] + rest, id, end)
  {
    assert e in [e];
    if id in end.records && exists d :: d in rest && Brings(d, id) && d.record == end.records[id] {
      var d :| d in rest && Brings(d, id) && d.record == end.records[id];
      assert d in [e] + rest;
    }
    forall d | d in [e] + rest && Brings(d, id) ensures id in end.records && AtLeast(end.records[id], d.record) {
      assert d in rest || d == e;
    }
  }

  /**
   In whatever order they come, of the records of an id that it held or was brought with a good
   signature, a store ends with one of the latest timestamp, and of those of the highest author.
   */
  lemma {:induction false} LatestIsHeld(s: StoreState, run: seq<ClockEvent>, id: Uuid)
    ensures HoldsLatest(s, run, id, Trace(s, run)[|run|])
    decreases |run|
  {
    if run != [] {
      NextHoldsLatest(s, run[0], id);
      LatestIsHeld(Next(s, run[0]), run[1..], id);
      LatestOfBoth(s, run[0], Next(s, run[0]), run[1..], id, Trace(s, run)[|run|]);
      assert [run[0]] + run[1..] == run;
    }
  }

  /** A refused record leaves records and clock alone. */
  lemma RefusedChangesNothing(s: StoreState, record: Record, authority: Authority, verify: Verifier, wallMs: nat)
    requires wallMs < WALL_LIMIT && s.clock < U64_MAX
    ensures Accepted(s, record, authority, verify, wallMs) == s <==> Refusal(s.records, record, authority, verify).Some?
  {
    ObserveClimbs(s.clock, record.hlc, wallMs);
  }
}
