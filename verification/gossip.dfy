/**
 Gossip between any number of stores (records.rs, reconcile, collect, accept).

 A round compares one digest with what is held, pulls what the peer has newer and
 pushes what this node has newer. Digests compare timestamps only, while acceptance also
 breaks ties on author, so two records of one id and one timestamp can stay apart.
 `ConvergesUnlessContested` says exactly when they do. Deliveries may come in any order,
 more than once or never.
 */
module Gossip {
  import opened OrderedKeys
  import opened Records

  // ------------------------------------------------------------------ one round

  /** The ids one side pulls from the other, from the digest comparison. */
  ghost function Behind(mine: Held, theirs: Held): (r: set<Uuid>)
    ensures r <= theirs.Keys
  {
    set id | id in theirs && (id in mine ==> theirs[id].hlc > mine[id].hlc)
  }

  /** What `Store.Reconcile` plans against a peer's digest is decided by what the two hold. */
  lemma PlanIsBehind(mine: Held, theirs: Held, digest: seq<DigestEntry>, id: Uuid)
    requires IsDigest(digest, theirs)
    ensures Offers(digest, mine, id) <==> id in Behind(mine, theirs)
    ensures Leads(digest, mine, id) <==> id in Behind(theirs, mine)
  {
    if id in theirs {
      assert DigestEntry(id, theirs[id].hlc) in digest;
    }
  }

  /** The records a store holds after being handed `r`. */
  function Taken(held: Held, r: Record, authority: Authority, verify: Verifier): Held {
    if Refusal(held, r, authority, verify).Some? then held else held[r.id := r]
  }

  /** The records a store holds after being handed `rs` in turn. */
  function Handed(held: Held, rs: seq<Record>, authority: Authority, verify: Verifier): Held
    decreases |rs|
  {
    if rs == [] then held else Handed(Taken(held, rs[0], authority, verify), rs[1..], authority, verify)
  }

  /** Every record is filed under its own id and signed by the key that may sign it. */
  ghost predicate Genuine(held: Held, authority: Authority, verify: Verifier) {
    forall id :: id in held ==> held[id].id == id && authority.Vouches(verify, held[id])
  }

  /** A store only ever holds genuine records. */
  lemma AcceptKeepsGenuine(s: StoreState, r: Record, authority: Authority, verify: Verifier, wallMs: nat)
    requires Genuine(s.records, authority, verify)
    ensures Genuine(Accepted(s, r, authority, verify, wallMs).records, authority, verify)
  {
  }

  ghost function Ids(ids: seq<Uuid>): set<Uuid> {
    set id | id in ids
  }

  /** `mine` with the copies `theirs` has of the given ids. */
  ghost function Replaced(mine: Held, theirs: Held, ids: set<Uuid>): (r: Held)
    requires ids <= theirs.Keys
    ensures r.Keys == mine.Keys + ids
  {
    map id | id in mine.Keys + ids :: if id in ids then theirs[id] else mine[id]
  }

  /** Per id, the copy with the later timestamp; `mine` where neither is later. */
  ghost function Merge(mine: Held, theirs: Held): (r: Held)
    ensures r.Keys == mine.Keys + theirs.Keys
  {
    Replaced(mine, theirs, Behind(mine, theirs))
  }

  /** Accepting one record that was asked for files it. */
  lemma HandedOne(mine: Held, theirs: Held, ids: seq<Uuid>, authority: Authority, verify: Verifier)
    requires Genuine(theirs, authority, verify)
    requires ids != [] && ids[0] in Behind(mine, theirs)
    ensures Handed(mine, Collected(theirs, ids), authority, verify)
         == Handed(mine[ids[0] := theirs[ids[0]]], Collected(theirs, ids[1..]), authority, verify)
  {
    assert Collected(theirs, ids)[1..] == Collected(theirs, ids[1..]);
  }

  /** Accepting in turn everything that was asked for files all of it. */
  lemma {:induction false} HandedAll(mine: Held, theirs: Held, ids: seq<Uuid>, authority: Authority, verify: Verifier)
    requires Genuine(theirs, authority, verify)
    requires Ascending(ids) && forall i :: 0 <= i < |ids| ==> ids[i] in Behind(mine, theirs)
    ensures Ids(ids) <= theirs.Keys
    ensures Handed(mine, Collected(theirs, ids), authority, verify)
         == Replaced(mine, theirs, Ids(ids))
    decreases |ids|
  {
    if ids == [] {
      assert Replaced(mine, theirs, {}) == mine;
    } else {
      var next, rest := mine[ids[0] := theirs[ids[0]]], ids[1..];
      HandedOne(mine, theirs, ids, authority, verify);
      HandedAll(next, theirs, rest, authority, verify);
      assert Ids(ids) == {ids[0]} + Ids(rest);
      ReplacedOneMore(mine, theirs, ids[0], Ids(rest));
    }
  }

  lemma ReplacedOneMore(mine: Held, theirs: Held, id: Uuid, ids: set<Uuid>)
    requires id in theirs && ids <= theirs.Keys
    ensures Replaced(mine[id := theirs[id]], theirs, ids) == Replaced(mine, theirs, {id} + ids)
  {
  }

  /** The plans of both directions, as sets of ids. */
  lemma PlansAreBehind(mine: Held, theirs: Held, digest: seq<DigestEntry>, pull: seq<Uuid>, push: seq<Uuid>)
    requires IsDigest(digest, theirs)
    requires forall id :: id in pull <==> Offers(digest, mine, id)
    requires forall id :: id in push <==> Leads(digest, mine, id)
    ensures Ids(pull) == Behind(mine, theirs)
    ensures Ids(push) == Behind(theirs, mine)
  {
    forall id ensures (id in pull <==> id in Behind(mine, theirs)) && (id in push <==> id in Behind(theirs, mine)) {
      PlanIsBehind(mine, theirs, digest, id);
    }
  }

  /** What one side holds once it has been handed everything it planned to get. */
  lemma HandedPlan(mine: Held, theirs: Held, plan: seq<Uuid>, authority: Authority, verify: Verifier)
    requires Genuine(theirs, authority, verify)
    requires Ascending(plan) && Ids(plan) == Behind(mine, theirs)
    ensures Handed(mine, Collected(theirs, plan), authority, verify) == Merge(mine, theirs)
  {
    forall i | 0 <= i < |plan| ensures plan[i] in Behind(mine, theirs) {
      assert plan[i] in Ids(plan);
    }
    HandedAll(mine, theirs, plan, authority, verify);
  }

  /**
   A whole round, as the two stores run it: this side plans from the peer's digest,
   accepts what it pulled, and the peer accepts what was pushed.
   */
  method Round(a: Store, b: Store, authority: Authority, verify: Verifier, wallMs: nat)
    requires a != b
    requires Genuine(a.records, authority, verify) && Genuine(b.records, authority, verify)
    modifies a, b
    ensures a.records == Merge(old(a.records), old(b.records))
    ensures b.records == Merge(old(b.records), old(a.records))
  {
    var digest := b.Digest();
    var pull, push := a.Reconcile(digest);
    PlansAreBehind(a.records, b.records, digest, pull, push);
    HandedPlan(a.records, b.records, pull, authority, verify);
    HandedPlan(b.records, a.records, push, authority, verify);
    var forA := b.Collect(pull);
    var forB := a.Collect(push);
    HandOver(a, forA, authority, verify, wallMs);
    HandOver(b, forB, authority, verify, wallMs);
  }

  method HandOver(to: Store, rs: seq<Record>, authority: Authority, verify: Verifier, wallMs: nat)
    modifies to
    ensures to.records == Handed(old(to.records), rs, authority, verify)
  {
    for i := 0 to |rs|
      invariant Handed(to.records, rs[i..], authority, verify) == Handed(old(to.records), rs, authority, verify)
    {
      assert rs[i..][1..] == rs[i + 1..];
      var r := to.Accept(rs[i], authority, verify, wallMs);
    }
  }

  // ------------------------------------------------------------------- the mesh

  type Mesh = seq<Held>

  ghost predicate Within(held: Held, universe: set<Record>) {
    forall id :: id in held ==> held[id].id == id && held[id] in universe
  }

  ghost predicate MeshWithin(mesh: Mesh, universe: set<Record>) {
    forall i :: 0 <= i < |mesh| ==> Within(mesh[i], universe)
  }

  /** Nothing held is later than the peak. */
  ghost predicate Below(held: Held, peak: Held) {
    forall id :: id in held ==> id in peak && held[id].hlc <= peak[id].hlc
  }

  /** Some store holds `r` as its copy of `id`. */
  ghost predicate Attained(mesh: Mesh, id: Uuid, r: Record) {
    exists i :: 0 <= i < |mesh| && id in mesh[i] && mesh[i][id] == r
  }

  /** `peak` holds, per id, a record that is held and that no store holds a later one of. */
  ghost predicate IsPeak(peak: Held, mesh: Mesh) {
    && (forall i :: 0 <= i < |mesh| ==> Below(mesh[i], peak))
    && (forall id :: id in peak ==> Attained(mesh, id, peak[id]))
  }

  /** Some store holds `r`, and no store holds a later copy of `id`. */
  ghost predicate IsTop(mesh: Mesh, id: Uuid, r: Record) {
    && Attained(mesh, id, r)
    && forall i :: 0 <= i < |mesh| && id in mesh[i] ==> mesh[i][id].hlc <= r.hlc
  }

  /** Two different records of one id stand at the highest timestamp held of it. */
  ghost predicate Contested(mesh: Mesh) {
    exists id, r, s :: IsTop(mesh, id, r) && IsTop(mesh, id, s) && r != s
  }

  /** The mesh after stores `i` and `j` have run a round. */
  ghost function AfterRound(mesh: Mesh, i: nat, j: nat): Mesh
    requires i < |mesh| && j < |mesh| && i != j
  {
    mesh[i := Merge(mesh[i], mesh[j])][j := Merge(mesh[j], mesh[i])]
  }

  /** The plan of a round between two stores is empty. */
  ghost predicate Agrees(a: Held, b: Held) {
    Behind(a, b) == {} && Behind(b, a) == {}
  }

  /** Merging brings in no record but the peer's, and nothing older than what was held. */
  lemma MergeClimbs(a: Held, b: Held, id: Uuid)
    ensures id in Merge(a, b) <==> id in a || id in b
    ensures id in Merge(a, b) ==> (id in a && Merge(a, b)[id] == a[id]) || (id in b && Merge(a, b)[id] == b[id])
    ensures id in a ==> a[id].hlc <= Merge(a, b)[id].hlc
    ensures id in b ==> b[id].hlc <= Merge(a, b)[id].hlc
    ensures id in a && (id in b ==> b[id].hlc <= a[id].hlc) ==> Merge(a, b)[id] == a[id]
  {
  }

  /** A round keeps every top record and brings in no other. */
  lemma TopStays(mesh: Mesh, i: nat, j: nat, id: Uuid, r: Record)
    requires i < |mesh| && j < |mesh| && i != j && IsTop(mesh, id, r)
    ensures IsTop(AfterRound(mesh, i, j), id, r)
  {
    var next := AfterRound(mesh, i, j);
    MergeClimbs(mesh[i], mesh[j], id);
    MergeClimbs(mesh[j], mesh[i], id);
    var k :| 0 <= k < |mesh| && id in mesh[k] && mesh[k][id] == r;
    assert id in next[k] && next[k][id] == r;
  }

  lemma TopWasThere(mesh: Mesh, i: nat, j: nat, id: Uuid, r: Record)
    requires i < |mesh| && j < |mesh| && i != j && IsTop(AfterRound(mesh, i, j), id, r)
    ensures IsTop(mesh, id, r)
  {
    var next := AfterRound(mesh, i, j);
    MergeClimbs(mesh[i], mesh[j], id);
    MergeClimbs(mesh[j], mesh[i], id);
    var k :| 0 <= k < |next| && id in next[k] && next[k][id] == r;
    assert Attained(mesh, id, r) by {
      assert (id in mesh[i] && mesh[i][id] == r) || (id in mesh[j] && mesh[j][id] == r)
             || (id in mesh[k] && mesh[k][id] == r);
    }
    forall k | 0 <= k < |mesh| && id in mesh[k] ensures mesh[k][id].hlc <= r.hlc {
      assert id in next[k] && mesh[k][id].hlc <= next[k][id].hlc;
    }
  }

  lemma RoundKeepsTop(mesh: Mesh, i: nat, j: nat, id: Uuid, r: Record)
    requires i < |mesh| && j < |mesh| && i != j
    ensures IsTop(mesh, id, r) <==> IsTop(AfterRound(mesh, i, j), id, r)
  {
    if IsTop(mesh, id, r) { TopStays(mesh, i, j, id, r); }
    if IsTop(AfterRound(mesh, i, j), id, r) { TopWasThere(mesh, i, j, id, r); }
  }

  lemma PeakIsTop(peak: Held, mesh: Mesh)
    ensures IsPeak(peak, mesh) <==>
      && (forall id :: id in peak ==> IsTop(mesh, id, peak[id]))
      && (forall i, id :: 0 <= i < |mesh| && id in mesh[i] ==> id in peak)
  {
    if forall id :: id in peak ==> IsTop(mesh, id, peak[id]) {
      assert forall i, id :: 0 <= i < |mesh| && id in mesh[i] && id in peak ==> mesh[i][id].hlc <= peak[id].hlc;
    }
    if IsPeak(peak, mesh) {
      forall i, id | 0 <= i < |mesh| && id in mesh[i] ensures id in peak && mesh[i][id].hlc <= peak[id].hlc {
        assert Below(mesh[i], peak);
      }
    }
  }

  /** Rounds never move the peak: nothing newest is lost and nothing newer appears. */
  lemma RoundKeepsPeak(mesh: Mesh, peak: Held, i: nat, j: nat)
    requires i < |mesh| && j < |mesh| && i != j && IsPeak(peak, mesh)
    ensures IsPeak(peak, AfterRound(mesh, i, j))
  {
    PeakIsTop(peak, mesh);
    PeakIsTop(peak, AfterRound(mesh, i, j));
    forall id | id in peak ensures IsTop(AfterRound(mesh, i, j), id, peak[id]) {
      RoundKeepsTop(mesh, i, j, id, peak[id]);
    }
  }

  /** A round settles no contest and starts none. */
  lemma RoundKeepsContest(mesh: Mesh, i: nat, j: nat)
    requires i < |mesh| && j < |mesh| && i != j
    ensures Contested(mesh) <==> Contested(AfterRound(mesh, i, j))
  {
    var next := AfterRound(mesh, i, j);
    forall id, r ensures IsTop(mesh, id, r) <==> IsTop(next, id, r) {
      RoundKeepsTop(mesh, i, j, id, r);
    }
  }

  /** The two hold the same record of every id they hold at one timestamp. */
  ghost predicate Distinguished(a: Held, b: Held) {
    forall id :: id in a && id in b && a[id].hlc == b[id].hlc ==> a[id] == b[id]
  }

  /**
   After a round the two stores hold nothing older than before, and they hold the same exactly
   when they disagreed on no record by author alone.
   */
  lemma RoundMeets(mesh: Mesh, i: nat, j: nat)
    requires i < |mesh| && j < |mesh| && i != j
    ensures var next := AfterRound(mesh, i, j);
            && Below(mesh[i], next[i]) && Below(mesh[j], next[j])
            && (next[i] == next[j] <==> Distinguished(mesh[i], mesh[j]))
  {
    var a, b := mesh[i], mesh[j];
    if Distinguished(a, b) {
      forall id | id in a.Keys + b.Keys ensures Merge(a, b)[id] == Merge(b, a)[id] {}
    } else {
      var id :| id in a && id in b && a[id].hlc == b[id].hlc && a[id] != b[id];
      assert Merge(a, b)[id] != Merge(b, a)[id];
    }
  }

  /** No round between any two stores has anything to transfer. */
  ghost predicate Quiet(mesh: Mesh) {
    forall i, j :: 0 <= i < |mesh| && 0 <= j < |mesh| ==> Agrees(mesh[i], mesh[j])
  }

  ghost predicate AllHold(mesh: Mesh, peak: Held) {
    forall i :: 0 <= i < |mesh| ==> mesh[i] == peak
  }

  /** Empty plans mean that all digests are the same, and no more. */
  lemma QuietMeansSameDigests(a: Held, b: Held)
    ensures Agrees(a, b) <==> a.Keys == b.Keys && forall id :: id in a ==> a[id].hlc == b[id].hlc
  {
    if Agrees(a, b) {
      forall id | id in a ensures id in b && a[id].hlc == b[id].hlc {
        assert id !in Behind(a, b) && id !in Behind(b, a);
      }
      forall id | id in b ensures id in a {
        assert id !in Behind(a, b);
      }
    }
  }

  /** Once all is quiet, whatever is held is at the top. */
  lemma QuietHoldsTop(mesh: Mesh, i: nat, id: Uuid)
    requires Quiet(mesh) && i < |mesh| && id in mesh[i]
    ensures IsTop(mesh, id, mesh[i][id])
  {
    forall k | 0 <= k < |mesh| ensures id in mesh[k] && mesh[k][id].hlc == mesh[i][id].hlc {
      assert Agrees(mesh[i], mesh[k]);
      QuietMeansSameDigests(mesh[i], mesh[k]);
    }
  }

  lemma OneTop(mesh: Mesh, id: Uuid, r: Record, s: Record)
    requires !Contested(mesh) && IsTop(mesh, id, r) && IsTop(mesh, id, s)
    ensures r == s
  {
  }

  lemma QuietStoreHolds(mesh: Mesh, peak: Held, i: nat, id: Uuid)
    requires Quiet(mesh) && !Contested(mesh) && i < |mesh| && id in peak && IsTop(mesh, id, peak[id])
    ensures id in mesh[i] && mesh[i][id] == peak[id]
  {
    var k :| 0 <= k < |mesh| && id in mesh[k] && mesh[k][id] == peak[id];
    assert Agrees(mesh[i], mesh[k]);
    QuietMeansSameDigests(mesh[i], mesh[k]);
    QuietHoldsTop(mesh, i, id);
    OneTop(mesh, id, mesh[i][id], peak[id]);
  }

  lemma SameEntries(a: Held, b: Held)
    requires forall id :: id in a ==> id in b
    requires forall id :: id in b ==> id in a && a[id] == b[id]
    ensures a == b
  {
  }

  /**
   Every store holds the peak exactly when every pairwise plan is empty and no top record is
   contested.
   */
  lemma QuietMeansConverged(mesh: Mesh, peak: Held)
    requires IsPeak(peak, mesh)
    ensures AllHold(mesh, peak) <==> Quiet(mesh) && !Contested(mesh)
  {
    PeakIsTop(peak, mesh);
    if AllHold(mesh, peak) {
      forall id, r, s | IsTop(mesh, id, r) && IsTop(mesh, id, s) ensures r == s {}
    }
    if Quiet(mesh) && !Contested(mesh) {
      forall i | 0 <= i < |mesh| ensures mesh[i] == peak {
        forall id | id in peak ensures id in mesh[i] && mesh[i][id] == peak[id] {
          QuietStoreHolds(mesh, peak, i, id);
        }
        SameEntries(mesh[i], peak);
      }
    }
  }

  // ------------------------------------------------------------------ schedules

  /** A schedule: which two stores meet, round after round. */
  ghost predicate IsSchedule(n: nat, schedule: seq<(nat, nat)>) {
    forall p :: p in schedule ==> p.0 < n && p.1 < n && p.0 != p.1
  }

  ghost function AfterRounds(mesh: Mesh, schedule: seq<(nat, nat)>): (r: Mesh)
    requires IsSchedule(|mesh|, schedule)
    ensures |r| == |mesh|
    decreases |schedule|
  {
    if schedule == [] then mesh
    else AfterRounds(AfterRound(mesh, schedule[0].0, schedule[0].1), schedule[1..])
  }

  ghost predicate AllSame(mesh: Mesh) {
    forall i, j :: 0 <= i < |mesh| && 0 <= j < |mesh| ==> mesh[i] == mesh[j]
  }

  lemma QuietUnlessContested(mesh: Mesh)
    requires Quiet(mesh)
    ensures AllSame(mesh) <==> !Contested(mesh)
  {
    if AllSame(mesh) {
      forall id, r, s | IsTop(mesh, id, r) && IsTop(mesh, id, s) ensures r == s {
        var i :| 0 <= i < |mesh| && id in mesh[i] && mesh[i][id] == r;
        var j :| 0 <= j < |mesh| && id in mesh[j] && mesh[j][id] == s;
        assert mesh[i] == mesh[j];
      }
    }
    if !Contested(mesh) {
      forall i, j | 0 <= i < |mesh| && 0 <= j < |mesh| ensures mesh[i] == mesh[j] {
        assert Agrees(mesh[i], mesh[j]);
        QuietMeansSameDigests(mesh[i], mesh[j]);
        forall id | id in mesh[i] ensures mesh[i][id] == mesh[j][id] {
          QuietHoldsTop(mesh, i, id);
          QuietHoldsTop(mesh, j, id);
          OneTop(mesh, id, mesh[i][id], mesh[j][id]);
        }
        SameEntries(mesh[i], mesh[j]);
      }
    }
  }

  /**
   Whenever a schedule has left nothing to transfer, all stores hold the same exactly if the
   mesh was not contested to begin with. A clash below the top does no harm: it is overwritten.
   */
  lemma {:induction false} ConvergesUnlessContested(mesh: Mesh, schedule: seq<(nat, nat)>)
    requires IsSchedule(|mesh|, schedule) && Quiet(AfterRounds(mesh, schedule))
    ensures AllSame(AfterRounds(mesh, schedule)) <==> !Contested(mesh)
    decreases |schedule|
  {
    if schedule == [] {
      QuietUnlessContested(mesh);
    } else {
      var i, j := schedule[0].0, schedule[0].1;
      RoundKeepsContest(mesh, i, j);
      ConvergesUnlessContested(AfterRound(mesh, i, j), schedule[1..]);
    }
  }

  /** Two records that share an id and a timestamp: gossip never brings the stores together. */
  lemma ClashStaysApart()
    ensures var r := Record(1, Scene, 7, 10, [], 0);
            var s := Record(1, Scene, 7, 11, [], 0);
            && s.Supersedes(r)
            && Contested([map[1 := r], map[1 := s]])
            && Quiet([map[1 := r], map[1 := s]])
  {
    var r := Record(1, Scene, 7, 10, [], 0);
    var s := Record(1, Scene, 7, 11, [], 0);
    var mesh: Mesh := [map[1 := r], map[1 := s]];
    assert mesh[0][1] == r && mesh[1][1] == s;
    assert IsTop(mesh, 1, r) && IsTop(mesh, 1, s);
  }

  // ---------------------------------------------------------------- termination

  /** The records of the universe that would be news to a store. */
  ghost function News(held: Held, universe: set<Record>): set<Record> {
    set r | r in universe && (r.id in held ==> r.Supersedes(held[r.id]))
  }

  ghost function TotalNews(mesh: Mesh, universe: set<Record>): nat {
    if mesh == [] then 0 else |News(mesh[0], universe)| + TotalNews(mesh[1..], universe)
  }

  lemma SubsetSize<T>(a: set<T>, b: set<T>)
    requires a <= b
    ensures |a| <= |b|
    ensures a != b ==> |a| < |b|
  {
    assert b == a + (b - a);
  }

  /** Merging never leaves more news to hear, and strictly less if anything was behind. */
  lemma MergeIsProgress(a: Held, b: Held, universe: set<Record>)
    requires Within(a, universe) && Within(b, universe)
    ensures Within(Merge(a, b), universe)
    ensures |News(Merge(a, b), universe)| <= |News(a, universe)|
    ensures Behind(a, b) != {} ==> |News(Merge(a, b), universe)| < |News(a, universe)|
  {
    var before, after := News(a, universe), News(Merge(a, b), universe);
    if Behind(a, b) != {} {
      var id :| id in Behind(a, b);
      assert b[id] in before && b[id] !in after;
    }
    SubsetSize(after, before);
  }

  lemma {:induction false} TotalAfterUpdate(mesh: Mesh, universe: set<Record>, i: nat, held: Held)
    requires i < |mesh|
    ensures TotalNews(mesh[i := held], universe) - |News(held, universe)|
         == TotalNews(mesh, universe) - |News(mesh[i], universe)|
  {
    var next := mesh[i := held];
    if i > 0 {
      TotalAfterUpdate(mesh[1..], universe, i - 1, held);
      assert next[1..] == mesh[1..][i - 1 := held];
    } else {
      assert next[1..] == mesh[1..];
    }
  }

  /** A round whose plan is not empty leaves the mesh with strictly less news to hear. */
  lemma RoundIsProgress(mesh: Mesh, universe: set<Record>, i: nat, j: nat)
    requires i < |mesh| && j < |mesh| && i != j && MeshWithin(mesh, universe)
    ensures MeshWithin(AfterRound(mesh, i, j), universe)
    ensures TotalNews(AfterRound(mesh, i, j), universe) <= TotalNews(mesh, universe)
    ensures !Agrees(mesh[i], mesh[j]) ==> TotalNews(AfterRound(mesh, i, j), universe) < TotalNews(mesh, universe)
    ensures Agrees(mesh[i], mesh[j]) ==> AfterRound(mesh, i, j) == mesh
  {
    MergeIsProgress(mesh[i], mesh[j], universe);
    MergeIsProgress(mesh[j], mesh[i], universe);
    TotalAfterUpdate(mesh, universe, i, Merge(mesh[i], mesh[j]));
    TotalAfterUpdate(mesh[i := Merge(mesh[i], mesh[j])], universe, j, Merge(mesh[j], mesh[i]));
    if Agrees(mesh[i], mesh[j]) {
      QuietMeansSameDigests(mesh[i], mesh[j]);
      assert Merge(mesh[i], mesh[j]) == mesh[i] && Merge(mesh[j], mesh[i]) == mesh[j];
    }
  }

  /** How many rounds of a schedule transfer anything. */
  ghost function BusyRounds(mesh: Mesh, schedule: seq<(nat, nat)>): nat
    requires IsSchedule(|mesh|, schedule)
    decreases |schedule|
  {
    if schedule == [] then 0
    else
      (if Agrees(mesh[schedule[0].0], mesh[schedule[0].1]) then 0 else 1) +
      BusyRounds(AfterRound(mesh, schedule[0].0, schedule[0].1), schedule[1..])
  }

  lemma {:induction false} RoundsKeepContest(mesh: Mesh, schedule: seq<(nat, nat)>)
    requires IsSchedule(|mesh|, schedule)
    ensures Contested(mesh) <==> Contested(AfterRounds(mesh, schedule))
    decreases |schedule|
  {
    if schedule != [] {
      RoundKeepsContest(mesh, schedule[0].0, schedule[0].1);
      RoundsKeepContest(AfterRound(mesh, schedule[0].0, schedule[0].1), schedule[1..]);
    }
  }

  /** One round moves no peak and leaves less news, or as much if it transfers nothing. */
  lemma RoundStep(mesh: Mesh, universe: set<Record>, peak: Held, i: nat, j: nat, next: Mesh)
    requires i < |mesh| && j < |mesh| && i != j && MeshWithin(mesh, universe) && IsPeak(peak, mesh)
    requires next == AfterRound(mesh, i, j)
    ensures IsPeak(peak, next) && MeshWithin(next, universe) && |next| == |mesh|
    ensures (if Agrees(mesh[i], mesh[j]) then 0 else 1) + TotalNews(next, universe) <= TotalNews(mesh, universe)
  {
    RoundKeepsPeak(mesh, peak, i, j);
    RoundIsProgress(mesh, universe, i, j);
  }

  lemma {:induction false} RoundsProgress(mesh: Mesh, universe: set<Record>, peak: Held, schedule: seq<(nat, nat)>)
    requires IsSchedule(|mesh|, schedule) && MeshWithin(mesh, universe) && IsPeak(peak, mesh)
    ensures var end := AfterRounds(mesh, schedule);
            && IsPeak(peak, end) && MeshWithin(end, universe)
            && BusyRounds(mesh, schedule) + TotalNews(end, universe) <= TotalNews(mesh, universe)
    decreases |schedule|
  {
    if schedule != [] {
      var i, j := schedule[0].0, schedule[0].1;
      var next := AfterRound(mesh, i, j);
      RoundStep(mesh, universe, peak, i, j, next);
      RoundsProgress(next, universe, peak, schedule[1..]);
    }
  }

  /**
   Convergence under any schedule: the peak never moves, rounds that transfer something are
   bounded by the news there was to begin with, and every store holds the peak exactly once
   all is quiet, if the mesh was not contested to begin with.
   */
  lemma GossipConverges(mesh: Mesh, universe: set<Record>, peak: Held, schedule: seq<(nat, nat)>)
    requires IsSchedule(|mesh|, schedule) && MeshWithin(mesh, universe) && IsPeak(peak, mesh)
    ensures var end := AfterRounds(mesh, schedule);
            && IsPeak(peak, end) && MeshWithin(end, universe)
            && BusyRounds(mesh, schedule) + TotalNews(end, universe) <= TotalNews(mesh, universe)
            && (AllHold(end, peak) <==> Quiet(end) && !Contested(mesh))
  {
    var end := AfterRounds(mesh, schedule);
    RoundsProgress(mesh, universe, peak, schedule);
    RoundsKeepContest(mesh, schedule);
    QuietMeansConverged(end, peak);
  }

  /** Every two stores meet somewhere in the schedule. */
  ghost predicate IsSweep(n: nat, schedule: seq<(nat, nat)>) {
    && IsSchedule(n, schedule)
    && forall i, j :: 0 <= i < j < n ==> (i, j) in schedule || (j, i) in schedule
  }

  /** A schedule that transfers nothing changes nothing, and its pairs agree. */
  lemma {:induction false} IdleRounds(mesh: Mesh, schedule: seq<(nat, nat)>, universe: set<Record>)
    requires IsSchedule(|mesh|, schedule) && MeshWithin(mesh, universe) && BusyRounds(mesh, schedule) == 0
    ensures AfterRounds(mesh, schedule) == mesh
    ensures forall p :: p in schedule ==> Agrees(mesh[p.0], mesh[p.1])
    decreases |schedule|
  {
    if schedule != [] {
      RoundIsProgress(mesh, universe, schedule[0].0, schedule[0].1);
      IdleRounds(mesh, schedule[1..], universe);
    }
  }

  lemma SweptPairAgrees(mesh: Mesh, sweep: seq<(nat, nat)>, i: nat, j: nat)
    requires IsSweep(|mesh|, sweep) && forall p :: p in sweep ==> Agrees(mesh[p.0], mesh[p.1])
    requires i < |mesh| && j < |mesh|
    ensures Agrees(mesh[i], mesh[j])
  {
    if i != j {
      var p, q := (i, j), (j, i);
      assert p in sweep || q in sweep;
      assert p in sweep ==> Agrees(mesh[p.0], mesh[p.1]);
      assert q in sweep ==> Agrees(mesh[q.0], mesh[q.1]);
    }
  }

  lemma IdleSweepIsQuiet(mesh: Mesh, sweep: seq<(nat, nat)>, universe: set<Record>)
    requires IsSweep(|mesh|, sweep) && MeshWithin(mesh, universe) && BusyRounds(mesh, sweep) == 0
    ensures Quiet(mesh)
  {
    IdleRounds(mesh, sweep, universe);
    forall i, j | 0 <= i < |mesh| && 0 <= j < |mesh| ensures Agrees(mesh[i], mesh[j]) {
      SweptPairAgrees(mesh, sweep, i, j);
    }
  }

  lemma {:induction false} QuietStays(mesh: Mesh, schedule: seq<(nat, nat)>, universe: set<Record>)
    requires IsSchedule(|mesh|, schedule) && MeshWithin(mesh, universe) && Quiet(mesh)
    ensures AfterRounds(mesh, schedule) == mesh
    decreases |schedule|
  {
    if schedule != [] {
      RoundIsProgress(mesh, universe, schedule[0].0, schedule[0].1);
      QuietStays(mesh, schedule[1..], universe);
    }
  }

  ghost predicate AreSweeps(n: nat, sweeps: seq<seq<(nat, nat)>>) {
    forall k :: 0 <= k < |sweeps| ==> IsSweep(n, sweeps[k])
  }

  ghost function AfterSweeps(mesh: Mesh, sweeps: seq<seq<(nat, nat)>>): (r: Mesh)
    requires forall k :: 0 <= k < |sweeps| ==> IsSchedule(|mesh|, sweeps[k])
    ensures |r| == |mesh|
    decreases |sweeps|
  {
    if sweeps == [] then mesh else AfterSweeps(AfterRounds(mesh, sweeps[0]), sweeps[1..])
  }

  lemma {:induction false} SweepsKeepQuiet(mesh: Mesh, universe: set<Record>, sweeps: seq<seq<(nat, nat)>>)
    requires forall k :: 0 <= k < |sweeps| ==> IsSchedule(|mesh|, sweeps[k])
    requires MeshWithin(mesh, universe) && Quiet(mesh)
    ensures AfterSweeps(mesh, sweeps) == mesh
    decreases |sweeps|
  {
    if sweeps != [] {
      QuietStays(mesh, sweeps[0], universe);
      SweepsKeepQuiet(mesh, universe, sweeps[1..]);
    }
  }

  /** A sweep that transfers something leaves less news, the same peak and the same contest. */
  lemma BusySweep(mesh: Mesh, universe: set<Record>, peak: Held, sweep: seq<(nat, nat)>, next: Mesh)
    requires MeshWithin(mesh, universe) && IsPeak(peak, mesh) && IsSchedule(|mesh|, sweep)
    requires next == AfterRounds(mesh, sweep) && BusyRounds(mesh, sweep) > 0
    ensures MeshWithin(next, universe) && IsPeak(peak, next) && |next| == |mesh|
    ensures TotalNews(next, universe) < TotalNews(mesh, universe)
    ensures Contested(next) <==> Contested(mesh)
  {
    GossipConverges(mesh, universe, peak, sweep);
    RoundsKeepContest(mesh, sweep);
  }

  /** After one that transfers nothing the others transfer nothing either. */
  lemma IdleSweepEnds(mesh: Mesh, universe: set<Record>, peak: Held, sweeps: seq<seq<(nat, nat)>>)
    requires MeshWithin(mesh, universe) && IsPeak(peak, mesh)
    requires AreSweeps(|mesh|, sweeps) && |sweeps| > 0 && BusyRounds(mesh, sweeps[0]) == 0
    ensures AfterSweeps(mesh, sweeps) == mesh && Quiet(mesh) && (AllHold(mesh, peak) <==> !Contested(mesh))
  {
    IdleSweepIsQuiet(mesh, sweeps[0], universe);
    SweepsKeepQuiet(mesh, universe, sweeps);
    QuietMeansConverged(mesh, peak);
  }

  /**
   Liveness: once there have been more sweeps than news, however the rounds of a sweep are
   arranged or repeated, all is quiet, and every store holds the peak unless the mesh was
   contested to begin with.
   */
  lemma {:induction false} EnoughSweepsConverge(mesh: Mesh, universe: set<Record>, peak: Held,
                                                sweeps: seq<seq<(nat, nat)>>)
    requires MeshWithin(mesh, universe) && IsPeak(peak, mesh)
    requires AreSweeps(|mesh|, sweeps) && |sweeps| > TotalNews(mesh, universe)
    ensures var end := AfterSweeps(mesh, sweeps);
            Quiet(end) && IsPeak(peak, end) && (AllHold(end, peak) <==> !Contested(mesh))
    decreases |sweeps|
  {
    var sweep, rest := sweeps[0], sweeps[1..];
    if BusyRounds(mesh, sweep) == 0 {
      IdleSweepEnds(mesh, universe, peak, sweeps);
    } else {
      var next := AfterRounds(mesh, sweep);
      BusySweep(mesh, universe, peak, sweep, next);
      EnoughSweepsConverge(next, universe, peak, rest);
    }
  }

  // ------------------------------------------------- messages in any order at all

  /** A record on its way to a store. It may be late, repeated or lost. */
  datatype Delivery = Delivery(to: nat, record: Record)

  /** A record that leaves the peak alone: it is the peak's copy or an older one. */
  ghost predicate NotPast(r: Record, peak: Held) {
    r.id in peak && (r.hlc < peak[r.id].hlc || r == peak[r.id])
  }

  /** Every record on its way is genuine, comes from the universe and is not past the peak. */
  ghost predicate InTransit(run: seq<Delivery>, n: nat, universe: set<Record>, peak: Held,
                            authority: Authority, verify: Verifier) {
    forall d :: d in run ==>
      d.to < n && d.record in universe && authority.Vouches(verify, d.record) && NotPast(d.record, peak)
  }

  /** Accepting one record climbs, and changes anything exactly when it is news. */
  lemma DeliveryClimbs(held: Held, r: Record, universe: set<Record>, authority: Authority, verify: Verifier)
    requires Within(held, universe) && r in universe && authority.Vouches(verify, r)
    ensures var next := Taken(held, r, authority, verify);
            && Within(next, universe) && Below(held, next)
            && (next == held <==> r !in News(held, universe))
            && |News(next, universe)| <= |News(held, universe)|
            && (next != held ==> |News(next, universe)| < |News(held, universe)|)
  {
    var next := Taken(held, r, authority, verify);
    if r in News(held, universe) {
      assert next == held[r.id := r];
      assert r !in News(next, universe);
    }
    SubsetSize(News(next, universe), News(held, universe));
  }

  ghost function AfterDeliveries(mesh: Mesh, run: seq<Delivery>, authority: Authority, verify: Verifier): (r: Mesh)
    requires forall d :: d in run ==> d.to < |mesh|
    ensures |r| == |mesh|
    decreases |run|
  {
    if run == [] then mesh
    else
      AfterDeliveries(mesh[run[0].to := Taken(mesh[run[0].to], run[0].record, authority, verify)], run[1..], authority, verify)
  }

  /** One delivery leaves less news to hear, if it changes anything. */
  lemma DeliveryIsProgress(mesh: Mesh, i: nat, r: Record, universe: set<Record>, authority: Authority, verify: Verifier)
    requires i < |mesh| && MeshWithin(mesh, universe) && r in universe && authority.Vouches(verify, r)
    ensures var next := mesh[i := Taken(mesh[i], r, authority, verify)];
            && MeshWithin(next, universe)
            && TotalNews(next, universe) <= TotalNews(mesh, universe)
            && (next != mesh ==> TotalNews(next, universe) < TotalNews(mesh, universe))
  {
    var taken := Taken(mesh[i], r, authority, verify);
    DeliveryClimbs(mesh[i], r, universe, authority, verify);
    TotalAfterUpdate(mesh, universe, i, taken);
    if taken == mesh[i] { assert mesh[i := taken] == mesh; }
  }

  /** What a store may come to hold without moving the peak. */
  ghost predicate KeepsPeak(before: Held, after: Held, peak: Held) {
    && Below(after, peak)
    && forall id :: id in before && id in peak && before[id] == peak[id] ==> id in after && after[id] == peak[id]
  }

  lemma UpdateKeepsPeak(mesh: Mesh, i: nat, held: Held, peak: Held)
    requires i < |mesh| && IsPeak(peak, mesh) && KeepsPeak(mesh[i], held, peak)
    ensures IsPeak(peak, mesh[i := held])
  {
    var next := mesh[i := held];
    forall k | 0 <= k < |next| ensures Below(next[k], peak) {
      if k != i { assert next[k] == mesh[k]; }
    }
    forall id | id in peak ensures Attained(next, id, peak[id]) {
      assert Attained(mesh, id, peak[id]);
      var k :| 0 <= k < |mesh| && id in mesh[k] && mesh[k][id] == peak[id];
      assert id in next[k] && next[k][id] == peak[id];
    }
  }

  lemma TakenKeepsPeak(held: Held, r: Record, peak: Held, authority: Authority, verify: Verifier)
    requires Below(held, peak) && NotPast(r, peak)
    ensures KeepsPeak(held, Taken(held, r, authority, verify), peak)
  {
    var next := Taken(held, r, authority, verify);
    if next != held {
      assert next == held[r.id := r];
    }
  }

  /** One delivery neither passes the peak nor loses it. */
  lemma DeliveryKeepsPeak(mesh: Mesh, i: nat, r: Record, peak: Held, authority: Authority, verify: Verifier)
    requires i < |mesh| && IsPeak(peak, mesh) && NotPast(r, peak)
    ensures IsPeak(peak, mesh[i := Taken(mesh[i], r, authority, verify)])
  {
    assert Below(mesh[i], peak);
    TakenKeepsPeak(mesh[i], r, peak, authority, verify);
    UpdateKeepsPeak(mesh, i, Taken(mesh[i], r, authority, verify), peak);
  }

  /** Deliveries in any order, repeated or lost, neither pass the peak nor lose it. */
  lemma {:induction false} DeliveriesKeepPeak(mesh: Mesh, run: seq<Delivery>, universe: set<Record>, peak: Held,
                                              authority: Authority, verify: Verifier)
    requires MeshWithin(mesh, universe) && IsPeak(peak, mesh)
    requires InTransit(run, |mesh|, universe, peak, authority, verify)
    ensures var end := AfterDeliveries(mesh, run, authority, verify);
            && MeshWithin(end, universe) && IsPeak(peak, end)
            && TotalNews(end, universe) <= TotalNews(mesh, universe)
            && (end != mesh ==> TotalNews(end, universe) < TotalNews(mesh, universe))
    decreases |run|
  {
    if run != [] {
      assert run[0] in run;
      var i, r := run[0].to, run[0].record;
      DeliveryIsProgress(mesh, i, r, universe, authority, verify);
      DeliveryKeepsPeak(mesh, i, r, peak, authority, verify);
      DeliveriesKeepPeak(mesh[i := Taken(mesh[i], r, authority, verify)], run[1..], universe, peak, authority, verify);
    }
  }
}
