# A model of a lighting mesh

The repository is a mesh of lighting devices whose state machines take events in and hand
actions back, with a deterministic simulator that drives them. This project models its
decisions in Dafny and proves what they promise, for every input, every run and every
reachable state. `dafny verify dfyconfig.toml` checks all of it.

## What is modelled

| cluster | files | modelled from |
|---|---|---|
| audio transform | `bit_reversal`, `radix_two`, `fft`, `fft_range`, `fft_growth`, `spectrum`, `fft_accuracy` | `crates/lumen-device/src/audio/fft.rs` |
| replication | `records`, `gossip`, `keepers` | `records.rs`, `keepers.rs` |
| timebase | `election`, `election_runs`, `election_mesh`, `election_vote`, `sync`, `sync_bursts`, `node`, `node_laws`, `node_sending`, `node_clock`, `node_exchange`, `node_pair` | `election.rs`, `sync.rs`, `node.rs` |
| rendering | `sources`, `source_laws`, `source_lives`, `render`, `render_shards`, `render_faults`, `render_painting`, `render_fading`, `render_reports`, `channels` | `sources.rs`, `render.rs`, `channels.rs` |
| simulator | `scenario`, `net`, `net_laws`, `net_reading`, `net_sending`, `world`, `world_laws`, `world_ops`, `world_hearing`, `runner` | `scenario.rs`, `net.rs`, `world.rs` |
| recordings | `text`, `recording`, `recording_parser`, `recording_laws`, `recording_round_trip`, `recording_sample`, `recording_panics` | `record.rs` |
| shared | `arith`, `wrappers`, `sorting`, `ordered_keys` | Rust's integers, `sort`, `BTreeMap` |

An object whose methods update its fields is a class here, and an algorithm that works in a
buffer keeps the array. Each such method is proved equal to a function on values (`AfterPush`,
`Ticked`, `AfterSend` and so on) or to a property outright, and the theorems are about those
functions, over whole runs.

### Conventions

- Integers are unbounded, and Rust's widths are written out where they matter: wrapping,
  saturation, truncation toward zero and the flooring shift are named in `arith.dfy`. Where a
  plain `+` could overflow the model takes the wrapped result, as an optimised build does.
  A `usize` has 64 bits.
- `&`, `^` and `|` with a single-bit mask are arithmetic on that bit.
- A slice sort of the standard library is `Sorting.Sort`, a stable sort proved to be one. For
  an unstable sort the comparison tells every two different elements apart.
- A `BTreeMap` or `BTreeSet` is a map or set visited in the order of `ordered_keys.dfy`. The
  packets in the air are the map's listing in key order.
- Sixteen-byte identifiers are the numbers they spell.

### Assumptions

The virtual machine, the fixed-point library, the wire codec and the signature scheme are not
part of this model. What they compute enters as parameters:

- a frame section is a function of program, time, step and uniforms, and a pixel section of
  what it hoisted and of the pixel's inputs; projection and interpolation are functions;
- the twiddle factors are any table of the right size (where overflow is excluded, with parts of
  at most one, or two raw units at most past unit length; where the transform is compared with a
  sum, any whose factors multiply to about the factor of the sum of their angles);
- whether a signature is good is a fixed predicate of key and record;
- what the simulated network draws at random is any function, chosen afresh for each send;
- what a core answers is any function of what it has heard, of the operations applied and of the instants visited;
- messages between nodes are values rather than datagrams.

### Where the code keeps less than its comments say

- Reconciliation compares timestamps only, while acceptance also breaks ties on author. Call a
  mesh contested if it holds two different records of one id at the highest timestamp held of
  it. Once nothing is left to transfer all stores hold the same exactly if the mesh was not
  contested to begin with (`Gossip.ConvergesUnlessContested`); a clash below the top is
  overwritten.
- `Hlc::new` drops all but 48 bits of the wall time; `Records.TickClimbs` says exactly when a
  tick still moves forward.
- The transform is said not to overflow regardless of the input. It does on every constant input
  of half the range of `i32` or more (`FftGrowth.LoudConstantOverflows`) and does not on bins of
  up to 2^18 less than that (`FftGrowth.SignalNeverGrows`).
- A pixel fault ends the pixel loop on the cores that meet it. Cores show in a frame what one core
  does, whatever the machine, exactly if no source of it has LEDs to run on two of them
  (`RenderFaults.FramesAgreeExactly`). For a given machine a source that straddles two does no harm
  while it does not fault (`RenderShards.CoresRenderWhatOneDoes`), nor does a fault of a frame
  section; in a pass with a pixel fault a share equals the whole whatever the machine makes of the
  LEDs after it exactly if it owns the faulting LED or runs none after it
  (`RenderFaults.FaultsShowExactly`).
- Admission adds with saturation to test and without to keep the sum, so the budget holds on
  every stack exactly below `u32::MAX` (`SourceLaws.BudgetIsKeptBelowMax`). What gets dropped is
  not always the least important: `SourceLaws.DropsTheLeastExactly` says when it is.
- The list of changes is meant to spare a caller from comparing stacks. A caller that takes
  every removal at its word is right except after a push of an id that was shown and is shown
  again (`SourceLaws.TrustFailsOnReplacement`); one that goes on showing a source reported as
  superseded is always right (`SourceLaws.ChangesTellWhatIsShown`).
- A leader is meant to sync to no one. Only the handling of ticks asks who leads, so a
  candidate that began to sync goes on as leader (`NodeLaws.LeaderProbes`,
  `NodeLaws.ALeaderCanProbe`).
- `advance_to` in the fabric adds one to the time, which wraps at the last microsecond: nothing
  is delivered there, and a run to it ends exactly if nothing is in the air once the operations
  due there are applied (`WorldLaws.EndOfTime`). A send at that moment makes a run endless
  (`WorldLaws.LateSendNeverEnds`).
- Reading a byte string cuts its word into pairs of bytes, which panics inside a character: for a
  word of an even number of bytes exactly if it is cut so (`RecordingPanics.ReadPanicsExactly`,
  `RecordingPanics.SomeTextPanics`), and never in ASCII (`RecordingPanics.AsciiNeverPanics`).

## Model

| member | source | states |
|---|---|---|
| BitReversal.RevInvolution | crates/lumen-device/src/audio/fft.rs:102-115 | reversing the bits of an index twice gives it back, so the reordering is a permutation that undoes itself |
| BitReversal.ReversedTwice | crates/lumen-device/src/audio/fft.rs:102-115 | reordering twice restores any input |
| BitReversal.NextReversed | crates/lumen-device/src/audio/fft.rs:105-110 | the carry loop ends and takes the reversal of one index to the reversal of the next |
| BitReversal.BitReverse | crates/lumen-device/src/audio/fft.rs:102-115 | the in-place swaps leave every element at the reversal of its index |
| RadixTwo.StagedStart | crates/lumen-device/src/audio/fft.rs:62-63 | after the reordering every single element is the recursive transform of its own stride of the input |
| RadixTwo.JoinIsDit | crates/lumen-device/src/audio/fft.rs:65-88 | joining two transformed neighbours is one level of the decimation-in-time recursion |
| RadixTwo.StageClimbs | crates/lumen-device/src/audio/fft.rs:65-91 | a whole stage of joins lifts every block one level of the recursion |
| RadixTwo.StagedEnd | crates/lumen-device/src/audio/fft.rs:61-92 | after the last stage the whole array is the recursive transform |
| FixedPointFft.Fft.Stage | crates/lumen-device/src/audio/fft.rs:66-91 | one stage in place joins every pair of blocks and disturbs none before its turn |
| FixedPointFft.Fft.Transform | crates/lumen-device/src/audio/fft.rs:61-92 | for every power-of-two size and every input the in-place transform equals the recursive one built from the same rounding, wrapping butterfly |
| FftRange.ButterflyGrowth | crates/lumen-device/src/audio/fft.rs:75-86 | a butterfly with factors of magnitude at most one wraps nowhere and at most doubles the largest component |
| FftRange.TransformNeverOverflows | crates/lumen-device/src/audio/fft.rs:65-91 | ten stages over components of magnitude at most one, with factors whose parts are at most one, never leave `i32` |
| FftRange.FitsMeansExact | crates/lumen-device/src/audio/fft.rs:75-86 | where nothing wraps, the machine butterfly is the rounding butterfly over the integers |
| FftGrowth.ButterflyKeepsLength | crates/lumen-device/src/audio/fft.rs:75-86 | with a factor of about unit length the halved sum and difference of two bins are no longer than the longer one but for rounding, and nothing wraps |
| FftGrowth.SignalNeverGrows | crates/lumen-device/src/audio/fft.rs:61-92 | whatever the input, as long as no bin is longer than 2^30 less 2^18, no stage overflows and no bin grows but for rounding |
| FftGrowth.HalfTheRangeOverflows | crates/lumen-device/src/audio/fft.rs:75-86 | two equal bins of 2^30 or more overflow under the factor one, and their halved sum comes out negative |
| FftGrowth.LoudConstantOverflows | crates/lumen-device/src/audio/fft.rs:61-92 | every constant input with a real part of 2^30 or more overflows in the transform, at every size from two on and with every table that begins with one |
| FftAccuracy.TransformIsTheSum | crates/lumen-device/src/audio/fft.rs:59-92 | N times each bin is the sum of the inputs, each turned by the bin's angle for every place before it, within log2 N times N times five raw units and what the table is off by |
| FftAccuracy.EveryTableTurns | crates/lumen-device/src/audio/fft.rs:46-57 | every table of about unit length that begins with one meets what that asks of it, for some slack |
| Spectra.SpectrumSplits | crates/lumen-device/src/audio/fft.rs:65-88 | a sum over all places is one over the even places at twice the step and one over the odd places |
| Spectra.SpectrumSplitsHalfOn | crates/lumen-device/src/audio/fft.rs:65-88 | half a circle on, the odd places count negatively: the other output of the butterfly |
| FftRange.NewtonStep | crates/lumen-device/src/audio/fft.rs:150-157 | a Newton step stays at or above the root, and stops going down only at it |
| FftRange.Isqrt | crates/lumen-device/src/audio/fft.rs:145-159 | the loop ends with the floor of the square root of every non-negative argument, and zero below |
| FftRange.Magnitude | crates/lumen-device/src/audio/fft.rs:136-140 | the magnitude of a bin is the floor of its true length exactly for bins shorter than 2^31 |
| Records.TickClimbs | crates/lumen-device/src/records.rs:104-128 | a tick moves forward exactly when the wall time, cut to 48 bits, is ahead, or when there is room left in the counter |
| Records.TickFallsBack | crates/lumen-device/src/records.rs:104-106 | at 2^48 milliseconds the shift drops the wall time and the clock falls back to zero |
| Records.ObserveClimbs | crates/lumen-device/src/records.rs:135-138 | observing a timestamp passes both it and the own clock, short of saturation |
| Records.DeviceSpeaksForItself | crates/lumen-device/src/records.rs:244-268 | only a record about itself can get in with a key that is a device's and no controller's |
| Records.VouchedExactly | crates/lumen-device/src/records.rs:244-268 | whose key has to have signed a record: for a device's record the device's own and only about itself, for any other the author's as a controller |
| Records.Store.Stamp | crates/lumen-device/src/records.rs:336-339 | short of saturation a stamp is later than the clock was, and a record that carries it supersedes every record held; and exactly when it is later |
| Records.Store.Accept | crates/lumen-device/src/records.rs:347-368 | a record is taken exactly when nothing held is as new and its proper key signed it, and the reason for a refusal is the first that applies |
| Records.Store.Digest | crates/lumen-device/src/records.rs:374-382 | one entry for each record held, in id order, and no other |
| Records.Store.Wanted | crates/lumen-device/src/records.rs:442-451 | the ids offered that are missing or older here, in the digest's order and once for each entry |
| Records.Store.Reconcile | crates/lumen-device/src/records.rs:401-437 | the two plans are exactly the ids the peer leads on and the ids this side leads on, each once and in order |
| Records.Store.Collect | crates/lumen-device/src/records.rs:458-463 | the records held among the ids asked for, in the order asked |
| Records.RefusedChangesNothing | crates/lumen-device/src/records.rs:347-368 | a refused record, and only a refused one, leaves records and clock as they were |
| Records.ClockRun | crates/lumen-device/src/records.rs:336-368 | over any run of stamps and arrivals with wall times below 2^48 the clock never goes back and stays ahead of every record held until it saturates |
| Records.StampBeatsThePast | crates/lumen-device/src/records.rs:336-339 | every stamp short of saturation beats every earlier stamp and every record held, however the wall clock moves |
| Records.LatestIsHeld | crates/lumen-device/src/records.rs:179-368 | in whatever order they come, of the records of an id that it held or was brought with a good signature a store ends with one of the latest timestamp, and of those of the highest author |
| Gossip.PlanIsBehind | crates/lumen-device/src/records.rs:401-437 | what a store plans from a digest is decided by what the two stores hold |
| Gossip.AcceptKeepsGenuine | crates/lumen-device/src/records.rs:347-368 | a store only ever holds records that their proper key signed |
| Gossip.Round | crates/lumen-device/src/records.rs:347-463 | a whole round run by two stores leaves each with the merge of what the two held |
| Gossip.RoundKeepsPeak | crates/lumen-device/src/records.rs:401-437 | no round loses the newest record of any id or brings in a newer one, with or without clashes |
| Gossip.RoundKeepsContest | crates/lumen-device/src/records.rs:401-437 | a round settles no contest between two records at the top of one id, and starts none |
| Gossip.RoundMeets | crates/lumen-device/src/records.rs:401-437 | after a round two stores hold nothing older than before, and the same exactly if they differed on no record by author alone |
| Gossip.RoundIsProgress | crates/lumen-device/src/records.rs:401-437 | a round whose plan is not empty leaves strictly less news in the mesh, and any other round changes nothing |
| Gossip.QuietMeansConverged | crates/lumen-device/src/records.rs:401-437 | every store holds the peak exactly when all pairwise plans are empty and no top record is contested |
| Gossip.QuietMeansSameDigests | crates/lumen-device/src/records.rs:401-437 | empty plans mean equal digests and no more |
| Gossip.ConvergesUnlessContested | crates/lumen-device/src/records.rs:401-437 | for every mesh and schedule that ends with nothing to transfer, all stores hold the same exactly if the mesh was not contested before the first round |
| Gossip.ClashStaysApart | crates/lumen-device/src/records.rs:179-185 | two stores with one clash at the top: contested, and with nothing to transfer |
| Gossip.GossipConverges | crates/lumen-device/src/records.rs:347-463 | under any schedule the peak stays, the rounds that transfer anything are bounded by the news there was, and all stores hold the peak exactly once all is quiet in a mesh that was not contested |
| Gossip.EnoughSweepsConverge | crates/lumen-device/src/records.rs:401-437 | after more sweeps than there was news, each a schedule in which every two stores meet, all is quiet, and every store holds the peak exactly if the mesh was not contested |
| Gossip.DeliveryKeepsPeak | crates/lumen-device/src/records.rs:347-368 | one accepted or refused record neither passes the peak nor loses it |
| Gossip.DeliveriesKeepPeak | crates/lumen-device/src/records.rs:347-368 | deliveries in any order, repeated or lost, only climb towards the peak |
| Keepers.RankIsTotalOrder | crates/lumen-device/src/keepers.rs:75-87 | the rank of claims is total, and only identical claims tie |
| Keepers.Select | crates/lumen-device/src/keepers.rs:137-146 | the caller's table is sorted in place by rank, and the first five eligible claims and their quorum are reported |
| Keepers.IsKeeper | crates/lumen-device/src/keepers.rs:152-155 | a device keeps exactly when its claim is among the selected |
| Keepers.SelectionIgnoresArrangement | crates/lumen-device/src/keepers.rs:137-155 | every permutation of a peer table gives the same keepers |
| Keepers.KeeperMeansFewAbove | crates/lumen-device/src/keepers.rs:152-155 | with distinct uuids a device keeps exactly when it is eligible and fewer than five eligible claims rank above it |
| Keepers.KeepersAreTheRichest | crates/lumen-device/src/keepers.rs:75-155 | every keeper is eligible, and has more flash than any eligible device that is none, or as much and more capacity, or as much of both and the lower id |
| Elections.BeatsIsStrictTotalOrder | crates/lumen-device/src/election.rs:55-61 | more capacity wins, then the lower uuid, and so candidacies are strictly and totally ordered |
| Elections.Election.OnTick | crates/lumen-device/src/election.rs:119-166 | what a tick does to each role: following, standing down, counting better ticks, yielding at the third |
| Elections.Election.OnTimer | crates/lumen-device/src/election.rs:169-208 | what time does to each role: standing, settling, leading, ticking |
| Elections.DeadlineIsExact | crates/lumen-device/src/election.rs:215-223 | the deadline has come exactly when a timer would do something, but for a saturated deadline at the last microsecond |
| Elections.QuietBeforeDeadline | crates/lumen-device/src/election.rs:215-223 | before the deadline a timer changes nothing |
| ElectionRuns.WeakerNeverUnseat | crates/lumen-device/src/election.rs:119-208 | whatever devices of less capacity (or as much and a higher uuid) say in a run, a leader goes on leading and counts nothing against itself, and a candidate that has heard of nobody stronger goes on until its time is up and then leads |
| ElectionRuns.Timetable | crates/lumen-device/src/election.rs:169-208 | a follower stands three seconds after it last heard a tick, a candidate leads two seconds later in a new epoch or follows whom it heard of that was stronger, and a leader ticks every second |
| ElectionRuns.StrongerEndsCandidacy | crates/lumen-device/src/election.rs:134-146 | one tick of a device of more capacity ends a candidacy |
| ElectionRuns.ThirdStrongerTickUnseats | crates/lumen-device/src/election.rs:147-163 | a leader yields at the third tick running of devices of more capacity, and not before |
| ElectionRuns.FollowersStayWhileTicked | crates/lumen-device/src/election.rs:119-177 | a follower whose timers all fire within three seconds of a tick never stands, whoever the ticks are from |
| ElectionMesh.BestKeepsLeading | crates/lumen-device/src/election.rs:119-166 | no tick of another leader unseats the best |
| ElectionMesh.WorstCountsUp | crates/lumen-device/src/election.rs:147-163 | every tick the worst leader hears counts towards its yielding |
| ElectionMesh.RoundHeals | crates/lumen-device/src/election.rs:119-208 | a round adds no leader, unseats the best never, and leaves the mesh as healed as it was |
| ElectionMesh.ThreeRoundsDropALeader | crates/lumen-device/src/election.rs:119-208 | three rounds cost a mesh of several leaders at least one, even while counts in the middle are reset |
| ElectionMesh.MeshSettles | crates/lumen-device/src/election.rs:119-208 | 3(k - 1) rounds in any order of delivery take k leaders to exactly the best, and later rounds keep it so |
| ElectionMesh.StrongestLeads | crates/lumen-device/src/election.rs:119-208 | the one leader left has at least the capacity of every leader there was, and the lowest uuid of those with as much |
| ElectionVote.FollowersElect | crates/lumen-device/src/election.rs:119-208 | in a lossless mesh of followers the best of those that stood leads, everybody else follows, and the first tick heals the mesh; it is the best of all exactly if that one stood, and it need not have |
| ElectionVote.StrongestIsElected | crates/lumen-device/src/election.rs:119-208 | of those that stood the one that leads has the most capacity, and the lowest uuid of those with as much |
| ElectionVote.FirstToStandLeads | crates/lumen-device/src/election.rs:119-208 | a mesh in which the worse of two stands first and leads |
| TimeSync.SampleError | crates/lumen-device/src/sync.rs:95-106 | with a constant true offset and any path delays the delay is exact and the offset errs by at most half of it, rounded up (section 8 of RFC 5905) |
| TimeSync.FilterBound | crates/lumen-device/src/sync.rs:188-203 | the filter admits exactly round trips up to one and a half times the fastest, unless the bound overflows a `u64` |
| TimeSync.Sync.Push | crates/lumen-device/src/sync.rs:299-307 | a new offset fills the next slot, and a full buffer drops its oldest |
| TimeSync.Sync.OnSample | crates/lumen-device/src/sync.rs:188-232 | what a round trip does to the machine, and the correction at the thirty-second |
| TimeSync.Sync.OnTimer | crates/lumen-device/src/sync.rs:235-267 | loss of the timebase comes before probing, and when a probe is due |
| TimeSync.ProbesExactly | crates/lumen-device/src/sync.rs:188-267 | in terms of the state: when time makes the machine probe, and when a round trip does |
| TimeSync.MedianIsRobust | crates/lumen-device/src/sync.rs:320-328 | the correction lies in every interval that holds at least 17 of the 32 offsets |
| TimeSync.HalfIsNotEnough | crates/lumen-device/src/sync.rs:320-328 | sixteen are not enough |
| TimeSync.CorrectionsAreClose | crates/lumen-device/src/sync.rs:188-232 | once a round trip is known and the offsets collected are near, every correction of a run errs by at most half of one and a half times that round trip |
| TimeSync.AllCorrectionsAreClose | crates/lumen-device/src/sync.rs:188-232 | from a new machine on, every correction errs by at most half of one and a half times the first round trip, and without one there is none |
| TimeSync.SyncedIsClose | crates/lumen-device/src/sync.rs:188-232 | while each correction changes the offset the next samples measure, a synced machine has left the clock within half of one and a half times the first round trip |
| SyncBursts.CorrectionsAreOfBursts | crates/lumen-device/src/sync.rs:188-232 | in every run a correction comes exactly when a round trip that counts is the thirty-second in a row since the last one or since sync was lost, and it is the median of those 32 offsets |
| SyncBursts.LostWhenTicksStop | crates/lumen-device/src/sync.rs:235-267 | in every run sync is lost exactly when it was there and three seconds have passed since the last tick, and a burst under way is lost with it |
| SyncBursts.DeadlineIsExact | crates/lumen-device/src/sync.rs:235-297 | a synced machine has something to do exactly when its deadline has come and does nothing before, and that of one that is syncing has come exactly when sync is lost |
| Nodes.Node.OnEvent | crates/lumen-device/src/node.rs:107-122 | what an event does to a node and the actions it answers with, in order |
| Nodes.Node.OnTimer | crates/lumen-device/src/node.rs:138-170 | a probe given up, the election and time sync moved on, and the change of sync announced |
| Nodes.Node.OnTickMessage | crates/lumen-device/src/node.rs:202-229 | whom a node follows and probes after a tick |
| Nodes.Node.OnSyncResp | crates/lumen-device/src/node.rs:249-275 | only the answer to the outstanding probe is a sample |
| Nodes.Node.SendSyncReq | crates/lumen-device/src/node.rs:310-329 | a probe goes to the node last heard to lead, unless one is outstanding |
| NodeLaws.AnnouncementsAreTrue | crates/lumen-device/src/node.rs:107-122 | in every run gain and loss of sync alternate, and who follows the announcements knows at all times whether the node is synced and whether it leads |
| NodeLaws.FreshNodeIsTruthful | crates/lumen-device/src/node.rs:77-100 | from a new node the same holds starting from neither |
| NodeLaws.OneProbeAtATime | crates/lumen-device/src/node.rs:249-329 | of the probes sent in any run all but at most one were answered or given up on, and the deadline is that one's |
| NodeLaws.WakesForTheProbe | crates/lumen-device/src/node.rs:124-147 | every event asks to be woken by the probe's timeout or within a millisecond, and a timer then forgets the probe |
| NodeLaws.WaitsForTheEarliest | crates/lumen-device/src/node.rs:124-136 | the wait a node asks for is the earliest of what the election, the sync machine and an outstanding probe wait for, and a millisecond if that is sooner |
| NodeLaws.LeaderProbes | crates/lumen-device/src/node.rs:138-170 | a node that leads after an event probed during it exactly when it knew whom to ask, awaited no other answer, and either ticks came and it was syncing or due to sync again, or a round trip was too slow or more were needed |
| NodeLaws.RestingLeaderIsQuiet | crates/lumen-device/src/node.rs:222-228 | a leader that is not syncing and awaits no answer never probes while it leads |
| NodeLaws.ALeaderCanProbe | crates/lumen-device/src/node.rs:149-167 | a candidate that heard a worse tick becomes a leader that probes |
| NodeSending.EventSpeaks | crates/lumen-device/src/node.rs:138-329 | whatever happens: a tick goes to the mesh with the own candidacy, epoch and clock and never from a follower, a request to the sender of the last tick heeded with the reading of the clock, an answer with the reading twice, and word of a role with its epoch; and messages take the next numbers |
| NodeSending.MessagesAreNumbered | crates/lumen-device/src/node.rs:337-362 | in every run of a node the messages it sends are numbered one after the other, in 32 bits |
| NodeClock.NodeRunsItsSync | crates/lumen-device/src/node.rs:107-275 | in every run the sync machine runs on exactly the ticks, answers and timers the node hands it, and the corrections asked of the clock are exactly its own |
| NodeClock.ClockIsCorrectedClosely | crates/lumen-device/src/node.rs:249-275 | a new node whose samples are all round trips to a clock at one true offset asks for corrections that err by at most half of one and a half times the first round trip; with another node for that clock, `NodePair` proves that they are |
| NodeClock.SyncedClockIsClose | crates/lumen-device/src/node.rs:249-275 | likewise, with its corrections applied as it asks for them, the clock of a node that is synced is within that bound of the true one |
| NodeExchange.RequestsCarryTheReading | crates/lumen-device/src/node.rs:310-329 | whatever makes a node send a request, the request carries the reading of its clock |
| NodeExchange.Exchange | crates/lumen-device/src/node.rs:231-275 | a request made at one reading, answered by a node whose clock is ahead by any amount after any time, and heard back after any time: the answer is one message to whoever asked, and what is sampled of it is a round trip between the clocks over paths of just those delays |
| NodePair.PairMeasuresClosely | crates/lumen-device/src/node.rs:107-329 | in every run of a new node and any other in which no answer or request arrives that was not sent, however late, often or out of order, each correction the new node asks for is how far the other clock is ahead, to within half of one and a half times the first round trip |
| NodePair.PairSyncsClosely | crates/lumen-device/src/node.rs:107-329 | with its clock set as it asks, the two clocks differ by at most that whenever it is synced |
| Channels.Channel.Claim | crates/lumen-device/src/channels.rs:119-153 | a free channel is taken, an owner renews and keeps its sequence, and only a higher priority preempts |
| Channels.Channel.Release | crates/lumen-device/src/channels.rs:160-168 | only the owner frees the channel |
| Channels.Channel.Publish | crates/lumen-device/src/channels.rs:175-197 | only the owner's newer packets are taken |
| Channels.Channel.Advance | crates/lumen-device/src/channels.rs:244-251 | a lease ends exactly at its time, and who lost it is named |
| Channels.NewerByDistance | crates/lumen-device/src/channels.rs:273-275 | the wrapped comparison asks whether the true distance modulo 2^16 is between 1 and 32766 |
| Channels.WindowIsExact | crates/lumen-device/src/channels.rs:273-275 | it agrees with the true order on the distances -32769 to 32766 and on neither side further |
| Channels.LatestWins | crates/lumen-device/src/channels.rs:175-197 | within one tenure, across wraps and renewals, the channel keeps the value with the highest true counter |
| Channels.NewOwnerStartsAfresh | crates/lumen-device/src/channels.rs:119-197 | from the claim that makes a channel a producer's on, across wraps and renewals, it shows the value with the highest true counter of that tenure |
| Channels.LeaseIsKept | crates/lumen-device/src/channels.rs:119-251 | a claim of so many milliseconds stands against packets, claims of no higher priority, releases by others and all time before its end, and is lost to time exactly from its end on |
| Channels.HandoversArePaidFor | crates/lumen-device/src/channels.rs:119-153 | between vacancies there are no more handovers than the priority has risen and owners have lowered it by renewing |
| Channels.HandoversAreBounded | crates/lumen-device/src/channels.rs:119-153 | with a fixed priority for each producer nothing is lowered, so there are at most 255 |
| Channels.TradesNeverEnd | crates/lumen-device/src/channels.rs:128-149 | for every n two producers of which one lowers its priority trade a channel 2n times without a vacancy and end where they began |
| Sources.FadeEnds | crates/lumen-device/src/sources.rs:109-121 | a fade is whole exactly when its span has passed, and otherwise a fraction below one |
| Sources.FadesClimb | crates/lumen-device/src/sources.rs:159-169 | no fade runs backwards |
| Sources.FadeIsProportional | crates/lumen-device/src/sources.rs:109-121 | until it is over a fade is the part of its span that has passed, rounded down |
| Sources.SourceStack.Push | crates/lumen-device/src/sources.rs:269-307 | which error refuses a push, and the stack, the lists and the changes after one that is taken |
| Sources.SourceStack.Pop | crates/lumen-device/src/sources.rs:314-322 | the source leaves with its fade, and whether it was there |
| Sources.SourceStack.Renew | crates/lumen-device/src/sources.rs:329-337 | only a source still on the stack has its expiry moved |
| Sources.SourceStack.Advance | crates/lumen-device/src/sources.rs:343-368 | what has lapsed leaves, what has faded ends, and the rest is admitted afresh |
| Sources.SourceStack.Readmit | crates/lumen-device/src/sources.rs:421-450 | the loop decides as one pass from the top, and reports what changed |
| SourceLaws.PlacedIsOrdered | crates/lumen-device/src/sources.rs:292-305 | a push replaces the source with its id, and the stack stays strictly sorted |
| SourceLaws.OnlyHigherRanksMatter | crates/lumen-device/src/sources.rs:421-450 | two stacks with the same sources above one agree on admitting it, whatever is below |
| SourceLaws.OneArrangement | crates/lumen-device/src/sources.rs:403-413 | the sources on a stack fix their order, so admission is a function of the active set |
| SourceLaws.DropsTheLeastExactly | crates/lumen-device/src/sources.rs:421-450 | what is dropped ranks below all that is admitted exactly when the budget is the largest `u32`, or the longest fitting top of the stack is all of it, or as much as may show at once, or leaves too little for any source below |
| SourceLaws.AdmissionSkips | crates/lumen-device/src/sources.rs:428-446 | a stack that drops its second source and admits its third |
| SourceLaws.BudgetIsKeptBelowMax | crates/lumen-device/src/sources.rs:424-432 | the true cost admitted stays within the budget on every stack exactly when the budget is below `u32::MAX` |
| SourceLaws.StepKeepsValid | crates/lumen-device/src/sources.rs:269-450 | every operation keeps the order, the limits, the expiry rule and the agreement of both lists with the stack |
| SourceLaws.EveryReachableStack | crates/lumen-device/src/sources.rs:223-450 | in every run: strict order, unique ids, admitted and rejected a partition, cost and count within limits, and the top of the stack shown |
| SourceLaws.TopIsFirst | crates/lumen-device/src/sources.rs:262-266 | the source shown on top is always the first of the stack |
| SourceLaws.ExpiryClearsTheStack | crates/lumen-device/src/sources.rs:343-368 | once every expiry has passed only ambient sources are left |
| SourceLaws.EverySourceIsAccountedFor | crates/lumen-device/src/sources.rs:269-401 | over any run pushes taken equal live sources and removals, and removals other than replacement equal fades finished and fades under way |
| SourceLaws.ChangesTellWhatIsShown | crates/lumen-device/src/sources.rs:176-196 | who only follows the changes knows what is shown, if a superseded source is taken to stay |
| SourceLaws.RunTellsWhatIsShown | crates/lumen-device/src/sources.rs:176-196 | the same over any run |
| SourceLaws.TrustFailsOnReplacement | crates/lumen-device/src/sources.rs:176-196 | who takes every source reported removed as gone knows what is shown after a step exactly when it is no taken push of an id that is shown and fits beside what ranks above it where it is placed |
| SourceLaws.ReplacedStaysShown | crates/lumen-device/src/sources.rs:292-305 | a source pushed anew stays shown, while such a caller believes that nothing is |
| SourceLives.EachSourceLivesAlone | crates/lumen-device/src/sources.rs:269-401 | in every run, for every id: whether a source of that id is on the stack and with what expiry, and which ones of it are fading, since when and why, depends on its own pushes, pops and renewals and on time alone; it lapses exactly from its expiry on and its fade is over exactly from the end of its span on |
| SourceLives.ShownByRank | crates/lumen-device/src/sources.rs:403-450 | in every run with a budget below `u32::MAX` a source is shown exactly if those shown of higher priority, or the same and pushed later, or then with the higher id, leave room for its cost and are fewer than may show at once |
| RenderShards.SharesTile | crates/lumen-device/src/render.rs:217-245 | for every strip and number of cores each LED is in exactly one share, shares abut, and no 16-bit sum wraps |
| Rendering.ShortCutIsSearch | crates/lumen-device/src/render.rs:259-264 | looking first where the index points gives what the search gives |
| Rendering.Merge | crates/lumen-device/src/render.rs:139-147 | the merged report names exactly the sources that either names, none twice if it named none twice before, all faults, and the saturated cost |
| Rendering.Renderer.Forget | crates/lumen-device/src/render.rs:298-301 | a source that left is forgotten wholly, and no other |
| Rendering.Renderer.RenderSource | crates/lumen-device/src/render.rs:452-585 | one source over one core's LEDs: pixels, history, faults and cost of the loop that stops at a fault |
| Rendering.Renderer.RenderShard | crates/lumen-device/src/render.rs:347-448 | one frame on one core: the layers from the bottom up, then what is fading |
| Rendering.Renderer.Render | crates/lumen-device/src/render.rs:319-331 | a single core renders the shard of all |
| Rendering.FaultStops | crates/lumen-device/src/render.rs:566-575 | after a pixel fault the rest of the zone is left alone |
| RenderShards.LayersAgree | crates/lumen-device/src/render.rs:452-585 | while no pixel faults, or only in sources that lie on one core, a core's slice and history are those of a core that renders alone |
| RenderShards.SharesReportTheSame | crates/lumen-device/src/render.rs:139-147 | the cores together report rendered exactly what one core does |
| RenderShards.CoresRenderWhatOneDoes | crates/lumen-device/src/render.rs:347-585 | over any number of frames in which every source has no pixel fault or lies on one core, cores with a share and a renderer each end every frame with the pixels, history and rendered sources of one core |
| RenderShards.SlicesMakeTheBuffer | crates/lumen-device/src/render.rs:217-225 | the cores' slices side by side are the whole buffer |
| RenderFaults.FaultedPassAgrees | crates/lumen-device/src/render.rs:505-575 | when one core alone faults, a share agrees with it exactly if it owns the faulting LED or what it goes on to run leaves all its LEDs as they were |
| RenderFaults.FaultedPassAgreesByLed | crates/lumen-device/src/render.rs:505-575 | in a zone that lists no LED twice, exactly if it owns it or each LED it runs after it leaves its own slot and history as they were |
| RenderFaults.FaultsShowExactly | crates/lumen-device/src/render.rs:505-575 | a share shows what one core does under every virtual machine that first faults at a given LED exactly if it owns that LED or runs none after it; and then remembers the same |
| RenderFaults.FramesAgreeExactly | crates/lumen-device/src/render.rs:347-585 | the cores show what one core does under every virtual machine exactly if each source of the frame has all the LEDs there are to run on one core |
| RenderFaults.FaultsTellCoresApart | crates/lumen-device/src/render.rs:566-575 | a frame of two LEDs on two cores that one core renders otherwise |
| RenderPainting.LayersPaint | crates/lumen-device/src/render.rs:383-585 | overdraw amounts at each LED to every layer in turn laying its own colour over what is there at its weight, whole or mixed channel by channel |
| RenderPainting.LayersRemember | crates/lumen-device/src/render.rs:528-556 | what a source hands on of an LED in a frame is what it is told of it in its next, whoever painted besides |
| RenderPainting.ProgramIsGiven | crates/lumen-device/src/render.rs:367-381 | a program is told the time since the last frame, nothing on the first and when the clock wrapped, and of each LED its place, its number and the count in sixteen signed bits |
| RenderReports.LayersReport | crates/lumen-device/src/render.rs:383-585 | a frame without pixel faults reports exactly the shown sources that gave some LED a colour, from the bottom up and no leaving one, and all that was spent, or the most a counter holds |
| RenderPainting.HighestPainterWins | crates/lumen-device/src/render.rs:383-419 | when nothing fades or faults, ranks differ and zones list no LED twice, in any order, each LED ends with the colour of the highest-ranked admitted source that gives it one, and unchanged if none does |
| RenderFading.HighestPainterUnderFades | crates/lumen-device/src/render.rs:383-448 | with fades: over the colour of the highest-ranked shown source that gives an LED one lie the colours of the leaving ones, in turn, at what is left of their fades |
| RenderFading.LeavingSourceFades | crates/lumen-device/src/render.rs:421-448 | a leaving source over a buffer: each LED it gives a colour ends with that colour over what was there at what is left of its fade, rounded up to sixteen bits, and every other is untouched |
| RenderFading.LeavingStartsWhole | crates/lumen-device/src/render.rs:421-448 | when it begins to leave, each LED it gives a colour shows just that |
| RenderFading.LeavingEnds | crates/lumen-device/src/render.rs:429-431 | once its fade is over a frame changes nothing at all |
| RenderFading.LeftFalls | crates/lumen-device/src/sources.rs:159-169 | what is left of a fade is whole at its start, never rises, and is nothing exactly from the end of its span on |
| RenderFading.ArrivingSourceFades | crates/lumen-device/src/render.rs:396-419 | an arriving source over a buffer: its colours lie over what was there at the part of its fade that has passed, whole from its end on |
| Networks.Fabric.SendTo | crates/lumen-sim/src/net.rs:455-517 | who gets a copy and who is counted lost, cut off or unreachable |
| Networks.Fabric.ScheduleCopies | crates/lumen-sim/src/net.rs:565-591 | what each draw of the fault model does to the copies and counters |
| Networks.Fabric.AdvanceTo | crates/lumen-sim/src/net.rs:369-391 | everything due goes to inboxes or is counted, in key order, and nothing else; at the last microsecond the bound wraps and nothing is due |
| Networks.Fabric.SetPowered | crates/lumen-sim/src/net.rs:335-356 | a node that loses power loses its inbox and the packets towards it |
| Networks.Fabric.Recv | crates/lumen-sim/src/net.rs:519-540 | the oldest datagram is read, or dropped when the buffer is too small |
| Networks.Fabric.Split | crates/lumen-sim/src/net.rs:312-318 | every link between the two sides is cut and no other |
| NetworkLaws.AttemptKeepsValid | crates/lumen-sim/src/net.rs:488-514 | each attempt to one target is accounted for once |
| NetworkLaws.AdvanceKeepsValid | crates/lumen-sim/src/net.rs:369-391 | time passing keeps the account and the order, and leaves in the air exactly what is due later, or everything at the last microsecond |
| NetworkLaws.EveryRun | crates/lumen-sim/src/net.rs:335-591 | in every run attempts and duplicates add up to the packets lost, cut off, unreachable, delivered and in the air, and deliveries strictly follow due time and number |
| NetworkLaws.PoweredDownHearsNothing | crates/lumen-sim/src/net.rs:335-356 | powering down empties the inbox and the air towards the node, and leaves what it sent |
| NetworkReading.ReadInOrder | crates/lumen-sim/src/net.rs:369-391 | in every run and for every node, what its socket has answered since it last lost power, with what it refused for want of room, and then what its inbox holds, are the packets that came due for it while it had power, each once and in strictly increasing order of due time and number |
| NetworkSending.UnicastFares | crates/lumen-sim/src/net.rs:455-591 | a datagram for a node is refused, cut off, unreachable, lost or in the air once or twice, late by latency, jitter and reordering as drawn, and is counted as just that |
| NetworkSending.MulticastReaches | crates/lumen-sim/src/net.rs:455-563 | a datagram for a group is in the air for none but its members but the sender, none cut off or without power, and unless lost for each of them |
| WorldLaws.NormalisedIsStable | crates/lumen-sim/src/scenario.rs:213-216 | the script runs in time order and operations of one instant in the order given |
| Runner.World.ApplyDueOps | crates/lumen-sim/src/world.rs:441-450 | operations are applied in turn until one is not due |
| Runner.World.DeliverDatagrams | crates/lumen-sim/src/world.rs:590-632 | every powered node's socket is drained, in id order |
| Runner.World.FireTimers | crates/lumen-sim/src/world.rs:634-649 | every timer due fires once, in id order |
| Runner.World.ApplyActions | crates/lumen-sim/src/world.rs:668-700 | of several timers asked for the earliest stands |
| Runner.World.StepTo | crates/lumen-sim/src/world.rs:408-426 | an instant is settled in passes until one does nothing or the cap is reached |
| Runner.World.NextInstant | crates/lumen-sim/src/world.rs:387-406 | the earliest time at which an operation, a packet or a timer still to come is due |
| Runner.World.Run | crates/lumen-sim/src/world.rs:340-352 | for a duration below the last microsecond the run ends at the declared time, its instants strictly increase, and every operation due by then is applied once, at its own time and in script order |
| WorldOps.StepIsMoves | crates/lumen-sim/src/world.rs:408-450 | every step is a run of operations, time and passes, whose operations are those of the script it applies |
| WorldOps.SendsObeyTheScript | crates/lumen-sim/src/world.rs:455-520 | in every run, whatever the cores answer: a datagram between two nodes is dropped at a partition exactly if the last operation that separated or rejoined them separated them, refused or unreachable exactly if its sender or target was killed and not revived since, and otherwise, unless lost, in the air, late by the faults set last |
| WorldOps.MulticastsObeyTheScript | crates/lumen-sim/src/world.rs:455-520 | likewise a datagram for a group reaches exactly those that joined it while on, are on and are not cut off from its sender |
| WorldHearing.KilledHearsNothing | crates/lumen-sim/src/world.rs:480-503 | in every run a node that is killed hears nothing, by datagram, timer or scripted tick, until it is revived, and then it is up with nothing unread, no timer and nothing on its way |
| WorldHearing.PassIsHeard | crates/lumen-sim/src/world.rs:590-665 | what one pass brings a node that is up: the datagrams unread and due for it, in order, and then once its timer, exactly if it was due or an answer to one of them asked for it at once |
| WorldLaws.SettlingSettles | crates/lumen-sim/src/world.rs:408-426 | before the last microsecond settling leaves nothing in the air or unread and no timer due, unless the cap cut it off and was counted |
| WorldLaws.StepSettles | crates/lumen-sim/src/world.rs:408-450 | for arbitrary cores a step before the last microsecond applies what is due and leaves nothing due but such a timer |
| WorldLaws.CalmComesBeforeNext | crates/lumen-sim/src/world.rs:382-405 | the next instant after a step is strictly later |
| WorldLaws.EndOfTime | crates/lumen-sim/src/world.rs:340-426 | at the last microsecond a run ends exactly if nothing is in the air once the operations due are applied (with none left, exactly if nothing was before); otherwise the same instant is always the next |
| WorldLaws.LateSendNeverEnds | crates/lumen-sim/src/world.rs:340-426 | a run of two nodes with one send at the last microsecond that the network does not lose is always at that instant |
| RecordingPanics.ReadPanicsExactly | crates/lumen-sim/src/record.rs:152-166 | a text of the header and one send panics exactly if the word of its bytes is not `-`, has an even number of bytes and is cut inside a character |
| RecordingPanics.AsciiNeverPanics | crates/lumen-sim/src/record.rs:152-166 | whatever the text, a panic is over a word of it that is cut so and is not ASCII, so an ASCII text never panics |
| RecordingPanics.SomeTextPanics | crates/lumen-sim/src/record.rs:152-166 | a literal text of two lines that panics |
| Text.SplitJoin | crates/lumen-sim/src/record.rs:236-237 | splitting a printed line at white space gives back its words |
| Text.TrimmedWords | crates/lumen-sim/src/record.rs:230-234 | trimming keeps the words, and leaves nothing or a word first |
| Numerals.NumberRoundTrip | crates/lumen-sim/src/record.rs:323-327 | a printed number reads back, negative ones too, in any range it fits |
| Numerals.PrintHex | crates/lumen-sim/src/record.rs:670-683 | a byte string is two digits a byte, and `-` when empty |
| Numerals.PairsRoundTrip | crates/lumen-sim/src/record.rs:141-166 | a printed byte string reads back under either way of reading pairs |
| RecordingLaws.OpReads | crates/lumen-sim/src/record.rs:372-464 | each of the seventeen operations reads back from its words |
| RecordingLaws.TraceReads | crates/lumen-sim/src/record.rs:466-612 | each kind of trace entry reads back from its words |
| RecordingLaws.TagIsKnown | crates/lumen-sim/src/record.rs:617-640 | every operation has a known tag |
| Recordings.ToText | crates/lumen-sim/src/record.rs:172-214 | the text is the lines of the recording, frames in id order |
| RecordingSample.HeadPrints | crates/lumen-sim/src/record.rs:172-204 | the first lines, a node, the end, the counters and the frames of one recording, field by field |
| RecordingSample.OpsPrint | crates/lumen-sim/src/record.rs:372-403 | operations of one recording, field by field, and likewise `SendPrints`, `SplitPrints` and `StorePrints` |
| RecordingSample.TracePrints | crates/lumen-sim/src/record.rs:466-511 | trace entries of one recording, field by field, and likewise `SendingPrints` |
| RecordingParser.FromText | crates/lumen-sim/src/record.rs:217-313 | the parser answers as line after line is taken in, with the first error, or the first panic on a hex word cut inside a character |
| RecordingRoundTrip.RoundTrip | crates/lumen-sim/src/record.rs:172-313 | a recording reads back from its text exactly when its trace names only known operations |
| RecordingRoundTrip.CommentsAreFree | crates/lumen-sim/src/record.rs:228-235 | a blank line or a comment put between any two lines changes nothing but the line an error names |

## Left out

- The virtual machine, the Q16 library, the codec, the crypto and the signed bytes: they live in other crates and are parameters here.
- Datagram framing, the sequence number's place in it and the zero tag (`node.rs`): messages are values.
- `Authority`'s setters, the accessors of every type, and `magnitudes`, which only maps `magnitude` over the bins.
- Reading a channel's value and its fade to the default (`channels.rs`): it rests on Q16 interpolation.
- `spare_budget` (`sources.rs`): a sum over the admitted sources that `SourceLaws.CostOf` stands for.
- `gateway.rs`: the policy that bounds an integration's pixels, priority and rate.
- `zones.rs`: which LEDs a zone selects and how they are projected, which rests on the Q16 library; a zone's LEDs are taken as given.
- `audio/analyzer.rs`: heuristics for bands, tempo, gain and onsets, with no exact specification to hold them to.
- `clock.rs`, `storage.rs`, `led.rs`: a node's drifting clock, its key-value store and the frames it has shown.
- `entropy.rs`, `rng.rs`: the simulator's seeded random stream; what is drawn from it is any function here.
- `export.rs` and the conformance adapter: JSON written out and requests read in, with no inverse in the repository.
- The rest of the runner's trace (events, actions, frames, refusals) and the local clocks of nodes: only operations are noted, with their times.
- `record`, `replay` and `verify_replay`: that two runs of one scenario agree is immediate in a model made of functions.
- FftAccuracy.TransformIsTheSum: compares with the sum of the inputs turned by the table's own factors; how far those are from the cosines and sines rests on the Q16 library.
- FftRange.TransformNeverOverflows: allows factors whose two parts are both one, which no table of cosines holds; for factors of about unit length `FftGrowth.SignalNeverGrows` reaches far larger inputs.
- NodePair.PairSyncsClosely: asks that the other node's clock runs on, that times and offsets stay below 2^62 microseconds, and that a node whose clock was set back does not ask at a reading at which it asked before, when an answer of then could be taken for one of now.
- Networks.Fabric.SendTo: counters are unbounded, so the end of a `u64` is not modelled.
- RecordingParser.FromText: messages are named by their kind instead of their wording.
- RenderShards.CoresRenderWhatOneDoes: asks that no source on two cores faults in a pixel; `RenderFaults` says what one such pass changes and when a frame shows it, and not what later frames make of the difference.
- Runner.World.Run: asks for a duration below `u64::MAX`, at which the run may not end; `WorldLaws.EndOfTime` says when it does.
- Sources.SourceStack.Push: changes are returned instead of appended to the caller's vector, and so for the other operations.
