# Duckspout, verified

A Dafny model of the parts of duckspout where a wrong step loses data or makes a
test lie: the drain choreography that moves a closed window from staging into the
lake, the watermark bookkeeping it relies on, the deterministic test kit, and the
small concurrent and parsing cores around them. `dafny verify dfyconfig.toml` checks
the whole project.

## What is modelled

**The drain.** `Drain` is a step machine over one node: staging tables, part
objects, the lake's registered manifests and watermark row, the in-process ledger,
the journal and the lake calls. A row may arrive in any window between any two
steps, every port call may fail, an unanswered commit may have landed or not, and a
crash with a ledger rebuild may fall anywhere. `Coordinator` is `drain_window` as
imperative code over fields, with objects stored under their rendered names, proved
to be a run of that machine; `Tick` is the daemon's loop over it. The advance rule,
the fence and the coverage-guarded drop are those of
`crates/duckspout-watermark/src/ledger.rs`,
`crates/duckspout-lake-ducklake/src/lib.rs` and
`crates/duckspout-staging/src/seal.rs`, not assumptions about them.

**What is proved of it.** For every run whose "landed" verdicts are right, no row is
lost, the registered windows are 0, 1, 2, ... and the lake is at most one window ahead
of the ledger. For every run, without any assumption, each window is registered at most
once, success is reported only for a window the ledger holds, a reboot comes up and
resumes at the first unregistered window, an attempt's journal is one of twelve words
fixed by its outcome and no unsettled commit is resubmitted before its one read-back.
`Layout` reads part names back from their layout alone.

**Where the code and its documentation disagree.** `reconcile` infers "landed" from
the lake's watermark row reaching the attempt's preview, and a commit writes its
preview over that row. The comments
(`crates/duckspout-drain/src/coordinator.rs:452-455`,
`crates/duckspout-drain/src/naming.rs:5-7`,
`crates/duckspout-staging/src/seal.rs:215-219`) rest this on every attempt at a
window sealing the same rows. The code does not enforce that: staging picks a batch's
window before it takes the writer transaction
(`crates/duckspout-staging/src/stager.rs:209-214`), so a delayed call can append to a
window that has closed meanwhile and whose commit landed unseen. Then the retry's ledger
entry differs from what the lake registered and may preview less
(`Ledger.PreviewFallsExactlyWhen`). These promises fail then, each with a run that
shows it and an exact condition:

- *No loss*: `DrainLoss.UnsafeRun` ends as a success and has lost a row. The verdict
  can be wrong exactly when `DrainReadBack.LiesExactlyWhen` says, and a wrong one always
  costs its rows once they are dropped (`DrainVerdict.WrongLandedHarms`).
- *Registered windows are dense, and the lake is never behind the ledger*:
  `DrainDrift.SkippingRun`; `DrainRecord.StepSkipsExactlyWhen`,
  `DrainVerdict.WrongLandedHarms`. In consequence a tick can register past a gap.
- *"Lost" means not registered*: `DrainDrift.FalseLostRun`;
  `DrainVerdict.LostExactlyWhen`.
- *The lake's row never falls*: in `DrainDrift.FallingRun` it goes from 50 to 10;
  `DrainHonesty.StepLowersExactlyWhen`, `FallsExactlyWhen`.
- *The lake's row claims no more than registered windows prove*:
  `DrainDrift.OverclaimingRun`; `DrainHonesty.StepOverclaimsExactlyWhen`, `DriftIsExact`.

The conditions on ledger, manifests and row can be checked before an attempt at a window
the lake does not hold; a window it holds may always be retried.
`DrainHonesty.CheckedRunsAreSafe` proves no loss, density, lead, and a row that never
falls or overclaims for every run that checks; `IdenticalRetriesAreSafe` proves them for
every run that keeps the documented promise, and `IdenticalRetriesPass` that the checks
turn none of those away.

**The test kit.** `Scheduler` proves termination of the cooperative executor for every
strategy, an answer independent of the interleaving, and rounds that poll each task
once. `now + 1` at `crates/duckspout-ctk/src/scheduler.rs:114` overflows when a round is
polled at the last `u64` instant; the model returns `None` there, and
`RunUntilIdle` proves that this happens exactly when some script sleeps, along one
path and saturating, to that instant. `Storage` and `Network` replay whole histories and
prove that the flags, mailboxes and fault counts of the doubles are the facts about the
history they stand for.

**The smaller cores.** `Admission` (threads interleaving at every atomic operation),
`Links` (overlapping holds), `FaultLedger` (reassembly of journal lines), `Dsn`
(parse and rewrite) and `Membership` (agreement of all nodes' views). Four more
promises have exceptions, each with its exact condition: the byte cap
fails once outstanding bytes wrap 64 bits (`Admission.CapBreaksExactlyWhen`);
"a window can never be relaxed by another window's condition"
(`crates/duckspout-fleet/src/link.rs:135-137`) holds for full chunks but not for
shorter ones (`Links.RelaxedExactlyWhen`); two links share a fault account when one
sender id swallows the arrow of the other (`Network.FaultIdsCollideExactlyWhen`); and
part names are injective but object paths drop empty segments
(`Naming.ObjectPathsCollideExactlyWhen`).

## Modelling choices

- Coverage is a set of (origin, seq) pairs instead of sorted ranges.
- The step machine keys objects by fence key; `Coordinator.PutByName` and
  `CheckByName` show that keying them by rendered name is the same thing, because
  names are injective.
- Clocks, port answers and arrivals are parameters or events. A PUT that reports
  failure may still have stored its object, and a drop that reports failure may still
  have removed its rows.
- The node has one dataset with an event-kind plan, and one attempt runs at a time,
  as the daemon wires it. The branch for a window recorded between the pre-check and
  the preview is in the step machine and is proved unreachable in `DrainNext`.
- Window ids, seqs and counters are unbounded except where 64-bit arithmetic is the
  point (`Tick`, `Scheduler`, `Admission`, `Links`, `FaultLedger`).
- Tasks are finite scripts of yield, sleep, spawn and block; a strategy is any
  function of its call history that keeps the index contract.

## Model

| member | source | states |
|---|---|---|
| `Naming.EncodeComponent` | crates/duckspout-drain/src/naming.rs:78-90 | the byte loop computes the escaping that `Layout` reads back byte by byte, and its output holds none of the layout's separators |
| `Naming.EncodeAlphabet` | crates/duckspout-drain/src/naming.rs:74-90 | every encoded character is a lower-case letter, a digit or an underscore, so no separator can appear |
| `Naming.EncodeInjective` | crates/duckspout-drain/src/naming.rs:74-90 | two byte strings with the same encoding are equal, empty ones and ones holding separators included |
| `Naming.TailInjective` | crates/duckspout-drain/src/naming.rs:95-118 | kind and discriminator are recovered from the name's tail |
| `Naming.PartNameInjective` | crates/duckspout-drain/src/naming.rs:95-118 | two part names are equal if and only if dataset, partition, window and discriminator all are |
| `Naming.ObjectPathsCollideExactlyWhen` | crates/duckspout-drain/src/coordinator.rs:362-366 | the object store drops empty path segments, so two keys share an object exactly when they are equal, or one lacks its dataset id, the other its partition id, and the rest agrees |
| `Naming.PutTouchesOneKey` | crates/duckspout-drain/src/coordinator.rs:362-368 | storing at one key's object path leaves every other key's object unchanged, unless the two are such a pair with a missing dataset and a missing partition id |
| `Layout.ByteReads` | crates/duckspout-drain/src/naming.rs:78-90 | lower-case letters and digits are written as themselves, every other byte as an underscore and two hex digits, high half first |
| `Layout.DecodeEncode` | crates/duckspout-drain/src/naming.rs:74-90 | a decoder written from that description alone gives back every byte string |
| `Layout.NameReads` | crates/duckspout-drain/src/naming.rs:92-118 | split at its slashes, a name is the dataset, the partition and a file whose window, kind and discriminator read back as the key's |
| `Ledger.WatermarkMonotone` | crates/duckspout-watermark/src/ledger.rs:127-147 | recording a window never lowers the watermark |
| `Ledger.PreviewNotMonotoneInCoverage` | crates/duckspout-watermark/src/ledger.rs:188-193 | a concrete pair of seals where the larger coverage previews no watermark and the smaller one does |
| `Ledger.PreviewFallsExactlyWhen` | crates/duckspout-watermark/src/ledger.rs:127-193 | a larger seal previews less exactly when the smaller union is gap-free and advances the watermark and the larger union is not gap-free |
| `Ledger.ReconstructDense` | crates/duckspout-watermark/src/reconstruct.rs:120-200 | boot-time replay of a dense record gives back exactly that record |
| `Ledger.ReconstructIsPrefix` | crates/duckspout-watermark/src/reconstruct.rs:120-200 | any record, in any order and with windows missing: a successful replay yields exactly the gap-free prefix of its windows, and no manifest has the next one |
| `Ledger.PartitionState.Extend` | crates/duckspout-watermark/src/ledger.rs:127-147 | the loop from the cached cursor reaches the same cursor as the advance rule run from window 0 |
| `Ledger.PartitionState.RecordCommit` | crates/duckspout-watermark/src/ledger.rs:213-288 | an error changes nothing; a success appends the window and answers the rule's watermark |
| `Ledger.PartitionState.RecordLoss` | crates/duckspout-watermark/src/ledger.rs:302-322 | the excused range is added and the watermark is the rule's over the larger excuse |
| `Ledger.AdmitExactlyWhen` | crates/duckspout-watermark/src/ledger.rs:213-270 | admitted if and only if it is the next window, its sequence numbers start at one and no recorded window covers one of its rows |
| `Seals.GapFreeExactlyWhen` | crates/duckspout-watermark/src/ledger.rs:119-147 | the advance rule passes a coverage if and only if every hole below a covered sequence number is a ledgered loss |
| `DrainSafety.ArriveKeeps` | crates/duckspout-drain/src/coordinator.rs:298-408 | a late row in any window at any point keeps the drain's invariant |
| `DrainSafety.SealKeeps` | crates/duckspout-drain/src/coordinator.rs:320-333 | sealing keeps the invariant: the manifest covers what the lake already registered of the window |
| `DrainSafety.PutKeeps` | crates/duckspout-drain/src/coordinator.rs:362-378 | overwriting the window's object, reported or not, loses no row a registered manifest names |
| `DrainSafety.CommitKeeps` | crates/duckspout-drain/src/coordinator.rs:380-408 | every commit reply, landed or not, keeps the invariant |
| `DrainSafety.ReadBackKeeps` | crates/duckspout-drain/src/coordinator.rs:414-481 | a read-back whose "landed" is right keeps the invariant |
| `DrainSafety.RecordKeeps` | crates/duckspout-drain/src/coordinator.rs:490-508 | recording keeps the invariant and brings ledger and lake level |
| `DrainSafety.DropKeeps` | crates/duckspout-drain/src/coordinator.rs:509-562 | the coverage-guarded drop, reported as done or as failed, removes only rows held by a registered object |
| `DrainSafety.CrashKeeps` | crates/duckspout-daemon/src/wiring.rs:938-959 | a reboot leaves every ledger equal to the lake's record and keeps the invariant |
| `DrainSafety.RegisteredIff` | crates/duckspout-drain/src/coordinator.rs:305-318 | in every state of the invariant the registered windows are exactly the prefix 0 to n - 1 |
| `DrainSafety.RunKeeps` | crates/duckspout-drain/src/coordinator.rs:298-562 | the invariant holds after every legal run with right verdicts |
| `DrainSafety.NoLossOverRuns` | crates/duckspout-drain/src/coordinator.rs:298-562 | after every run with right verdicts each row ever staged is in staging or in the object of a registered window; one part per window, dense, lake at most one ahead |
| `DrainOutcome.SuccessIsRecorded` | crates/duckspout-drain/src/coordinator.rs:298-562 | every attempt of every run, from any state: reported success means the window is in the ledger, and a reported watermark is the one that includes it |
| `DrainOutcome.SuccessIsDrained` | crates/duckspout-drain/src/coordinator.rs:298-562 | where verdicts are right, success means recorded, registered, and no covered row left in staging |
| `DrainOutcome.AheadIsRefused` | crates/duckspout-drain/src/coordinator.rs:305-318 | the pre-check answers `WindowAhead` if and only if the window is past the ledger's next, and moves no partition, object or lake call |
| `DrainOutcome.OnlyDropsSucceed` | crates/duckspout-drain/src/coordinator.rs:298-562 | no step but a completed drop reports success |
| `DrainOutcome.PassedAdvanceDrops` | crates/duckspout-drain/src/coordinator.rs:336-360 | a sealed window is diverted to its pending drop, by recorded coverage, if and only if the ledger has passed it |
| `DrainOutcome.RecordMoves` | crates/duckspout-drain/src/coordinator.rs:490-508 | recording appends this manifest to this partition's ledger and changes nothing else |
| `DrainOutcome.DropMoves` | crates/duckspout-drain/src/coordinator.rs:509-562 | only this partition's staging moves, and the drop is journaled exactly when it was done, authorised and a table was there |
| `DrainOutcome.DropLeavesExactly` | crates/duckspout-staging/src/seal.rs:203-252 | exactly the covered rows of that window leave; an emptied table goes |
| `DrainDrift.Completes` | crates/duckspout-drain/src/coordinator.rs:298-537 | a window that is next, staged and admissible can always be drained: registered, recorded, dropped and reported with its watermark |
| `DrainRecord.OnePartPerWindow` | crates/duckspout-drain/src/coordinator.rs:380-408 | for every legal run, right verdicts or not: no window has a second registered part |
| `DrainRecord.StepSkipsExactlyWhen` | crates/duckspout-drain/src/coordinator.rs:305-318 | from an ordered record, a step leaves a gap exactly when it registers while the ledger is ahead of the lake |
| `DrainRecord.StaysInOrderExactlyWhen` | crates/duckspout-drain/src/coordinator.rs:298-408 | for every legal run: the registered windows are 0, 1, 2, ... throughout exactly when no commit does that |
| `DrainRecord.RightVerdictsNeverSkip` | crates/duckspout-drain/src/coordinator.rs:298-562 | none does in a run with right verdicts |
| `DrainRecord.NeverDown` | crates/duckspout-daemon/src/wiring.rs:938-959 | no legal run leaves a record that cannot be rebuilt: windows are single, no two cover the same row, no seq is zero |
| `DrainRecord.RebootResumesAtPrefix` | crates/duckspout-daemon/src/wiring.rs:938-959 | after any legal run a reboot comes up and resumes exactly at the first unregistered window |
| `DrainVerdict.WrongLandedHarms` | crates/duckspout-drain/src/coordinator.rs:444-537 | wherever a run with right verdicts so far reads back landed: recording keeps the lake from falling behind, and dropping keeps every row, if and only if the window is registered |
| `DrainVerdict.SeparateKept` | crates/duckspout-drain/src/coordinator.rs:298-562 | no row is ever in two tables, or in a table and the object of another window |
| `DrainVerdict.LostExactlyWhen` | crates/duckspout-drain/src/coordinator.rs:444-481 | a registered window is judged lost exactly when this attempt previews more than the registered one did, or than the row holds if that one previewed nothing; so never when both preview the same |
| `DrainVerdict.LostMeansUnregistered` | crates/duckspout-drain/src/coordinator.rs:444-481 | if every attempt at a window previews the same advance, lost always means not registered: in every run that skips no window, whatever its landed verdicts, and so in every run where those are right |
| `DrainReadBack.LiesExactlyWhen` | crates/duckspout-drain/src/coordinator.rs:444-481 | some set of rows the ledger admits would, unregistered, be judged landed if and only if the lake's row is above the ledger's watermark and at or above all its event times |
| `DrainReadBack.GuardedVerdictIsTrue` | crates/duckspout-drain/src/coordinator.rs:444-481 | a read-back taken outside that condition never mistakes an unregistered window for a landed one |
| `DrainReadBack.NoLossWhenGuarded` | crates/duckspout-drain/src/coordinator.rs:414-481 | no loss, one part per window, dense, at most one ahead, for every run whose read-backs are guarded by that comparison |
| `DrainReadBack.NoLossWhenChecked` | crates/duckspout-drain/src/coordinator.rs:298-481 | comparing ledger and row before each attempt at a window the lake does not hold is enough: every such run has all its read-backs guarded and loses nothing |
| `DrainReadBack.HeldKept` | crates/duckspout-drain/src/coordinator.rs:298-408 | what was checked before an attempt still stands when it commits, whatever arrives meanwhile |
| `DrainReadBack.VerdictExact` | crates/duckspout-drain/src/coordinator.rs:444-481 | with identical retries both verdicts tell the truth, and no evidence means the preview does not advance |
| `DrainReadBack.InStepKept` | crates/duckspout-drain/src/coordinator.rs:298-562 | every step of a run with identical retries keeps the lake's row equal to the watermark of its record |
| `DrainHonesty.StepLowersExactlyWhen` | crates/duckspout-lake-ducklake/src/lib.rs:379-454 | in any state: the lake's row falls exactly in a step that registers a window with an older preview, and it moves only where a window is registered |
| `DrainHonesty.NeverFallsExactlyWhen` | crates/duckspout-drain/src/coordinator.rs:336-408 | for every run from every state the row never falls exactly when no commit lowers it |
| `DrainHonesty.FallsExactlyWhen` | crates/duckspout-drain/src/coordinator.rs:336-360 | some seal of the next window would lower the row exactly when the row is above the ledger's watermark, or without one above all its event times |
| `DrainHonesty.NeverFallsWhenChecked` | crates/duckspout-drain/src/coordinator.rs:298-408 | the row never falls in any legal run whose attempts begin at a window the lake already holds, or where no seal could lower it |
| `DrainHonesty.HonestMarkIsRule` | crates/duckspout-watermark/src/ledger.rs:119-147 | a row claims no more than some gap-free registered prefix proves exactly when it is at most the advance rule over the registered windows |
| `DrainHonesty.StepOverclaimsExactlyWhen` | crates/duckspout-lake-ducklake/src/lib.rs:379-454 | from an honest row, a step makes it overclaim exactly when it registers a window with a preview beyond what the registered windows and this one prove |
| `DrainHonesty.StaysHonestExactlyWhen` | crates/duckspout-drain/src/coordinator.rs:336-408 | for every run from an honest state the row stays honest exactly when no commit overclaims |
| `DrainHonesty.DriftIsExact` | crates/duckspout-drain/src/coordinator.rs:336-360 | level with the lake, some seal would make the row overclaim exactly when the ledger has rows the lake's manifests lack, a later watermark or a later event time |
| `DrainHonesty.StaysHonestWhenChecked` | crates/duckspout-drain/src/coordinator.rs:298-408 | the row never overclaims in any run with right verdicts whose attempts begin without drift |
| `DrainHonesty.CheckedRunsAreSafe` | crates/duckspout-drain/src/coordinator.rs:298-562 | with the three comparisons before each attempt at a window the lake does not hold: no loss, single, dense, at most one ahead, row never falls and never overclaims; retries are free |
| `DrainHonesty.IdenticalRetriesPass` | crates/duckspout-drain/src/coordinator.rs:298-562 | every run with identical retries passes all three checks |
| `DrainHonesty.IdenticalRetriesAreSafe` | crates/duckspout-drain/src/coordinator.rs:298-562 | for every run with identical retries: no loss, single and dense, the row is exactly the advance rule over the registered windows, never falls and never overclaims, reboot resumes at the registered prefix |
| `DrainLoss.UnsafeRun` | crates/duckspout-drain/src/coordinator.rs:414-481 | a legal run with a drifting retry that ends as already committed and has lost a row |
| `DrainDrift.SkippingRun` | crates/duckspout-drain/src/coordinator.rs:298-408 | that run continued: window 2 is registered over the hole at 1, and the ledger leads the lake |
| `DrainDrift.FalseLostRun` | crates/duckspout-drain/src/coordinator.rs:444-481 | a retry that previews more than the registered attempt and aborts is judged lost and requeued while its window is registered |
| `DrainDrift.FallingRun` | crates/duckspout-drain/src/coordinator.rs:298-408 | a run with right verdicts and no crash after which the row stands at 50, and a continuation in which it falls to 10 |
| `DrainDrift.OverclaimingRun` | crates/duckspout-drain/src/coordinator.rs:298-408 | a run with right verdicts and no crash whose row ends at 20 while the registered windows prove 10 |
| `DrainJournal.DisciplineOverRuns` | crates/duckspout-drain/src/coordinator.rs:333-442 | after every legal run the journal is one of twelve words closed by its outcome, and the call history owes a read-back exactly while one is pending |
| `DrainJournal.JournalStep` | crates/duckspout-drain/src/coordinator.rs:333-560 | each step extends the journal only by the word its phase allows |
| `DrainJournal.CallStep` | crates/duckspout-drain/src/coordinator.rs:380-442 | no step resubmits an unsettled commit, and no read-back happens that nobody owes |
| `Coordinator.PutByName` | crates/duckspout-drain/src/coordinator.rs:362-378 | a PUT by rendered name is a PUT by fence key |
| `Coordinator.PathsOfDataset` | crates/duckspout-drain/src/coordinator.rs:362-368 | the drain's own dataset id is not empty, so object paths are as injective as names |
| `Coordinator.CheckByName` | crates/duckspout-lake-ducklake/src/lib.rs:298-372 | the backend's check by part name is the fence's check by key |
| `Coordinator.DrainCoordinator.DrainWindow` | crates/duckspout-drain/src/coordinator.rs:298-408 | the run is extended by one pre-check of this window and then only by events answered as the ports answered, and ends in the returned outcome; the only record that may grow is this partition's, by this window; `WindowAhead` if and only if the window is past the ledger's next, and then nothing moved; a window already recorded needs only its drop; success only for a window the ledger holds, with the watermark that includes it |
| `Coordinator.DrainCoordinator.CommitFiles` | crates/duckspout-drain/src/coordinator.rs:380-408 | one commit call, one journal name, and the reply's phase; at most this manifest is appended |
| `Coordinator.DrainCoordinator.ReconcileCommit` | crates/duckspout-drain/src/coordinator.rs:414-481 | exactly one read-back, then record or requeue; registers nothing |
| `Coordinator.DrainCoordinator.FinishCommitted` | crates/duckspout-drain/src/coordinator.rs:490-537 | record, then drop, then the outcome; the lake's record is untouched |
| `Coordinator.DrainCoordinator.FinishAlreadyCommitted` | crates/duckspout-drain/src/coordinator.rs:539-562 | completes only the pending drop, by the recorded coverage, and answers `AlreadyCommitted` unless that drop fails |
| `Coordinator.DrainCoordinator.Arrivals` | crates/duckspout-drain/src/coordinator.rs:298-408 | arrivals between calls only add rows to staging tables |
| `Tick.HoldExact` | crates/duckspout-drain/src/schedule.rs:43-47 | the saturating comparison is the exact one, except that an unrepresentable release instant waits for the last one |
| `Tick.EligibleIsFilter` | crates/duckspout-drain/src/schedule.rs:51-60 | exactly the released windows are kept, with multiplicity and in order |
| `Tick.DaemonCore.DrainOnce` | crates/duckspout-daemon/src/wiring.rs:264-311 | every fate is the outcome an attempt on that window really reached; the report counts them, the stall flag is set exactly on failed enumeration or a catalog requeue, and only offered windows are newly registered |
| `Tick.TickConserves` | crates/duckspout-daemon/src/wiring.rs:277-309 | committed, requeued and unplanned windows add up to the eligible ones |
| `Tick.CommittedIsRecorded` | crates/duckspout-daemon/src/wiring.rs:277-309 | a window counted as committed is in the ledger when its attempt ends |
| `Tick.TickExtendsPrefix` | crates/duckspout-daemon/src/wiring.rs:264-311 | whatever the offer order, each newly registered window was offered and is registered once; while no commit skips, as none does with right verdicts, they extend the prefix consecutively and nothing passes an unregistered one |
| `Scheduler.PollCosts` | crates/duckspout-ctk/src/scheduler.rs:94-104 | a poll that makes progress or arms a deadline strictly consumes script work, and no poll creates any |
| `Scheduler.PollKeepsBlocks` | crates/duckspout-ctk/src/scheduler.rs:94-104 | polling preserves the number of blocked ends, counting spawned children |
| `Scheduler.SwapRemoveIds` | crates/duckspout-ctk/src/scheduler.rs:93-94 | `swap_remove` takes out exactly one task and loses or duplicates none |
| `Scheduler.RoundOutcome` | crates/duckspout-ctk/src/scheduler.rs:87-108 | after a round every task present at its start, ids being distinct, was polled exactly once and is finished or pending; without progress all that is left waits |
| `Scheduler.SeededScheduler.PollRound` | crates/duckspout-ctk/src/scheduler.rs:82-112 | the loop over strategy picks reaches that outcome, and spawned tasks count as progress |
| `Scheduler.SeededScheduler.TakeTurn` | crates/duckspout-ctk/src/scheduler.rs:72-126 | time moves only after a round without progress, to the least future deadline; each turn consumes work or a deadline and keeps the latest instant; it overflows exactly when a round is polled at the last instant |
| `Scheduler.SeededScheduler.RunUntilIdle` | crates/duckspout-ctk/src/scheduler.rs:71-127 | terminates; answers the number of tasks blocked on something other than time and stops the clock at the latest instant any task or descendant sleeps to, the same for every strategy; overflows if and only if there is a task and that instant is the last one |
| `Scheduler.BlockedCount` | crates/duckspout-ctk/src/scheduler.rs:119-122 | when every remaining task is blocked, their number is the preserved number of blocked ends |
| `Scheduler.PollKeepsHorizon` | crates/duckspout-ctk/src/scheduler.rs:94-104 | a poll preserves whether a task or its descendants sleep past any bound |
| `Scheduler.SaturatedSleepOverflows` | crates/duckspout-ctk/src/scheduler.rs:110-115 | one saturated sleep alone: the overflow |
| `Scheduler.SideBySideSleepsFinish` | crates/duckspout-ctk/src/scheduler.rs:71-127 | two sleeps of half the range each, side by side: no overflow, answer 0 |
| `Scheduler.SleepLasts` | crates/duckspout-ctk/src/scheduler.rs:135-143 | a sleep that fits lasts its nanoseconds from the poll that begins it |
| `Scheduler.SleeperWakes` | crates/duckspout-ctk/src/scheduler.rs:94-104 | a sleeper stays until its deadline and from then on continues |
| `Scheduler.HorizonIsLongest` | crates/duckspout-ctk/src/scheduler.rs:135-143 | saturating step by step equals one plain sum of sleeps along the longest path, clipped once to 64 bits |
| `Scheduler.RunScripts` | crates/duckspout-ctk/src/scheduler.rs:71-127 | from spawn to quiescence the clock stops at the longest plain sum of sleeps, clipped to 64 bits, for every strategy; it overflows if and only if there is a task and that sum reaches the last instant |
| `Storage.ParentDirSplits` | crates/duckspout-ctk/src/storage.rs:47-51 | the parent is what precedes the last separator, and empty without one |
| `Storage.ReplayAgrees` | crates/duckspout-ctk/src/storage.rs:109-183 | after any history a path is visible, torn, content-durable and name-durable exactly when the puts, deletes, fsyncs and crashes say so |
| `Storage.ReplayFaults` | crates/duckspout-ctk/src/storage.rs:66-88 | the armed flags and both fault accounts equal what the history says is pending, armed and fired |
| `Storage.CrashKeepsExactlySynced` | crates/duckspout-ctk/src/storage.rs:81-88 | a file survives a crash if and only if a successful file fsync followed its last put and a directory fsync followed its entry's last creation |
| `Storage.FiredWithinArmed` | crates/duckspout-ctk/src/storage.rs:66-88 | neither fault fires more often than it was armed, and a pending one is still owed |
| `Storage.InMemStorage.ArmNextFsync` | crates/duckspout-ctk/src/storage.rs:66-69 | the new state is the history's with one more arming of the failing fsync |
| `Storage.InMemStorage.ArmNextPut` | crates/duckspout-ctk/src/storage.rs:73-76 | the new state is the history's with one more arming of the torn write |
| `Storage.InMemStorage.Delete` | crates/duckspout-ctk/src/storage.rs:149-156 | succeeds exactly on a visible path, and the new state is the history's |
| `Storage.InMemStorage.FsyncDir` | crates/duckspout-ctk/src/storage.rs:175-183 | the new state is the history's with the directory's names durable |
| `Storage.InMemStorage.Put` | crates/duckspout-ctk/src/storage.rs:109-137 | the new state is the history's, with the write torn exactly when the fault was pending |
| `Storage.InMemStorage.Get` | crates/duckspout-ctk/src/storage.rs:139-147 | an Ok read is the last put's full bytes; torn and missing files are told apart exactly |
| `Storage.InMemStorage.FsyncFile` | crates/duckspout-ctk/src/storage.rs:158-173 | an armed failure is spent first, even on a missing path; success is recorded only for a visible file |
| `Storage.SyncNames` | crates/duckspout-ctk/src/storage.rs:175-183 | the loop makes durable exactly the names under that directory |
| `Storage.InMemStorage.Crash` | crates/duckspout-ctk/src/storage.rs:81-88 | survivors are exactly the synced files, unchanged |
| `Network.LinkIsFifo` | crates/duckspout-ctk/src/transport.rs:92-140 | what a link accepted is what was delivered from it followed by what waits: in order, no loss, no duplicate |
| `Network.SendsConserved` | crates/duckspout-ctk/src/transport.rs:92-140 | every send is received, queued, dropped by the blackhole or refused |
| `Network.KnownPeersNotRefused` | crates/duckspout-ctk/src/transport.rs:52-60 | once a peer is attached no send to it is refused |
| `Network.FaultIdInjective` | crates/duckspout-ctk/src/transport.rs:32-34 | in particular, senders without an arrow in their id have distinct fault ids per link |
| `Network.FaultIdsCollideExactlyWhen` | crates/duckspout-ctk/src/transport.rs:32-34 | two links share a fault id exactly when they are one link, or one sender id is the other's followed by an arrow and the start of its peer id |
| `Network.FaultIdCollides` | crates/duckspout-ctk/src/transport.rs:32-34 | such a pair: a sender and peer whose arrow moves |
| `Network.FiredEqualsDrops` | crates/duckspout-ctk/src/transport.rs:93-108 | a link's account is exactly its armings and its dropped messages if and only if no other link of that fault id was armed or dropped anything |
| `Network.DropsNeedArming` | crates/duckspout-ctk/src/transport.rs:65-73 | a link that was never armed drops nothing |
| `Network.ReplayMailbox` | crates/duckspout-ctk/src/transport.rs:92-140 | a mailbox holds exactly what the history left waiting |
| `Network.ReplayLinks` | crates/duckspout-ctk/src/transport.rs:62-81 | a link is dark exactly when its latest fault event is a blackhole |
| `Network.InMemNetwork.Endpoint` | crates/duckspout-ctk/src/transport.rs:52-60 | attaching or reattaching keeps whatever waits in the mailbox |
| `Network.InMemNetwork.Blackhole` | crates/duckspout-ctk/src/transport.rs:65-73 | the link is dark from here on and its account has one more arming |
| `Network.InMemNetwork.Heal` | crates/duckspout-ctk/src/transport.rs:76-81 | the link is no longer dark; nothing else changes |
| `Network.InMemNetwork.Send` | crates/duckspout-ctk/src/transport.rs:93-114 | the fate is the history's; only an unattached peer on a healthy link is an error |
| `Network.InMemNetwork.PollReceive` | crates/duckspout-ctk/src/transport.rs:131-140 | the oldest waiting message, pending when there is none, closed exactly without a mailbox |
| `Network.InMemNetwork.LinkCount` | crates/duckspout-ctk/src/transport.rs:93-108 | the count read for a link is at least its armings and drops, and exactly them if and only if no other link shares the account |
| `Admission.AdmissionIsSafe` | crates/duckspout-accept/src/server.rs:231-249 | for any threads and interleaving the counter is the outstanding bytes modulo 2^64 and zero when all are idle; while outstanding bytes do not wrap, admitted bytes never exceed the cap |
| `Admission.CapBreaksExactlyWhen` | crates/duckspout-accept/src/server.rs:231-241 | a step makes admitted bytes, those certain to be admitted included, pass the cap if and only if it is a fetch-add that does not fit beside them, with the total wrapped and room in its remainder, or under the largest cap |
| `Admission.StaysCappedExactlyWhen` | crates/duckspout-accept/src/server.rs:231-249 | for every interleaving the cap holds throughout exactly when no such step occurs |
| `Admission.SettledTotals` | crates/duckspout-accept/src/server.rs:231-242 | once no thread is between its fetch-add and its comparison, those are the admitted bytes |
| `Admission.CapPassedAfterWrap` | crates/duckspout-accept/src/server.rs:231-241 | a run with a cap of 10 that ends with 20 bytes admitted |
| `Admission.Server.Admit` | crates/duckspout-accept/src/server.rs:231-242 | uninterrupted: the comparison decides, a refusal restores the counter, and while the total does not wrap it succeeds exactly when the bytes fit and keeps the cap |
| `Admission.Server.Drop` | crates/duckspout-accept/src/server.rs:245-249 | gives back exactly what the admission added |
| `Links.DroppedIff` | crates/duckspout-fleet/src/link.rs:144-150 | a direction is dropped if and only if some live hold drops it |
| `Links.EffectiveIsHeld` | crates/duckspout-fleet/src/link.rs:281-290 | the effective condition is Pass or one live hold's |
| `Links.EffectiveIsSlowest` | crates/duckspout-fleet/src/link.rs:144-176 | its full-chunk pace is at least every live hold's |
| `Links.OrderIndependent` | crates/duckspout-fleet/src/link.rs:281-290 | drop verdict and full-chunk pace do not depend on the order of holds |
| `Links.Winner` | crates/duckspout-fleet/src/link.rs:281-290 | the fold yields the earliest of the holds that hold a full chunk longest, or Pass when none slows one |
| `Links.RelaxedExactlyWhen` | crates/duckspout-fleet/src/link.rs:144-176 | in any table that drops nothing, a hold is cut short on a chunk if and only if the first slowest hold is a cap that is faster on that chunk |
| `Links.DelayRelaxedExactlyWhen` | crates/duckspout-fleet/src/link.rs:144-176 | a delay and a cap, in either order: the delay is cut short exactly when the cap is faster on this chunk and slower on a full one, or as slow and held first |
| `Links.DelayRelaxedExample` | crates/duckspout-fleet/src/link.rs:144-176 | a 1 ms delay is halved on a one-byte chunk by a 2000 bytes per second cap |
| `Links.TieRelaxesDelay` | crates/duckspout-fleet/src/link.rs:144-176 | with equal full-chunk paces and the cap held first, a one-byte chunk waits 61 ns instead of 1 ms |
| `Links.CapsRelaxByOneAtMost` | crates/duckspout-fleet/src/link.rs:153-176 | whatever else is held, a cap is relaxed by at most one nanosecond on any chunk |
| `Links.PaceInNumbers` | crates/duckspout-fleet/src/link.rs:153-176 | a delay holds any chunk its milliseconds, a cap its bytes over its rate, anything else not at all |
| `Links.LongerDelayWins` | crates/duckspout-fleet/src/link.rs:144-176 | of two delays the longer |
| `Links.SlowerCapWins` | crates/duckspout-fleet/src/link.rs:144-176 | of two caps the one needing more whole nanoseconds for 16384 bytes; a zero cap caps nothing |
| `Links.LongDelayBeatsCap` | crates/duckspout-fleet/src/link.rs:144-176 | a delay that outlasts 16384 bytes at the cap's rate wins in either order |
| `Links.SlowCapBeatsDelay` | crates/duckspout-fleet/src/link.rs:144-176 | a cap that needs longer for them wins in either order |
| `Links.FaultLink.HoldConditions` | crates/duckspout-fleet/src/link.rs:429-450 | a fresh id, one more live hold, and one more cut exactly when this hold drops a link that was up |
| `Links.FaultLink.Release` | crates/duckspout-fleet/src/link.rs:461-473 | lifts that hold and no other, and never cuts |
| `Links.FaultLink.Conditions` | crates/duckspout-fleet/src/link.rs:281-290 | against all live holds of the history: dropped iff one drops, else Pass or one of theirs, the slowest at a full chunk and never shorter than a live delay's milliseconds; on shorter chunks a hold is cut short exactly when the first slowest live hold is a faster cap |
| `FaultLedger.ParseFaultLedger` | crates/duckspout-judge/src/fault_ledger.rs:330-385 | succeeds if and only if each fault journals each phase once under one kind and target, then lists exactly the described windows by id; an error names the first line that breaks this, what it says and the earlier line it contradicts |
| `FaultLedger.DescribesUnique` | crates/duckspout-judge/src/fault_ledger.rs:354-381 | the lines leave no choice of window for a fault |
| `FaultLedger.DescribedTimes` | crates/duckspout-judge/src/fault_ledger.rs:354-381 | each time of a window is that of its line of that phase, and absent if and only if there is none |
| `FaultLedger.BeforeIsLexicographic` | crates/duckspout-judge/src/fault_ledger.rs:383-385 | ids are ordered by prefix or by the first differing character |
| `FaultLedger.AssemblesUnique` | crates/duckspout-judge/src/fault_ledger.rs:354-385 | there is one ledger for a set of lines |
| `FaultLedger.OrderIndependent` | crates/duckspout-judge/src/fault_ledger.rs:330-385 | success and result do not depend on the order of the lines |
| `FaultLedger.IntoValues` | crates/duckspout-judge/src/fault_ledger.rs:383-385 | the table's windows, all of them, in id order |
| `FaultLedger.CoversExact` | crates/duckspout-judge/src/fault_ledger.rs:207-222 | the alibi test is containment in exact arithmetic; saturation never changes it |
| `FaultLedger.HorizonIsFirstFelling` | crates/duckspout-judge/src/fault_ledger.rs:239-262 | the horizon is the earliest start of a terminal fault on that host, and absent exactly when there is none |
| `FaultLedger.HostOfRendered` | crates/duckspout-judge/src/run_manifest.rs:165-167 | a bare name and every rendered incarnation of it name the same host |
| `Dsn.KeywordTokens` | crates/duckspout-fleet/src/dsn.rs:164-183 | the loop yields all fields in order, or the error of a token without an equals sign, or of an empty string |
| `Dsn.UriRoundTrip` | crates/duckspout-fleet/src/dsn.rs:65-146 | in URI form the rewritten string parses to the new address if and only if the host is free of `/`, `?`, `@`, `:` and a leading `[` |
| `Dsn.KeywordRoundTrip` | crates/duckspout-fleet/src/dsn.rs:65-146 | in keyword form, if and only if the host has no whitespace and no `://` |
| `Dsn.RoundTrip` | crates/duckspout-fleet/src/dsn.rs:65-146 | for every accepted string of either form and every plain host, parse after rewrite gives the new address |
| `Dsn.OtherFieldsSurvive` | crates/duckspout-fleet/src/dsn.rs:121-146 | scheme, userinfo, path and parameters, or prefix and other keywords in order, survive a rewrite |
| `Dsn.RewriteTwice` | crates/duckspout-fleet/src/dsn.rs:121-146 | rewriting twice is rewriting once with the last address |
| `Dsn.UriHostOfParse` | crates/duckspout-fleet/src/dsn.rs:65-103 | a URI parse never yields a host holding a separator or an IPv6 bracket |
| `Dsn.TokensOfJoin` | crates/duckspout-fleet/src/dsn.rs:137-145 | joining words with spaces and splitting at whitespace gives them back |
| `Dsn.PortFailsClosed` | crates/duckspout-fleet/src/dsn.rs:87-103 | a port that is given parses or refuses the string; it is never replaced by the default |
| `Dsn.AbsentPortDefaults` | crates/duckspout-fleet/src/dsn.rs:87-103 | a URI host alone reads as itself at port 5432 |
| `Dsn.Ipv6ExactlyWhen` | crates/duckspout-fleet/src/dsn.rs:74-82 | refused as IPv6 if and only if a bracket leads or two colons occur |
| `Dsn.UriSplits` | crates/duckspout-fleet/src/dsn.rs:66-73 | a URI's rest is userinfo up to the last @, an address with no separator in it, and the tail |
| `Dsn.KeywordErrors` | crates/duckspout-fleet/src/dsn.rs:164-183 | empty if and only if the body is blank, unreadable if and only if some token lacks an equals sign |
| `Dsn.KeywordHostMissing` | crates/duckspout-fleet/src/dsn.rs:98-103 | for every keyword string: no host is reported if and only if no field is keyed host |
| `Dsn.KeywordPortMissing` | crates/duckspout-fleet/src/dsn.rs:98-111 | the first host field is the host, and with no port field the port is 5432 |
| `Dsn.KeywordPortGiven` | crates/duckspout-fleet/src/dsn.rs:98-111 | the first port field is the port if it parses, and refuses the string if not |
| `Dsn.PrefixesStripped` | crates/duckspout-fleet/src/dsn.rs:150-157 | either prefix is taken off once and nothing else is |
| `Dsn.TokensAtSpace` | crates/duckspout-fleet/src/dsn.rs:171-180 | tokens split at every whitespace character, wherever it stands |
| `Dsn.OneWord` | crates/duckspout-fleet/src/dsn.rs:171-180 | a run without whitespace is one token |
| `Dsn.OthersExactly` | crates/duckspout-fleet/src/dsn.rs:137-145 | a rewrite keeps every field but those keyed host or port, in order |
| `Text.ParseU16Exactly` | crates/duckspout-fleet/src/dsn.rs:97-100 | a port text parses to n if and only if it is digits denoting n, at most one plus sign before them, and n fits 16 bits |
| `Text.ParseDecimal` | crates/duckspout-fleet/src/dsn.rs:97-100 | every port's rendering parses to that port |
| `Membership.StripRecoversExactlyWhen` | crates/duckspout-daemon/src/wiring.rs:878-899 | a `host:port` entry strips to its host if and only if the host has no colon and no leading bracket |
| `Membership.StripLiteral` | crates/duckspout-daemon/src/wiring.rs:878-886 | a bracketed literal strips to the literal, port or no port |
| `Membership.StripUntouched` | crates/duckspout-daemon/src/wiring.rs:887-899 | an unbracketed entry with no colon, or with several as a bare IPv6 literal has, is left untouched |
| `Membership.StripsExactlyWhen` | crates/duckspout-daemon/src/wiring.rs:887-899 | an unbracketed entry loses exactly its one colon and the digits after it, if there are any |
| `Membership.StripUnclosed` | crates/duckspout-daemon/src/wiring.rs:878-886 | an unclosed bracket leaves the entry untouched |
| `Membership.DetectOrder` | crates/duckspout-daemon/src/system.rs:294-308 | override, then kernel hostname, then environment, then the fixed name, each only if not empty |
| `Membership.NewView` | crates/duckspout-replication/src/routing.rs:127-134 | the filter over a seen-set keeps each candidate once at its first occurrence |
| `Membership.DistinctMembers` | crates/duckspout-replication/src/routing.rs:127-134 | the view has the candidates' members and no repeats |
| `Membership.DistinctOrder` | crates/duckspout-replication/src/routing.rs:127-134 | kept ids stand in the order of their first occurrences |
| `Membership.BuildMembershipView` | crates/duckspout-daemon/src/wiring.rs:813-823 | the view is the node itself and its stripped peers without repeats |
| `Membership.PeerEntryNamesPeer` | crates/duckspout-fleet/src/topology.rs:141-194 | the entry rendered for a peer strips to exactly the id that peer gives itself |
| `Membership.NamesRead` | crates/duckspout-fleet/src/topology.rs:141-194 | a node's name spells its seed and index in decimal, and an entry its port |
| `Membership.ViewIsFleet` | crates/duckspout-daemon/src/wiring.rs:813-823 | every fleet node's view is the whole fleet, each node once, itself first |
| `Membership.ViewsAgree` | crates/duckspout-daemon/src/wiring.rs:813-899 | for every seed, size and ports, and whatever the machines' hostnames, all nodes build the same membership |

## Left out

- Racing attempts on one node, and drains of one partition by two nodes: the daemon runs attempts one after another.
- `DatasetDrainPlan::from_declaration`, `note_closed_windows` and scratch-file cleanup: a mapping, an offer of windows and a best-effort delete; windows offered to a tick are arbitrary here.
- Changelog deduplication inside SealPart, supplements, snapshots, replication and takeover: the drain modelled is the wired event-kind one.
- Ledger.PartitionState.RecordCommit: one partition of one dataset, so dataset mismatch and the inverted event-time range (which a seal of real rows cannot produce) are not modelled; malformed and overlapping ranges share one error.
- The range representation of coverage (`crates/duckspout-watermark/src/coverage.rs`): sets stand for it, so the report of holes for a set reaching the largest `u64` is not modelled.
- Loss-ledger rows in the drain's step machine: nothing in the daemon records one; `PartitionState.RecordLoss` covers the bookkeeping alone.
- Naming.PutTouchesOneKey: object paths are the name's segments without the empty ones; percent-encoding is not modelled, because names hold no character it changes.
- Scheduler.SeededScheduler.RunUntilIdle: tasks that move the clock themselves, wake each other or never stop yielding are not modelled; the seeded generator is one instance of an arbitrary strategy.
- Admission.AdmissionIsSafe: the cap is promised only while outstanding bytes stay below 2^64; the exception is exact in `CapBreaksExactlyWhen`.
- Poisoned locks, task cancellation, TCP pumps, the accept loop and traffic counters of a fault link.
- JSON decoding and duplicate-key rejection of fault-ledger lines: lines arrive decoded.
- Quoted values in keyword connection strings: the code does not support them either.
- Membership.ViewsAgree: the TOML text between the rendered peer list and the parsed one, and rendezvous ranking over the view, are not modelled.
- OTLP decoding, Arrow, Flight, DuckDB, S3, process control, configuration and the status page.
