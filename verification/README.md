# Protocols of the tinkabot substrate

This project models the parts of tinkabot in which several processes, restarts or faults meet one
revisioned key-value bucket, and the pattern, framing and graph code that decides what those processes
may do. Each group of files holds a model of the code (functions where the code computes, classes and
loops where it changes things step by step, a state machine where processes interleave) and the theorems
proved about it.

| files | what they model |
|---|---|
| `KeyValue` | the bucket: a stream of numbered writes, `Get`, `Put`, and a compare-and-set that is `Update` and, at revision 0, `Create`; every write can be dropped or lose its reply |
| `ActionKeys`, `ActionProtocol`, `ActionSafety`, `ActionTheorems`, `ActionContents`, `ActionAlone`, `Reducer` | submitting, applying and rejecting actions: the protocol as a machine over single bucket calls, its invariant, its theorems, what its writes hold, what a command does when nothing disturbs it, and the imperative commands proved to be processes of the machine |
| `Records`, `Text`, `Numbers`, `Encoding` | shared records; splitting text; decimal text with the 64-bit range; UTF-8, unpadded URL-safe base64 and the keys built from it |
| `Ledger`, `Accepting`, `MemoryLedger`, `KVLedger`, `DurableLedger` | the activation ledger as one abstract state, what sequences of accepts make of it, and the in-memory store, the bucket store and the accepting code proved against it |
| `Schedule`, `Ticking`, `ScheduleEngine`, `CatchUp`, `Fencing` | the schedule engine, the answer to every tick, its stores, recovery after crashes, and fencing over whole runs |
| `SourceRouter`, `Identity`, `AtMostOnce`, `Delivering`, `Races` | the identity of source messages and when two share one, and routers and script loops racing on one ledger and one claim bucket |
| `Subjects`, `Authority`, `Grants`, `ManagedAuth`, `Compiling`, `Namespaces` | subject patterns, source authorisation and auth policy compilation, exactly when each succeeds and how it is refused, and when namespaces keep apart |
| `Frames`, `FrameFormat`, `FrameRoundTrip` | the frame printer, the batch parser and the stream parser, on bytes: the format they read, and round trips |
| `CommandClaims`, `ClaimProgress` | concurrent command acceptance, one event-loop turn at a time |
| `ItemWatch`, `WatchExact` | the resumable item watch and its cursor file |
| `Ticker` | daemons claiming schedule ticks, `schedule off` and `schedule set` |
| `DenyRaw`, `WatchGraph`, `Convergence`, `Savers` | the walk over cyclic object graphs, cycle detection in bundles, the materialized views, and concurrent saves of one projection |

Check everything with `dafny verify dfyconfig.toml` (Dafny 4.11).

## How faults and concurrency are modelled

A bucket call is one atomic step. A write can be delivered, dropped, or delivered with its reply lost; a
crash is a process that takes no further step. In the action protocol, the router and loop machine, the
command store, the ticker and the projection savers, any number of processes interleave at every call, and
the theorems hold in every reachable state. The ledger and schedule functions take the fate of each of their writes as an
argument, so a crash between any two writes is one choice of these fates: the first failing write ends
the call, and an error ends a catch-up.

The action protocol relies on its environment as follows: nothing is deleted; action items are not
rewritten after they are created; only reducers write receipt keys or sign an item as a reducer; other
writers may write state keys as they please; an error whose write did take effect is not the one a lost
comparison gives. The ledger and claim buckets are written only by the code modelled here, and schedule
records only by `set`, `off` and the daemons.

## What the proofs found

- `subjectMatches` is an exact inclusion test only when the second pattern has no `>`. A pattern ending in
  `>` is wrongly covered by the same pattern ending in `*` (`Subjects.MatcherMissesTail`,
  with a concrete pair in `Subjects.MatcherMissesTailExample`); granted
  "subject" sources cannot use `>`, so their grants are sound, but imports can
  (`Authority.AllowedPatternCovered` gives the exact condition).
- Over dot-ended namespaces every subject is classified as every pattern that matches it if and only if no
  namespace of three or more tokens lies inside another one (`Namespaces.ClassesKeptExactly`); a nested
  reserved namespace is reached by an open pattern (`Namespaces.ReservedReached`). The shipped namespaces
  are not nested; caller-supplied rules are not checked for it.
- A recovering catch-up run always restores the ledger history, but the source index and the schedule state
  only if a record was still missing when it began, or the last tick's had been written
  (`CatchUps.RecoveredExactly`); from every start a run cut after its last record leaves them behind for good
  (`CatchUps.LeftBehind`).
- Ticks reported as accepted are fenced whatever fails (`Fencing.FencedRun`). All recorded ticks ascend
  if and only if none is recorded that is not beyond the recorded one before it, when that one's schedule
  state did not follow (`Fencing.RecordsAscendExactly`); `Fencing.GapsBetweenWrites` says exactly which tick
  gets in after a failure.
- A message pulled from a stream changes its dedupe key whenever the consumer redelivers it under a new
  sequence (`SourceRouter.RedeliveryKeepsIdentity`). Only the source index then stops the second copy, and
  the lost index write that makes the router ask for redelivery is exactly the one that lets it in
  (`SourceRouter.RedeliveredUnderNewIdentity`). Two routers that handle the two copies at the same time both
  accept exactly if neither looks at the source index after the other has written it
  (`Races.TwoIdentitiesExactly`).
- A schedule activation's id leaves out the schedule. Ticks of two schedules of one script with the same
  tick id are two records in the ledger, but they claim the same run (`Identity.SchedulesShareRuns`), so only
  the first of them runs (`Identity.SecondScheduleSkipped`). On one template ids and claims are told apart by
  the tick id alone (`Identity.TicksApart`).
- A suppressed tick is not recorded but moves the schedule state, so it is refused as a duplicate when it
  comes again (`Ticking.SuppressedTickMovesOn`).
- Bucket names and keys are joined unescaped: two revisions share their ids exactly if they have one number
  and their joined names read the same (`Identity.RevisedApart`), so only parts with colons can collide.
- A reported denial can hide a decision in three ways: the state write landed and only its reply was lost,
  closing the receipt failed after the state was written, or the rejecting receipt was created and only its
  reply was lost (`ActionTheorems.DenialToldExactly`). The same lemma says exactly which denials leave the
  receipt "applying"; such a receipt stays so forever (`ActionTheorems.DenialLeavesOpenForever`).
- The batch frame parser loses the end of the last body when that is white space, the stream parser does
  not (`FrameRoundTrip.ParsersAgree`).
- Memory replay looks records up by cursor, so two records with one cursor are both shown as the later one
  (`MemoryLedger.ListedIsFaithful`).
- `schedule set` writes unconditionally: a tick between its read and its write is numbered twice
  (`Ticker.StaleSetRepeatsNumber`), and the versions of every schedule continue each other if and only if no
  `set` that lands is stale (`Ticker.ContinuesExactly`).
- A save of the watch cursor is a plain file write: a run leaves an unreadable file exactly when a kill
  falls on a save and tears it (`ItemWatch.BrokenExactly`). After any other kill at most one event is saved
  but not printed (`ItemWatch.KilledRunLosesAtMostOne`). Runs that overlap print an event twice exactly if
  some requested event lies beyond both loaded cursors and within both runs
  (`ItemWatch.OverlappingRunsRepeat`). Saving to one file does not change what each prints
  (`ItemWatch.TogetherAsAlone`), but a save moves the shared cursor back exactly if the other run saved just
  before, and further (`ItemWatch.CursorMovesBackExactly`); in the end it is behind exactly if the run that got
  less far saved last (`ItemWatch.SharedCursorExactly`).
- The bucket-backed projection store reads and puts in two calls: the stored number never decreases if and
  only if no put lands after a higher number was stored since its own read (`Savers.GoesForwardExactly`), and
  two savers already break that (`Savers.GoesBack`).

## Model

| member | source | states |
|---|---|---|
| KeyValue.Bucket.Update | substrate/go/tinkalet/tinkalet.go:2520 | the conditional write the protocols call: it lands exactly when the key's last revision is the expected one and the call is not dropped, and reports a conflict, a new revision or an unknown outcome accordingly |
| ActionKeys.ActionKeyInjective | substrate/go/tinkalet/tinkalet.go:2486-2488 | an action key determines its application, participant and action id |
| ActionKeys.KeysDisjoint | substrate/go/tinkabot/tinkabot.go:1755-1781 | no key is an action key and a receipt key, or either of them and a state key |
| ActionKeys.ReceiptKeyInjective | substrate/go/tinkalet/tinkalet.go:2180-2196 | two actions never share a receipt key |
| ActionKeys.ParseInverts | substrate/go/tinkabot/tinkabot.go:1413-1422 | parsing a submit subject yields an application and participant exactly for the subjects built from two valid tokens |
| ActionSafety.StepIsGood | substrate/go/tinkalet/tinkalet.go:2180-2280 | every step of a reducer or submitter makes at most one write, lawful for its own action, keeps what the process knows, and starts holding a receipt only where there was none |
| ActionSafety.NextKeepsInv | substrate/go/tinkalet/tinkalet.go:2501-2603 | every step of any process, crash, new process or foreign write keeps the invariant of the whole system |
| ActionSafety.RunKeepsInv | substrate/go/tinkalet/tinkalet.go:2180-2280 | the invariant holds in every reachable state |
| ActionSafety.PhaseTracksReceipt | substrate/go/tinkalet/tinkalet.go:2527-2603 | the current receipt revision is always the one the action's history of writes says |
| ActionTheorems.StateWrittenAtMostOnce | substrate/go/tinkalet/tinkalet.go:2180-2236 | in every run an action writes its state key at most once |
| ActionTheorems.DeniedNeverWrote | substrate/go/tinkalet/tinkalet.go:2238-2280 | a rejected receipt anywhere in the history means the action never wrote state |
| ActionTheorems.AppliedNamesOwnWrite | substrate/go/tinkalet/tinkalet.go:2210-2236 | an applied receipt names the key and the revision of the action's own write |
| ActionTheorems.WriteReplacesBase | substrate/go/tinkalet/tinkalet.go:2501-2525 | a state write follows the submission and replaces exactly the revision the action was based on |
| ActionTheorems.NoLostUpdate | substrate/go/tinkalet/tinkalet.go:2210-2235 | of two actions that wrote one state key the later one has the later base, so equal bases never both apply |
| ActionTheorems.OneHolderPerAction | substrate/go/tinkalet/tinkalet.go:2527-2566 | at most one process is ever between creating an action's receipt and closing it |
| ActionTheorems.ClosingReceiptIsFinal | substrate/go/tinkalet/tinkalet.go:2568-2603 | once applied or rejected, a receipt is the current one in every later state |
| ActionTheorems.ReportedResultHolds | substrate/go/tinkalet/tinkalet.go:2180-2280 | a success printed by apply or reject is the decision the history shows |
| ActionTheorems.DenialToldExactly | substrate/go/tinkalet/tinkalet.go:2180-2280 | over every step of every run that ends in a denial: the denial hides an effect of this process's own decision exactly in three cases, and leaves the receipt open exactly in the listed ones, each checkable before the step |
| ActionTheorems.OpenForever | substrate/go/tinkalet/tinkalet.go:2527-2603 | an open receipt nobody holds stays open, with the same phase, in every later state of the run |
| ActionTheorems.DenialLeavesOpenForever | substrate/go/tinkalet/tinkalet.go:2210-2236 | after such a denial the receipt stays "applying" for the rest of the run |
| ActionTheorems.DecisionMeaning | substrate/go/tinkalet/tinkalet.go:2180-2280 | "applied at r" means the write at r is the action's, "denied" means a rejected receipt exists, both ways |
| ActionTheorems.RefinesDecideOnce | substrate/go/tinkalet/tinkalet.go:2180-2280 | every step of every run is a step of a machine that decides each action once |
| ActionTheorems.DecisionIsKept | substrate/go/tinkalet/tinkalet.go:2180-2280 | a decision never changes afterwards |
| ActionContents.SuccessLeaves | substrate/go/tinkalet/tinkalet.go:2180-2280 | in every run, a reducer that reports success has left exactly what was asked: apply the given value as the resolved state item and an applied receipt naming both revisions, reject a rejected receipt with the given reason |
| ActionContents.WritesItsValue | substrate/go/tinkalet/tinkalet.go:2501-2525 | in every run, a reducer that has written state has written the value it was given, under the state key of its action |
| ActionContents.ReducersSayTheTruth | substrate/go/tinkalet/tinkalet.go:2501-2603 | in every run, whatever is lost, every write signed by a reducer is a resolved item under its action's state key, or a receipt that names its action, revision and state key, with the status of its outcome, and once closed a real version of the state |
| ActionAlone.AppliesExactly | substrate/go/tinkalet/tinkalet.go:2180-2236 | undisturbed, apply is denied without a write for the first obstacle there is, or writes the applying receipt, the value and the applied receipt, and reports their revisions |
| ActionAlone.RejectsExactly | substrate/go/tinkalet/tinkalet.go:2238-2280 | undisturbed, reject is denied for the same obstacles, or writes one rejected receipt |
| ActionAlone.OvertakenIsRejected | substrate/go/tinkalet/tinkalet.go:2210-2236 | an apply overtaken between its receipt and its write leaves the state alone and closes its receipt as rejected, naming the version that won |
| ActionAlone.SubmitsExactly | substrate/go/tinkabot/tinkabot.go:1352-1411 | a submission alone is accepted exactly if its base is the current revision and its action is new, and writes the pending action and nothing else |
| ActionAlone.SubmissionExactly | substrate/go/tinkabot/tinkabot.go:1352-1411 | a submission is started exactly for a token action id, a well-formed state key of the application, a base revision and a JSON payload |
| Reducer.Commands.ActionApply | substrate/go/tinkalet/tinkalet.go:2180-2236 | the imperative command, with arbitrary interference between its calls, ends as a machine process with the result it prints, and a success has left the given value and its receipt in the bucket |
| Reducer.Commands.ActionReject | substrate/go/tinkalet/tinkalet.go:2238-2280 | the same for reject: a success has left the rejected receipt with the given reason |
| Reducer.Commands.UpdateActionState | substrate/go/tinkalet/tinkalet.go:2501-2525 | the state write and the handling of its errors are the machine's step, and a confirmed write holds the value the command was given |
| Reducer.Commands.CreateActionReceipt | substrate/go/tinkalet/tinkalet.go:2527-2566 | creating the receipt is the machine's step |
| Reducer.Commands.UpdateActionReceipt | substrate/go/tinkalet/tinkalet.go:2568-2603 | closing the receipt is the machine's step |
| Reducer.Commands.HandleAppAction | substrate/go/tinkabot/tinkabot.go:1352-1411 | a malformed submission starts nothing; any other is a submitting process of the machine and is reported as that process ended, and an accepted one has written its pending action, spelled out, under its participant and id |
| Encoding.DecodeEncode | substrate/go/core/core.go:1111-1113 | decoding inverts unpadded URL-safe base64 (section 5 of RFC 4648) on every byte string |
| Encoding.DigitExactly | substrate/go/core/core.go:1111-1113 | the digits of base64url (section 5 of RFC 4648), by their codes |
| Encoding.Utf8Exactly | substrate/go/core/core.go:1111-1113 | the bytes of a character are those of UTF-8 (section 3 of RFC 3629): the shortest form, with the number of the character in its bits |
| Encoding.KeyEncInjective | substrate/go/embednats/ledger.go:171-173 | different texts have different encoded keys |
| Encoding.KeyEnc | substrate/go/embednats/ledger.go:171-173 | an encoded key never contains a dot |
| Encoding.ReplayCursorInjective | substrate/go/core/core.go:1107-1109 | a replay cursor determines source and cursor |
| Encoding.LedgerKeysDistinct | substrate/go/embednats/ledger.go:54-91 | accepted, source and suppressed keys never collide, and each family is injective |
| Numbers.AtoiItoa | substrate/go/core/schedule.go:251-254 | reading back a printed number gives the number, over the whole 64-bit range |
| SourceRouter.DigitsReadBack | substrate/go/embednats/source_router.go:289-368 | printed numbers read back, over the whole 64-bit range, negative ones included |
| Numbers.AtoiExactly | substrate/go/core/schedule.go:251-254 | text reads as a number exactly if it is an optional sign and decimal digits, and the number fits 64 bits |
| Ledger.AcceptKeepsDistinct | substrate/go/core/core.go:953-1008 | whatever write fails, accepting only appends, at most one record, and keeps one record per dedupe key |
| Ledger.FollowReadsAll | substrate/go/core/core.go:1052-1082 | with distinct replay cursors, following each page's last cursor with any positive limit ends and returns every accepted record once, in order |
| Ledger.PageExactly | substrate/go/core/core.go:1052-1082 | a page is refused exactly for a limit that is not positive or an unknown cursor, and otherwise holds the next records after the first one with the cursor, up to the limit |
| Accepting.PlaceExactly | substrate/go/core/core.go:1115-1162 | for each source kind, the coordinates it must have, its position and its cursor text |
| Accepting.AddsExactly | substrate/go/core/core.go:953-1008 | a call adds a record exactly if the activation may enter and its first write is not dropped; the record has the activation's ids, source, lease, chain, place and replay cursor, and becomes its source's last exactly if both writes land in turn |
| Accepting.AnsweredExactly | substrate/go/core/core.go:953-1008 | the answer to every call: its first fault, the earlier record as a duplicate, the first fault of the new activation, or the new record |
| Accepting.RecordsDescribe | substrate/go/core/core.go:953-1008 | after any calls under any faults, every record describes an activation the ledger was asked to accept, replay cursor included |
| Accepting.CursorsExactly | substrate/go/core/core.go:1107-1109 | after any calls under any faults, two records share a replay cursor exactly if they share source and source cursor |
| Accepting.FollowReadsHistory | substrate/go/core/core.go:1052-1082 | after any calls with numbered sources and whole ledger writes, following the replay cursors with any limit reads every accepted record once, in order; nothing is assumed of the cursors |
| MemoryLedger.MemoryLedgerStore.SaveAccepted | substrate/go/core/core.go:1028-1043 | the four indexes change together, as one undisturbed save of the abstract ledger, or not at all |
| MemoryLedger.MemoryLedgerStore.Replay | substrate/go/core/core.go:1052-1082 | the loop returns the page of the listed records, or the error for a bad limit, an unknown cursor or a failed store |
| MemoryLedger.ListedIsFaithful | substrate/go/core/core.go:1068-1081 | memory replay lists the accepted history if and only if no two records share a replay cursor |
| KVLedger.KVLedgerStore.Dedupe | substrate/go/embednats/ledger.go:54-60 | looking up one key finds what a search of the whole accepted history finds |
| KVLedger.KVLedgerStore.Source | substrate/go/embednats/ledger.go:63-65 | the source key holds the latest record of that source |
| KVLedger.KVLedgerStore.SaveAccepted | substrate/go/embednats/ledger.go:67-79 | the two key writes, under any faults, are the abstract two-write save |
| KVLedger.KVLedgerStore.SaveSuppressed | substrate/go/embednats/ledger.go:81-90 | noting a suppressed record writes it under its suppressed key unless dropped, and changes nothing the ledger reads |
| KVLedger.KVLedgerStore.Records | substrate/go/embednats/ledger.go:123-154 | whatever order the keys are listed in, the sorted records are the accepted history |
| KVLedger.KVLedgerStore.Replay | substrate/go/embednats/ledger.go:92-116 | the loop returns the page of the accepted history or the error the abstract ledger gives |
| KVLedger.DedupeIsLookup | substrate/go/embednats/ledger.go:54-79 | because records are only created, never updated, the key lookup equals the history search |
| KVLedger.SortedUnique | substrate/go/embednats/ledger.go:147-149 | a strictly sorted list of revisions is determined by its elements |
| DurableLedgers.DurableLedger.Accept | substrate/go/core/core.go:953-1008 | the checks, reads and writes, on the bucket store and under any faults, are the abstract accept, and leave exactly its writes in the bucket |
| Delivering.WritesExactly | substrate/go/embednats/ledger.go:67-91 | a call writes the record under its dedupe key and then under its source for an activation that may enter, one note under the suppressed key for one whose hops are used up, and nothing otherwise |
| Ticking.RaisedExactly | substrate/go/core/schedule.go:136-171 | a tick raises an activation exactly for a schedule template with an id, owned by its principal and leased, with all tick coordinates and a positive clock; the activation's ids and coordinates are spelled out, and each refusal is named in order |
| Ticking.FencedExactly | substrate/go/core/schedule.go:173-194 | the fence refuses a repeated tick, an older epoch, another token in the same epoch, and a clock that does not go on, in this order, and nothing else |
| Ticking.TickAnswered | substrate/go/core/schedule.go:70-98 | every tick is stopped with the error its stage gives and changes nothing, or reaches the ledger, and then the schedule state moves exactly with a newly confirmed record or a suppression |
| Ticking.SuppressedTickMovesOn | substrate/go/core/schedule.go:70-98 | a suppressed tick leaves the ledger, moves the schedule state, and is refused as a duplicate if it comes again |
| ScheduleEngines.ScheduleEngine.Accept | substrate/go/core/schedule.go:70-98 | the engine's call on its two stores is the specified tick |
| ScheduleEngines.ScheduleEngine.CatchUp | substrate/go/core/schedule.go:105-134 | the loop over the ticks, stopping at the first error, is the specified catch-up |
| ScheduleEngines.KVScheduleStore.Save | substrate/go/embednats/schedule.go:59-68 | a save changes the state of one schedule, or nothing when it is dropped |
| CatchUps.TickShape | substrate/go/core/schedule.go:136-171 | an authorised tick always passes the ledger's own checks, under its own dedupe key and at its clock position |
| CatchUps.FenceAfter | substrate/go/core/schedule.go:173-194 | a tick that follows another passes the fence the other left and is not stale after it |
| CatchUps.NextTick | substrate/go/core/schedule.go:70-98 | the next tick enters whole, in part or not at all, and nothing else changes |
| CatchUps.RunFrom | substrate/go/core/schedule.go:105-134 | from any number of recorded ticks a run reaches some further number; an undisturbed run records all and reports exactly the new ones |
| CatchUps.CrashEquivalent | substrate/go/core/schedule.go:105-134 | after any number of runs cut between any two writes, one full run leaves the ledger history of a single uninterrupted run, and a further run accepts and changes nothing |
| CatchUps.RecoveredExactly | substrate/go/core/schedule.go:105-134 | the recovering run ends in exactly the world of the uninterrupted one, index and state included, if and only if some record was missing when it began or the last tick's index and state had been written |
| CatchUps.NothingRepaired | substrate/go/core/schedule.go:105-134 | once all records are in, catch-up never writes again |
| CatchUps.LeftBehind | substrate/go/core/schedule.go:105-134 | from every starting world and list, a run cut after the last record leaves index and state behind, and no later run brings them up |
| Fencing.FencedRun | substrate/go/core/schedule.go:173-194 | whatever is refused, suppressed or fails, ticks of one template reported as accepted have strictly increasing positions, non-decreasing epochs and one token per epoch |
| Fencing.RecordsAscendExactly | substrate/go/core/schedule.go:70-98 | in every run, whatever fails, the recorded ticks ascend in position, epoch and token if and only if no tick is recorded that is not beyond the recorded one before it, when that one's state did not follow |
| Fencing.RecordsAreFenced | substrate/go/core/schedule.go:173-194 | the same of all recorded ticks, reported or not, when every record that lands takes the schedule state with it |
| Fencing.AtMostOnce | substrate/go/core/core.go:969-974 | whatever writes fail, no tick gets a second record |
| Fencing.FailedSavesStillOrdered | substrate/go/core/core.go:999-1006 | with schedule saves failing in any way, and every record that lands taking its source index with it, added records stay strictly increasing and one per tick |
| Fencing.GapsBetweenWrites | substrate/go/embednats/ledger.go:72-77 | after a recorded tick, under any fault, the next one gets in exactly if it passes the fence or the state did not follow, and is later or the index did not follow |
| SourceRouter.RedeliveryKeepsIdentity | substrate/go/embednats/source_router.go:289-368 | redelivery keeps the identity of every message that is not pulled; a pulled one keeps it exactly with the same consumer and consumer sequence |
| SourceRouter.MalformedExactly | substrate/go/embednats/source_router.go:370-389 | the router rejects a source exactly if its kind is not routed, the ledger could give it no position, or it is a stream message without a subject |
| SourceRouter.AdmittedReachesLedger | substrate/go/embednats/source_router.go:261-279 | an admitted message passes all the ledger's checks: it can only be accepted, a duplicate, suppressed, stale, or stopped by a failed write |
| SourceRouter.RevisionsToldApart | substrate/go/embednats/source_router.go:319-328 | on one template different revisions of colon-free keys never share a dedupe key |
| Identity.RequestsApart | substrate/go/embednats/source_router.go:289-368 | requests of one template share both ids exactly if they share the request id |
| Identity.PublishedApart | substrate/go/embednats/source_router.go:289-368 | published messages share both ids exactly if their stream sequences, or the message ids where there is none, read the same |
| Identity.StreamedApart | substrate/go/embednats/source_router.go:289-368 | messages stored in a stream share both ids exactly if they share the stream sequence |
| Identity.RevisedApart | substrate/go/embednats/source_router.go:319-328 | key revisions share both ids exactly if they have one revision and their joined bucket and key read the same |
| Identity.StoredApart | substrate/go/embednats/source_router.go:330-340 | object versions share both ids exactly if they have one sequence and their joined bucket and name read the same |
| Identity.PulledTogether | substrate/go/embednats/source_router.go:341-366 | pulled messages share both ids exactly if both sequences are the same and stream and consumer read the same when joined |
| Identity.PlacedWhereMessageIs | substrate/go/embednats/source_router.go:289-368 | an activation stands at its message's own position, under a cursor that ends in it |
| Identity.TicksApart | substrate/go/core/schedule.go:136-171 | ticks of one template share the dedupe key, and the activation id, exactly if they share the tick id, and share a run claim exactly if the script revision is the same too |
| Identity.SchedulesShareRuns | substrate/go/core/schedule.go:136-171 | ticks of two schedules of one script, with ids without colons, have different dedupe keys, but claim one run exactly if they share the tick id |
| Identity.SecondScheduleSkipped | substrate/go/embednats/script_materializer.go:280-298 | of two loops that hold such ticks at one script revision only the first to claim runs |
| Identity.CommandsApart | packages/sdk/src/base-contract/command-acceptance.ts:117-151 | in every run, two activations handed out on one route share their ids exactly if they are for one command, and then they were handed to one caller |
| Delivering.AdmitExactly | substrate/go/embednats/source_router.go:261-279 | the router lets a message through, answers malformed exactly if it is of no routed kind or stands nowhere, or gives its source's first refusal |
| SourceRouter.RedeliveredUnderNewIdentity | substrate/go/embednats/source_router.go:426-440 | the second copy of a pulled message is accepted exactly if the first one's index write did not happen |
| AtMostOnce.RouterStepOk | substrate/go/embednats/source_router.go:261-279 | each step of a router makes at most one write, keeps the bucket's key discipline, and makes it a creator only where no record was |
| AtMostOnce.SoloIsAccept | substrate/go/core/core.go:953-1008 | a router left alone does to the bucket what the abstract accept does to the ledger, under the same faults |
| Delivering.SoloWrites | substrate/go/embednats/ledger.go:54-91 | a router left alone writes to the bucket exactly what that call writes |
| Delivering.DeliveredAlone | substrate/go/embednats/script_materializer.go:428-454 | in every state, one undisturbed delivery, from the message to the claim: answer, ledger writes and run claim are spelled out, and the script runs exactly if the message is let through, its activation may enter, and its run is unclaimed |
| AtMostOnce.AcceptedAtMostOnce | substrate/go/embednats/ledger.go:67-79 | in every interleaving at most one accepted record exists per dedupe key |
| AtMostOnce.OneRunPerIdentity | substrate/go/embednats/script_materializer.go:428-454 | a script runs at most once per accepted identity, and only with a record in the ledger |
| AtMostOnce.OneRunPerRevision | substrate/go/embednats/script_materializer.go:280-298 | it runs at most once per activation id and script revision even across different dedupe keys |
| AtMostOnce.OneRunPerMessage | substrate/go/embednats/source_router.go:289-368 | any redelivery of one message that keeps its identity (always, unless it is pulled under another consumer or consumer sequence), to any routers and loops, leads to at most one run |
| Races.TwoIdentitiesExactly | substrate/go/core/core.go:969-1006 | two identities of one message in two routers whose steps interleave in any way: each is accepted exactly if it does not look at the source index after the other wrote it, and at least one is |
| Races.MayEnterExactly | substrate/go/core/core.go:953-1008 | the condition the race starts from holds exactly for the deliveries an undisturbed ledger would accept as new |
| Races.PulledInOnePlace | substrate/go/embednats/source_router.go:341-366 | the identities of a redelivered pulled message are such a pair: same source and position, and different keys exactly under another consumer or consumer sequence |
| Races.AcceptedRuns | substrate/go/embednats/script_materializer.go:280-298 | an accepted answer runs exactly if its activation has not run at that script revision |
| AtMostOnce.RunKeyInjective | substrate/go/embednats/script_materializer.go:667-669 | claims of different activations or revisions never block each other |
| Subjects.MatchSubject | packages/sdk/src/nats-script-runtime/subjects.ts:31-54 | the index loop decides the token-wise match |
| Subjects.IsValidSubjectPattern | packages/sdk/src/nats-script-runtime/subjects.ts:7-29 | the loop decides the pattern rules |
| Subjects.InclusionCharacterized | substrate/go/core/core.go:792-808 | for every pattern p and valid pattern q, p covers all messages of q exactly if the matcher says so and, when q ends in `>`, p has its own `>` no later |
| Subjects.MatcherDecidesInclusion | substrate/go/core/core.go:792-808 | for a valid q without `>` the matcher alone is a sound and complete inclusion test |
| Subjects.MatcherMissesTail | substrate/go/core/core.go:792-808 | for every q ending in `>`, replacing it by `*` gives a pattern the matcher accepts but that misses messages of q |
| Authority.GrantMeans | substrate/go/core/core.go:559-687 | every granted source, of any kind, is its own user's under an active and current lease, and its observed subject is exposed, exported, subscribable and matched by all subscribe imports |
| Grants.GrantedExactly | substrate/go/core/core.go:559-775 | a source is granted a subject if and only if it is the user's own under a current lease, is observed on that subject, and exposure, exports, imports, response bounds and the subscribe aperture cover it; subjects and exposure kinds are spelled out per source kind |
| Grants.AnsweredExactly | substrate/go/core/core.go:559-775 | the answer to every source: the first refusal that applies, in the order of the code, with its error, or the grant |
| Authority.GrantedPatternIsAllowed | substrate/go/core/core.go:559-637 | the whole language of a granted "subject" source lies inside one allow pattern and inside no deny pattern |
| Authority.GrantedMessagesAreAllowed | substrate/go/core/core.go:728-790 | every message such a source can observe matches the allow list, and the observed subject itself is clear of the deny list |
| Authority.AllowedPatternCovered | substrate/go/core/core.go:776-790 | an allowed pattern is covered by one allow pattern, except that one ending in `>` needs an allow pattern whose `>` comes no later |
| Authority.GrantedImportsAllowed | substrate/go/core/core.go:666-687 | every subscribe import of a granted source is allowed and matches the observed subject |
| ManagedAuth.LongestRule | packages/sdk/src/base-contract/managed-auth-subjects.ts:194-216 | the rule found is one with the longest prefix of the subject, and none is found only if none applies |
| ManagedAuth.ClassifiedAlike | packages/sdk/src/base-contract/managed-auth-subjects.ts:194-216 | over dot-ended, unnested namespaces every subject a pattern matches is classified as the pattern is |
| Namespaces.ClassesKeptExactly | packages/sdk/src/base-contract/managed-auth-subjects.ts:194-216 | over any dot-ended rules, every valid subject is classified as every pattern that matches it if and only if no namespace of three or more tokens that subjects can have lies inside another |
| Namespaces.CompiledKeepsClass | packages/sdk/src/base-contract/managed-auth-subjects.ts:71-192 | under caller-supplied separate rules, every valid subject matched by a granted pattern is in that pattern's class and in no reserved one |
| Namespaces.ReservedReached | packages/sdk/src/base-contract/managed-auth-subjects.ts:194-216 | with a reserved namespace inside an open one, a concrete open pattern matches a concrete reserved subject |
| ManagedAuth.EndgameIsTaxonomy | packages/sdk/src/base-contract/managed-auth-subjects.ts:50-69 | the shipped namespaces are dot-ended and unnested |
| ManagedAuth.GrantedIsClassified | packages/sdk/src/base-contract/managed-auth-subjects.ts:71-192 | every pattern a compiled policy grants has an open namespace |
| Compiling.CompilesExactly | packages/sdk/src/base-contract/managed-auth-subjects.ts:71-192 | a policy compiles if and only if it is current (revisions, lease, response bounds, capabilities) and every subject in it is lawful; then it lists its own patterns and exactly the subjects imported and exposed |
| Compiling.RefusedExactly | packages/sdk/src/base-contract/managed-auth-subjects.ts:71-120 | a policy that is not current is refused as stale, revoked, expired, unbounded or advanced, in this order |
| Compiling.UnservedRefused | packages/sdk/src/base-contract/managed-auth-subjects.ts:71-192 | a current policy is refused for its first exposure that cannot be served |
| Compiling.LawlessRefused | packages/sdk/src/base-contract/managed-auth-subjects.ts:285-301 | a lawless policy is refused with the error of its first bad subject, in the order of the code, or for exports that are not its exposures |
| Compiling.EndgameClasses | packages/sdk/src/base-contract/managed-auth-subjects.ts:50-69 | plane, owner and openness of every valid subject under each shipped namespace, and of no other subject |
| Compiling.CompiledReaches | packages/sdk/src/base-contract/managed-auth-subjects.ts:71-192 | under the shipped namespaces, every valid subject a compiled policy reaches is under `tb.proof.`, and none under `tb.internal.` or `tb.control.` |
| ManagedAuth.CompiledStaysInNamespace | packages/sdk/src/base-contract/managed-auth-subjects.ts:71-192 | every valid subject matched by a granted allow, import, export or exposure pattern is in that pattern's namespace, and in no reserved one |
| ManagedAuth.AssertedIsNeverReserved | packages/sdk/src/base-contract/managed-auth-subjects.ts:226-250 | a subject the run-time check lets through is in an open namespace and matches no deny rule |
| Frames.NextFrame | substrate/go/embednats/script_materializer.go:558-581 | a parsed frame leaves strictly less input and a body within the limit |
| Frames.ParseFrames | substrate/go/embednats/script_materializer.go:487-522 | the batch loop ends and returns all bodies, or the first error |
| Frames.Reader.StreamFrame | substrate/go/embednats/filter_loop.go:265-298 | the streaming loop consumes exactly one frame, or reports the end or the error the bytes call for |
| Frames.Stdout.EmitFrame | examples/builder/scripts/build.ts:39-48 | a body within the limit is appended as one frame, an oversized one as nothing |
| FrameFormat.FrameExactly | substrate/go/embednats/script_materializer.go:558-596 | a batch frame is read exactly where a header ends that gives a length within the limit and that many bytes follow; otherwise the error names what is missing, in order |
| FrameFormat.NoHeaderExactly | substrate/go/embednats/script_materializer.go:558-581 | an input in which neither form of the empty line occurs is refused for its missing header |
| FrameFormat.LengthExactly | substrate/go/embednats/script_materializer.go:583-596 | the first line named Content-Length, in any case, decides: its trimmed value is the length if it is a decimal number that is not negative, and the error says whether it is missing or invalid |
| FrameFormat.TrimsText | substrate/go/embednats/script_materializer.go:583-596 | trimming takes off the white space at both ends and nothing else |
| FrameFormat.StreamedExactly | substrate/go/embednats/filter_loop.go:265-298 | from a stream, a frame is white lines, header lines, an empty line and the bytes the header says, and reading goes on right behind them |
| FrameFormat.StreamEnds | substrate/go/embednats/filter_loop.go:265-298 | a stream that ends between frames, white lines aside, ends cleanly, and one that ends in a line does not |
| FrameRoundTrip.BatchRoundTrip | substrate/go/embednats/script_materializer.go:487-522 | batch parsing printed frames returns exactly the bodies that fit, in order, if and only if the last of them is non-empty and does not end in white space |
| FrameRoundTrip.StreamRoundTrip | substrate/go/embednats/filter_loop.go:265-298 | stream parsing printed frames always returns exactly the bodies that fit, in order |
| FrameRoundTrip.ParsersAgree | substrate/go/embednats/filter_loop.go:265-298 | the two parsers agree on printed output exactly under that condition |
| CommandClaims.MakeDraft | packages/sdk/src/base-contract/command-acceptance.ts:126-141 | a draft is the command's own, carries an activation exactly if the command is not denied, and never exceeds its hops |
| CommandClaims.DenialMeans | packages/sdk/src/base-contract/command-acceptance.ts:191-247 | each denial names the first thing that is wrong: who asks, the lease, the revisions, the route, the hops |
| ClaimProgress.AloneExactly | packages/sdk/src/base-contract/command-acceptance.ts:117-151 | a new command's call, undisturbed: a create that throws leaves no trace but the failed call, any other draws the next number and leaves its decision as status and answer, and no claim |
| ClaimProgress.StoredExactly | packages/sdk/src/base-contract/command-acceptance.ts:79-82 | a call for a command that has its status is answered with it at once, and changes nothing else |
| ClaimProgress.NeverStuck | packages/sdk/src/base-contract/command-acceptance.ts:83-95 | in every reachable state, every waiting call is answered by its promise's remaining turns: it fails exactly if the create throws or has thrown, and otherwise gets the command's stored status, as creator exactly if the promise is its own |
| CommandClaims.AnswerIsOneCallsDecision | packages/sdk/src/base-contract/command-acceptance.ts:117-151 | every answer is the decision on one call of the run, its command's creator: without error exactly if that call's session, capability, lease, revisions, route and hops permit it, and only that caller gets an activation, its own, one hop on |
| CommandClaims.StatusIsFinal | packages/sdk/src/base-contract/command-acceptance.ts:86-92 | a stored status is never changed or removed |
| CommandClaims.OneStatusOneCreator | packages/sdk/src/base-contract/command-acceptance.ts:73-108 | all successful callers of one command see the one stored status, and at most one is the creator or holds an activation |
| CommandClaims.ExactlyOneCreator | packages/sdk/src/base-contract/command-acceptance.ts:117-151 | when all calls have ended each stored command has exactly one creator, with an activation exactly if it was accepted |
| CommandClaims.DistinctSequences | packages/sdk/src/base-contract/command-acceptance.ts:97-100 | no two stored statuses share a sequence |
| CommandClaims.CommandStore.Claim | packages/sdk/src/base-contract/command-acceptance.ts:79-95 | a call up to its first await finds the status, joins the promise in flight, or starts one; the store stays valid |
| CommandClaims.CommandStore.RunCreate | packages/sdk/src/base-contract/command-acceptance.ts:126-141 | a create that throws draws no sequence; any other draws the next one |
| CommandClaims.CommandStore.StoreMade | packages/sdk/src/base-contract/command-acceptance.ts:88-91 | storing makes the draft's status the command's; the store stays valid |
| CommandClaims.CommandStore.Finish | packages/sdk/src/base-contract/command-acceptance.ts:92-94 | settling removes the claim and resolves or rejects its promise; the store stays valid |
| CommandClaims.CommandStore.Resume | packages/sdk/src/base-contract/command-acceptance.ts:83-95 | a call after its await fails with its promise, or is answered as creator exactly if it owns the promise |
| ItemWatch.Cli.ItemWatch | substrate/go/tinkalet/tinkalet.go:1614-1688 | the loop, killed after any effect, prints and saves what the specified run does, and touches no other cursor |
| ItemWatch.NeverTwice | substrate/go/tinkalet/tinkalet.go:1614-1688 | runs sharing a cursor one after the other, with any limits and killed anywhere, together print in strictly increasing revision order |
| ItemWatch.PrintedAreWanted | substrate/go/tinkalet/tinkalet.go:1760-1799 | everything a run prints is a requested, well-formed update beyond its cursor, and no more than its limit |
| WatchExact.CleanRunExactly | substrate/go/tinkalet/tinkalet.go:1614-1688 | an undisturbed run prints the first of the requested updates beyond its cursor, finishes exactly at its limit, is refused exactly at the first of them that is no whole item, and leaves its cursor at the last one printed |
| WatchExact.StartsExactly | substrate/go/tinkalet/tinkalet.go:1690-1733 | a run starts from no cursor or from one saved for this very request and profile, not past the end of the stream, and is refused otherwise, with nothing changed |
| ItemWatch.EventsMembers | substrate/go/tinkalet/tinkalet.go:1789-1799 | the requested events between two revisions are exactly the versions in that range whose key equals the target of an item request or starts with that of a prefix request |
| ItemWatch.RunsPrintEverything | substrate/go/tinkalet/tinkalet.go:1614-1688 | runs that are not killed print exactly the requested events between the first and the last cursor |
| ItemWatch.RunsPrintPrefix | substrate/go/tinkalet/tinkalet.go:1690-1754 | from a missing cursor file that is a prefix of all requested events of the log |
| ItemWatch.KilledExactly | substrate/go/tinkalet/tinkalet.go:1614-1688 | a killed run is the undisturbed one cut short: its output is the first half of the effects done, its file that of the last completed save, or torn |
| ItemWatch.BrokenExactly | substrate/go/tinkalet/tinkalet.go:1735-1754 | a run leaves a broken cursor file exactly if a kill comes, falls on a save and tears it; every later run then refuses it |
| ItemWatch.KilledRunLosesAtMostOne | substrate/go/tinkalet/tinkalet.go:1653-1687 | after any kill that tears nothing, the printed events, plus the one saved and not yet printed, are exactly the requested events between the two cursors |
| ItemWatch.OverlappingRunsRepeat | substrate/go/tinkalet/tinkalet.go:1653-1687 | two undisturbed runs that loaded any two cursors print a common revision exactly if a requested event lies after both loaded cursors and within both runs |
| ItemWatch.TogetherAsAlone | substrate/go/tinkalet/tinkalet.go:1653-1687 | two runs taking turns in any order on one cursor file each print what they would print alone, turn by turn and no more, and as long as no turn is in vain the file holds the event saved last |
| ItemWatch.CursorMovesBackExactly | substrate/go/tinkalet/tinkalet.go:1735-1754 | in any such interleaving, a save moves the shared cursor back exactly if the other run saved just before, and a higher revision |
| ItemWatch.SharedCursorExactly | substrate/go/tinkalet/tinkalet.go:1735-1754 | when both have ended the shared cursor is where the run that saved last ended, so behind the furthest exactly if that one got less far |
| Ticker.Daemon.Read | substrate/go/tinkabot/tinkabot.go:1477-1499 | a daemon goes on only with an active, well-formed, due schedule, and carries the next number |
| Ticker.Daemon.Claim | substrate/go/tinkabot/tinkabot.go:1499-1502 | the claim is one compare-and-set against the revision read |
| Ticker.TicksWhenDue | substrate/go/tinkabot/tinkabot.go:1477-1514 | a daemon left alone claims exactly when the current version is active, well formed and due, and then writes the next number and its time, and nothing else changes |
| Ticker.TicksEveryTime | substrate/go/tinkabot/tinkabot.go:1477-1514 | a schedule that may be ticked, looked at in intervals no shorter than its own, ticks every time, with consecutive numbers |
| Ticker.SetsAlone | substrate/go/tinkalet/tinkalet.go:1037-1073 | `set` left alone makes the schedule active with what it was given, and keeps number and last tick of the version it replaces |
| Ticker.OffAlone | substrate/go/tinkalet/tinkalet.go:1075-1100 | `off` left alone makes the current version inactive and changes nothing else of it |
| Ticker.TickHasItsNumber | substrate/go/tinkabot/tinkabot.go:1490-1500 | the n-th tick of a schedule carries number n |
| Ticker.TicksAreConsecutive | substrate/go/tinkabot/tinkabot.go:1490-1500 | successive ticks have successive numbers, so no number is used twice |
| Ticker.TicksAreSpaced | substrate/go/tinkabot/tinkabot.go:1505-1514 | recorded tick times are at least the interval apart, whatever the daemons' clocks say |
| Ticker.NoTickAfterOff | substrate/go/tinkalet/tinkalet.go:1075-1100 | after `off` no tick is claimed until the schedule is set again |
| Ticker.ContinuesExactly | substrate/go/tinkalet/tinkalet.go:1037-1073 | in every run of daemons, sets and offs, all versions of all schedules continue each other if and only if no set that lands is stale |
| Ticker.OneClaimerPerNumber | substrate/go/tinkabot/tinkabot.go:1477-1503 | in every run whose sets are fresh, two daemons never both hold one number |
| Ticker.StaleSetRepeatsNumber | substrate/go/tinkalet/tinkalet.go:1037-1073 | a `set` breaks the numbering exactly if a tick was written since its read, and then a number is used again |
| DenyRaw.Check | apps/frontend/src/isolation.ts:216-252 | the walk ends on every finite graph, cycles included, and passes if and only if no reachable object or map key names raw authority |
| DenyRaw.RawExactly | apps/frontend/src/isolation.ts:290-296 | a name is raw exactly if, lowered and without dashes and underscores, it contains one of seventeen of the listed words; the others are redundant |
| DenyRaw.Walk.Deny | apps/frontend/src/isolation.ts:216-252 | a passing call leaves every newly seen node clean with all its children seen; a failing one has reached a raw name |
| DenyRaw.DisguisesAreSeenThrough | apps/frontend/src/isolation.ts:290-296 | dashes, underscores and capitals anywhere in a name, the Kelvin sign and the dotted I included, do not change the verdict on it |
| DenyRaw.IndexLabelIsClean | apps/frontend/src/isolation.ts:228-234 | the index label of a key that is not text never names raw authority |
| WatchGraph.Search.Visit | substrate/go/tinkabot/bundle.go:226-243 | a visit that reports a cycle has found one, and any other proves that the chain from its node ends |
| WatchGraph.CheckWatchDAG | substrate/go/tinkabot/bundle.go:216-252 | the check passes if and only if the watches graph has no cycle |
| WatchGraph.LoadBundle | substrate/go/tinkabot/bundle.go:109-214 | loading succeeds exactly on non-empty bundles with sound, distinct entries, distinct projections, well-placed filters and no cycle |
| WatchGraph.AcceptableExactly | substrate/go/tinkabot/bundle.go:109-214 | a bundle loads exactly if it has scripts, all soundly named and complete, no name and no projection twice, every filter watches another script and has no other trigger, and no scripts watch each other in a circle |
| WatchGraph.ReactionsEnd | substrate/go/tinkabot/bundle.go:183-252 | in a loaded bundle every chain of filter reactions has fewer steps than there are scripts |
| Convergence.MaterializerStore.Apply | packages/sdk/src/browser-frontend/index.ts:172-212 | after any messages the store shows their fold, and all errors in order |
| Convergence.MaterialStore.SaveProjection | substrate/go/core/script_materializer.go:429-440 | a save succeeds exactly if it has an id and is newer than everything offered for it |
| Convergence.FoldTop | packages/sdk/src/browser-frontend/index.ts:179-199 | the fold shows an id exactly if a message is about it, and then one with the highest sequence |
| Convergence.Converges | packages/sdk/src/browser-frontend/index.ts:172-212 | reordering and duplicating messages whose id and sequence determine them gives the same view |
| Convergence.ConvergesExactly | packages/sdk/src/browser-frontend/index.ts:172-212 | a message set gives one view in every order if and only if no id has two different messages under its highest sequence |
| Convergence.KVMaterialStore.SaveProjection | substrate/go/embednats/script_materializer.go:194-213 | read, compare and put write exactly a newer projection |
| Savers.SoloSave | substrate/go/embednats/script_materializer.go:194-213 | a saver's read and put with nothing in between are the store's save |
| Savers.GoesForwardExactly | substrate/go/embednats/script_materializer.go:194-213 | in every run of any number of savers, no stored number ever decreases if and only if no put lands after a higher number was stored since its own read |
| Savers.RisesExactly | substrate/go/embednats/script_materializer.go:194-213 | stored numbers strictly rise if and only if every put that lands would still pass its check |
| Savers.GoesBack | substrate/go/embednats/script_materializer.go:194-213 | two savers that both read first can leave the lower number |

## Left out

- Ledger.FollowReadsAll: asks for pairwise distinct replay cursors; Accepting.FollowReadsHistory derives them for numbered sources and whole ledger writes. Sources without positions can repeat a cursor, and then following it is not defined by the code either.
- SourceRouter.RevisionsToldApart: asks for keys without colons; Identity.RevisedApart says exactly when parts with colons collide.
- AtMostOnce.OneRunPerMessage: does not hold for a message pulled again under another consumer or consumer sequence; Races.TwoIdentitiesExactly says when both copies are accepted.
- Races.TwoIdentitiesExactly: two routers and delivered writes; what a lost write of the first does to the second is SourceRouter.RedeliveredUnderNewIdentity.
- CatchUps.CrashEquivalent: states equality of the ledger history; RecoveredExactly says when the source index and the schedule state are recovered too.
- ItemWatch.RunsPrintEverything: assumes that no requested revision after the cursor has been trimmed; the item bucket keeps 64 revisions per key.
- Ticker.OneClaimerPerNumber: assumes that no tick is written between the read and the landing write of any `set`; ContinuesExactly and StaleSetRepeatsNumber say what happens otherwise.
- Failing reads of the ledger, schedule and claim buckets: such a call ends before it writes anything, which equals a dropped first write.
- JSON, JSON schemas and Zod contracts: decoded records are datatypes, frame bodies are bytes, and one predicate stands for accepting a body as an effect.
- The NATS server and its history limits, message ordering, JWT and nkey minting, TLS, cookies and WebSockets: foreign code; only the bucket's step semantics are kept.
- Deletes and purges of keys, and items rewritten by hand between the steps of an action.
- Wall-clock time: clock positions and tick times are numbers, timestamps of records are dropped; liveness of a receipt left "applying" is not claimed because the code does not provide it.
- Error texts, layers and details, and the path a rejected raw key is reported under.
- White space outside ASCII, strings with unpaired surrogates, and Go strings that are not valid UTF-8.
- Overflow of 64-bit durations and sequence counters.
- Command ids, commands and projection ids that name members of `Object.prototype`.
- The label that tells replayed from live watch events, the server-side watch filters, and a cursor save that fails without the process dying, which ends the run like a kill before the save.
- The item a claimed tick writes: its own compare-and-set can lose against a later tick's.
- The mediator's checks on a frame message other than the raw-authority walk: nonces, leases and required fields.
- The live filter loop around the stream parser, process spawning, sandboxing, artifact files, and the materializer's policy checks: operating-system work and flat checks.
- `CheckStore`, `CheckProcess`, `CheckGateway` and the other one-branch validators, the browser UI, argument parsing and printing, and the release scripts: nothing deep to state.
