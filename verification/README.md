# Drag measurement, verified

A Dafny model of the parts of the repository whose job is to account for work
exactly: the drag-measurement pipeline, from the capture that drives a policy
owner, through the report it writes and the decoder that re-derives its
accounting, to the campaign report and the driver that commands a campaign; and
of the smaller exact algorithms beside it (the pointer-offer ledger, the civil
calendar and log reader, the frame buffer of the scripted peers, the composed
frame inspection, the required-test selection and the `/proc/PID/stat` readers).

`dafny verify dfyconfig.toml` checks everything.

## Main results

1. **Producer meets consumer.** Every run of the capture machine that does not
   end in a failed assertion leaves a report. The decoder accepts that report if
   and only if the owner kept its queue to one entry and its identities are
   positive and increase (`ProducerConsumer.FinishedReportAccepted`); an honest
   owner always does, so every honest run is accepted however it ended, and so is
   every polling loop answered honestly (`ProducerConsumer.HonestRunsAreAccepted`,
   `ProducerConsumer.HonestLoopAccepted`).
2. **What a run does.** Whatever the owner and the clock answer, the ledger a run
   leaves is exactly the one its steps tell of: every counter, clock reading, record
   and ticket (`RunRecords.RunsRecord`). The polling loop goes on exactly while its
   turns pass, and the first that does not pass decides how it ends
   (`LoopEnds.RunningIff`, `LoopEnds.EndsIff`).
3. **What acceptance means.** The decoder accepts exactly a declarative notion of a
   coherent document, stated on its members alone (`RunMeaning.HeaderIff`,
   `RunMeaning.DecodeIffAcceptable`), from which every offer of an accepted run is
   accounted for (`RunMeaning.AcceptedOffersAccounted`); and a refusal names a defect
   that is there (`RunRefusals.RefusalNamesDefect`).
4. **Conservation** holds in every reachable state of the capture, and an
   interrupted ledger is flagged, never repaired
   (`CaptureInvariant.RunsConserve`, `ProducerConsumer.ReportErrorIs`).
5. **Percentiles** are nearest rank, and one-Lipschitz, so paired latencies within
   a millisecond can never raise a regression; a comparison describes each capture of
   its pair and makes each refusal exactly for its own cause
   (`NearestRank.DistributeIff`, `Budgets.PairedLatenciesRaiseNoRegression`,
   `Budgets.CompareIff`).
6. **The campaign.** There is a report exactly for rows in order that form adjacent
   alternating pairs, each pair reported about its own two captures; an acceptance
   report covers the whole product of conditions, and passes the latency gate exactly
   when the captures of every pair meet every budget; the driver's nested loops emit
   an order the report accepts, for any number of pairs it allows; a campaign the
   driver completes is always reported, and one that passes the gate exists
   (`CampaignMeaning.ReportIff`, `CampaignMeaning.ReportIsAbout`,
   `Campaign.AcceptanceCoversProduct`, `Campaign.GateIff`,
   `CampaignDriver.DrivenCampaignReported`, `EndToEnd.CompletedCampaignReported`,
   `EndToEnd.GateReachable`).
7. **The pointer ledger.** A run's ledger holds the offers that were made, each answered
   by what it caused; it is accepted exactly when every offer was decided, every commit
   answered and no request reused; and in an accepted ledger every chain of successors
   ends at a commit (`PointerRuns.RunsTell`, `PointerLedger.RunAcceptedIff`,
   `PointerLedger.Outcome`).
8. **The exact helpers.** The day-number formula is the proleptic Gregorian
   calendar (the leap-year rule of Appendix C of RFC 3339) on all integers;
   timestamps, command names and message frames read back as written; frame
   reassembly does not depend on how the stream is cut.

## How to read the model

* Methods follow the source's loops and field updates; each is proved against a
  function of its inputs or of the old state, and the theorems are about those
  functions. `CaptureObject.Capture`, `PointerLedger.Accounting` and
  `FrameBuffer.Peer` are the mutable objects.
* A 64-bit word is the subset type `u64`: assigning an integer to it obliges the
  verifier to show the operation did not overflow. Counters of the capture are
  unbounded and its checked additions compare against 2^64.
* The policy owner, the transport and the clock are adversaries. Their answers
  are arguments of the steps and turns; the assumptions made of an honest owner are
  the predicates `CaptureLedger.Honest`, for a step, and `LoopRuns.HonestTurn`, for a
  turn of the loop, and nothing else. Each reading of the clock is a wait after the
  ledger's last one; a look that is not recorded (whether a slot has come, whether the
  deadline has passed) constrains no later one.
* A failed assertion or other panic is `Stop.Panic`, `None` or the absence of a
  result; error texts and JSON keys are enumerations.
* The checkpoint columns of a manifest row are carried along unread, as in the
  source.

## What the proofs found

* The guard against a repeated queued geometry is described in the source as
  reachable by a long stall. A stall is not enough: the queue always holds the
  latest offer that was not rejected, so the guard needs at least 63 rejected
  offers (`CaptureInvariant.RepeatNeedsRejections`), and an honest owner that
  rejects 63 reaches it (`CaptureInvariant.RejectionsReachGuard`).
* The decoder's check that neither record list is longer than the offers is
  implied by its other checks: dropping it would accept the same documents
  (`RunMeaning.DecodeIffAcceptable` holds without it).
* The log reader accepts day 31 in every month, so a line dated 31 February reads as
  one dated in March (`CheckpointLog.FebruaryThirtyFirstReads`); two accepted dates
  collide exactly when they spill onto the same date
  (`CivilCalendar.AcceptedDatesCollide`). It also accepts a negative hour
  (`CheckpointLog.NegativeHourAccepted`), and its clock is an ordinary time of day
  exactly when no field is written below zero (`CheckpointLog.OrdinaryIff`).
* A scripted peer whose buffer fills up with one message too large for it asks
  for zero more bytes, gets zero, and reports an orderly close. The streams that do
  this are exactly those of `FrameBuffer.OversizedIff`; `FrameBuffer.FilledBufferBlocks`
  gives a family of them and `FrameBuffer.SomeStreamBlocks` one.
* The report would also accept captures whose loop returned an error
  (`EndToEnd.CampaignOfLoopsReported`), but the driver never brings it any: the
  fixture fails on every error and the first failure ends the campaign. What the
  driver completes needs no further condition (`EndToEnd.CompletedCampaignReported`).
* A test listed twice under the prefix refuses the listing even when the test is
  not a required one (`RequiredTests.RequiredTests`).

## Model

| member | source | states |
|---|---|---|
| RunMeaning.HeaderIff | tools/sophia_pairing/runner/src/measurement.rs:109-174 | the header is read if and only if the document has exactly the 27 members, schema 1, the boundary and the four qualifications, an error that is null or text, three known choices, fourteen words, a rate of 60 or 120 and 1 to 100000 updates; and what is read is those members |
| RunDecoder.LoopUnresolved | tools/sophia_pairing/runner/src/measurement.rs:234-250 | the loop over unresolved records ends with the set of their identities or the first refusal |
| RunDecoder.LoopFailures | tools/sophia_pairing/runner/src/measurement.rs:251-286 | the loop over failures continues that set and counts each reason in its category |
| RunDecoder.LoopSamples | tools/sophia_pairing/runner/src/measurement.rs:298-337 | the loop over samples continues the set and demands strictly increasing sequence, request and transaction |
| RunDecoder.Decode | tools/sophia_pairing/runner/src/measurement.rs:104-339 | the decoder as it runs, with its early refusals, computes `DecodeRun` |
| RunMeaning.ScheduleIsQuotient | tools/sophia_pairing/runner/src/measurement.rs:81 | the scheduled time is the one number whose product with the rate brackets the elapsed seconds |
| RunMeaning.TimingIff | tools/sophia_pairing/runner/src/measurement.rs:77-89 | the timing check passes exactly for an identity in 1..offered, on the absolute schedule, with monotone times inside the capture |
| RunMeaning.FailedOfferIff | tools/sophia_pairing/runner/src/measurement.rs:91-102 | an unfinished record is taken exactly when timed, with absent or positive identities, and not seen before |
| RunMeaning.UnresolvedIff | tools/sophia_pairing/runner/src/measurement.rs:237-250 | the first loop passes exactly for well-formed records with distinct new identities |
| RunMeaning.FailuresIff | tools/sophia_pairing/runner/src/measurement.rs:251-286 | the second loop passes exactly for well-formed failures with distinct new identities, and its five totals are the category counts |
| RunMeaning.SamplesIff | tools/sophia_pairing/runner/src/measurement.rs:298-337 | the third loop passes exactly for committed, timed samples that increase strictly and are new, and returns them all |
| RunMeaning.DecodeRecordsIff | tools/sophia_pairing/runner/src/measurement.rs:234-337 | the three loops together accept exactly the coherent record lists |
| RunMeaning.DecodeIffAcceptable | tools/sophia_pairing/runner/src/measurement.rs:104-339 | a document is accepted if and only if its header has that shape, its counters balance, and its records are coherent with them, all stated on the members; and the result is its header and all its samples |
| RunMeaning.IdentitiesInRange | tools/sophia_pairing/runner/src/measurement.rs:77-84 | every identity recorded in a coherent document lies in 1..offered |
| RunMeaning.AcceptedOffersAccounted | tools/sophia_pairing/runner/src/measurement.rs:172-338 | recorded identities are pairwise distinct members of 1..offered, and exactly `coalesced` offers are recorded nowhere |
| RunMeaning.AcceptedCountersBalance | tools/sophia_pairing/runner/src/measurement.rs:178-233 | the counters of an accepted run balance, and a complete one failed nothing |
| RunMeaning.AcceptedSamplesOrdered | tools/sophia_pairing/runner/src/measurement.rs:298-337 | accepted samples are strictly ordered, on the absolute schedule and inside the capture |
| RunRefusals.RefusalNamesDefect | tools/sophia_pairing/runner/src/measurement.rs:104-339 | every refusal the decoder gives names a defect the document has: in the header, in the counters against the lists, or in a record |
| CaptureObject.Capture.constructor | tools/sophia_pairing/fixtures/policy_hagia_drag_measurement.rs:142-162 | a new capture is the empty ledger of its settings |
| CaptureObject.Capture.Failure | tools/sophia_pairing/fixtures/policy_hagia_drag_measurement.rs:168-177 | a failure is noted with the ticket's identities as they are and the time it was observed |
| CaptureObject.Capture.Observe | tools/sophia_pairing/fixtures/policy_hagia_drag_measurement.rs:179-186 | the two maxima follow what was seen, and a queue beyond the owner's bound is a failed assertion |
| CaptureObject.Capture.Offer | tools/sophia_pairing/fixtures/policy_hagia_drag_measurement.rs:188-258 | the offer updates the fields exactly as the ledger step does, for every answer of the owner |
| CaptureObject.Capture.AdmitOffer | tools/sophia_pairing/fixtures/policy_hagia_drag_measurement.rs:221-257 | each admission answer counts the offer once: admitted, admitted with a coalesced predecessor, or rejected |
| CaptureObject.Capture.DeclineOffer | tools/sophia_pairing/fixtures/policy_hagia_drag_measurement.rs:250-257 | an answer that replaced nothing must have left the queue as it was, and counts one rejection |
| CaptureObject.Capture.RefuseOffer | tools/sophia_pairing/fixtures/policy_hagia_drag_measurement.rs:227-231 | a refused offer is counted and noted before its error is returned |
| CaptureObject.Capture.Dispatched | tools/sophia_pairing/fixtures/policy_hagia_drag_measurement.rs:260-306 | custody moves from the queue to the active slot only for the measured request, and its loss is an error |
| CaptureObject.Capture.Propose | tools/sophia_pairing/fixtures/policy_hagia_drag_measurement.rs:727-733 | a proposal names the transaction of the active request it belongs to |
| CaptureObject.Capture.Sample | tools/sophia_pairing/fixtures/policy_hagia_drag_measurement.rs:308-343 | a settlement ends the active ticket as a sample or as one failure of its own category |
| CaptureObject.Capture.FailedSettlement | tools/sophia_pairing/fixtures/policy_hagia_drag_measurement.rs:330-333 | a settlement other than a commit is noted with its reason and ends the run with it |
| CaptureObject.Capture.Committed | tools/sophia_pairing/fixtures/policy_hagia_drag_measurement.rs:334-342 | a commit counts one settlement and adds its sample with the time it was observed |
| CaptureObject.Capture.CloseOne | tools/sophia_pairing/fixtures/policy_hagia_drag_measurement.rs:349-376 | one ticket left in custody is counted as disconnected or unresolved, and recorded once |
| CaptureObject.Capture.Close | tools/sophia_pairing/fixtures/policy_hagia_drag_measurement.rs:345-376 | what was left in custody is closed, the active ticket first, into the category the ending names |
| CaptureObject.Capture.Finish | tools/sophia_pairing/fixtures/policy_hagia_drag_measurement.rs:345-415 | the report is a function of the ledger, the error and the disconnection |
| CaptureObject.Capture.Report | tools/sophia_pairing/fixtures/policy_hagia_drag_measurement.rs:377-414 | the report checks the balance with additions that cannot wrap, and otherwise copies the fields |
| CaptureObject.OfferDue | tools/sophia_pairing/fixtures/policy_hagia_drag_measurement.rs:710-719 | the inner loop offers every elapsed slot in order, until one has not come, the deadline passes or an offer fails |
| CaptureObject.Settle | tools/sophia_pairing/fixtures/policy_hagia_drag_measurement.rs:720-747 | after the offers a turn polls, dispatches, takes the proposal and settles, in that order, and the first failure ends it |
| CaptureObject.Conclude | tools/sophia_pairing/fixtures/policy_hagia_drag_measurement.rs:734-743 | a settlement, if there was one, is sampled before the owner is looked at |
| CaptureObject.Observed | tools/sophia_pairing/fixtures/policy_hagia_drag_measurement.rs:744-748 | a turn finishes only when every offer is made and the owner is idle, and then custody must be empty |
| CaptureObject.TakeTurn | tools/sophia_pairing/fixtures/policy_hagia_drag_measurement.rs:698-763 | one turn of the outer loop does what its checks, its offers, its poll and its settlement prescribe, in that order |
| CaptureObject.MeasuredLoop | tools/sophia_pairing/fixtures/policy_hagia_drag_measurement.rs:686-764 | whatever the owner and the clock answer, the loop takes its turns in order and ends with the first that ends it |
| LoopEnds.RunningIff | tools/sophia_pairing/fixtures/policy_hagia_drag_measurement.rs:697-763 | the loop is still running exactly when every turn passed: the transport was up before and after its poll, the clock was within the schedule and its twelve seconds when it began and at every offer, every slot that had come was offered while there were answers, no step stopped, nothing was complained of, and the owner was not idle with every offer made |
| LoopEnds.EndsIff | tools/sophia_pairing/fixtures/policy_hagia_drag_measurement.rs:697-763 | the loop ends with the first turn that does not pass, and how is decided by that turn alone: lost transport, the deadline at the start of the turn or at a slot that had come, the owner's words with an offer, the poll or a settlement, a proposal without identity, a step's own stop, or finishing, which is the first turn with every offer made, the owner idle and nothing in custody |
| LoopRuns.LoopTraces | tools/sophia_pairing/fixtures/policy_hagia_drag_measurement.rs:686-764 | what the loop does is a run of the ledger, an honest one when each turn is answered honestly, and it finishes only with every offer made and nothing in custody |
| CaptureInvariant.StepKeeps | tools/sophia_pairing/fixtures/policy_hagia_drag_measurement.rs:188-343 | every step keeps conservation, the order of custody, the schedule and the placement of every offer |
| CaptureInvariant.RunsConserve | tools/sophia_pairing/fixtures/policy_hagia_drag_measurement.rs:188-343 | in every reachable state offers are admitted or rejected, admitted ones are in exactly one place, the active ticket is older than the queued one, and a settlement implies an observed flight |
| RunRecords.RunsRecord | tools/sophia_pairing/fixtures/policy_hagia_drag_measurement.rs:168-343 | after every run the ledger is the one its steps tell of: each counter is the number of steps of its kind, the clock is the sum of their waits, the samples and failures list which offer was settled or failed with which identities, for what reason and when, custody holds the latest admitted offer and the flight that took one, and the maxima are what was seen |
| RunRecords.OutcomesNoted | tools/sophia_pairing/fixtures/policy_hagia_drag_measurement.rs:315-342 | timed out, stale, invalid, rejected and committed steps are as many as their counters say and as the failures that carry the like-named reason |
| RunRecords.RunStopNames | tools/sophia_pairing/fixtures/policy_hagia_drag_measurement.rs:330-333 | a run stops with a layout outcome exactly when its last settlement failed, and with that settlement's reason; and with the owner's words exactly when they refused the last offer |
| RunRecords.OfferGoesOnIff | tools/sophia_pairing/fixtures/policy_hagia_drag_measurement.rs:188-258 | an offer lets the run go on exactly when the owner's answer and queue agree with the ledger before and after it and it was not refused in words |
| RunRecords.DispatchGoesOnIff | tools/sophia_pairing/fixtures/policy_hagia_drag_measurement.rs:260-306 | a dispatch lets the run go on exactly when what is in flight is the measured update in custody, under its own request, or nothing is and nothing was |
| RunRecords.DispatchComplains | tools/sophia_pairing/fixtures/policy_hagia_drag_measurement.rs:260-306 | and otherwise the complaint names the first thing that is wrong |
| RunRecords.SettlementGoesOnIff | tools/sophia_pairing/fixtures/policy_hagia_drag_measurement.rs:308-343 | a settlement lets the run go on exactly when it commits the active request |
| CaptureInvariant.HonestRunsAdvance | tools/sophia_pairing/fixtures/policy_hagia_drag_measurement.rs:260-343 | under an honest owner identities are positive, samples increase in request and transaction, and the queue never exceeds one |
| CaptureInvariant.GeometryRepeats | tools/sophia_pairing/fixtures/policy_hagia_drag_measurement.rs:73-87 | two offers share a geometry exactly when they are whole periods of 64 apart |
| CaptureInvariant.GeometryShows | tools/sophia_pairing/fixtures/policy_hagia_drag_measurement.rs:73-87 | a move shifts the window by the offset of its offer and keeps its size, a resize keeps its corner and grows it by as much |
| CaptureInvariant.FullRunsSettle | tools/sophia_pairing/fixtures/policy_hagia_drag_measurement.rs:233-255 | a run that made every offer, had none rejected and left nothing in custody admitted them all and settled at least one |
| CaptureInvariant.RunsKeepLatest | tools/sophia_pairing/fixtures/policy_hagia_drag_measurement.rs:221-257 | in every run each offer after the queued one was refused and noted so, and there are no more of them than rejections |
| CaptureInvariant.RepeatNeedsRejections | tools/sophia_pairing/fixtures/policy_hagia_drag_measurement.rs:200-210 | the repeated-geometry guard can fire only after 63 rejected offers |
| CaptureInvariant.RepeatGuardIff | tools/sophia_pairing/fixtures/policy_hagia_drag_measurement.rs:200-210 | in a consistent ledger the guard fires exactly when the offers since the queued one, with the one to be made, fill whole periods of 64 |
| CaptureInvariant.RejectionsReachGuard | tools/sophia_pairing/fixtures/policy_hagia_drag_measurement.rs:200-210 | and an honest owner that rejects 63 offers does bring the capture to it |
| ProducerConsumer.HeaderReadsBack | tools/sophia_pairing/fixtures/policy_hagia_drag_measurement.rs:398-414 | the header the decoder reads from a report is the ledger that wrote it |
| ProducerConsumer.RecordsReadBack | tools/sophia_pairing/fixtures/policy_hagia_drag_measurement.rs:335-375 | the three record lists of a report are coherent exactly when the closed ledger's identities advance |
| ProducerConsumer.FinishedReportAccepted | tools/sophia_pairing/runner/src/measurement.rs:77-339 | the report of any consistent ledger is accepted exactly when its queue held at most one entry and its identities advance |
| ProducerConsumer.HonestRunsAreAccepted | tools/sophia_pairing/fixtures/policy_hagia_drag_measurement.rs:188-415 | complete, refused, timed out, disconnected, out of time or otherwise stopped, an honest run leaves an accepted report |
| ProducerConsumer.LoopReportAcceptedIff | tools/sophia_pairing/fixtures/policy_hagia_drag_measurement.rs:686-764 | what the polling loop leaves under any owner is accepted exactly when the queue held at most one entry and identities advance |
| ProducerConsumer.HonestLoopAccepted | tools/sophia_pairing/fixtures/policy_hagia_drag_measurement.rs:686-764 | a polling loop that was answered honestly always leaves an accepted report, however it returned |
| ProducerConsumer.ReportKeepsRawCounts | tools/sophia_pairing/fixtures/policy_hagia_drag_measurement.rs:345-415 | the report keeps every raw counter, both maxima and every record of an interrupted ledger without repair, adding each ticket still held, the one in flight first, once to the category and list its ending names with the time it was closed |
| ProducerConsumer.BrokenAccountingIsFlagged | tools/sophia_pairing/fixtures/policy_hagia_drag_measurement.rs:377-397 | whenever conservation is broken the report says failed and its error keeps the first failure and names the interruption |
| ProducerConsumer.ReportErrorIs | tools/sophia_pairing/fixtures/policy_hagia_drag_measurement.rs:377-414 | the report's error is null, the first failure, or that and the interruption, and its status complete, exactly as conservation, the offers made and the loop's error decide |
| NearestRank.PercentileIsNearestRank | tools/sophia_pairing/runner/src/measurement.rs:341-355 | a value is the percentile exactly when it occurs, at least p% of the values are at most it, and fewer than p% are below it |
| NearestRank.DistributionOrdered | tools/sophia_pairing/runner/src/measurement.rs:341-355 | the distribution exists exactly for non-empty input, its percentiles are ordered, and the last is the maximum |
| NearestRank.DistributionOrderFree | tools/sophia_pairing/runner/src/measurement.rs:342-346 | the distribution depends only on the multiset of values |
| NearestRank.PercentileLipschitz | tools/sophia_pairing/runner/src/measurement.rs:341-355 | raising each value by at most a slack raises no percentile by more |
| NearestRank.DistributeIff | tools/sophia_pairing/runner/src/measurement.rs:341-355 | a distribution is that of its values exactly when its three percentiles are their nearest ranks and its maximum the greatest of them |
| Budgets.DecodedIsWellTimed | tools/sophia_pairing/runner/src/measurement.rs:370-418 | no latency or lateness subtraction on a decoded capture underflows |
| Budgets.ComparedIff | tools/sophia_pairing/runner/src/measurement.rs:361-371 | a comparison exists exactly for two non-empty captures of one workload on the two wires |
| Budgets.CompareIff | tools/sophia_pairing/runner/src/measurement.rs:361-426 | two captures compare to the one comparison whose IPC description is of the IPC capture and whose file description is of the file capture, whose latencies are from enqueueing to settlement and latenesses from the slot to enqueueing, and whose refusals are, in order, those whose own cause holds |
| Budgets.RefusedIff | tools/sophia_pairing/runner/src/measurement.rs:372-410 | each of the eight refusals is made exactly for its own cause |
| Budgets.PairedLatenciesRaiseNoRegression | tools/sophia_pairing/runner/src/measurement.rs:370-381 | if each file latency is within 1 ms of its IPC one, neither percentile regression is raised |
| Budgets.NothingRefusedIff | tools/sophia_pairing/runner/src/measurement.rs:372-410 | the list of refusals is empty exactly when all eight budgets hold, saturation notwithstanding |
| Budgets.BudgetsPassIff | tools/sophia_pairing/runner/src/measurement.rs:361-425 | the budgets pass exactly for complete captures with no failed work, equal retained updates and latencies within every bound, as computed from the captures |
| Campaign.Group | tools/sophia_pairing/runner/src/measurement.rs:554-618 | the group map holds under each key exactly the captures of that key in execution order, or the first refused row |
| Campaign.JudgeGroups | tools/sophia_pairing/runner/src/measurement.rs:619-665 | the groups are judged in the order of the map |
| Campaign.AddToGroup | tools/sophia_pairing/runner/src/measurement.rs:613-617 | one more capture joins exactly its own group |
| Campaign.ConcludeReport | tools/sophia_pairing/runner/src/measurement.rs:619-680 | the grouping and judging loops compute the verdict on the decoded rows |
| Campaign.CheckPass | tools/sophia_pairing/runner/src/measurement.rs:672 | the campaign passes exactly when every pair does |
| Campaign.MakeReport | tools/sophia_pairing/runner/src/measurement.rs:548-681 | the report as it runs computes `Report` |
| Campaign.GroupsPartition | tools/sophia_pairing/runner/src/measurement.rs:613-617 | every capture is in exactly one group of the product |
| Campaign.AcceptanceCoversProduct | tools/sophia_pairing/runner/src/measurement.rs:573-671 | a successful acceptance report holds 80 captures, one IPC and one file capture in adjacent positions for each of the 40 groups, in the order their parity asks for |
| Campaign.GateMeansCompletePairs | tools/sophia_pairing/runner/src/measurement.rs:635-676 | the latency gate implies that every capture is complete with 10000 admitted updates and no failed work, and that paired captures retained the same offers |
| Campaign.GateIff | tools/sophia_pairing/runner/src/measurement.rs:635-676 | an acceptance report passes the gate if and only if the two captures of every pair meet every budget: completeness, failed work, retained updates, p95, p99 and the offered interval |
| CampaignMeaning.ReportIff | tools/sophia_pairing/runner/src/measurement.rs:548-671 | there is a report exactly for 1 to 80 rows numbered from 1 whose captures decode, in groups that are one adjacent alternating pair of comparable captures; for acceptance all forty groups, each capture with 10000 admitted updates |
| CampaignMeaning.ReportIsAbout | tools/sophia_pairing/runner/src/measurement.rs:619-676 | it has one pair for every condition and pair number that occurs, in key order, about the two captures of that key, each under its own wire; its flags are those of its pairs |
| CampaignMeaning.RefusalNamesDefect | tools/sophia_pairing/runner/src/measurement.rs:548-671 | a refused campaign has the defect its refusal names: a first bad row, a group, or a missing condition |
| CampaignDriver.CommandPair | tools/sophia_pairing/runner/src/measurement_run.rs:61-68 | the innermost loop emits one pair in its parity's wire order |
| CampaignDriver.CommandCondition | tools/sophia_pairing/runner/src/measurement_run.rs:61-68 | the loop over pairs emits all pairs of one condition in order |
| CampaignDriver.Exercise | tools/sophia_pairing/runner/src/measurement_run.rs:57-68 | the five nested loops emit 16 commands for each pair count, the i-th being the one its ordinal determines |
| CampaignDriver.CommandsAscend | tools/sophia_pairing/runner/src/measurement_run.rs:57-68 | commands are given moves before resizes, 60 Hz before 120, idle before loaded, by pair number, and the wire of its parity first |
| CampaignDriver.CommandGiven | tools/sophia_pairing/runner/src/measurement_run.rs:57-68 | and every condition, pair number and wire is commanded |
| CampaignDriver.CommandedGroupsAlternate | tools/sophia_pairing/runner/src/measurement_run.rs:57-68 | for any pair count, each commanded group is one adjacent pair in alternating wire order |
| CampaignDriver.FivePairsReachEveryKey | tools/sophia_pairing/runner/src/measurement_run.rs:34-61 | five pairs of each condition reach every key of the product |
| CampaignDriver.DrivenCampaignReported | tools/sophia_pairing/runner/src/measurement_run.rs:57-191 | rows written in the driver's order, each checked against its command, are reported for one pair in smoke mode and five in acceptance |
| EndToEnd.CaptureReadsBack | tools/sophia_pairing/runner/src/measurement_run.rs:158-166 | decoding the report of an honestly answered loop returns the counters of its closed ledger and every sample |
| EndToEnd.CountsReadBack | tools/sophia_pairing/runner/src/measurement_run.rs:158-166 | in particular the workload it was commanded to run, which is what the driver checks |
| EndToEnd.CampaignOfLoopsReported | tools/sophia_pairing/runner/src/measurement.rs:548-681 | `report` accepts rows made in the driver's order by honestly answered loops, however each returned, once each settled an update and, for acceptance, admitted 10000 |
| EndToEnd.CompletedCampaignReported | tools/sophia_pairing/runner/src/measurement_run.rs:33-191 | a campaign that the driver completes, where every fixture finished with nothing rejected, is always reported |
| EndToEnd.PassedIsComplete | tools/sophia_pairing/fixtures/policy_hagia_drag_measurement.rs:856-857 | a fixture that passed leaves a capture that decodes as complete with no failed work |
| EndToEnd.SomeCampaignReported | tools/sophia_pairing/runner/src/measurement_run.rs:57-191 | for each mode there is such a campaign |
| EndToEnd.GateReachable | tools/sophia_pairing/runner/src/measurement.rs:666-676 | and there is an acceptance campaign that passes the latency gate |
| Completable.PromptTurnsFinish | tools/sophia_pairing/fixtures/policy_hagia_drag_measurement.rs:686-764 | for every setting an honest owner can answer so that the loop finishes with every update settled and nothing lost |
| PointerLedger.Check | tests/external/pointer.rs:264-295 | the checker with its accumulating set accepts exactly the valid ledgers |
| PointerLedger.Outcome | tests/external/pointer.rs:264-295 | from any offer of a valid ledger, successors strictly increase and end at a committed offer of the same mode, enqueued no earlier |
| PointerLedger.OutcomePhase | tests/external/pointer.rs:273-292 | what is finally committed is a cancel if the chain was ever cancelled, and otherwise an offer of the same phase |
| PointerLedger.Finish | tests/external/pointer.rs:297-316 | the closing checks pass exactly for a valid ledger with at least one replaced or cancelled offer |
| PointerLedger.Accounting.RoutedOffer | tests/external/pointer.rs:96-198 | an offer replaces the first waiting update of its mode, or as a cancel settles every undecided offer of it, or changes nothing |
| PointerLedger.Accounting.Proposal | tests/external/pointer.rs:200-236 | an answer gives its identity to the undecided offer that caused it |
| PointerLedger.Accounting.Commit | tests/external/pointer.rs:238-241 | a commit decides an undecided offer at the present time |
| PointerLedger.Accounting.constructor | tests/external/pointer.rs:67-72 | a new ledger holds no offers |
| PointerLedger.Accounting.CancelPending | tests/external/pointer.rs:183-185 | the loop settles exactly the undecided offers of the mode |
| PointerLedger.OfferLeavesOneWaiting | tests/external/pointer.rs:106-187 | after every offer at most one update of each mode waits |
| PointerLedger.RunsKeep | tests/external/pointer.rs:96-262 | in every run, decisions so far are coherent, times are in order, one update waits per mode, and a cancel leaves nothing undecided behind it |
| PointerLedger.RunAcceptedIff | tests/external/pointer.rs:96-295 | a run's ledger is valid exactly when every offer is decided, every commit answered and no request reused |
| PointerLedger.DisciplinedRunAccepted | tests/external/pointer.rs:96-295 | with fresh identities and commits only of answered offers, deciding every offer is enough |
| PointerRuns.ValidIff | tests/external/pointer.rs:264-295 | a ledger is valid exactly when every offer is decided, successors are later offers of the mode that fit, commits are answered in time, and no request commits two |
| PointerRuns.OfferTakenIff | tests/external/pointer.rs:96-182 | an offer is taken exactly when there is room and the owner's queue shows the update, the replacement or the cancel |
| PointerRuns.OfferDecides | tests/external/pointer.rs:183-197 | it decides the waiting update of its mode, or as a cancel every undecided offer of it, and leaves the rest alone |
| PointerRuns.AnswerTakenIff | tests/external/pointer.rs:200-236 | an answer is taken exactly for an undecided offer with that mode, phase and geometry |
| PointerRuns.RunsTell | tests/external/pointer.rs:96-262 | after every run the ledger holds the offers that were made, with their times; every identity came from an answer that its offer caused, and every commit has the time it was made |
| CivilCalendar.DayNumberIsClosed | tools/sophia_pairing/runner/src/measurement.rs:886-891 | the truncating era branch is a floor: the formula is 365 days a year, the leap days so far and the day of the March year, for all years |
| CivilCalendar.NextDayNumber | tools/sophia_pairing/runner/src/measurement.rs:886-891 | the next calendar day has the next number |
| CivilCalendar.DateOfHasNumber | tools/sophia_pairing/runner/src/measurement.rs:886-891 | the date n days from 1 January 1970, counted day by day in either direction, has number n |
| CivilCalendar.OrderKept | tools/sophia_pairing/runner/src/measurement.rs:886-891 | an earlier valid date has a smaller number |
| CivilCalendar.DayNumberIsCalendar | tools/sophia_pairing/runner/src/measurement.rs:886-891 | a valid date has number n exactly when it is the date n days from 1 January 1970 |
| CivilCalendar.AcceptedDatesCollide | tools/sophia_pairing/runner/src/measurement.rs:873-891 | two accepted dates share a number exactly when they spill onto the same calendar date |
| CheckpointLog.MomentReadsBack | tools/sophia_pairing/runner/src/measurement.rs:857-913 | a written line, with any day up to 31, reads as the milliseconds in UTC of the calendar date its day falls on, or as nothing before 1970 |
| CheckpointLog.DateWrittenIff | tools/sophia_pairing/runner/src/measurement.rs:869-875 | a date of any digits is read exactly when its month is 1 to 12 and its day 1 to 31 |
| CheckpointLog.ClockWrittenIff | tools/sophia_pairing/runner/src/measurement.rs:877-884 | a clock of any digits is read exactly when its hour is at most 23, its minute 59 and its second 60 |
| CheckpointLog.WrittenOffset | tools/sophia_pairing/runner/src/measurement.rs:895-907 | a written offset is subtracted behind a plus sign, added behind a minus sign and refused behind anything else |
| CheckpointLog.ShortTextsRefused | tools/sophia_pairing/runner/src/measurement.rs:857-867 | too few words, a date that is not ten bytes or a time below twelve are refused |
| CheckpointLog.FebruaryThirtyFirstReads | tools/sophia_pairing/runner/src/measurement.rs:873-875 | a line dated 31 February is accepted and reads as the same line dated 2 or 3 March |
| CheckpointLog.SameInstantReadsAlike | tools/sophia_pairing/runner/src/measurement.rs:895-909 | lines naming one instant with different offsets read alike |
| CheckpointLog.OrdinaryIff | tools/sophia_pairing/runner/src/measurement.rs:877-884 | an accepted clock is an ordinary time of day exactly when none of its fields is written below zero |
| CheckpointLog.MaxGap | tools/sophia_pairing/runner/src/measurement.rs:936-942 | the loop over times returns the longest gap, and none for a single time |
| Text.WordsOfSpaced | tools/sophia_pairing/runner/src/measurement.rs:858 | splitting at white space returns the words that were written behind spaces |
| Text.PieceIff | tools/sophia_pairing/runner/src/measurement.rs:869-882 | a slice by byte offsets is the piece between two that fall between characters, and otherwise there is none |
| CheckpointLog.NegativeHourAccepted | tools/sophia_pairing/runner/src/measurement.rs:877-884 | an hour written as a minus sign and a digit is accepted as a negative hour |
| CheckpointLog.ExtractCheckpointGaps | tools/sophia_pairing/runner/src/measurement.rs:915-943 | the count is the number of saved lines; a gap is reported exactly when there are two and all are readable, and it is the longest |
| CheckpointLog.ReadingsCounted | tools/sophia_pairing/runner/src/measurement.rs:919-921 | there are as many readings as lines that hold the mark |
| CheckpointLog.ExtractedUnique | tools/sophia_pairing/runner/src/measurement.rs:915-943 | a log determines its count and its gap |
| CheckpointLog.GapCoversSpan | tools/sophia_pairing/runner/src/measurement.rs:936-941 | n longest gaps reach from the first save to the n-th after it, even if the clock was set back |
| CheckpointLog.GapWithinSpan | tools/sophia_pairing/runner/src/measurement.rs:936-941 | in a chronological log the longest gap lies between an even share of the span and the whole of it |
| CheckpointLog.NoGapIff | tools/sophia_pairing/runner/src/measurement.rs:937 | a gap of zero means exactly that the clock never moved forward between saves |
| FrameBuffer.NothingLost | tests/support/sdk_admission_peer.c:49-66 | dispatched messages and the rest spell what was received, and the end says what the rest is: part of a message that fits, a malformed one, or one too large |
| FrameBuffer.ParseIff | tests/support/sdk_admission_peer.c:49-66 | that description holds of one outcome only, so it determines what is dispatched and what is held |
| FrameBuffer.OversizedIff | tests/support/sdk_admission_peer.c:42-47 | the peer is blocked exactly when, after messages that fit, one larger than the buffer arrives with bytes enough to fill it |
| FrameBuffer.UndersizedIff | tests/support/sdk_admission_peer.c:51-52 | and stopped exactly when, after messages that fit, a whole message smaller than a header arrives |
| FrameBuffer.FilledBufferBlocks | tests/support/sdk_admission_peer.c:42-47 | any 16384 bytes whose size field exceeds the buffer block it |
| FrameBuffer.FramesReadBack | tests/support/sdk_admission_peer.c:49-66 | any messages that fit, followed by part of one, are dispatched as they were sent |
| FrameBuffer.SizeIff | tests/support/sdk_admission_peer.c:50-51 | the size field reads as a number exactly when its four bytes are that number's, the least significant first |
| FrameBuffer.MessagesReadBack | tests/support/sdk_admission_peer.c:49-66 | messages written with their length, type, tag and body, and any part of one more, are dispatched and held as written |
| FrameBuffer.FrameIsWritten | tests/support/sdk_admission_peer.c:49-66 | and whatever is dispatched is so written |
| FrameBuffer.Resume | tests/support/sdk_admission_peer.c:42-66 | reading may stop anywhere and resume from the residue |
| FrameBuffer.EndsForGood | tests/support/sdk_admission_peer.c:51-52 | once a size below the header or a message too large is met, further bytes change nothing |
| FrameBuffer.Peer.Discard | tests/support/sdk_admission_peer.c:64-65 | what follows a dispatched message moves to the front unchanged |
| FrameBuffer.Peer.Drain | tests/support/sdk_stop_peer.c:115-136 | the inner loop with its move to the front dispatches every whole message and keeps the rest |
| FrameBuffer.Peer.Receive | tests/support/sdk_admission_peer.c:42-66 | one receive appends its bytes behind those held and drains |
| FrameBuffer.Peer.Serve | tests/support/sdk_admission_peer.c:32-68 | however the transport cuts the stream, the messages dispatched, the residue and the outcome are those of the whole stream |
| FrameBuffer.FullIsOversized | tests/support/sdk_admission_peer.c:42-47 | the buffer is full, and the next receive necessarily empty, exactly when the message in progress is larger than the buffer |
| FrameBuffer.Peer.Poll | tests/support/sdk_admission_peer.c:33-67 | one turn receives what the transport delivers, and a receive that delivers nothing closes |
| ComposedRegions.PixelsReadable | tools/sophia_pairing/fixtures/policy_hagia_cpu.rs:198-207 | in a covered frame exactly the pixels of the frame can be read |
| ComposedRegions.PixelReads | tools/sophia_pairing/fixtures/policy_hagia_cpu.rs:196-207 | a pixel reads as a colour exactly when its bytes are that colour's blue, green and red |
| ComposedRegions.ColoursPainted | tools/sophia_pairing/fixtures/policy_hagia_cpu.rs:19-20 | the two window colours are the bytes the fixture paints |
| ComposedRegions.PixelsDisjoint | tools/sophia_pairing/fixtures/policy_hagia_cpu.rs:204-206 | and no two of them share a byte |
| ComposedRegions.ProbeInside | tools/sophia_pairing/fixtures/policy_hagia_cpu.rs:214-223 | the 16 by 16 probe lies in the frame and inside the target inset by 8 |
| ComposedRegions.ShownIff | tools/sophia_pairing/fixtures/policy_hagia_cpu.rs:217-221 | there is room for the probe exactly when sixteen pixels of the target's inside show each way |
| ComposedRegions.ProbeCentred | tools/sophia_pairing/fixtures/policy_hagia_cpu.rs:222-223 | and it is their middle |
| ComposedRegions.ProbeShows | tools/sophia_pairing/fixtures/policy_hagia_cpu.rs:225-233 | the probe loop passes exactly when every pixel of the probe has the new colour |
| ComposedRegions.CountRow | tools/sophia_pairing/fixtures/policy_hagia_cpu.rs:237-250 | one row passes exactly when its old-only pixels lost the old colour, and counts them |
| ComposedRegions.CountOldOnly | tools/sophia_pairing/fixtures/policy_hagia_cpu.rs:236-252 | the nested loop counts the clipped old area less its overlap with the target, for all rectangles |
| ComposedRegions.OldOnlyCounted | tools/sophia_pairing/fixtures/policy_hagia_cpu.rs:236-252 | that number is how many pixels of the frame only the old window covered |
| ComposedRegions.NothingCountedIff | tools/sophia_pairing/fixtures/policy_hagia_cpu.rs:236-252 | that count is zero exactly when no pixel of the frame was covered by the old window alone |
| ComposedRegions.AssertComposedRegions | tools/sophia_pairing/fixtures/policy_hagia_cpu.rs:209-253 | the inspection passes exactly for a readable frame whose probe has the new colour and whose old-only pixels have lost the old one |
| RequiredTests.RequiredTests | tools/sophia_pairing/runner/src/acceptance.rs:540-567 | success means no listed test repeats, each required name is the leaf of exactly one, and the result is the ordered list of those; each refusal names the first test listed again or the first unmet name |
| RequiredTests.Collect | tools/sophia_pairing/runner/src/acceptance.rs:541-550 | the insertion loop ends with the ordered set of listed tests or names the first test listed again |
| RequiredTests.CountNamed | tools/sophia_pairing/runner/src/acceptance.rs:552-557 | the count is the number of listed tests with that leaf |
| RequiredTests.SelectionIsBijection | tools/sophia_pairing/runner/src/acceptance.rs:551-566 | a selection matches the required names one to one by leaf |
| RequiredTests.ListedUnderPrefix | tools/sophia_pairing/runner/src/acceptance.rs:542-546 | every selected test was listed as a test under the prefix |
| RequiredTests.ListedCounts | tools/sophia_pairing/runner/src/acceptance.rs:542-546 | a test under the prefix is listed as often as its line |
| RequiredTests.LeafBehindIff | tools/sophia_pairing/runner/src/acceptance.rs:555 | what follows a separator is the leaf exactly when no separator ends in it |
| RequiredTests.LeafReadsBack | tools/sophia_pairing/runner/src/acceptance.rs:555 | so a name without a colon is the leaf of every path to it, and of itself |
| RequiredTests.LessIff | tools/sophia_pairing/runner/src/acceptance.rs:541 | the set is ordered as a dictionary is |
| RequiredTests.OrderedUnique | tools/sophia_pairing/runner/src/acceptance.rs:541-566 | an ordered list is determined by its elements |
| RequiredTests.AnyOrderSameAnswer | tools/sophia_pairing/runner/src/acceptance.rs:540-567 | listing the same lines in any order gives the same selection or the same unmet name |
| ProcStat.NicenessReadsBack | tools/sophia_pairing/runner/src/acceptance.rs:530-538 | whatever the command name holds, the nice value read is field 19, when it fits in 32 bits |
| ProcStat.StatReadsBack | tests/external/slow_peer.rs:20-40 | whatever the command name holds, the state, parent, start time (field 22) and the name itself come back |
| ProcStat.TooFewFields | tests/external/slow_peer.rs:20-40 | without enough fields nothing is read |

## Left out

* JSON text and its size limit: decoding starts from a tree whose objects are maps from keys, the known ones and any other, to values.
* Hashes, paths, load and environment validation in the campaign report and the driver: they refuse but never judge, and here nothing of theirs is refused.
* The smoke or acceptance mode of a manifest, which is a choice of two strings, is an enumeration.
* The panic payload's text and the unwinding around the polling loop: a panic is the stop `Panic`, and `finish` is proved for every ledger, also an interrupted one.
* The owner's own assertions inside the loop (fixed chrome, committed geometry, a managed surface) and its helpers that settle a proposal: their answers are arguments. That more than one measured update could be queued is a failed assertion of the source and is not represented.
* The pauses between polls, which change no field.
* The owner's queue bound, a constant of code that is not part of this model, is a setting.
* `values.sort_unstable` is a sorting function, proved to be the sorted rearrangement; the order in which the standard library moves elements is not modelled.
* The report decodes every row before grouping and judges every group before reporting the first refusal; the source interleaves them. The result is the same.
* Error messages are enumerations; which of several refusals is reported follows the source's order of checks.
* Splitting a log or a listing into lines: both are given as lines.
* The names the required-test selection looks for, and its prefix, are parameters, so the result holds for every such list.
* The file reads of the `/proc` readers, and the absence of a process.
* The peers' protocol engine, its negotiation counters and the stop peer's script: dispatching a message appends it to a log. The mute script, which discards what it receives, is not represented.
* In the pointer ledger, the checks against the layout, the chrome and the saved checkpoint when a proposal or commit is made: they are about code that is not part of this model.
* `parse_meminfo` and `parse_pressure`, descriptive data with no bearing on a budget.
* The policy engine itself and everything the session owner does.
