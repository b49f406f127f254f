# Autonomous software factory: protocol models and proofs

ASF takes work items from a tracker, runs them through a durable workflow on remote workers, and
closes them at the source. This project models the parts whose correctness is hard to see from any
one function, and proves statements about every input, every run or every reachable state.

- **Source closure.** `LinearCodec` and `CloseText` model the signed marker comment and the signed
  cursor as text, and `CodecSoundness` says what the decoders accept. `LinearRead` models the paged
  read. `LinearClose` models the two-mutation close of a remote issue, in which either response may
  be lost (`Weather` says how each request fares), and `LinearAnswers` what its answers mean.
  `SourceGateway` is the atomic in-memory gateway and `SourceAnswers` what its answers mean.
  `LinearRuns` proves exactly-once closure over every sequence of calls, and `SourceSimulation` that
  the two-phase close refines the atomic one.
- **Workflow.** `Workflow` models the reducer; `WorkflowRuns` proves termination with an exact bound,
  attempt accounting and accountability of every reachable state; `WorkflowEffects` what it asks the
  world to do, by stage and over every run.
- **Evaluation and promotion.** `Evaluation` states the report without its loops;
  `EvaluationEngine` has the loops and the independence of order; `CleanReport` and `Certificate` say
  what a clean report certifies, down to the fields of samples and thresholds; `HoldReasons` which
  reasons are given; `Promotion`, `PromotionAnswers` and `PromotionRuns` treat approvals, grants, the
  safety check and runs on the autonomy ladder.
- **Runmill.** `RunmillPages` treats the page validator of the control client; `RunmillGateway`,
  `RunmillAnswers`, `RunCursor`, `RunmillRuns` and `RunmillRefusals` the in-memory gateway, its
  registry, its event streams and what refused calls leave behind.
- **Audit** and **Scheduler** model hash-chained audit history and work selection.

Imperative code is modelled by methods, with classes for the two gateways and the remote issue. Each
is proved equal to a function of the old state, and the theorems are about those functions.

## Reading the statements

- Texts that the code only compares or tests for blankness are `Name`s: numbers, with `BLANK` for a
  blank text. Texts that the code takes apart are strings, one character for each byte.
- Digests, HMAC tags, signatures, JSON printing and identifiers are function parameters. What is
  assumed of them is a named predicate in the `requires` clause (`Sound`, `Injective…`,
  `DigestsAreWellFormed`). Verifying an HMAC tag is recomputing and comparing it.
- Clocks, generated identifiers and provider choices are arguments. Each gateway call is one step.
- Integer widths are explicit where the code depends on them: `generation` and aggregate versions
  are checked u64, the attempt number wraps at 2^32, evaluation totals saturate at u128.
- Error values keep the distinctions that callers act on; error texts are dropped.

## What the proofs show about the code

- **A close comment can hide its own marker.** If the prose of a close comment leaves the marker
  prefix unclosed, the scanner swallows the real marker, and a retry after a lost response writes a
  second comment (`LinearRuns.OpenProseWritesTwice`; `CloseText.PrefixAsSummary` is such prose).
  `CloseText.ReadsBack` is the exact condition: under it closure is exactly-once in every run
  (`LinearRuns.ExactlyOnce`), and without it a single applied comment and any further call already
  break it (`LinearRuns.OnceExactlyIfReadsBack`).
- **A cursor can be issued and never read.** Only the reader checks the length of the token, so a
  cursor from three quarters of the limit upwards is issued but refused
  (`LinearCodec.LongCursorIsUnreadable`). `LinearCodec.CursorRoundTrip` is the exact condition, and
  `LinearCodec.ReadableRange` puts it in numbers.
- **A stale safety incident demotes without holding a promotion.** The safety check counts safety
  incidents opened at any time; the report counts only those opened in the window. That is the only
  reason of the safety check that does not hold a promotion
  (`PromotionRuns.PromotionHoldsExactlyInDanger`, `PromotionRuns.StaleIncidentDemotes`,
  `PromotionRuns.StaleIncidentDemotesAndPromotes`).
- **Ages are truncated.** Durations are cut to whole seconds, so a report generated up to a second
  after the decision still counts as fresh (`Promotion.GrantedMeans` states the exact durations).
- **A refused change can leave a trace.** Where an aggregate version would pass the u64 limit,
  cancellation, evidence and acknowledgement return an error after part of the state has changed.
  `RunmillRefusals.RefusalLeavesTrace` is the exact condition, `RunmillRefusals.RefusedCancelIsReachable`
  reaches it, and `RunmillRefusals.RefusalIsCleanInShortRuns` shows how far away it is.

## Model

| member | source | states |
|---|---|---|
| LinearCodec.DecodeMarkers | src/adapters/linear.rs:1317-1353 | the shrinking scan finds exactly the authenticated markers between prefix and suffix, in order |
| LinearCodec.DecodeBetween | src/adapters/linear.rs:1317-1353 | the same loop, for any pair of delimiters |
| LinearCodec.DecodeComment | src/adapters/linear.rs:1301-1353 | decoding prose followed by an encoded marker gives the prose's own markers and then that marker, unless the prose leaves a marker open, in which case the marker is lost |
| LinearCodec.PlainProse | src/adapters/linear.rs:1317-1353 | prose without the prefix holds no marker and leaves none open |
| LinearCodec.OpenProse | src/adapters/linear.rs:1317-1353 | prose with the prefix and without the suffix holds no marker and leaves one open |
| LinearCodec.MarkersAreCurrent | src/adapters/linear.rs:1317-1353 | only markers of version 1 are ever found |
| CodecSoundness.MarkersAreSigned | src/adapters/linear.rs:1317-1353 | on every body, each marker found stands there between prefix and suffix as a payload that says it, followed by the tag of that payload |
| CodecSoundness.CandidateMeans | src/adapters/linear.rs:1328-1350 | a candidate yields a marker if and only if it is a payload and that payload's own tag, of version 1 |
| CodecSoundness.WrongTagIsNothing | src/adapters/linear.rs:1336-1345 | a marker text with any other tag contributes nothing |
| CodecSoundness.ForgedCommentIsNothing | src/adapters/linear.rs:1317-1353 | a comment with nothing but a wrongly signed marker holds no marker |
| LinearCodec.DecodeToken | src/adapters/linear.rs:1228-1281 | a token decodes to its cursor for its own tenant and scope, and is refused for any other or when too long |
| LinearCodec.CursorRoundTrip | src/adapters/linear.rs:1200-1281 | an issued cursor reads back as itself if and only if its payload is short enough, a length the issuer can work out beforehand, and tenant and scope are the issuing ones |
| LinearCodec.TokenHasLength | src/adapters/linear.rs:1200-1226 | the exact length of a token from the lengths of payload and tag |
| LinearCodec.ReadableRange | src/adapters/linear.rs:1200-1281 | with a 32-byte tag the readable payloads are those of at most 6103 bytes |
| LinearCodec.LongCursorIsUnreadable | src/adapters/linear.rs:1200-1281 | cursors near the limit are issued and always refused on return |
| CodecSoundness.AcceptedTokenIsSigned | src/adapters/linear.rs:1228-1281 | every token that is accepted carries the tag of its own payload, for this tenant and scope |
| Base64Url.EncodedText | src/adapters/linear.rs:1200-1226 | encoded text uses only the base64url alphabet of section 5 of RFC 4648, so it never contains a delimiter |
| Base64Url.EncodedTextLength | src/adapters/linear.rs:1200-1226 | the exact length of encoded text |
| Base64Url.DigitsAreANumber | src/adapters/linear.rs:1200-1226 | four digits write the number that three bytes write, high end first |
| Base64Url.AlphabetInOrder | src/adapters/linear.rs:1200-1226 | the order of the alphabet, by character code |
| Base64Url.DecodeInvertsEncode | src/adapters/linear.rs:1200-1281 | decoding inverts encoding on every byte string |
| CloseText.CommentReadsBack | src/adapters/linear.rs:1392-1420 | the comment written for a request decodes to exactly that request's marker if and only if its prose holds no marker and leaves none open, or holds that very marker and leaves another open |
| CloseText.OpenCommentDecodes | src/adapters/linear.rs:1392-1420 | the comment written with open prose decodes as if it bore no marker |
| CloseText.OpenSummary | src/adapters/linear.rs:1392-1420 | every summary that mentions the marker prefix, in a closure without a closing bracket, makes open prose |
| CloseText.PrefixAsSummary | src/adapters/linear.rs:1392-1420 | for instance the prefix alone as the summary |
| CloseText.TrimCuts | src/adapters/linear.rs:1392-1420 | trimming cuts all whitespace off both ends and nothing else |
| CloseText.ProseInLines | src/adapters/linear.rs:1392-1420 | the prose of a close comment, line by line |
| LinearRead.QueryIssue | src/adapters/linear.rs:377-435 | the paged read succeeds exactly on one consistent listing within the page budget and returns the comments of the whole listing |
| LinearRead.WholeMeans | src/adapters/linear.rs:377-435 | what one whole listing is: one issue, bounded pages, a new cursor from each to the next, and an end |
| LinearClose.SignedMarkers | src/adapters/linear.rs:497-513 | the markers of all comments in order, or an error if a comment has no identifier |
| LinearClose.Scan | src/adapters/linear.rs:515-591 | the scan returns the first clash, else the first exact match, else nothing |
| LinearClose.SelectMeans | src/adapters/linear.rs:515-591 | nothing is found if and only if every marker is unrelated; a match is a marker judged exact and no marker clashes |
| LinearClose.MarkerForClose | src/adapters/linear.rs:515-554 | a close is refused by the first clashing marker of the issue, else goes by its first exact match, else by none |
| LinearClose.FirstComment | src/adapters/linear.rs:790-807 | the text of the comment of a first attempt, or the refusal: changed snapshot, missing or foreign pull request, unsafe link, oversized comment |
| LinearClose.CloseSource | src/adapters/linear.rs:757-861 | the whole call, in place on the provider's issue: new issue and answer under every weather |
| LinearClose.Provider.constructor | src/adapters/linear.rs:757-861 | the provider starts with the given issue |
| LinearClose.Provider.CommentCreate | src/adapters/linear.rs:809-825 | the comment is added unless the request was lost; the answer arrives unless the response was |
| LinearClose.Provider.IssueUpdate | src/adapters/linear.rs:834-850 | the issue moves to the completed state unless the request was lost; the answer arrives unless the response was |
| LinearRuns.CloseChanges | src/adapters/linear.rs:757-861 | a call changes the issue only by adding its own comment and then by completing it |
| LinearRuns.ForCloseMeans | src/adapters/linear.rs:515-554 | a close that is not refused finds only markers that are its own |
| LinearRuns.MarksAfterClose | src/adapters/linear.rs:757-861 | a call adds a marker only to an unmarked issue and completes only an issue that bears its own marker |
| LinearRuns.ExactlyOnce | src/adapters/linear.rs:757-884 | over every sequence of close and reconcile calls with any losses, at most one marker is ever written, markers stay, and every completion is of an issue bearing the completing request's marker |
| LinearRuns.LegibleMeans | src/adapters/linear.rs:1392-1420 | what the adapter would write reads back as the request's marker if and only if the prose reads back |
| LinearRuns.OnceExactlyIfReadsBack | src/adapters/linear.rs:757-861 | for every applied first comment, its response lost or not, and every further call: one comment and one marker, the request's own, if and only if the prose reads back |
| LinearRuns.RetryAfterLostComment | src/adapters/linear.rs:757-861 | a retry after a lost response writes again if and only if the first comment reads back as nothing |
| LinearRuns.OpenProseWritesTwice | src/adapters/linear.rs:757-861 | with open prose, a lost response and a retry leave two identical comments |
| LinearRuns.ClosedIssueAnswers | src/adapters/linear.rs:757-861 | a completed and marked issue is never changed; its own request is adopted, every other is refused |
| LinearRuns.AfterReconciliation | src/adapters/linear.rs:757-884 | after reconciliation finds the effect, the same request is adopted with no mutation and any other key is refused |
| LinearRuns.EverAfterReconciliation | src/adapters/linear.rs:757-884 | the same after any calls and comments in between, none of which writes a comment or changes the issue otherwise |
| LinearRuns.FinishCompletes | src/adapters/linear.rs:787-861 | an issue bearing the request's marker is completed by a call with no losses |
| LinearRuns.BeginCompletes | src/adapters/linear.rs:757-861 | a first call with no losses marks and completes the issue |
| LinearRuns.RetryCompletes | src/adapters/linear.rs:757-861 | after any ambiguous first attempt, a retry with no losses ends with one marker and the issue completed |
| LinearAnswers.CloseVerdictMeans | src/adapters/linear.rs:515-554 | which markers are the request's own, which clash with its idempotency and which with the state, by their fields |
| LinearAnswers.ReconcileVerdictMeans | src/adapters/linear.rs:556-591 | the same for a reconciliation, and which markers it passes over |
| LinearAnswers.WritesMeans | src/adapters/linear.rs:757-826 | a comment is written if and only if the request is valid and reaches an open, unmarked issue that is as expected |
| LinearAnswers.MovesMeans | src/adapters/linear.rs:757-861 | the issue is completed if and only if it is open and bears only the request's marker, or was just given it with the reply delivered |
| LinearAnswers.StateConflictMeans | src/adapters/linear.rs:757-808 | when an unmarked issue is refused as a conflict of state |
| LinearAnswers.ReceiptMeans | src/adapters/linear.rs:845-861 | every receipt is for its request at the issue's present revision; it says Applied if and only if the issue bore no marker before, Adopted if and only if it bore one |
| LinearAnswers.ReceiptIsDated | src/adapters/linear.rs:826-861 | the time on a receipt is that of the comment that bears the marker |
| LinearAnswers.AppliedOnce | src/adapters/linear.rs:757-861 | over every run at most one receipt says Applied, and none once the issue is marked |
| LinearAnswers.FoundMeans | src/adapters/linear.rs:863-884 | reconciliation finds the effect if and only if the issue is completed and its markers are the sought one or unrelated |
| SourceGateway.InMemoryLinearGateway.constructor | src/adapters/source.rs:194-311 | the gateway starts empty |
| SourceGateway.InMemoryLinearGateway.UpsertSnapshot | src/adapters/source.rs:62-95 | a new item is stored, the same revision changes nothing or conflicts, another revision joins the history unless the item is closed |
| SourceGateway.InMemoryLinearGateway.LoseNextCloseResponse | src/adapters/source.rs:99-101 | only the flag changes |
| SourceGateway.InMemoryLinearGateway.CloseSource | src/adapters/source.rs:194-311 | the atomic close: adoption, every refusal, and the effect, whose response alone may be lost |
| SourceGateway.InMemoryLinearGateway.ReconcileSourceClose | src/adapters/source.rs:313-345 | reconciliation changes nothing and answers from the recorded closes |
| SourceGateway.RunKeeps | src/adapters/source.rs:62-345 | in every run the closes, the markers and the closed items stay in bijection, closed items never change and history only grows |
| SourceGateway.OneCloseEach | src/adapters/source.rs:194-311 | in every run each item has at most one logical close, and closes of one item or with one marker are the same close |
| SourceGateway.CloseIsAnsweredForever | src/adapters/source.rs:194-345 | a close that took effect, its response lost or not, is adopted and found by every later call |
| SourceAnswers.UpsertMeans | src/adapters/source.rs:62-95 | a snapshot is taken in if and only if it is well formed and does not contradict what is known of its item |
| SourceAnswers.UpsertMakesCurrent | src/adapters/source.rs:62-95 | a new revision becomes current, the one before joins the history, and nothing else changes |
| SourceAnswers.CloseTakesEffectMeans | src/adapters/source.rs:194-311 | a close takes effect if and only if key and marker are unused and the item is open at the expected revision and digest |
| SourceAnswers.CloseEffect | src/adapters/source.rs:194-311 | the closed snapshot, the history, the receipt and the indexes it leaves |
| SourceAnswers.DispositionMeans | src/adapters/source.rs:194-311 | Applied if and only if the key was new, Adopted if and only if the same effect was recorded under it |
| SourceAnswers.ConflictMeans | src/adapters/source.rs:194-311 | which conflict each refusal reports |
| SourceAnswers.ReconcileMeans | src/adapters/source.rs:313-345 | when reconciliation finds, does not observe, or reports a conflict |
| SourceSimulation.FreshIsRelated | src/adapters/source.rs:62-95 | an unmarked issue and a gateway that has its snapshot are related |
| SourceSimulation.AtomicClose | src/adapters/source.rs:194-311 | the gateway closes the item for a request it expects |
| SourceSimulation.Simulates | src/adapters/linear.rs:757-861 | each two-phase call is a stutter or exactly one atomic close, the latter exactly when the issue becomes marked and completed |
| SourceSimulation.ReceiptsAgree | src/adapters/linear.rs:757-861 | every receipt agrees with the atomic gateway's on item, key, digest and marker |
| SourceSimulation.ReconciliationsAgree | src/adapters/linear.rs:863-884 | reconciliation finds the effect on one side if and only if on the other, with the same identity |
| SourceSimulation.RunsRefine | src/adapters/linear.rs:757-861 | every run of calls corresponds to at most one atomic close, and to one exactly if the issue became closed |
| SourceSimulation.ClosedStays | src/adapters/linear.rs:757-861 | no call changes a closed issue |
| Workflow.HandleRunStop | src/application/workflow.rs:344-448 | what each way a run can stop does to stage, retries, effects and accountability |
| Workflow.Apply | src/application/workflow.rs:180-342 | each fact in each stage: the transition or the refusal, performed on the owned state |
| WorkflowRuns.StepDescends | src/application/workflow.rs:180-448 | every accepted fact lowers a potential |
| WorkflowRuns.RunIsBounded | src/application/workflow.rs:180-448 | a run with A grants and M ambiguities accepts at most 8 + 5(max_retries + A) + M facts |
| WorkflowRuns.BoundIsAttained | src/application/workflow.rs:180-448 | for every limit, A and M some run attains that bound |
| WorkflowRuns.AttemptsAreAccounted | src/application/workflow.rs:191-384 | the attempt number is the number of reservations, at most 1 + max_retries + grants; each reservation but a pending one has exactly one submission |
| WorkflowRuns.NothingAfterStop | src/application/workflow.rs:191-384 | nothing is reserved or submitted once an item is escalated, quarantined or being cancelled |
| WorkflowRuns.StepIsAccountable | src/application/workflow.rs:139-448 | a transition keeps accountability and releases reservations exactly on ending |
| WorkflowRuns.RunIsAccountable | src/application/workflow.rs:180-448 | the same over every run, from any accountable state |
| WorkflowRuns.ReachableIsAccountable | src/application/workflow.rs:139-448 | in every reachable state the anchor matches stage and generation, a future wake time is there exactly for the kinds that wait, closing stages carry evidence, and reservations were released once or not at all |
| WorkflowRuns.TerminalIsAbsorbing | src/application/workflow.rs:180-342 | Closed and Cancelled accept no fact |
| WorkflowRuns.NeverStuck | src/application/workflow.rs:180-342 | some fact is accepted if and only if the item has not ended |
| WorkflowEffects.AcceptedMeans | src/application/workflow.rs:180-342 | a fact is accepted if and only if the stage awaits it and the generation can be counted up |
| WorkflowEffects.StepEmits | src/application/workflow.rs:180-448 | the one effect of a transition is the one that belongs to the stages left and entered and to the new state |
| WorkflowEffects.StepCarries | src/application/workflow.rs:180-448 | where each fact leads, and that state and effect carry what the fact reported |
| WorkflowEffects.EscalationBelongs | src/application/workflow.rs:245-448 | an escalation has the category and the reason that belong to what happened |
| WorkflowEffects.WakesInTime | src/application/workflow.rs:180-448 | the wake time of every stage |
| WorkflowEffects.AnchorBelongs | src/application/workflow.rs:180-448 | the kind and the reference of the anchor, by stage |
| WorkflowEffects.SourceIsClosedOnce | src/application/workflow.rs:234-262 | over every run the source is asked to close once, for the item's own evidence, if the item is closing or closed, and never otherwise |
| WorkflowEffects.SubmissionsAreEntries | src/application/workflow.rs:191-232 | over every run work is submitted once for each entry into Dispatching and reserved once for each into Authorizing |
| WorkflowEffects.LastEffectBelongs | src/application/workflow.rs:180-448 | in every reachable state the last effect belongs to the stage; in ObservingRun it observes the item's own run |
| WorkflowEffects.EscalatesOnce | src/application/workflow.rs:245-448 | over every run at most one escalation is opened, exactly one where the item is escalated or quarantined |
| Evaluation.ApplyThresholds | src/application/promotion.rs:923-1054 | exactly the threshold reasons are added |
| EvaluationEngine.CountSamples | src/application/promotion.rs:713-718 | the fold counts the samples under each identifier |
| EvaluationEngine.SiftSamples | src/application/promotion.rs:719-756 | references for all samples, one reason for each sample set aside, and the samples that count |
| EvaluationEngine.RaiseAlarms | src/application/promotion.rs:760-777 | the alarms of every sample that counts |
| EvaluationEngine.JudgeIncidents | src/application/promotion.rs:792-832 | the reasons of every incident |
| EvaluationEngine.Evaluate | src/application/promotion.rs:687-847 | the engine builds the report that is specified without its loops and without its sorting of the work |
| EvaluationEngine.ReportIsCanonical | src/application/promotion.rs:710-846 | any rearrangement of samples and incidents gives the identical report, duplicates and forgeries included |
| EvaluationEngine.RefsOfSorted | src/application/promotion.rs:711-725 | the references are those of all samples, in the one order of identifier and digest |
| EvaluationEngine.SaturatingIsCapped | src/application/promotion.rs:876-878 | the saturating total is the true total, capped |
| CleanReport.RateIsExact | src/application/promotion.rs:466-485 | within ten thousand observations no conversion fails and the rate is the exact quotient, at most 10000 |
| CleanReport.MeanIsExact | src/application/promotion.rs:872-885 | on valid samples no mean saturates or overflows |
| CleanReport.AggregateIsExact | src/application/promotion.rs:850-921 | the aggregate of valid samples always exists and each figure is exact |
| CleanReport.ThresholdReasonsMean | src/application/promotion.rs:923-1054 | there is no threshold reason if and only if every unrounded inequality holds |
| CleanReport.CleanMeans | src/application/promotion.rs:687-1054 | valid input always gets a report, and its reasons are empty if and only if all sample and incident conditions and all unrounded inequalities hold |
| Certificate.ReportExists | src/application/promotion.rs:687-708 | an input gets a report if and only if every bound is kept, in the fields of window, policy and thresholds |
| Certificate.CleanReportCertifies | src/application/promotion.rs:687-1054 | the reasons are empty if and only if every sample and incident is in order and, for each metric, the count of samples whose own measurement holds, or the sum of the amounts, meets the threshold of that name |
| Certificate.ThresholdsInFields | src/application/promotion.rs:850-1054 | the thresholds, as inequalities between counts and sums of named fields |
| Certificate.FiguresInFields | src/application/promotion.rs:850-921 | each figure of the aggregate is its own metric's share or mean, rounded down |
| Certificate.ReportLists | src/application/promotion.rs:711-846 | a report carries its scope, time and digests, and lists every sample and incident once, in order |
| Certificate.SoundInFields | src/application/promotion.rs:196-306 | when a sample is sound |
| HoldReasons.SampleReasonsSay | src/application/promotion.rs:719-777 | each kind of reason about a sample is given if and only if it is true of that sample |
| HoldReasons.IncidentSays | src/application/promotion.rs:798-832 | each kind of reason about an incident, likewise |
| HoldReasons.BelowMinimumSays | src/application/promotion.rs:940-1036 | a metric is reported below its minimum if and only if it is, with its own threshold and figure |
| HoldReasons.CountsSay | src/application/promotion.rs:928-939 | too few or too many samples, likewise |
| HoldReasons.MaximumsSay | src/application/promotion.rs:974-1018 | rework and means above their maximum, likewise |
| HoldReasons.ObservationsSay | src/application/promotion.rs:1038-1053 | too few applicable observations, likewise |
| Promotion.Decide | src/application/promotion.rs:1268-1363 | a hold with exactly the reasons of report, request and approval together, or a grant if there are none; an invalid policy is an error |
| Promotion.GrantedMeans | src/application/promotion.rs:1268-1379 | a promotion is granted if and only if the report is clean, the request is sound in exact durations, and the trusted owner signed exactly this promotion |
| Promotion.GrantSaysWhatWasSigned | src/application/promotion.rs:1251-1363 | every field of a grant is the field of the binding whose signature was verified, with rollback to the rung before |
| Promotion.NoGuardedMergeForHighRisk | src/application/promotion.rs:1177-1363 | no valid or issued grant gives guarded merge to a segment of high or critical risk |
| PromotionAnswers.HeldSays | src/application/promotion.rs:1268-1343 | a hold lists the report's reasons and exactly those that are true of the request |
| PromotionAnswers.ApprovalSays | src/application/promotion.rs:1312-1337 | what can be wrong with an approval |
| PromotionAnswers.ValidGrantMeans | src/application/promotion.rs:1177-1204 | when a grant is valid, in its fields |
| PromotionAnswers.ExpirationMeans | src/application/promotion.rs:1220-1234 | a valid grant rolls back exactly from its expiry on |
| PromotionAnswers.RollBackMeans | src/application/promotion.rs:1439-1461 | when an explicit rollback is decided, and what it says |
| PromotionAnswers.SafetyAnswers | src/application/promotion.rs:1487-1535 | the safety check answers if and only if samples and incidents are of the segment and not from the future |
| PromotionAnswers.DangersSay | src/application/promotion.rs:1501-1546 | the dangers of a sample and of an incident, by their fields |
| PromotionAnswers.DemotionSays | src/application/promotion.rs:1547-1566 | a demotion names the rung, the one below, the instant and every danger there is |
| Promotion.GrantPassesValidation | src/application/promotion.rs:1177-1218 | every grant on an engine report passes the grant's own validation and is in effect when decided |
| Promotion.ImmediateSafetyDecision | src/application/promotion.rs:1487-1566 | the safety decision from the two loops, with its refusals of foreign or future input |
| PromotionRuns.GrantCertifies | src/application/promotion.rs:687-1363 | a grant on an engine report certifies every count, sum and condition under the policy it was decided by |
| PromotionRuns.SafetyMeans | src/application/promotion.rs:1487-1566 | the rung is retained if and only if there is no danger and no safety incident at all |
| PromotionRuns.SafetyStopsPromotion | src/application/promotion.rs:687-1566 | a bad sample, an unresolved high-severity incident, a safety incident opened in the window or the high-risk rung rule always holds the promotion |
| PromotionRuns.PromotionHoldsExactlyInDanger | src/application/promotion.rs:687-1566 | an otherwise ready promotion is held if and only if one of those dangers is present |
| PromotionRuns.StaleIncidentDemotes | src/application/promotion.rs:687-1566 | on every input, a safety incident opened outside the window lowers the rung by one, or freezes the lowest, while the otherwise ready promotion is granted |
| PromotionRuns.StaleIncidentDemotesAndPromotes | src/application/promotion.rs:687-1566 | concrete input, for every notary and every owner who can sign, on which the safety check demotes the rung and the promotion from it is granted |
| PromotionRuns.MovesOneRung | src/application/promotion.rs:1211-1461 | a decision that applies moves exactly one rung, up for a grant and down otherwise |
| PromotionRuns.HeightIsAccounted | src/application/promotion.rs:1211-1566 | in every run the height is the start plus grants minus demotions |
| PromotionRuns.HighRiskNeverMerges | src/application/promotion.rs:1177-1566 | a high- or critical-risk segment that starts below guarded merge never reaches it |
| PromotionRuns.ExpiryEndsGrant | src/application/promotion.rs:1211-1234 | the effective rung and the expiry rollback agree at every instant |
| PromotionRuns.ExpiryUndoesGrant | src/application/promotion.rs:1211-1363 | granting and then expiring returns to the rung before the grant, and not before the expiry |
| RunmillPages.ValidatorIsExact | src/adapters/runmill_control.rs:1613-1718 | a page is accepted if and only if it is the honest answer of a log of that length, or with a gap, the honest non-empty answer of a log compacted beyond the cursor |
| RunmillPages.SaneMeans | src/adapters/runmill_control.rs:1613-1638 | of a page that answers the request, the other checks ask only for the run's version and its range |
| RunmillPages.IncrementsFit | src/adapters/runmill_control.rs:1043-1061 | within the request bounds no increment in the checks leaves a u64 |
| RunmillPages.ChainLosesNothing | src/adapters/runmill_control.rs:1644-1718 | a chain of accepted gap-free pages gives exactly the next events, in order, each once |
| RunmillPages.ChainAccountsForAll | src/adapters/runmill_control.rs:1644-1718 | with gaps, every number passed is delivered once or lies in a compacted stretch, never both |
| RunmillPages.PageAdvances | src/adapters/runmill_control.rs:1644-1718 | a page announcing more advances by exactly the limit; a page announcing none ends at the end of the log |
| RunmillPages.CatchUpLength | src/adapters/runmill_control.rs:1644-1718 | catching up with a log at rest takes exactly as many pages as the remaining events need at that limit |
| RunCursor.CursorRoundTrip | src/adapters/runmill.rs:635-656 | a cursor reads back as its offset exactly for its own run and a stream that long |
| RunCursor.CursorHasThreePieces | src/adapters/runmill.rs:635-640 | a cursor is schema, run and offset between colons |
| Decimal.ParseInvertsText | src/adapters/runmill.rs:635-656 | parsing inverts printing of every number that fits |
| Decimal.ParseMeans | src/adapters/runmill.rs:635-656 | exactly digits are read, after one plus sign at most |
| RunmillGateway.InMemoryRunmillGateway.SubmitWorkOrder | src/adapters/runmill.rs:319-397 | submission: adoption, conflict and acceptance, in place |
| RunmillGateway.InMemoryRunmillGateway.AppendEvent | src/adapters/runmill.rs:200-246 | appending an event, with its checks, in place |
| RunmillGateway.InMemoryRunmillGateway.AttachEvidence | src/adapters/runmill.rs:253-306 | attaching evidence that fits the run, in place, with the note that stays when the version is full |
| RunmillGateway.InMemoryRunmillGateway.CancelRun | src/adapters/runmill.rs:449-501 | cancellation: adoption, conflict, terminal runs and the effect |
| RunmillGateway.InMemoryRunmillGateway.AcknowledgeOutcome | src/adapters/runmill.rs:520-582 | acknowledgement of the attached evidence |
| RunmillAnswers.SubmitMeans | src/adapters/runmill.rs:319-397 | when a submission is accepted, adopted or in conflict |
| RunmillAnswers.SubmitCreates | src/adapters/runmill.rs:319-397 | the run a submission creates, as every lookup shows it |
| RunmillAnswers.AppendMeans | src/adapters/runmill.rs:200-246 | an event is appended if and only if it is new, the run's own and next in line, and what then changes |
| RunmillAnswers.AttachMeans | src/adapters/runmill.rs:253-306 | evidence is attached if and only if it is valid and the run's own, and what then changes |
| RunmillAnswers.AttachedCanBeAcknowledged | src/adapters/runmill.rs:253-582 | attached evidence can be acknowledged under its own payload digest and no other, and again only by adoption |
| RunmillAnswers.CancelMeans | src/adapters/runmill.rs:449-501 | a cancellation by what is recorded under its key and by the state of the run |
| RunmillAnswers.CancelNeeds | src/adapters/runmill.rs:449-501 | what a cancellation cannot do without |
| RunmillRuns.RunKeepsRegistry | src/adapters/runmill.rs:319-397 | in every run keys, attempts and runs stay in bijection |
| RunmillRuns.ReachableIsSound | src/adapters/runmill.rs:200-582 | both invariants hold in every reachable state |
| RunmillRuns.LookupsAgree | src/adapters/runmill.rs:399-420 | the three lookups of a run agree and find only what they name |
| RunmillRuns.RunsAreDistinct | src/adapters/runmill.rs:319-397 | two runs never share a key or an attempt |
| RunmillRuns.ResubmissionAdopts | src/adapters/runmill.rs:319-397 | an accepted submission is adopted ever after, with its run, and never creates another |
| RunmillRuns.QualifiedLookupIsExact | src/adapters/runmill.rs:592-632 | over every run of calls a qualification is found if and only if exactly it was accepted, by a worker with a name and a nonzero generation, and then with its own run |
| RunmillRuns.RunKeepsStreams | src/adapters/runmill.rs:200-246 | event identifiers stay globally unique, versions rise along each stream and the cursor points to its end |
| RunmillRuns.VersionCountsEffects | src/adapters/runmill.rs:200-582 | the aggregate version is one plus the appends and the effective cancellations, attachments and acknowledgements |
| RunmillRuns.PageAt | src/adapters/runmill.rs:422-447 | the page at any offset the stream has reached |
| RunmillRuns.CursorIsBoundToItsRun | src/adapters/runmill.rs:422-447 | a cursor is refused for another run whose name has the same length |
| RunmillRuns.ReaderHoldsAPrefix | src/adapters/runmill.rs:422-447 | a reader following cursors with any page sizes and any calls in between always succeeds and holds a prefix of the current stream |
| RunmillRuns.ReaderFromTheStart | src/adapters/runmill.rs:422-447 | in particular every reader that starts without a cursor in a reachable state |
| RunmillRefusals.RefusedAttachLeavesTrace | src/adapters/runmill.rs:253-306 | a refused attachment changes the state if and only if it passes its checks, the version is full and the evidence is news |
| RunmillRefusals.RefusedCancelLeavesTrace | src/adapters/runmill.rs:449-501 | a refused cancellation changes the state if and only if key and reason are there, the key is unused, the run is merely accepted and the version is full |
| RunmillRefusals.RefusedAcknowledgeLeavesTrace | src/adapters/runmill.rs:520-582 | a refused acknowledgement changes the state if and only if it passes its checks, the version is full and the run was not acknowledged |
| RunmillRefusals.RefusalLeavesTrace | src/adapters/runmill.rs:200-582 | the exact condition for every kind of call; submissions and appends never leave a trace |
| RunmillRefusals.RefusalIsCleanBelowLimit | src/adapters/runmill.rs:200-582 | below the version limit a refused call changes nothing |
| RunmillRefusals.RefusalIsCleanInShortRuns | src/adapters/runmill.rs:200-582 | after every run of fewer than 2^64 - 2 calls a refused call changes nothing |
| RunmillRefusals.RefusedCancelIsReachable | src/adapters/runmill.rs:253-501 | a run of submission and attachments after which a cancellation is refused and changes the state |
| Audit.VerifyAuditChain | src/audit.rs:161-204 | the loop accepts exactly the faultless chains and reports the first fault |
| Audit.AcceptedInFields | src/audit.rs:161-204 | acceptance, in the fields of the events |
| Audit.SummaryMeans | src/audit.rs:161-204 | the summary states the length, the first event and the last |
| Audit.PrefixIsAccepted | src/audit.rs:161-204 | every prefix of an accepted chain is accepted |
| Audit.AppendIsAccepted | src/audit.rs:161-204 | the exact condition for an event to extend an accepted chain |
| Audit.CreatedExtends | src/audit.rs:46-53 | a created event extends an accepted chain if and only if tenant, link and identifier are right |
| Audit.HeadCommitsHistory | src/audit.rs:161-204 | with an injective digest, accepted chains with equal head hashes are identical |
| Audit.SubchainIsPrefix | src/audit.rs:161-204 | a chain made of events of an accepted chain is accepted if and only if it is a prefix |
| Audit.CreateExport | src/audit.rs:92-102 | an export is made exactly of accepted chains, and is then valid |
| Audit.VerifyExport | src/audit.rs:104-129 | an export verifies if and only if it is valid |
| Audit.ExportMeans | src/audit.rs:104-129 | when an export is valid, in its fields |
| Audit.ExportIsDetermined | src/audit.rs:92-129 | the head hash determines every field of a valid export |
| Scheduler.CompareIsTotal | src/application/scheduler.rs:135-155 | at every instant the comparator is a total order, strict between different items |
| Scheduler.CompareMeans | src/application/scheduler.rs:135-155 | which candidate goes first: priority, then the earlier due date, then waiting time, then the identifier |
| Scheduler.RejectionsMean | src/application/scheduler.rs:44-73 | a candidate is eligible if and only if every gate is open, and every closed gate is reported |
| Scheduler.BonusInDays | src/application/scheduler.rs:30-40 | the bonus reaches a number of points exactly after as many whole days, up to twenty |
| Scheduler.EffectivePriorityMeans | src/application/scheduler.rs:30-40 | base and bonus together, capped at 120 |
| Scheduler.HeadIsChoice | src/application/scheduler.rs:108-132 | the head of the sorted eligible candidates is least among them |
| Scheduler.Select | src/application/scheduler.rs:108-132 | the selection is the least eligible candidate, with one evaluation for each candidate |
| Scheduler.ChoiceIsUnique | src/application/scheduler.rs:108-132 | the selection depends only on which candidates there are |
| Scheduler.AgedBeatsFresh | src/application/scheduler.rs:30-40 | a fully aged item precedes every item ready for less than a day with a base below its own plus twenty, and no item above that |
| Scheduler.AgedIsNotPassedOver | src/application/scheduler.rs:108-132 | a recent item selected over a fully aged one has a base at least twenty higher |
| Scheduler.AgedOrderIsFinal | src/application/scheduler.rs:30-40 | the order of two fully aged items never changes |

## Left out

- HTTP, GraphQL and Unix-socket transport, file and object storage, configuration and the API: I/O; only the applied, lost and delivered outcomes of Linear mutations are steps of the model.
- Cryptography and canonical JSON (RFC 8785): parameters with named assumptions.
- `observe_source` and intake paging of both source adapters: the same token and page shapes as modelled here, without a property of their own.
- Normalisation of issues and parsing of descriptions: a parameter of the connector.
- Field checks of work orders, event payloads, health details and control errors: each is settled by reading one branch.
- Work order text and the clock fields of the Runmill gateway: carried by nothing that is proved; run states that the in-memory gateway never sets are absent.
- Overlapping close calls on one issue: every call settles before the next.
- The JSON form of an audit export: only its fields and its validity are modelled.
- `src/adapters/forge.rs`, `src/adapters/github.rs`, `src/application/reconciliation.rs`, `src/application/policy.rs`, `src/application/readiness.rs`, `src/application/budgets.rs`, `src/application/attention.rs` and the role tables: smaller copies of the same shapes, or finite checks.
- EvaluationEngine.ReportIsCanonical: incidents are sorted by identifier and digest, so it assumes that no two incidents share a digest; samples need no such assumption.
- LinearRuns.ExactlyOnce: assumes of every admitted request that its prose reads back, because otherwise the property is false, and of comments by others that they bear no authenticated marker, because tags cannot be forged.
- LinearRuns.EverAfterReconciliation: nobody else edits the issue or adds a comment without an identifier in between.
- RunmillRuns.CursorIsBoundToItsRun: says nothing of runs whose names differ in length, because run identifiers are UUIDs.
