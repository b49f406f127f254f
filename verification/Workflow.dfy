/**
 The durable workflow reducer. `Step` gives each column of a transition (stage, effects,
 counters, accountability) as a function; `Apply` performs the transition on the owned state.

 Instants and durations are integers. `generation` is a checked u64; `attempt` is a u32 that
 wraps, as in a release build; `retries` never passes `maxRetries`, itself a u32.
 */
module Workflow {
  import opened Prelude

  const U32: nat := 0x1_0000_0000
  const I32_MAX: nat := 0x7FFF_FFFF
  const U64_MAX: nat := 0xFFFF_FFFF_FFFF_FFFF

  datatype Stage =
    | Accepted | WaitingSchedule | Authorizing | Dispatching | ObservingRun | VerifyingEvidence | ClosingSource
    | Closed | WaitingRetry | WaitingApproval | Escalated | Cancelling | Cancelled | Quarantined

  datatype Kind =
    ActiveWorkflow | ActiveRun | Timer | Retry | Approval | Escalation | VerifiedClosure | Cancellation

  datatype ApprovalType =
    | PlannerInterpretation | RiskImplementation | ProtectedPath | PullRequestDeliveryException
    | GuardedMerge | AmbiguousExternalEffect | BudgetIncrease | CancellationApproval

  datatype Category =
    | NeedsApproval | BlockedExternal | VerificationFailure | ReviewBlock | CiFailure
    | RemoteEffectAmbiguous | BudgetExhaustion | ProviderRefusal | Quarantine

  datatype RunStop =
    | EvidenceAvailable(evidence: Name)
    | RetryableFailure(reason: Name)
    | ApprovalRequired(approval: ApprovalType, reason: Name)
    | BudgetExhausted(reason: Name)
    | ProviderRefused(reason: Name)
    | VerificationFailed(reason: Name)
    | ReviewBlocked(reason: Name)
    | CiFailed(reason: Name)
    | AmbiguousRemoteEffect(reason: Name)
    | RunQuarantined(reason: Name)
    | RunCancelled

  datatype Fact =
    | ScheduleRequested | ScheduleGranted | WorkOrderStored(digest: Name) | SubmissionAccepted(run: Name)
    | SubmissionAmbiguous | RunStopped(stop: RunStop) | EvidenceValidated(evidence: Name)
    | EvidenceRejected(reason: Name) | SourceCloseConfirmed | SourceCloseAmbiguous | RetryDue
    | ApprovalGranted(approval: ApprovalType) | ApprovalRejected(reason: Name) | CancelRequested
    | CancellationConfirmed

  /** A reason as the escalation reports it. */
  datatype Reason = Plain(reason: Name) | RetryLimitReached(reason: Name)

  datatype Effect =
    | EnqueueScheduler | ReserveAndCreateAttempt | SubmitStoredWorkOrder | ObserveRun(run: Name)
    | ReconcileSubmission | FetchAndVerifyEvidence(evidence: Name) | ScheduleRetry(at: int, reason: Name)
    | RequestApproval(approval: ApprovalType, reason: Name) | OpenEscalation(category: Category, why: Reason)
    | CloseSource(evidence: Name) | ReconcileSourceClosure | RequestRunCancellation | ReleaseReservations

  /** What an anchor's reference text is built from. */
  datatype Reference =
    | WorkflowAccepted | SchedulerQueued | SchedulerRetry | SchedulerApproved | AttemptAuthorizing(attempt: nat)
    | OrderDigest(digest: Name) | Run(run: Name) | DispatchReconcile | EvidenceVerify(evidence: Name)
    | SourceClose(evidence: Name) | SourceCloseReconcile | ClosureEvidence(evidence: Name) | EvidenceMissing
    | RetryReference(count: nat, reason: Name) | ApprovalReference(approval: ApprovalType, reason: Name)
    | EscalationReference(category: Category) | EscalationVerificationFailed | EscalationApprovalRejected
    | CancellationRequested | CancelledReference | RunCancelledReference

  datatype Anchor = Anchor(item: Name, kind: Kind, reference: Reference, wake: Option<int>, generation: nat, updatedAt: int)

  datatype State = State(item: Name, stage: Stage, generation: nat, run: Option<Name>, evidence: Option<Name>,
                         attempt: nat, retries: nat, anchor: Anchor)

  datatype Reducer = Reducer(retryBackoff: int, escalationSla: int, approvalSla: int, maxRetries: nat)

  datatype Error = GenerationOverflow | InvalidTransition(from: Stage, fact: Fact)

  datatype Transition = Transition(state: State, effects: seq<Effect>)

  function Initial(item: Name, now: int): State {
    State(item, Accepted, 1, None, None, 0, 0, Anchor(item, ActiveWorkflow, WorkflowAccepted, None, 1, now))
  }

  // ------------------------------------------------- the columns of a transition

  predicate Cancellable(stage: Stage) {
    stage !in {ClosingSource, Closed, Cancelling, Cancelled}
  }

  predicate RetriesLeft(c: Reducer, s: State) {
    s.retries < c.maxRetries
  }

  function StopTarget(c: Reducer, s: State, stop: RunStop): Stage {
    match stop
    case EvidenceAvailable(_) => VerifyingEvidence
    case RetryableFailure(_) => if RetriesLeft(c, s) then WaitingRetry else Escalated
    case ApprovalRequired(_, _) => WaitingApproval
    case RunQuarantined(_) => Quarantined
    case RunCancelled => Cancelled
    case _ => Escalated
  }

  /** The stage a fact leads to, if the fact is legal. */
  function Target(c: Reducer, s: State, f: Fact): Option<Stage> {
    match f
    case ScheduleRequested => if s.stage == Accepted then Some(WaitingSchedule) else None
    case ScheduleGranted => if s.stage == WaitingSchedule then Some(Authorizing) else None
    case WorkOrderStored(_) => if s.stage == Authorizing then Some(Dispatching) else None
    case SubmissionAccepted(_) => if s.stage == Dispatching then Some(ObservingRun) else None
    case SubmissionAmbiguous => if s.stage == Dispatching then Some(Dispatching) else None
    case RunStopped(stop) => if s.stage == ObservingRun then Some(StopTarget(c, s, stop)) else None
    case EvidenceValidated(_) => if s.stage == VerifyingEvidence then Some(ClosingSource) else None
    case EvidenceRejected(_) => if s.stage == VerifyingEvidence then Some(Quarantined) else None
    case SourceCloseConfirmed => if s.stage == ClosingSource then Some(Closed) else None
    case SourceCloseAmbiguous => if s.stage == ClosingSource then Some(ClosingSource) else None
    case RetryDue => if s.stage == WaitingRetry then Some(WaitingSchedule) else None
    case ApprovalGranted(_) => if s.stage == WaitingApproval then Some(WaitingSchedule) else None
    case ApprovalRejected(_) => if s.stage == WaitingApproval then Some(Escalated) else None
    case CancelRequested => if Cancellable(s.stage) then Some(Cancelling) else None
    case CancellationConfirmed => if s.stage == Cancelling then Some(Cancelled) else None
  }

  function RetryAt(c: Reducer, s: State, now: int): int {
    now + c.retryBackoff * (if s.retries + 1 <= I32_MAX then s.retries + 1 else I32_MAX)
  }

  /** The escalation a run stop opens, if it opens one. */
  function StopEscalation(c: Reducer, s: State, stop: RunStop): Option<(Category, Reason)> {
    match stop
    case RetryableFailure(why) => if RetriesLeft(c, s) then None else Some((BlockedExternal, RetryLimitReached(why)))
    case BudgetExhausted(why) => Some((BudgetExhaustion, Plain(why)))
    case ProviderRefused(why) => Some((ProviderRefusal, Plain(why)))
    case VerificationFailed(why) => Some((VerificationFailure, Plain(why)))
    case ReviewBlocked(why) => Some((ReviewBlock, Plain(why)))
    case CiFailed(why) => Some((CiFailure, Plain(why)))
    case AmbiguousRemoteEffect(why) => Some((RemoteEffectAmbiguous, Plain(why)))
    case RunQuarantined(why) => Some((Quarantine, Plain(why)))
    case _ => None
  }

  function StopEffect(c: Reducer, s: State, stop: RunStop, now: int): Effect {
    match StopEscalation(c, s, stop)
    case Some((category, reason)) => OpenEscalation(category, reason)
    case None =>
      match stop
      case EvidenceAvailable(e) => FetchAndVerifyEvidence(e)
      case RetryableFailure(why) => ScheduleRetry(RetryAt(c, s, now), why)
      case ApprovalRequired(approval, why) => RequestApproval(approval, why)
      case _ => ReleaseReservations
  }

  /** Every accepted fact has exactly one effect. */
  function EffectOf(c: Reducer, s: State, f: Fact, now: int): Effect {
    match f
    case ScheduleRequested => EnqueueScheduler
    case ScheduleGranted => ReserveAndCreateAttempt
    case WorkOrderStored(_) => SubmitStoredWorkOrder
    case SubmissionAccepted(run) => ObserveRun(run)
    case SubmissionAmbiguous => ReconcileSubmission
    case RunStopped(stop) => StopEffect(c, s, stop, now)
    case EvidenceValidated(e) => CloseSource(e)
    case EvidenceRejected(why) => OpenEscalation(VerificationFailure, Plain(why))
    case SourceCloseConfirmed => ReleaseReservations
    case SourceCloseAmbiguous => ReconcileSourceClosure
    case RetryDue => EnqueueScheduler
    case ApprovalGranted(_) => EnqueueScheduler
    case ApprovalRejected(why) => OpenEscalation(NeedsApproval, Plain(why))
    case CancelRequested => RequestRunCancellation
    case CancellationConfirmed => ReleaseReservations
  }

  function KindOf(stage: Stage, f: Fact): Kind {
    if f == SubmissionAmbiguous || f == SourceCloseAmbiguous then Timer
    else
      match stage
      case ObservingRun => ActiveRun
      case WaitingRetry => Retry
      case WaitingApproval => Approval
      case Escalated => Escalation
      case Quarantined => Escalation
      case Closed => VerifiedClosure
      case Cancelled => Cancellation
      case _ => ActiveWorkflow
  }

  function WakeOf(c: Reducer, s: State, stage: Stage, f: Fact, now: int): Option<int> {
    match KindOf(stage, f)
    case Timer => Some(now + if f == SubmissionAmbiguous then 10 else 30)
    case Retry => Some(RetryAt(c, s, now))
    case Approval => Some(now + c.approvalSla)
    case Escalation => Some(now + c.escalationSla)
    case _ => None
  }

  function StopReference(c: Reducer, s: State, stop: RunStop): Reference {
    match StopEscalation(c, s, stop)
    case Some((category, _)) => EscalationReference(category)
    case None =>
      match stop
      case EvidenceAvailable(e) => EvidenceVerify(e)
      case RetryableFailure(why) => RetryReference(s.retries + 1, why)
      case ApprovalRequired(approval, why) => ApprovalReference(approval, why)
      case _ => RunCancelledReference
  }

  function ReferenceOf(c: Reducer, s: State, f: Fact): Reference {
    match f
    case ScheduleRequested => SchedulerQueued
    case ScheduleGranted => AttemptAuthorizing((s.attempt + 1) % U32)
    case WorkOrderStored(digest) => OrderDigest(digest)
    case SubmissionAccepted(run) => Run(run)
    case SubmissionAmbiguous => DispatchReconcile
    case RunStopped(stop) => StopReference(c, s, stop)
    case EvidenceValidated(e) => SourceClose(e)
    case EvidenceRejected(_) => EscalationVerificationFailed
    case SourceCloseConfirmed => if s.evidence.Some? then ClosureEvidence(s.evidence.value) else EvidenceMissing
    case SourceCloseAmbiguous => SourceCloseReconcile
    case RetryDue => SchedulerRetry
    case ApprovalGranted(_) => SchedulerApproved
    case ApprovalRejected(_) => EscalationApprovalRejected
    case CancelRequested => CancellationRequested
    case CancellationConfirmed => CancelledReference
  }

  function Step(c: Reducer, s: State, f: Fact, now: int): Result<Transition, Error> {
    if s.generation >= U64_MAX then Err(GenerationOverflow)
    else
      match Target(c, s, f)
      case None => Err(InvalidTransition(s.stage, f))
      case Some(stage) =>
        Ok(Transition(
             State(s.item, stage, s.generation + 1,
                   if f.SubmissionAccepted? then Some(f.run) else s.run,
                   if f.EvidenceValidated? then Some(f.evidence) else s.evidence,
                   if stage == Authorizing then (s.attempt + 1) % U32 else s.attempt,
                   if stage == WaitingRetry then s.retries + 1 else s.retries,
                   Anchor(s.item, KindOf(stage, f), ReferenceOf(c, s, f), WakeOf(c, s, stage, f, now),
                          s.generation + 1, now)),
             [EffectOf(c, s, f, now)]))
  }

  // ------------------------------------------------------ the reducer in place

  /** The pieces the reducer's match yields. */
  datatype Row = Row(stage: Stage, effects: seq<Effect>, kind: Kind, reference: Reference, wake: Option<int>)

  function EscalationRow(stage: Stage, category: Category, reason: Reason, deadline: int): Row {
    Row(stage, [OpenEscalation(category, reason)], Escalation, EscalationReference(category), Some(deadline))
  }

  method HandleRunStop(c: Reducer, s: State, stop: RunStop, now: int) returns (s': State, row: Row)
    ensures row == Row(StopTarget(c, s, stop), [StopEffect(c, s, stop, now)],
                       KindOf(StopTarget(c, s, stop), RunStopped(stop)), StopReference(c, s, stop),
                       WakeOf(c, s, StopTarget(c, s, stop), RunStopped(stop), now))
    ensures s' == if row.stage == WaitingRetry then s.(retries := s.retries + 1) else s
  {
    s' := s;
    var deadline := now + c.escalationSla;
    match stop
    case EvidenceAvailable(e) =>
      row := Row(VerifyingEvidence, [FetchAndVerifyEvidence(e)], ActiveWorkflow, EvidenceVerify(e), None);
    case RetryableFailure(why) =>
      if s'.retries < c.maxRetries {
        s' := s'.(retries := s'.retries + 1);
        var multiplier := if s'.retries <= I32_MAX then s'.retries else I32_MAX;
        var at := now + c.retryBackoff * multiplier;
        row := Row(WaitingRetry, [ScheduleRetry(at, why)], Retry, RetryReference(s'.retries, why), Some(at));
      } else {
        row := EscalationRow(Escalated, BlockedExternal, RetryLimitReached(why), deadline);
      }
    case ApprovalRequired(approval, why) =>
      row := Row(WaitingApproval, [RequestApproval(approval, why)], Approval, ApprovalReference(approval, why),
                 Some(now + c.approvalSla));
    case BudgetExhausted(why) => row := EscalationRow(Escalated, BudgetExhaustion, Plain(why), deadline);
    case ProviderRefused(why) => row := EscalationRow(Escalated, ProviderRefusal, Plain(why), deadline);
    case VerificationFailed(why) => row := EscalationRow(Escalated, VerificationFailure, Plain(why), deadline);
    case ReviewBlocked(why) => row := EscalationRow(Escalated, ReviewBlock, Plain(why), deadline);
    case CiFailed(why) => row := EscalationRow(Escalated, CiFailure, Plain(why), deadline);
    case AmbiguousRemoteEffect(why) => row := EscalationRow(Escalated, RemoteEffectAmbiguous, Plain(why), deadline);
    case RunQuarantined(why) => row := EscalationRow(Quarantined, Quarantine, Plain(why), deadline);
    case RunCancelled => row := Row(Cancelled, [ReleaseReservations], Cancellation, RunCancelledReference, None);
  }

  method Apply(c: Reducer, state: State, f: Fact, now: int) returns (r: Result<Transition, Error>)
    ensures r == Step(c, state, f, now)
  {
    var s := state;
    var current := s.stage;
    if s.generation >= U64_MAX { return Err(GenerationOverflow); }
    s := s.(generation := s.generation + 1);
    var row;
    match f {
      case ScheduleRequested =>
        if current != Accepted { return Err(InvalidTransition(current, f)); }
        row := Row(WaitingSchedule, [EnqueueScheduler], ActiveWorkflow, SchedulerQueued, None);
      case ScheduleGranted =>
        if current != WaitingSchedule { return Err(InvalidTransition(current, f)); }
        s := s.(attempt := (s.attempt + 1) % U32);
        row := Row(Authorizing, [ReserveAndCreateAttempt], ActiveWorkflow, AttemptAuthorizing(s.attempt), None);
      case WorkOrderStored(digest) =>
        if current != Authorizing { return Err(InvalidTransition(current, f)); }
        row := Row(Dispatching, [SubmitStoredWorkOrder], ActiveWorkflow, OrderDigest(digest), None);
      case SubmissionAccepted(run) =>
        if current != Dispatching { return Err(InvalidTransition(current, f)); }
        s := s.(run := Some(run));
        row := Row(ObservingRun, [ObserveRun(run)], ActiveRun, Run(run), None);
      case SubmissionAmbiguous =>
        if current != Dispatching { return Err(InvalidTransition(current, f)); }
        row := Row(Dispatching, [ReconcileSubmission], Timer, DispatchReconcile, Some(now + 10));
      case RunStopped(stop) =>
        if current != ObservingRun { return Err(InvalidTransition(current, f)); }
        s, row := HandleRunStop(c, s, stop, now);
      case EvidenceValidated(e) =>
        if current != VerifyingEvidence { return Err(InvalidTransition(current, f)); }
        s := s.(evidence := Some(e));
        row := Row(ClosingSource, [CloseSource(e)], ActiveWorkflow, SourceClose(e), None);
      case EvidenceRejected(why) =>
        if current != VerifyingEvidence { return Err(InvalidTransition(current, f)); }
        row := Row(Quarantined, [OpenEscalation(VerificationFailure, Plain(why))], Escalation,
                   EscalationVerificationFailed, Some(now + c.escalationSla));
      case SourceCloseConfirmed =>
        if current != ClosingSource { return Err(InvalidTransition(current, f)); }
        row := Row(Closed, [ReleaseReservations], VerifiedClosure,
                   if s.evidence.Some? then ClosureEvidence(s.evidence.value) else EvidenceMissing, None);
      case SourceCloseAmbiguous =>
        if current != ClosingSource { return Err(InvalidTransition(current, f)); }
        row := Row(ClosingSource, [ReconcileSourceClosure], Timer, SourceCloseReconcile, Some(now + 30));
      case RetryDue =>
        if current != WaitingRetry { return Err(InvalidTransition(current, f)); }
        row := Row(WaitingSchedule, [EnqueueScheduler], ActiveWorkflow, SchedulerRetry, None);
      case ApprovalGranted(_) =>
        if current != WaitingApproval { return Err(InvalidTransition(current, f)); }
        row := Row(WaitingSchedule, [EnqueueScheduler], ActiveWorkflow, SchedulerApproved, None);
      case ApprovalRejected(why) =>
        if current != WaitingApproval { return Err(InvalidTransition(current, f)); }
        row := Row(Escalated, [OpenEscalation(NeedsApproval, Plain(why))], Escalation,
                   EscalationApprovalRejected, Some(now + c.escalationSla));
      case CancellationConfirmed =>
        if current != Cancelling { return Err(InvalidTransition(current, f)); }
        row := Row(Cancelled, [ReleaseReservations], Cancellation, CancelledReference, None);
      case CancelRequested =>
        if !Cancellable(current) { return Err(InvalidTransition(current, f)); }
        row := Row(Cancelling, [RequestRunCancellation], ActiveWorkflow, CancellationRequested, None);
    }
    s := s.(stage := row.stage);
    s := s.(anchor := Anchor(s.item, row.kind, row.reference, row.wake, s.generation, now));
    return Ok(Transition(s, row.effects));
  }
}
