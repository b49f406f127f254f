/**
 What the workflow asks the world to do. Every statement is by the stage an item leaves and the stage it
 enters and by the fields of its new state; none goes by the transition table.
 */
module WorkflowEffects {
  import opened Prelude
  import opened Workflow
  import opened WorkflowRuns

  // -------------------------------------------------------- what is accepted

  /** The facts a stage is waiting for. */
  predicate Awaits(stage: Stage, f: Fact) {
    match stage
    case Accepted => f.ScheduleRequested? || f.CancelRequested?
    case WaitingSchedule => f.ScheduleGranted? || f.CancelRequested?
    case Authorizing => f.WorkOrderStored? || f.CancelRequested?
    case Dispatching => f.SubmissionAccepted? || f.SubmissionAmbiguous? || f.CancelRequested?
    case ObservingRun => f.RunStopped? || f.CancelRequested?
    case VerifyingEvidence => f.EvidenceValidated? || f.EvidenceRejected? || f.CancelRequested?
    case ClosingSource => f.SourceCloseConfirmed? || f.SourceCloseAmbiguous?
    case WaitingRetry => f.RetryDue? || f.CancelRequested?
    case WaitingApproval => f.ApprovalGranted? || f.ApprovalRejected? || f.CancelRequested?
    case Escalated => f.CancelRequested?
    case Quarantined => f.CancelRequested?
    case Cancelling => f.CancellationConfirmed?
    case Closed => false
    case Cancelled => false
  }

  /** A fact is accepted exactly if the stage awaits it and the generation can be counted up. */
  lemma AcceptedMeans(c: Reducer, s: State, f: Fact, now: int)
    ensures Step(c, s, f, now).Ok? <==> s.generation < U64_MAX && Awaits(s.stage, f)
    ensures Step(c, s, f, now).Err? ==>
              Step(c, s, f, now).error ==
              if s.generation >= U64_MAX then GenerationOverflow else InvalidTransition(s.stage, f)
  {
  }

  // -------------------------------------------------- what a transition emits

  /** The one effect of a transition, from its two stages and the new state. */
  predicate EmitsByStage(s: State, t: State, e: Effect) {
    match t.stage
    case Accepted => false
    case WaitingSchedule => e == EnqueueScheduler
    case Authorizing => e == ReserveAndCreateAttempt
    case Dispatching => e == if s.stage == Dispatching then ReconcileSubmission else SubmitStoredWorkOrder
    case ObservingRun => t.run.Some? && e == ObserveRun(t.run.value)
    case VerifyingEvidence => e.FetchAndVerifyEvidence? && t.anchor.reference == EvidenceVerify(e.evidence)
    case ClosingSource =>
      t.evidence.Some? && e == if s.stage == ClosingSource then ReconcileSourceClosure else CloseSource(t.evidence.value)
    case WaitingRetry =>
      && e.ScheduleRetry? && t.anchor.wake == Some(e.at) && t.anchor.reference == RetryReference(t.retries, e.reason)
    case WaitingApproval =>
      e.RequestApproval? && t.anchor.reference == ApprovalReference(e.approval, e.reason)
    case Escalated => e.OpenEscalation?
    case Quarantined => e.OpenEscalation?
    case Cancelling => e == RequestRunCancellation
    case Closed => e == ReleaseReservations
    case Cancelled => e == ReleaseReservations
  }

  lemma StepEmits(c: Reducer, s: State, f: Fact, now: int)
    requires Step(c, s, f, now).Ok? && (s.stage == ClosingSource ==> s.evidence.Some?)
    ensures |Step(c, s, f, now).value.effects| == 1
    ensures EmitsByStage(s, Step(c, s, f, now).value.state, Step(c, s, f, now).value.effects[0])
  {
  }

  predicate IsFailure(stop: RunStop) {
    || stop.BudgetExhausted? || stop.ProviderRefused? || stop.VerificationFailed? || stop.ReviewBlocked?
    || stop.CiFailed? || stop.AmbiguousRemoteEffect? || stop.RunQuarantined?
  }

  /** The effect and the new state carry what the fact reported, and nothing else of the item changes. */
  lemma StepCarries(c: Reducer, s: State, f: Fact, now: int)
    requires Step(c, s, f, now).Ok?
    ensures var t, e := Step(c, s, f, now).value.state, Step(c, s, f, now).value.effects[0];
            && t.item == s.item && t.generation == s.generation + 1
            && (f.SubmissionAccepted? ==> t.stage == ObservingRun && t.run == Some(f.run))
            && (!f.SubmissionAccepted? ==> t.run == s.run)
            && (f.EvidenceValidated? ==> t.stage == ClosingSource && t.evidence == Some(f.evidence))
            && (!f.EvidenceValidated? ==> t.evidence == s.evidence)
            && (t.attempt != s.attempt ==> t.stage == Authorizing)
            && t.retries == s.retries + (if t.stage == WaitingRetry then 1 else 0)
            && (f.RunStopped? && f.stop.EvidenceAvailable? ==>
                  t.stage == VerifyingEvidence && e == FetchAndVerifyEvidence(f.stop.evidence))
            && (f.RunStopped? && f.stop.ApprovalRequired? ==>
                  t.stage == WaitingApproval && e == RequestApproval(f.stop.approval, f.stop.reason))
            && (f.RunStopped? && f.stop.RetryableFailure? && s.retries < c.maxRetries ==>
                  t.stage == WaitingRetry && e.ScheduleRetry? && e.reason == f.stop.reason)
            && (f.RunStopped? && f.stop.RunCancelled? ==> t.stage == Cancelled)
            && (f.RunStopped? && IsFailure(f.stop) ==> e.OpenEscalation?)
            && (f.RunStopped? && f.stop.RetryableFailure? && s.retries >= c.maxRetries ==> e.OpenEscalation?)
            && (f.EvidenceRejected? || f.ApprovalRejected? ==> e.OpenEscalation?)
            && (f.SourceCloseConfirmed? ==> t.stage == Closed)
            && (f.ScheduleRequested? || f.RetryDue? || f.ApprovalGranted? ==> t.stage == WaitingSchedule)
            && (f.ScheduleGranted? ==> t.stage == Authorizing && t.attempt == (s.attempt + 1) % 0x1_0000_0000)
            && (f.SubmissionAmbiguous? || f.SourceCloseAmbiguous? ==> t.stage == s.stage)
            && (f.CancelRequested? ==> t.stage == Cancelling) && (f.CancellationConfirmed? ==> t.stage == Cancelled)
            && (f.WorkOrderStored? ==> t.stage == Dispatching && t.anchor.reference == OrderDigest(f.digest))
  {
  }

  /** An escalation is of the category, and for the reason, that belongs to what happened. */
  lemma EscalationBelongs(c: Reducer, s: State, f: Fact, now: int, category: Category, why: Reason)
    requires Step(c, s, f, now).Ok?
    ensures var t, e := Step(c, s, f, now).value.state, Step(c, s, f, now).value.effects[0];
            e == OpenEscalation(category, why) ==>
            && (category == BudgetExhaustion <==> f.RunStopped? && f.stop.BudgetExhausted?)
            && (category == ProviderRefusal <==> f.RunStopped? && f.stop.ProviderRefused?)
            && (category == ReviewBlock <==> f.RunStopped? && f.stop.ReviewBlocked?)
            && (category == CiFailure <==> f.RunStopped? && f.stop.CiFailed?)
            && (category == RemoteEffectAmbiguous <==> f.RunStopped? && f.stop.AmbiguousRemoteEffect?)
            && (category == Quarantine <==> f.RunStopped? && f.stop.RunQuarantined?)
            && (category == BlockedExternal <==> f.RunStopped? && f.stop.RetryableFailure? && s.retries >= c.maxRetries)
            && (category == VerificationFailure <==>
                  (f.RunStopped? && f.stop.VerificationFailed?) || f.EvidenceRejected?)
            && (category == NeedsApproval <==> f.ApprovalRejected?)
    ensures var t, e := Step(c, s, f, now).value.state, Step(c, s, f, now).value.effects[0];
            e == OpenEscalation(category, why) ==>
            && (t.stage == Quarantined <==> category == Quarantine || f.EvidenceRejected?)
            && (t.stage == Escalated <==> category != Quarantine && !f.EvidenceRejected?)
            && (category == BlockedExternal ==> why == RetryLimitReached(f.stop.reason))
            && (category != BlockedExternal ==> why == Plain(if f.RunStopped? then f.stop.reason else f.reason))
            && (s.stage == ObservingRun ==> t.anchor.reference == EscalationReference(category))
  {
  }

  /** When the item is to be looked at again. */
  lemma WakesInTime(c: Reducer, s: State, f: Fact, now: int)
    requires Step(c, s, f, now).Ok?
    ensures var t := Step(c, s, f, now).value.state;
            && t.anchor.updatedAt == now && t.anchor.generation == t.generation && t.anchor.item == t.item
            && t.anchor.wake ==
               match t.stage {
                 case Dispatching => if s.stage == Dispatching then Some(now + 10) else None
                 case ClosingSource => if s.stage == ClosingSource then Some(now + 30) else None
                 case WaitingRetry =>
                   Some(now + c.retryBackoff * if t.retries <= 0x7FFF_FFFF then t.retries else 0x7FFF_FFFF)
                 case WaitingApproval => Some(now + c.approvalSla)
                 case Escalated => Some(now + c.escalationSla)
                 case Quarantined => Some(now + c.escalationSla)
                 case _ => None
               }
  {
  }

  /** Where a source close is under way or done, there is evidence for it. */
  predicate IsBacked(s: State) {
    s.stage in {ClosingSource, Closed} ==> s.evidence.Some?
  }

  /** What the anchor says the item is waiting for, by the stages. */
  lemma AnchorBelongs(c: Reducer, s: State, f: Fact, now: int)
    requires Step(c, s, f, now).Ok? && IsBacked(s)
    ensures var t := Step(c, s, f, now).value.state;
            && t.anchor.kind ==
               (match t.stage {
                  case Dispatching => if s.stage == Dispatching then Timer else ActiveWorkflow
                  case ClosingSource => if s.stage == ClosingSource then Timer else ActiveWorkflow
                  case ObservingRun => ActiveRun
                  case WaitingRetry => Retry
                  case WaitingApproval => Approval
                  case Escalated => Escalation
                  case Quarantined => Escalation
                  case Closed => VerifiedClosure
                  case Cancelled => Cancellation
                  case _ => ActiveWorkflow
                })
            && (t.stage == Authorizing ==> t.anchor.reference == AttemptAuthorizing(t.attempt))
            && (t.stage == ObservingRun ==> t.run.Some? && t.anchor.reference == Run(t.run.value))
            && (t.stage == Dispatching && s.stage == Dispatching ==> t.anchor.reference == DispatchReconcile)
            && (t.stage == ClosingSource ==>
                  t.evidence.Some? && t.anchor.reference ==
                  if s.stage == ClosingSource then SourceCloseReconcile else SourceClose(t.evidence.value))
            && (t.stage == Closed ==> t.evidence.Some? && t.anchor.reference == ClosureEvidence(t.evidence.value))
            && (t.stage == WaitingSchedule ==>
                  t.anchor.reference == if s.stage == WaitingRetry then SchedulerRetry
                                        else if s.stage == WaitingApproval then SchedulerApproved
                                        else SchedulerQueued)
            && (t.stage == Cancelling ==> t.anchor.reference == CancellationRequested)
            && (t.stage == Cancelled ==>
                  t.anchor.reference == if s.stage == Cancelling then CancelledReference else RunCancelledReference)
            && (t.stage == Quarantined && s.stage == VerifyingEvidence ==>
                  t.anchor.reference == EscalationVerificationFailed)
            && (t.stage == Escalated && s.stage == WaitingApproval ==> t.anchor.reference == EscalationApprovalRejected)
  {
  }

  // ------------------------------------------------------------- over a run

  /** The effects of a run, in order. */
  function Trace(c: Reducer, s: State, ins: seq<Input>): seq<Effect>
    requires Runs(c, s, ins)
    decreases |ins|
  {
    if ins == [] then []
    else
      var t := Step(c, s, ins[0].fact, ins[0].now).value;
      t.effects + Trace(c, t.state, ins[1..])
  }

  /** How often a run enters a stage from another one. */
  function Entries(c: Reducer, s: State, ins: seq<Input>, stage: Stage): nat
    requires Runs(c, s, ins)
    decreases |ins|
  {
    if ins == [] then 0
    else
      var t := Step(c, s, ins[0].fact, ins[0].now).value.state;
      (if t.stage == stage && s.stage != stage then 1 else 0) + Entries(c, t, ins[1..], stage)
  }

  predicate IsClosingFor(s: State, evidence: Name) {
    s.stage in {ClosingSource, Closed} && s.evidence == Some(evidence)
  }

  lemma StepClosesSource(c: Reducer, s: State, f: Fact, now: int, evidence: Name)
    requires Step(c, s, f, now).Ok? && IsBacked(s)
    ensures var t := Step(c, s, f, now).value;
            && IsBacked(t.state)
            && (IsClosingFor(s, evidence) ==> IsClosingFor(t.state, evidence))
            && multiset(t.effects)[CloseSource(evidence)] ==
               if IsClosingFor(t.state, evidence) && !IsClosingFor(s, evidence) then 1 else 0
  {
  }

  lemma {:induction false} RunClosesSource(c: Reducer, s: State, ins: seq<Input>, evidence: Name)
    requires Runs(c, s, ins) && IsBacked(s)
    ensures IsBacked(End(c, s, ins)) && (IsClosingFor(s, evidence) ==> IsClosingFor(End(c, s, ins), evidence))
    ensures Emitted(c, s, ins, CloseSource(evidence)) ==
            if IsClosingFor(End(c, s, ins), evidence) && !IsClosingFor(s, evidence) then 1 else 0
    decreases |ins|
  {
    hide Step, IsBacked, IsClosingFor;
    if ins != [] {
      StepClosesSource(c, s, ins[0].fact, ins[0].now, evidence);
      RunClosesSource(c, Step(c, s, ins[0].fact, ins[0].now).value.state, ins[1..], evidence);
    }
  }

  /** The source is asked to close exactly once, for the item's own evidence, and only on the way to being closed. */
  lemma SourceIsClosedOnce(c: Reducer, item: Name, at: int, ins: seq<Input>, evidence: Name)
    requires Runs(c, Initial(item, at), ins)
    ensures var s := Initial(item, at);
            var e := End(c, s, ins);
            && (e.stage in {ClosingSource, Closed} ==> e.evidence.Some?)
            && Emitted(c, s, ins, CloseSource(evidence)) ==
               if e.stage in {ClosingSource, Closed} && e.evidence == Some(evidence) then 1 else 0
  {
    RunClosesSource(c, Initial(item, at), ins, evidence);
  }

  lemma StepSubmits(c: Reducer, s: State, f: Fact, now: int)
    requires Step(c, s, f, now).Ok?
    ensures var t := Step(c, s, f, now).value;
            && multiset(t.effects)[SubmitStoredWorkOrder] == (if t.state.stage == Dispatching && s.stage != Dispatching then 1 else 0)
            && multiset(t.effects)[ReserveAndCreateAttempt] == (if t.state.stage == Authorizing && s.stage != Authorizing then 1 else 0)
  {
  }

  /** Work is submitted once for each entry into Dispatching, and reserved once for each into Authorizing. */
  lemma {:induction false} SubmissionsAreEntries(c: Reducer, s: State, ins: seq<Input>)
    requires Runs(c, s, ins)
    ensures Emitted(c, s, ins, SubmitStoredWorkOrder) == Entries(c, s, ins, Dispatching)
    ensures Emitted(c, s, ins, ReserveAndCreateAttempt) == Entries(c, s, ins, Authorizing)
    decreases |ins|
  {
    hide Step;
    if ins != [] {
      StepSubmits(c, s, ins[0].fact, ins[0].now);
      SubmissionsAreEntries(c, Step(c, s, ins[0].fact, ins[0].now).value.state, ins[1..]);
    }
  }

  /** The last step of a run. */
  lemma {:induction false} LastStep(c: Reducer, s: State, ins: seq<Input>)
    requires Runs(c, s, ins) && ins != []
    ensures var n := |ins| - 1;
            && Runs(c, s, ins[..n])
            && var before := End(c, s, ins[..n]);
            && Step(c, before, ins[n].fact, ins[n].now).Ok?
            && End(c, s, ins) == Step(c, before, ins[n].fact, ins[n].now).value.state
            && Trace(c, s, ins) == Trace(c, s, ins[..n]) + Step(c, before, ins[n].fact, ins[n].now).value.effects
    decreases |ins|
  {
    hide Step;
    var n := |ins| - 1;
    var t := Step(c, s, ins[0].fact, ins[0].now).value;
    if n == 0 {
      assert ins[..0] == [] && ins[1..] == [];
      assert Trace(c, t.state, []) == [];
    } else {
      LastStep(c, t.state, ins[1..]);
      assert ins[1..][..n - 1] == ins[..n][1..];
      assert ins[1..][n - 1] == ins[n];
      assert Runs(c, s, ins[..n]);
    }
  }

  lemma {:induction false} RunIsBacked(c: Reducer, s: State, ins: seq<Input>)
    requires Runs(c, s, ins) && IsBacked(s)
    ensures IsBacked(End(c, s, ins))
  {
    RunClosesSource(c, s, ins, BLANK);
  }

  /** In every reachable state the last effect is the one that belongs to the stage and to how it was entered. */
  lemma LastEffectBelongs(c: Reducer, item: Name, at: int, ins: seq<Input>)
    requires Runs(c, Initial(item, at), ins) && ins != []
    ensures var s := Initial(item, at);
            && |Trace(c, s, ins)| > 0 && Runs(c, s, ins[..|ins| - 1])
            && var last := Trace(c, s, ins)[|Trace(c, s, ins)| - 1];
            && EmitsByStage(End(c, s, ins[..|ins| - 1]), End(c, s, ins), last)
            && (End(c, s, ins).stage == ObservingRun ==>
                  End(c, s, ins).run.Some? && last == ObserveRun(End(c, s, ins).run.value))
  {
    hide Step, Runs, End, Trace;
    var s := Initial(item, at);
    LastStep(c, s, ins);
    var before := End(c, s, ins[..|ins| - 1]);
    RunIsBacked(c, s, ins[..|ins| - 1]);
    StepEmits(c, before, ins[|ins| - 1].fact, ins[|ins| - 1].now);
  }

  // ------------------------------------------------------------ escalations

  function Escalations(c: Reducer, s: State, ins: seq<Input>): nat
    requires Runs(c, s, ins)
    decreases |ins|
  {
    if ins == [] then 0
    else
      var t := Step(c, s, ins[0].fact, ins[0].now).value;
      (if t.effects[0].OpenEscalation? then 1 else 0) + Escalations(c, t.state, ins[1..])
  }

  predicate IsEscalated(stage: Stage) {
    stage == Escalated || stage == Quarantined
  }

  lemma StepEscalates(c: Reducer, s: State, f: Fact, now: int)
    requires Step(c, s, f, now).Ok?
    ensures var t := Step(c, s, f, now).value;
            && (t.effects[0].OpenEscalation? <==> IsEscalated(t.state.stage))
            && (IsEscalated(s.stage) ==> t.state.stage == Cancelling)
            && (s.stage == Cancelling ==> t.state.stage == Cancelled)
  {
  }

  lemma {:induction false} NoMoreEscalations(c: Reducer, s: State, ins: seq<Input>)
    requires Runs(c, s, ins) && (IsEscalated(s.stage) || IsCancelled(s.stage))
    ensures Escalations(c, s, ins) == 0
    ensures End(c, s, ins).stage == s.stage || IsCancelled(End(c, s, ins).stage)
    decreases |ins|
  {
    if s.stage == Cancelled {
      TerminalIsAbsorbing(c, s, ins);
    } else if ins != [] {
      StepEscalates(c, s, ins[0].fact, ins[0].now);
      hide Step;
      NoMoreEscalations(c, Step(c, s, ins[0].fact, ins[0].now).value.state, ins[1..]);
    }
  }

  /** Over every run at most one escalation is opened: one where the item is escalated, none where it is still on its way. */
  lemma {:induction false} EscalatesOnce(c: Reducer, s: State, ins: seq<Input>)
    requires Runs(c, s, ins) && !IsEscalated(s.stage) && !IsCancelled(s.stage)
    ensures Escalations(c, s, ins) <= 1
    ensures IsEscalated(End(c, s, ins).stage) ==> Escalations(c, s, ins) == 1
    ensures !IsEscalated(End(c, s, ins).stage) && !IsCancelled(End(c, s, ins).stage) ==> Escalations(c, s, ins) == 0
    decreases |ins|
  {
    if ins != [] {
      StepEscalates(c, s, ins[0].fact, ins[0].now);
      hide Step;
      var t := Step(c, s, ins[0].fact, ins[0].now).value.state;
      if IsEscalated(t.stage) || IsCancelled(t.stage) {
        NoMoreEscalations(c, t, ins[1..]);
      } else {
        EscalatesOnce(c, t, ins[1..]);
      }
    }
  }
}
