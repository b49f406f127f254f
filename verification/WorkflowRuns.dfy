/** What holds over every run of accepted facts from a freshly accepted work item. */
module WorkflowRuns {
  import opened Prelude
  import opened Workflow

  datatype Input = Input(fact: Fact, now: int)

  /** Is every fact of the run accepted? */
  predicate Runs(c: Reducer, s: State, ins: seq<Input>)
    decreases |ins|
  {
    ins == [] ||
    (Step(c, s, ins[0].fact, ins[0].now).Ok? && Runs(c, Step(c, s, ins[0].fact, ins[0].now).value.state, ins[1..]))
  }

  function End(c: Reducer, s: State, ins: seq<Input>): State
    requires Runs(c, s, ins)
    decreases |ins|
  {
    if ins == [] then s else End(c, Step(c, s, ins[0].fact, ins[0].now).value.state, ins[1..])
  }

  /** How often an effect is emitted over a run. */
  function Emitted(c: Reducer, s: State, ins: seq<Input>, e: Effect): nat
    requires Runs(c, s, ins)
    decreases |ins|
  {
    if ins == [] then 0
    else
      var t := Step(c, s, ins[0].fact, ins[0].now).value;
      multiset(t.effects)[e] + Emitted(c, t.state, ins[1..], e)
  }

  function Grants(ins: seq<Input>): nat {
    if ins == [] then 0 else (if ins[0].fact.ApprovalGranted? then 1 else 0) + Grants(ins[1..])
  }

  predicate IsAmbiguity(f: Fact) {
    f == SubmissionAmbiguous || f == SourceCloseAmbiguous
  }

  function Ambiguities(ins: seq<Input>): nat {
    if ins == [] then 0 else (if IsAmbiguity(ins[0].fact) then 1 else 0) + Ambiguities(ins[1..])
  }

  // ------------------------------------------------------------ termination

  /** Facts still possible from a stage without another retry, grant or ambiguity. */
  function Rank(stage: Stage): nat {
    match stage
    case Accepted => 8
    case WaitingRetry => 8
    case WaitingSchedule => 7
    case Authorizing => 6
    case Dispatching => 5
    case ObservingRun => 4
    case VerifyingEvidence => 3
    case WaitingApproval => 3
    case Escalated => 2
    case Quarantined => 2
    case ClosingSource => 1
    case Cancelling => 1
    case Closed => 0
    case Cancelled => 0
  }

  /** The potential: what the stage allows, and five facts for each retry and grant still to come. */
  function Potential(c: Reducer, s: State, grants: nat, ambiguities: nat): int {
    Rank(s.stage) + 5 * (c.maxRetries - s.retries + grants) + ambiguities
  }

  /** Every accepted fact lowers the potential, and keeps the retry count within its limit. */
  lemma StepDescends(c: Reducer, s: State, f: Fact, now: int, grants: nat, ambiguities: nat)
    requires Step(c, s, f, now).Ok? && s.retries <= c.maxRetries
    requires f.ApprovalGranted? ==> grants > 0
    requires IsAmbiguity(f) ==> ambiguities > 0
    ensures var s' := Step(c, s, f, now).value.state;
            && s'.retries <= c.maxRetries
            && Potential(c, s', if f.ApprovalGranted? then grants - 1 else grants,
                         if IsAmbiguity(f) then ambiguities - 1 else ambiguities)
               < Potential(c, s, grants, ambiguities)
  {
  }

  lemma {:induction false} RunDescends(c: Reducer, s: State, ins: seq<Input>)
    requires Runs(c, s, ins) && s.retries <= c.maxRetries
    ensures End(c, s, ins).retries <= c.maxRetries
    ensures |ins| + Potential(c, End(c, s, ins), 0, 0) <= Potential(c, s, Grants(ins), Ambiguities(ins))
    decreases |ins|
  {
    if ins != [] {
      var s' := Step(c, s, ins[0].fact, ins[0].now).value.state;
      StepDescends(c, s, ins[0].fact, ins[0].now, Grants(ins), Ambiguities(ins));
      RunDescends(c, s', ins[1..]);
    }
  }

  /** Termination: the number of facts a work item can accept. */
  lemma RunIsBounded(c: Reducer, item: Name, at: int, ins: seq<Input>)
    requires Runs(c, Initial(item, at), ins)
    ensures |ins| <= 8 + 5 * (c.maxRetries + Grants(ins)) + Ambiguities(ins)
  {
    RunDescends(c, Initial(item, at), ins);
  }

  // ------------------------------------------------- the bound is attained

  function Repeat(f: Fact, n: nat): seq<Input> {
    if n == 0 then [] else [Input(f, 0)] + Repeat(f, n - 1)
  }

  /** From WaitingSchedule: every retry, then every grant, then the longest way out. */
  function Longest(retries: nat, grants: nat, ambiguities: nat): seq<Input>
    decreases retries + grants
  {
    if retries > 0 then Cycle(RetryableFailure(1), RetryDue) + Longest(retries - 1, grants, ambiguities)
    else if grants > 0 then
      Cycle(ApprovalRequired(ProtectedPath, 1), ApprovalGranted(ProtectedPath)) + Longest(0, grants - 1, ambiguities)
    else Dispatch() + Repeat(SubmissionAmbiguous, ambiguities) + LastLeg()
  }

  lemma {:induction false} RunsAppend(c: Reducer, s: State, a: seq<Input>, b: seq<Input>)
    requires Runs(c, s, a)
    ensures Runs(c, s, a + b) <==> Runs(c, End(c, s, a), b)
    ensures Runs(c, s, a + b) ==> End(c, s, a + b) == End(c, End(c, s, a), b)
    ensures Grants(a + b) == Grants(a) + Grants(b) && Ambiguities(a + b) == Ambiguities(a) + Ambiguities(b)
    decreases |a|
  {
    if a == [] {
      assert a + b == b;
    } else {
      assert (a + b)[1..] == a[1..] + b;
      RunsAppend(c, Step(c, s, a[0].fact, a[0].now).value.state, a[1..], b);
    }
  }

  lemma {:induction false} RepeatRuns(c: Reducer, s: State, n: nat)
    requires s.stage == Dispatching && s.generation + n <= U64_MAX
    ensures Runs(c, s, Repeat(SubmissionAmbiguous, n))
    ensures var t := End(c, s, Repeat(SubmissionAmbiguous, n));
            t.stage == Dispatching && t.generation == s.generation + n
    ensures |Repeat(SubmissionAmbiguous, n)| == n
    ensures Grants(Repeat(SubmissionAmbiguous, n)) == 0 && Ambiguities(Repeat(SubmissionAmbiguous, n)) == n
    decreases n
  {
    if n > 0 {
      var ins := Repeat(SubmissionAmbiguous, n);
      assert ins[1..] == Repeat(SubmissionAmbiguous, n - 1);
      RepeatRuns(c, Step(c, s, SubmissionAmbiguous, 0).value.state, n - 1);
    }
  }

  /** Putting one accepted fact in front of a run. */
  lemma RunsCons(c: Reducer, s: State, f: Fact, rest: seq<Input>)
    requires Step(c, s, f, 0).Ok? && Runs(c, Step(c, s, f, 0).value.state, rest)
    ensures var ins := [Input(f, 0)] + rest;
            && Runs(c, s, ins) && End(c, s, ins) == End(c, Step(c, s, f, 0).value.state, rest)
            && Grants(ins) == (if f.ApprovalGranted? then 1 else 0) + Grants(rest)
            && Ambiguities(ins) == (if IsAmbiguity(f) then 1 else 0) + Ambiguities(rest)
  {
    hide Step;
    var ins := [Input(f, 0)] + rest;
    assert ins[0] == Input(f, 0) && ins[1..] == rest;
  }

  lemma StepTo(c: Reducer, s: State, f: Fact, to: Stage)
    requires s.generation < U64_MAX && Target(c, s, f) == Some(to)
    ensures var r := Step(c, s, f, 0);
            && r.Ok? && r.value.state.stage == to && r.value.state.generation == s.generation + 1
            && r.value.state.retries == s.retries + if to == WaitingRetry then 1 else 0
  {
  }

  function Cycle(stop: RunStop, again: Fact): seq<Input> {
    [Input(ScheduleGranted, 0)] + ([Input(WorkOrderStored(1), 0)] + ([Input(SubmissionAccepted(1), 0)]
    + ([Input(RunStopped(stop), 0)] + ([Input(again, 0)] + []))))
  }

  /** One trip from WaitingSchedule to ObservingRun and back by two further facts. */
  lemma CycleRuns(c: Reducer, s: State, stop: RunStop, again: Fact)
    requires s.stage == WaitingSchedule && s.generation + 5 <= U64_MAX
    requires || (stop == RetryableFailure(1) && again == RetryDue && s.retries < c.maxRetries)
             || (stop == ApprovalRequired(ProtectedPath, 1) && again == ApprovalGranted(ProtectedPath))
    ensures var ins := Cycle(stop, again);
            && Runs(c, s, ins)
            && End(c, s, ins).stage == WaitingSchedule && End(c, s, ins).generation == s.generation + 5
            && End(c, s, ins).retries == s.retries + (if stop.RetryableFailure? then 1 else 0)
            && Grants(ins) == (if again.ApprovalGranted? then 1 else 0) && Ambiguities(ins) == 0
  {
    hide Step, Runs, End, Grants, Ambiguities;
    StepTo(c, s, ScheduleGranted, Authorizing);
    var s1 := Step(c, s, ScheduleGranted, 0).value.state;
    StepTo(c, s1, WorkOrderStored(1), Dispatching);
    var s2 := Step(c, s1, WorkOrderStored(1), 0).value.state;
    StepTo(c, s2, SubmissionAccepted(1), ObservingRun);
    var s3 := Step(c, s2, SubmissionAccepted(1), 0).value.state;
    StepTo(c, s3, RunStopped(stop), if stop.RetryableFailure? then WaitingRetry else WaitingApproval);
    var s4 := Step(c, s3, RunStopped(stop), 0).value.state;
    StepTo(c, s4, again, WaitingSchedule);
    var i4 := [Input(again, 0)] + [];
    var i3 := [Input(RunStopped(stop), 0)] + i4;
    var i2 := [Input(SubmissionAccepted(1), 0)] + i3;
    NoFacts(c, Step(c, s4, again, 0).value.state);
    RunsCons(c, s4, again, []);
    RunsCons(c, s3, RunStopped(stop), i4);
    RunsCons(c, s2, SubmissionAccepted(1), i3);
    RunsCons(c, s1, WorkOrderStored(1), i2);
    RunsCons(c, s, ScheduleGranted, [Input(WorkOrderStored(1), 0)] + i2);
  }

  lemma NoFacts(c: Reducer, s: State)
    ensures Runs(c, s, []) && End(c, s, []) == s && Grants([]) == 0 && Ambiguities([]) == 0
  {
  }

  function LastLeg(): seq<Input> {
    [Input(SubmissionAccepted(1), 0)] + ([Input(RunStopped(EvidenceAvailable(1)), 0)]
    + ([Input(EvidenceRejected(1), 0)] + ([Input(CancelRequested, 0)] + ([Input(CancellationConfirmed, 0)] + []))))
  }

  lemma LastLegRuns(c: Reducer, s: State)
    requires s.stage == Dispatching && s.generation + 5 <= U64_MAX
    ensures Runs(c, s, LastLeg()) && Grants(LastLeg()) == 0 && Ambiguities(LastLeg()) == 0
  {
    hide Step, Runs, End, Grants, Ambiguities;
    StepTo(c, s, SubmissionAccepted(1), ObservingRun);
    var s1 := Step(c, s, SubmissionAccepted(1), 0).value.state;
    StepTo(c, s1, RunStopped(EvidenceAvailable(1)), VerifyingEvidence);
    var s2 := Step(c, s1, RunStopped(EvidenceAvailable(1)), 0).value.state;
    StepTo(c, s2, EvidenceRejected(1), Quarantined);
    var s3 := Step(c, s2, EvidenceRejected(1), 0).value.state;
    StepTo(c, s3, CancelRequested, Cancelling);
    var s4 := Step(c, s3, CancelRequested, 0).value.state;
    StepTo(c, s4, CancellationConfirmed, Cancelled);
    var i4 := [Input(CancellationConfirmed, 0)] + [];
    var i3 := [Input(CancelRequested, 0)] + i4;
    var i2 := [Input(EvidenceRejected(1), 0)] + i3;
    NoFacts(c, Step(c, s4, CancellationConfirmed, 0).value.state);
    RunsCons(c, s4, CancellationConfirmed, []);
    RunsCons(c, s3, CancelRequested, i4);
    RunsCons(c, s2, EvidenceRejected(1), i3);
    RunsCons(c, s1, RunStopped(EvidenceAvailable(1)), i2);
    RunsCons(c, s, SubmissionAccepted(1), [Input(RunStopped(EvidenceAvailable(1)), 0)] + i2);
  }

  function Dispatch(): seq<Input> {
    [Input(ScheduleGranted, 0)] + ([Input(WorkOrderStored(1), 0)] + [])
  }

  lemma DispatchRuns(c: Reducer, s: State)
    requires s.stage == WaitingSchedule && s.generation + 2 <= U64_MAX
    ensures && Runs(c, s, Dispatch()) && Grants(Dispatch()) == 0 && Ambiguities(Dispatch()) == 0
            && End(c, s, Dispatch()).stage == Dispatching && End(c, s, Dispatch()).generation == s.generation + 2
  {
    var s1 := Step(c, s, ScheduleGranted, 0).value.state;
    NoFacts(c, Step(c, s1, WorkOrderStored(1), 0).value.state);
    RunsCons(c, s1, WorkOrderStored(1), []);
    RunsCons(c, s, ScheduleGranted, [Input(WorkOrderStored(1), 0)] + []);
  }

  lemma {:induction false} LongestRuns(c: Reducer, s: State, retries: nat, grants: nat, ambiguities: nat)
    requires s.stage == WaitingSchedule && s.retries + retries <= c.maxRetries
    requires s.generation + 7 + 5 * (retries + grants) + ambiguities <= U64_MAX
    ensures var ins := Longest(retries, grants, ambiguities);
            && Runs(c, s, ins) && |ins| == 7 + 5 * (retries + grants) + ambiguities
            && Grants(ins) == grants && Ambiguities(ins) == ambiguities
    decreases retries + grants
  {
    hide Step, Runs, End, Grants, Ambiguities;
    if retries > 0 {
      var cycle := Cycle(RetryableFailure(1), RetryDue);
      CycleRuns(c, s, RetryableFailure(1), RetryDue);
      LongestRuns(c, End(c, s, cycle), retries - 1, grants, ambiguities);
      RunsAppend(c, s, cycle, Longest(retries - 1, grants, ambiguities));
    } else if grants > 0 {
      var cycle := Cycle(ApprovalRequired(ProtectedPath, 1), ApprovalGranted(ProtectedPath));
      CycleRuns(c, s, ApprovalRequired(ProtectedPath, 1), ApprovalGranted(ProtectedPath));
      LongestRuns(c, End(c, s, cycle), 0, grants - 1, ambiguities);
      RunsAppend(c, s, cycle, Longest(0, grants - 1, ambiguities));
    } else {
      var wait := Repeat(SubmissionAmbiguous, ambiguities);
      DispatchRuns(c, s);
      RepeatRuns(c, End(c, s, Dispatch()), ambiguities);
      RunsAppend(c, s, Dispatch(), wait);
      LastLegRuns(c, End(c, s, Dispatch() + wait));
      RunsAppend(c, s, Dispatch() + wait, LastLeg());
    }
  }

  /** The bound is exact: some run attains it, for every limit and every number of grants and ambiguities. */
  lemma BoundIsAttained(c: Reducer, item: Name, at: int, grants: nat, ambiguities: nat)
    requires 9 + 5 * (c.maxRetries + grants) + ambiguities <= U64_MAX
    ensures exists ins :: Runs(c, Initial(item, at), ins) && Grants(ins) == grants && Ambiguities(ins) == ambiguities
                          && |ins| == 8 + 5 * (c.maxRetries + grants) + ambiguities
  {
    var s := Initial(item, at);
    var first := [Input(ScheduleRequested, 0)];
    var rest := Longest(c.maxRetries, grants, ambiguities);
    assert first[1..] == [];
    assert Runs(c, s, first);
    LongestRuns(c, End(c, s, first), c.maxRetries, grants, ambiguities);
    RunsAppend(c, s, first, rest);
    assert Runs(c, s, first + rest) && |first + rest| == 8 + 5 * (c.maxRetries + grants) + ambiguities;
  }

  // ---------------------------------------------------- attempt accounting

  /** Stages of an attempt that has been reserved and not yet given back to the scheduler. */
  predicate HasAttempt(stage: Stage) {
    stage in {Authorizing, Dispatching, ObservingRun, VerifyingEvidence, ClosingSource, Closed, WaitingApproval,
              Escalated, Quarantined}
  }

  predicate IsCancelled(stage: Stage) {
    stage == Cancelling || stage == Cancelled
  }

  /** The books of a run: reservations and submissions so far, and grants so far. */
  predicate Books(s: State, reserved: nat, submitted: nat, grants: nat) {
    && s.attempt == reserved % U32
    && submitted <= reserved
    && (s.stage == Authorizing ==> submitted < reserved)
    && (!IsCancelled(s.stage) ==> reserved == submitted + if s.stage == Authorizing then 1 else 0)
    && (!IsCancelled(s.stage) ==> reserved == s.retries + grants + if HasAttempt(s.stage) then 1 else 0)
    && reserved <= s.retries + grants + 1
  }

  lemma StepBooks(c: Reducer, s: State, f: Fact, now: int, reserved: nat, submitted: nat, grants: nat)
    requires Step(c, s, f, now).Ok? && Books(s, reserved, submitted, grants)
    ensures var t := Step(c, s, f, now).value;
            Books(t.state, reserved + multiset(t.effects)[ReserveAndCreateAttempt],
                  submitted + multiset(t.effects)[SubmitStoredWorkOrder],
                  grants + if f.ApprovalGranted? then 1 else 0)
  {
  }

  lemma {:induction false} RunBooks(c: Reducer, s: State, ins: seq<Input>, reserved: nat, submitted: nat, grants: nat)
    requires Runs(c, s, ins) && Books(s, reserved, submitted, grants)
    ensures Books(End(c, s, ins), reserved + Emitted(c, s, ins, ReserveAndCreateAttempt),
                  submitted + Emitted(c, s, ins, SubmitStoredWorkOrder), grants + Grants(ins))
    decreases |ins|
  {
    hide Step;
    if ins != [] {
      var t := Step(c, s, ins[0].fact, ins[0].now).value;
      StepBooks(c, s, ins[0].fact, ins[0].now, reserved, submitted, grants);
      RunBooks(c, t.state, ins[1..], reserved + multiset(t.effects)[ReserveAndCreateAttempt],
               submitted + multiset(t.effects)[SubmitStoredWorkOrder],
               grants + if ins[0].fact.ApprovalGranted? then 1 else 0);
    }
  }

  /**
   Attempt accounting over every run: the attempt number is the number of reservations, which is
   bounded by the retries and grants, and no work order is submitted without its reservation.
   */
  lemma AttemptsAreAccounted(c: Reducer, item: Name, at: int, ins: seq<Input>)
    requires Runs(c, Initial(item, at), ins)
    ensures var s := Initial(item, at);
            var reserved := Emitted(c, s, ins, ReserveAndCreateAttempt);
            && End(c, s, ins).attempt == reserved % U32
            && reserved <= 1 + c.maxRetries + Grants(ins)
            && (1 + c.maxRetries + Grants(ins) < U32 ==> End(c, s, ins).attempt == reserved)
            && Emitted(c, s, ins, SubmitStoredWorkOrder) <= reserved
            && (!IsCancelled(End(c, s, ins).stage) ==>
                  reserved == Emitted(c, s, ins, SubmitStoredWorkOrder)
                              + if End(c, s, ins).stage == Authorizing then 1 else 0)
            && (!IsCancelled(End(c, s, ins).stage) ==>
                  reserved == End(c, s, ins).retries + Grants(ins) + if HasAttempt(End(c, s, ins).stage) then 1 else 0)
  {
    hide Step;
    RunBooks(c, Initial(item, at), ins, 0, 0, 0);
    RunDescends(c, Initial(item, at), ins);
  }

  predicate IsStopped(stage: Stage) {
    stage in {Escalated, Quarantined, Cancelling, Cancelled, Closed}
  }

  /** Nothing is reserved or submitted once the item is escalated, quarantined or being cancelled. */
  lemma {:induction false} NothingAfterStop(c: Reducer, s: State, ins: seq<Input>)
    requires Runs(c, s, ins) && IsStopped(s.stage)
    ensures Emitted(c, s, ins, ReserveAndCreateAttempt) == 0 && Emitted(c, s, ins, SubmitStoredWorkOrder) == 0
    ensures IsStopped(End(c, s, ins).stage)
    decreases |ins|
  {
    if ins != [] {
      NothingAfterStop(c, Step(c, s, ins[0].fact, ins[0].now).value.state, ins[1..]);
    }
  }

  // ------------------------------------------------------- accountability

  predicate IsWaiting(kind: Kind) {
    kind in {Timer, Retry, Approval, Escalation}
  }

  predicate IsTerminal(stage: Stage) {
    stage == Closed || stage == Cancelled
  }

  /** The anchor answers what will move the item next. */
  predicate Accountable(s: State) {
    && s.anchor.item == s.item
    && s.anchor.generation == s.generation
    && (s.anchor.wake.Some? <==> IsWaiting(s.anchor.kind))
    && (s.anchor.wake.Some? ==> s.anchor.wake.value > s.anchor.updatedAt)
    && (s.stage == ObservingRun ==> s.run.Some? && s.anchor.kind == ActiveRun)
    && (s.stage in {ClosingSource, Closed} ==> s.evidence.Some?)
    && (s.stage == Closed <==> s.anchor.kind == VerifiedClosure)
    && (s.stage == Closed ==> s.anchor.reference == ClosureEvidence(s.evidence.value))
    && (s.stage == Cancelled <==> s.anchor.kind == Cancellation)
    && s.anchor.reference != EvidenceMissing
  }

  predicate PositiveDurations(c: Reducer) {
    c.retryBackoff > 0 && c.escalationSla > 0 && c.approvalSla > 0
  }

  lemma RetryIsLater(c: Reducer, s: State, now: int)
    requires c.retryBackoff > 0
    ensures RetryAt(c, s, now) > now
  {
    var n := if s.retries + 1 <= I32_MAX then s.retries + 1 else I32_MAX;
    assert c.retryBackoff * n >= c.retryBackoff;
  }

  lemma StepIsAccountable(c: Reducer, s: State, f: Fact, now: int)
    requires PositiveDurations(c) && Accountable(s) && Step(c, s, f, now).Ok?
    ensures var t := Step(c, s, f, now).value;
            && Accountable(t.state) && t.state.generation == s.generation + 1 && !IsTerminal(s.stage)
            && multiset(t.effects)[ReleaseReservations] == if IsTerminal(t.state.stage) then 1 else 0
  {
    RetryIsLater(c, s, now);
  }

  /**
   Every reachable state is accountable, its generation counts the facts, and reservations have
   been released exactly once if the item has ended and not at all if it has not.
   */
  lemma {:induction false} RunIsAccountable(c: Reducer, s: State, ins: seq<Input>)
    requires PositiveDurations(c) && Accountable(s) && Runs(c, s, ins)
    ensures Accountable(End(c, s, ins))
    ensures End(c, s, ins).generation == s.generation + |ins|
    ensures Emitted(c, s, ins, ReleaseReservations) ==
            if IsTerminal(End(c, s, ins).stage) && !IsTerminal(s.stage) then 1 else 0
    decreases |ins|
  {
    hide Step;
    if ins != [] {
      StepIsAccountable(c, s, ins[0].fact, ins[0].now);
      var t := Step(c, s, ins[0].fact, ins[0].now).value;
      RunIsAccountable(c, t.state, ins[1..]);
      if IsTerminal(t.state.stage) { TerminalIsAbsorbing(c, t.state, ins[1..]); }
    }
  }

  /** Closed and Cancelled accept nothing. */
  lemma TerminalIsAbsorbing(c: Reducer, s: State, ins: seq<Input>)
    requires IsTerminal(s.stage) && Runs(c, s, ins)
    ensures ins == []
  {
  }

  lemma ReachableIsAccountable(c: Reducer, item: Name, at: int, ins: seq<Input>)
    requires PositiveDurations(c) && Runs(c, Initial(item, at), ins)
    ensures var s := Initial(item, at);
            && Accountable(End(c, s, ins))
            && End(c, s, ins).generation == 1 + |ins|
            && Emitted(c, s, ins, ReleaseReservations) == if IsTerminal(End(c, s, ins).stage) then 1 else 0
  {
    RunIsAccountable(c, Initial(item, at), ins);
  }

  /** Progress: from every state that has not ended, some fact is accepted. */
  lemma NeverStuck(c: Reducer, s: State, now: int)
    requires s.generation < U64_MAX
    ensures (exists f :: Step(c, s, f, now).Ok?) <==> !IsTerminal(s.stage)
  {
    if s.stage == ClosingSource {
      assert Step(c, s, SourceCloseConfirmed, now).Ok?;
    } else if s.stage == Cancelling {
      assert Step(c, s, CancellationConfirmed, now).Ok?;
    } else if !IsTerminal(s.stage) {
      assert Step(c, s, CancelRequested, now).Ok?;
    }
  }
}
