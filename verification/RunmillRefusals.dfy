/** Which refused calls of the Runmill gateway leave a trace, and that it takes a full version counter. */
module RunmillRefusals {
  import opened Prelude
  import opened RunmillGateway
  import opened RunmillRuns

  predicate Refused(w: Worker, s: State, c: Call) {
    match c
    case DoSubmit(q, newRun) => Submit(w, s, q, newRun).1.Err?
    case DoAppend(run, e) => Append(w, s, run, e).1.Err?
    case DoAttach(run, e) => Attach(w, s, run, e).1.Err?
    case DoCancel(r) => Cancel(s, r).1.Err?
    case DoAcknowledge(r) => Acknowledge(s, r).1.Err?
  }

  predicate AtLimit(s: State, run: Name) {
    run in s.runs && s.runs[run].snapshot.version >= U64_MAX
  }

  /** The evidence passes every check and is news to the run. */
  predicate EvidenceIsNews(w: Worker, s: State, run: Name, e: Evidence)
    requires run in s.runs
  {
    var x := s.runs[run].snapshot;
    && w.evidenceIsValid(e) && e.run == run && e.attempt == x.attempt && e.digest == x.digest
    && e.worker == x.worker && e.generation == x.generation
    && (x.evidenceDigest != Some(e.payloadDigest) || (e.targetSatisfied && x.state != TargetReached))
  }

  predicate CancelIsNews(s: State, r: CancelRequest)
    requires r.run in s.runs
  {
    r.key != BLANK && r.reason != BLANK && (r.run, r.key) !in s.cancels && s.runs[r.run].snapshot.state == RunAccepted
  }

  predicate AcknowledgementIsNews(s: State, r: AckRequest)
    requires r.run in s.runs
  {
    var record := s.runs[r.run];
    && r.key != BLANK && r.evidenceDigest != BLANK && (r.run, r.key) !in s.acks
    && record.evidence.Some? && record.evidence.value.payloadDigest == r.evidenceDigest
    && !record.snapshot.acknowledged
  }

  predicate LeavesTrace(w: Worker, s: State, c: Call) {
    match c
    case DoSubmit(_, _) => false
    case DoAppend(_, _) => false
    case DoAttach(run, e) => AtLimit(s, run) && EvidenceIsNews(w, s, run, e)
    case DoCancel(r) => AtLimit(s, r.run) && CancelIsNews(s, r)
    case DoAcknowledge(r) => AtLimit(s, r.run) && AcknowledgementIsNews(s, r)
  }

  /** A refused write-back changes the state exactly if it changes the snapshot. */
  lemma PutChanges(s: State, run: Name, x: Snapshot)
    requires run in s.runs
    ensures PutRecord(s, run, s.runs[run].(snapshot := x)) == s <==> x == s.runs[run].snapshot
  {
    if x == s.runs[run].snapshot {
      assert s.runs[run := s.runs[run]] == s.runs;
    } else {
      assert PutRecord(s, run, s.runs[run].(snapshot := x)).runs[run] != s.runs[run];
    }
  }

  lemma RefusedAttachLeavesTrace(w: Worker, s: State, run: Name, e: Evidence)
    ensures Attach(w, s, run, e).1.Err? && Attach(w, s, run, e).0 != s <==> LeavesTrace(w, s, DoAttach(run, e))
  {
    if run in s.runs {
      var x := s.runs[run].snapshot;
      PutChanges(s, run, x.(evidenceDigest := Some(e.payloadDigest),
                            state := if e.targetSatisfied then TargetReached else x.state));
      hide PutRecord;
    }
  }

  lemma RefusedCancelLeavesTrace(w: Worker, s: State, r: CancelRequest)
    ensures Cancel(s, r).1.Err? && Cancel(s, r).0 != s <==> LeavesTrace(w, s, DoCancel(r))
  {
    if r.run in s.runs {
      PutChanges(s, r.run, s.runs[r.run].snapshot.(state := CancelRequested));
      hide PutRecord;
    }
  }

  lemma RefusedAcknowledgeLeavesTrace(w: Worker, s: State, r: AckRequest)
    ensures Acknowledge(s, r).1.Err? && Acknowledge(s, r).0 != s <==> LeavesTrace(w, s, DoAcknowledge(r))
  {
    if r.run in s.runs {
      PutChanges(s, r.run, s.runs[r.run].snapshot.(acknowledged := true));
      hide PutRecord;
    }
  }

  /** A refused call changes the state exactly when its own checks pass, the version is full and it brings news. */
  lemma RefusalLeavesTrace(w: Worker, s: State, c: Call)
    ensures Refused(w, s, c) && Step(w, s, c) != s <==> LeavesTrace(w, s, c)
  {
    match c
    case DoSubmit(_, _) =>
    case DoAppend(_, _) =>
    case DoAttach(run, e) =>
      hide Attach, LeavesTrace;
      RefusedAttachLeavesTrace(w, s, run, e);
    case DoCancel(r) =>
      hide Cancel, LeavesTrace;
      RefusedCancelLeavesTrace(w, s, r);
    case DoAcknowledge(r) =>
      hide Acknowledge, LeavesTrace;
      RefusedAcknowledgeLeavesTrace(w, s, r);
  }

  /** Below the limit a refused call changes nothing. */
  lemma RefusalIsCleanBelowLimit(w: Worker, s: State, c: Call)
    requires Refused(w, s, c) && !AtLimit(s, Subject(c))
    ensures Step(w, s, c) == s
  {
    RefusalLeavesTrace(w, s, c);
    hide Step, Refused;
  }

  lemma {:induction false} EffectsAreCalls(w: Worker, s: State, calls: seq<Call>, run: Name)
    ensures EffectiveCalls(w, s, calls, run) <= |calls|
    decreases |calls|
  {
    hide Step, Append, Attach, Cancel, Acknowledge;
    if calls != [] {
      EffectsAreCalls(w, Step(w, s, calls[0]), calls[1..], run);
    }
  }

  /** Over every run of fewer than 2^64 - 2 calls, every refused call changes nothing. */
  lemma RefusalIsCleanInShortRuns(w: Worker, calls: seq<Call>, c: Call)
    requires Fresh(w, EMPTY, calls) && |calls| < U64_MAX - 1
    ensures var s := Run(w, EMPTY, calls); Refused(w, s, c) ==> Step(w, s, c) == s
  {
    hide Step, Refused, EffectiveCalls, Fresh;
    var s, run := Run(w, EMPTY, calls), Subject(c);
    if Refused(w, s, c) {
      if run in s.runs {
        VersionCountsEffects(w, calls, run);
        EffectsAreCalls(w, EMPTY, calls, run);
      }
      RefusalIsCleanBelowLimit(w, s, c);
    }
  }

  // -------------------------------------------- the limit is within reach

  function Repeated(c: Call, n: nat): seq<Call> {
    if n == 0 then [] else [c] + Repeated(c, n - 1)
  }

  predicate IsFitting(w: Worker, s: State, run: Name, e: Evidence) {
    && run in s.runs && w.evidenceIsValid(e) && !e.targetSatisfied && e.run == run
    && var x := s.runs[run].snapshot;
    && e.attempt == x.attempt && e.digest == x.digest && e.worker == x.worker && e.generation == x.generation
    && x.state == RunAccepted
  }

  lemma AttachCounts(w: Worker, s: State, run: Name, e: Evidence)
    requires IsFitting(w, s, run, e) && s.runs[run].snapshot.version < U64_MAX
    ensures var t := Step(w, s, DoAttach(run, e));
            && IsFitting(w, t, run, e) && t.cancels == s.cancels
            && t.runs[run].snapshot.version == s.runs[run].snapshot.version + 1
  {
  }

  lemma {:induction false} AttachmentsCount(w: Worker, s: State, run: Name, e: Evidence, n: nat)
    requires IsFitting(w, s, run, e) && s.runs[run].snapshot.version + n <= U64_MAX
    ensures var calls := Repeated(DoAttach(run, e), n);
            var t := Run(w, s, calls);
            && Fresh(w, s, calls) && IsFitting(w, t, run, e) && t.cancels == s.cancels
            && t.runs[run].snapshot.version == s.runs[run].snapshot.version + n
    decreases n
  {
    hide IsFitting, Step;
    if n > 0 {
      var c := DoAttach(run, e);
      AttachCounts(w, s, run, e);
      AttachmentsCount(w, Step(w, s, c), run, e, n - 1);
      assert Repeated(c, n)[1..] == Repeated(c, n - 1);
    }
  }

  /** The trace is reachable: submit, attach evidence until the version is full, and cancel. */
  lemma RefusedCancelIsReachable(w: Worker, q: Qualification, run: Name, e: Evidence, r: CancelRequest)
    returns (calls: seq<Call>)
    requires w.orderIsValid(q) && IdentityIsValid(q) && w.evidenceIsValid(e)
    requires e == Evidence(run, q.attempt, q.digest, w.id, w.generation, e.payloadDigest, false, e.body)
    requires r.run == run && r.key != BLANK && r.reason != BLANK
    ensures Fresh(w, EMPTY, calls) && Refused(w, Run(w, EMPTY, calls), DoCancel(r))
    ensures Step(w, Run(w, EMPTY, calls), DoCancel(r)) != Run(w, EMPTY, calls)
  {
    var submit := DoSubmit(q, run);
    var s := Step(w, EMPTY, submit);
    assert IsFitting(w, s, run, e) && s.runs[run].snapshot.version == 1 && s.cancels == map[];
    hide Step, Refused;
    var rest := Repeated(DoAttach(run, e), U64_MAX - 1);
    AttachmentsCount(w, s, run, e, U64_MAX - 1);
    calls := [submit] + rest;
    assert calls[1..] == rest;
    RefusalLeavesTrace(w, Run(w, EMPTY, calls), DoCancel(r));
  }
}
