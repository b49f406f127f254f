/** What each call of the Runmill gateway does when it succeeds, and when it does, in the fields of the run. */
module RunmillAnswers {
  import opened Prelude
  import opened RunCursor
  import opened RunmillGateway
  import opened RunmillRuns

  /** Every other run is as it was. */
  predicate OnlyRun(s: State, t: State, run: Name) {
    t.runs.Keys == s.runs.Keys + {run} && forall r :: r in s.runs && r != run ==> t.runs[r] == s.runs[r]
  }

  // -------------------------------------------------------------- submissions

  /** A submission is accepted exactly if it is valid and neither its key nor its attempt is taken. */
  lemma SubmitMeans(w: Worker, s: State, q: Qualification, run: Name)
    ensures var answer := Submit(w, s, q, run).1;
            && (q.key !in s.submissions ==>
                  (answer == Ok(SubmitReceipt(run, q.attempt, q.key, q.digest, Accepted)) <==>
                     && w.orderIsValid(q) && q.tenant != BLANK && q.order != BLANK && q.item != BLANK
                     && q.attempt != BLANK && q.key != BLANK && q.attempt !in s.runByAttempt))
            && (q.key in s.submissions && w.orderIsValid(q) && q.key != BLANK ==>
                  answer == if s.submissions[q.key].q.digest == q.digest
                            then Ok(s.submissions[q.key].receipt.(disposition := Adopted))
                            else Err(IdempotencyConflict))
  {
  }

  /** The run it creates: at version one, by this worker, without events, evidence or acknowledgement. */
  lemma SubmitCreates(w: Worker, s: State, q: Qualification, run: Name)
    requires q.key !in s.submissions && run !in s.runs && Submit(w, s, q, run).1.Ok?
    ensures var t := Submit(w, s, q, run).0;
            && OnlyRun(s, t, run)
            && GetRun(t, ByKey(q.key)) == GetRun(t, ByAttempt(q.attempt)) == GetRun(t, ByRun(run)) ==
               Ok(Some(Snapshot(run, q.attempt, q.key, q.digest, w.id, w.generation, RunAccepted, 1, None, None, false)))
            && t.runs[run].events == [] && t.runs[run].evidence.None? && t.submissions[q.key].q == q
            && t.eventIds == s.eventIds && t.cancels == s.cancels && t.acks == s.acks
  {
  }

  // ------------------------------------------------------------------- events

  /** An event is appended exactly if it is new, the run's own and next in line. */
  lemma AppendMeans(w: Worker, s: State, run: Name, e: Event)
    ensures Append(w, s, run, e).1.Ok? <==>
            && e.id !in s.eventIds && run in s.runs && e.run == Some(run)
            && s.runs[run].snapshot.version < U64_MAX && e.version == s.runs[run].snapshot.version + 1
    ensures Append(w, s, run, e).1.Ok? ==>
              var t := Append(w, s, run, e).0;
              && OnlyRun(s, t, run) && t.eventIds == s.eventIds + {e.id}
              && t.runs[run].events == s.runs[run].events + [e] && t.runs[run].evidence == s.runs[run].evidence
              && t.runs[run].snapshot.version == e.version
              && t.runs[run].snapshot.cursor == Some(CursorFor(w.runText(run), |s.runs[run].events| + 1))
              && Append(w, s, run, e).1.value == t.runs[run].snapshot.cursor.value
              && t.runs[run].snapshot.state == s.runs[run].snapshot.state
  {
    hide CursorFor;
  }

  // ----------------------------------------------------------------- evidence

  /** Evidence is attached exactly if it is valid and names this run, attempt, order and worker. */
  lemma AttachMeans(w: Worker, s: State, run: Name, e: Evidence)
    ensures Attach(w, s, run, e).1.Ok? <==>
            && w.evidenceIsValid(e) && run in s.runs && e.run == run && s.runs[run].snapshot.version < U64_MAX
            && e.attempt == s.runs[run].snapshot.attempt && e.digest == s.runs[run].snapshot.digest
            && e.worker == s.runs[run].snapshot.worker && e.generation == s.runs[run].snapshot.generation
    ensures Attach(w, s, run, e).1.Ok? ==>
              var t := Attach(w, s, run, e).0;
              && OnlyRun(s, t, run) && t.runs[run].evidence == Some(e)
              && t.runs[run].snapshot.evidenceDigest == Some(e.payloadDigest)
              && t.runs[run].snapshot.state == (if e.targetSatisfied then TargetReached else s.runs[run].snapshot.state)
              && t.runs[run].snapshot.acknowledged == s.runs[run].snapshot.acknowledged
  {
  }

  /** Attached evidence can be acknowledged, under its own payload digest and no other. */
  lemma AttachedCanBeAcknowledged(w: Worker, s: State, run: Name, e: Evidence, r: AckRequest)
    requires Attach(w, s, run, e).1.Ok? && s.runs[run].snapshot.version + 1 < U64_MAX
    requires r.run == run && r.key != BLANK && r.evidenceDigest != BLANK && (run, r.key) !in s.acks
    ensures var t := Attach(w, s, run, e).0;
            var (u, answer) := Acknowledge(t, r);
            && (r.evidenceDigest == e.payloadDigest ==>
                  && answer == Ok(AckReceipt(run, r.key, e.payloadDigest, Recorded, s.runs[run].snapshot.version + 2))
                  && run in u.runs && u.runs[run].snapshot.acknowledged && OnlyRun(t, u, run)
                  && Acknowledge(u, r) == (u, Ok(answer.value.(disposition := AckAdopted))))
            && (r.evidenceDigest != e.payloadDigest ==> (u, answer) == (t, Err(EvidenceUnavailable)))
  {
  }

  // ------------------------------------------------------------ cancellations

  /** A cancellation, by what is recorded under its key and by the state of the run. */
  lemma CancelMeans(s: State, r: CancelRequest)
    requires r.key != BLANK && r.reason != BLANK && r.run in s.runs
    ensures var (t, answer) := Cancel(s, r);
            var x := s.runs[r.run].snapshot;
            && ((r.run, r.key) in s.cancels ==>
                  t == s && answer == if s.cancels[(r.run, r.key)].request == r
                                      then Ok(s.cancels[(r.run, r.key)].receipt.(disposition := CancelAdopted))
                                      else Err(IdempotencyConflict))
            && ((r.run, r.key) !in s.cancels && x.state == TargetReached ==>
                  t.runs == s.runs && answer == Ok(CancelReceipt(r.run, r.key, AlreadyTerminal, TargetReached, x.version)))
            && ((r.run, r.key) !in s.cancels && x.state != TargetReached && x.version < U64_MAX ==>
                  && answer == Ok(CancelReceipt(r.run, r.key, Requested, CancelRequested, x.version + 1))
                  && OnlyRun(s, t, r.run) && t.runs[r.run].snapshot.state == CancelRequested
                  && t.runs[r.run].evidence == s.runs[r.run].evidence)
            && (answer.Ok? ==> Cancel(t, r) == (t, Ok(answer.value.(disposition := CancelAdopted))))
  {
  }

  /** Blank keys and reasons and unknown runs are refused and change nothing. */
  lemma CancelNeeds(s: State, r: CancelRequest)
    requires r.key == BLANK || r.reason == BLANK || (r.run !in s.runs && (r.run, r.key) !in s.cancels)
    ensures Cancel(s, r).0 == s && Cancel(s, r).1.Err?
  {
  }
}
