/**
 The in-memory Runmill gateway: an idempotent registry of submissions, attempts and runs, with
 one event stream per run. Each operation is a function of the state; the class performs it in
 place. New run identifiers are parameters, clock readings are left out.
 */
module RunmillGateway {
  import opened Prelude
  import opened RunCursor

  const U64_MAX: nat := 0xFFFF_FFFF_FFFF_FFFF

  datatype Qualification = Qualification(tenant: Name, order: Name, item: Name, attempt: Name, key: Name,
                                         digest: Name, requestDigest: Name)

  datatype Disposition = Accepted | Adopted

  datatype SubmitReceipt = SubmitReceipt(run: Name, attempt: Name, key: Name, digest: Name, disposition: Disposition)

  datatype RunState = RunAccepted | CancelRequested | TargetReached

  datatype Snapshot = Snapshot(run: Name, attempt: Name, key: Name, digest: Name, worker: Name, generation: nat,
                               state: RunState, version: nat, cursor: Option<string>, evidenceDigest: Option<Name>,
                               acknowledged: bool)

  datatype Event = Event(id: Name, run: Option<Name>, version: nat, body: Name)

  datatype Evidence = Evidence(run: Name, attempt: Name, digest: Name, worker: Name, generation: nat,
                               payloadDigest: Name, targetSatisfied: bool, body: Name)

  datatype Record = Record(snapshot: Snapshot, events: seq<Event>, evidence: Option<Evidence>)

  datatype Submission = Submission(receipt: SubmitReceipt, q: Qualification)

  datatype CancelRequest = CancelRequest(run: Name, key: Name, reason: Name, body: Name)

  datatype CancelDisposition = Requested | CancelAdopted | AlreadyTerminal

  datatype CancelReceipt = CancelReceipt(run: Name, key: Name, disposition: CancelDisposition, state: RunState,
                                         version: nat)

  datatype AckRequest = AckRequest(run: Name, key: Name, evidenceDigest: Name, body: Name)

  datatype AckDisposition = Recorded | AckAdopted

  datatype AckReceipt = AckReceipt(run: Name, key: Name, evidenceDigest: Name, disposition: AckDisposition, version: nat)

  datatype Cancellation = Cancellation(request: CancelRequest, receipt: CancelReceipt)

  datatype Acknowledgement = Acknowledgement(request: AckRequest, receipt: AckReceipt)

  datatype State = State(submissions: map<Name, Submission>, runs: map<Name, Record>, runByAttempt: map<Name, Name>,
                         eventIds: set<Name>, cancels: map<(Name, Name), Cancellation>,
                         acks: map<(Name, Name), Acknowledgement>)

  const EMPTY := State(map[], map[], map[], {}, map[], map[])

  datatype Error =
    InvalidRequest | IdempotencyConflict | InvalidCursor(error: CursorError) | RunNotFound | EvidenceUnavailable

  /** The worker the gateway stands for, the name of a run as text, and the validity of requests. */
  datatype Worker = Worker(id: Name, generation: nat, runText: Name -> string, maxPage: nat,
                           orderIsValid: Qualification -> bool, evidenceIsValid: Evidence -> bool)

  predicate IdentityIsValid(q: Qualification) {
    q.tenant != BLANK && q.order != BLANK && q.item != BLANK && q.attempt != BLANK && q.key != BLANK
  }

  // --------------------------------------------------------------- operations

  function Submit(w: Worker, s: State, q: Qualification, newRun: Name): (State, Result<SubmitReceipt, Error>) {
    if !w.orderIsValid(q) || q.key == BLANK then (s, Err(InvalidRequest))
    else if q.key in s.submissions then
      var existing := s.submissions[q.key];
      if existing.q.digest != q.digest then (s, Err(IdempotencyConflict))
      else (s, Ok(existing.receipt.(disposition := Adopted)))
    else if q.attempt in s.runByAttempt || !IdentityIsValid(q) then (s, Err(InvalidRequest))
    else
      var receipt := SubmitReceipt(newRun, q.attempt, q.key, q.digest, Accepted);
      (s.(runByAttempt := s.runByAttempt[q.attempt := newRun],
          runs := s.runs[newRun := NewRecord(w, q, newRun)],
          submissions := s.submissions[q.key := Submission(receipt, q)]),
       Ok(receipt))
  }

  function NewRecord(w: Worker, q: Qualification, run: Name): Record {
    Record(Snapshot(run, q.attempt, q.key, q.digest, w.id, w.generation, RunAccepted, 1, None, None, false), [], None)
  }

  function PutRecord(s: State, run: Name, record: Record): State {
    s.(runs := s.runs[run := record])
  }

  function Append(w: Worker, s: State, run: Name, e: Event): (State, Result<string, Error>) {
    if e.id in s.eventIds then (s, Err(InvalidRequest))
    else if run !in s.runs then (s, Err(RunNotFound))
    else
      var record := s.runs[run];
      if e.run != Some(run) || record.snapshot.version >= U64_MAX || e.version != record.snapshot.version + 1 then
        (s, Err(InvalidRequest))
      else
        var events := record.events + [e];
        var cursor := CursorFor(w.runText(run), |events|);
        (PutRecord(s, run, Record(record.snapshot.(version := e.version, cursor := Some(cursor)), events, record.evidence))
           .(eventIds := s.eventIds + {e.id}),
         Ok(cursor))
  }

  /** Evidence is noted before the version is bumped, and stays noted if the version overflows. */
  function Attach(w: Worker, s: State, run: Name, e: Evidence): (State, Result<(), Error>) {
    if !w.evidenceIsValid(e) then (s, Err(InvalidRequest))
    else if run !in s.runs then (s, Err(RunNotFound))
    else
      var record := s.runs[run];
      var snapshot := record.snapshot;
      if e.run != run || e.attempt != snapshot.attempt || e.digest != snapshot.digest
         || e.worker != snapshot.worker || e.generation != snapshot.generation
      then (s, Err(InvalidRequest))
      else
        var noted := snapshot.(evidenceDigest := Some(e.payloadDigest),
                               state := if e.targetSatisfied then TargetReached else snapshot.state);
        if snapshot.version >= U64_MAX then (PutRecord(s, run, record.(snapshot := noted)), Err(InvalidRequest))
        else
          (PutRecord(s, run, record.(snapshot := noted.(version := snapshot.version + 1), evidence := Some(e))), Ok(()))
  }

  function Cancel(s: State, r: CancelRequest): (State, Result<CancelReceipt, Error>) {
    if r.key == BLANK || r.reason == BLANK then (s, Err(InvalidRequest))
    else if (r.run, r.key) in s.cancels then
      var existing := s.cancels[(r.run, r.key)];
      if existing.request != r then (s, Err(IdempotencyConflict))
      else (s, Ok(existing.receipt.(disposition := CancelAdopted)))
    else if r.run !in s.runs then (s, Err(RunNotFound))
    else
      var record := s.runs[r.run];
      var snapshot := record.snapshot;
      if snapshot.state == TargetReached then
        var receipt := CancelReceipt(r.run, r.key, AlreadyTerminal, snapshot.state, snapshot.version);
        (s.(cancels := s.cancels[(r.run, r.key) := Cancellation(r, receipt)]), Ok(receipt))
      else
        var cancelled := snapshot.(state := CancelRequested);
        if snapshot.version >= U64_MAX then (PutRecord(s, r.run, record.(snapshot := cancelled)), Err(InvalidRequest))
        else
          var receipt := CancelReceipt(r.run, r.key, Requested, CancelRequested, snapshot.version + 1);
          (PutRecord(s, r.run, record.(snapshot := cancelled.(version := snapshot.version + 1)))
             .(cancels := s.cancels[(r.run, r.key) := Cancellation(r, receipt)]),
           Ok(receipt))
  }

  function Acknowledge(s: State, r: AckRequest): (State, Result<AckReceipt, Error>) {
    if r.key == BLANK || r.evidenceDigest == BLANK then (s, Err(InvalidRequest))
    else if (r.run, r.key) in s.acks then
      var existing := s.acks[(r.run, r.key)];
      if existing.request != r then (s, Err(IdempotencyConflict))
      else (s, Ok(existing.receipt.(disposition := AckAdopted)))
    else if r.run !in s.runs then (s, Err(RunNotFound))
    else
      var record := s.runs[r.run];
      var snapshot := record.snapshot;
      if record.evidence.None? || record.evidence.value.payloadDigest != r.evidenceDigest then (s, Err(EvidenceUnavailable))
      else
        var acknowledged := snapshot.(acknowledged := true);
        if snapshot.version >= U64_MAX then (PutRecord(s, r.run, record.(snapshot := acknowledged)), Err(InvalidRequest))
        else
          var receipt := AckReceipt(r.run, r.key, r.evidenceDigest, Recorded, snapshot.version + 1);
          (PutRecord(s, r.run, record.(snapshot := acknowledged.(version := snapshot.version + 1)))
             .(acks := s.acks[(r.run, r.key) := Acknowledgement(r, receipt)]),
           Ok(receipt))
  }

  datatype Lookup = ByRun(run: Name) | ByAttempt(attempt: Name) | ByKey(key: Name)

  function GetRun(s: State, l: Lookup): Result<Option<Snapshot>, Error> {
    if l == ByKey(BLANK) then Err(InvalidRequest)
    else
      var run := match l
        case ByRun(run) => Some(run)
        case ByAttempt(attempt) => if attempt in s.runByAttempt then Some(s.runByAttempt[attempt]) else None
        case ByKey(key) => if key in s.submissions then Some(s.submissions[key].receipt.run) else None;
      Ok(if run.Some? && run.value in s.runs then Some(s.runs[run.value].snapshot) else None)
  }

  datatype QualifiedOutcome = Found(run: Snapshot) | NotFound

  function LookupQualified(s: State, q: Qualification): Result<QualifiedOutcome, Error> {
    if !IdentityIsValid(q) then Err(InvalidRequest)
    else if q.key in s.submissions && s.submissions[q.key].q == q && q.attempt in s.runByAttempt
            && s.runByAttempt[q.attempt] in s.runs
    then
      var run := s.runs[s.runByAttempt[q.attempt]].snapshot;
      if run.attempt != q.attempt || run.key != q.key || run.digest != q.digest
         || run.worker == BLANK || run.generation == 0
      then Err(InvalidRequest)
      else Ok(Found(run))
    else Ok(NotFound)
  }

  datatype EventPage = EventPage(events: seq<Event>, next: Option<string>, hasMore: bool)

  function GetRunEvents(w: Worker, s: State, run: Name, after: Option<string>, limit: nat): Result<EventPage, Error> {
    if limit == 0 || limit > w.maxPage then Err(InvalidRequest)
    else if run !in s.runs then Err(RunNotFound)
    else
      var events := s.runs[run].events;
      match (if after.None? then Ok(0) else ParseCursor(after.value, w.runText(run), |events|))
      case Err(error) => Err(InvalidCursor(error))
      case Ok(offset) =>
        if offset > |events| then Err(InvalidCursor(AheadOfStream))
        else
          var end := if offset + limit < |events| then offset + limit else |events|;
          Ok(EventPage(events[offset..end], if end > 0 then Some(CursorFor(w.runText(run), end)) else None, end < |events|))
  }

  // ---------------------------------------------------- the gateway in place

  class InMemoryRunmillGateway {
    const worker: Worker
    var submissions: map<Name, Submission>
    var runs: map<Name, Record>
    var runByAttempt: map<Name, Name>
    var eventIds: set<Name>
    var cancels: map<(Name, Name), Cancellation>
    var acks: map<(Name, Name), Acknowledgement>

    function View(): State
      reads this
    {
      State(submissions, runs, runByAttempt, eventIds, cancels, acks)
    }

    constructor (worker: Worker)
      ensures View() == EMPTY && this.worker == worker
    {
      this.worker := worker;
      submissions, runs, runByAttempt, eventIds, cancels, acks := map[], map[], map[], {}, map[], map[];
    }

    method SubmitWorkOrder(q: Qualification, newRun: Name) returns (r: Result<SubmitReceipt, Error>)
      modifies this
      ensures (View(), r) == Submit(worker, old(View()), q, newRun)
    {
      if !worker.orderIsValid(q) || q.key == BLANK { return Err(InvalidRequest); }
      if q.key in submissions {
        var existing := submissions[q.key];
        if existing.q.digest != q.digest { return Err(IdempotencyConflict); }
        return Ok(existing.receipt.(disposition := Adopted));
      }
      if q.attempt in runByAttempt { return Err(InvalidRequest); }
      var receipt := SubmitReceipt(newRun, q.attempt, q.key, q.digest, Accepted);
      var snapshot := Snapshot(newRun, q.attempt, q.key, q.digest, worker.id, worker.generation,
                               RunAccepted, 1, None, None, false);
      if !IdentityIsValid(q) { return Err(InvalidRequest); }
      runByAttempt := runByAttempt[q.attempt := newRun];
      runs := runs[newRun := Record(snapshot, [], None)];
      submissions := submissions[q.key := Submission(receipt, q)];
      return Ok(receipt);
    }

    method AppendEvent(run: Name, e: Event) returns (r: Result<string, Error>)
      modifies this
      ensures (View(), r) == Append(worker, old(View()), run, e)
    {
      if e.id in eventIds { return Err(InvalidRequest); }
      if run !in runs { return Err(RunNotFound); }
      var record := runs[run];
      if e.run != Some(run) { return Err(InvalidRequest); }
      if record.snapshot.version >= U64_MAX { return Err(InvalidRequest); }
      var expected := record.snapshot.version + 1;
      if e.version != expected { return Err(InvalidRequest); }
      eventIds := eventIds + {e.id};
      record := record.(events := record.events + [e]);
      var cursor := CursorFor(worker.runText(run), |record.events|);
      record := record.(snapshot := record.snapshot.(version := expected));
      record := record.(snapshot := record.snapshot.(cursor := Some(cursor)));
      runs := runs[run := record];
      return Ok(cursor);
    }

    method AttachEvidence(run: Name, e: Evidence) returns (r: Result<(), Error>)
      modifies this
      ensures (View(), r) == Attach(worker, old(View()), run, e)
    {
      if !worker.evidenceIsValid(e) { return Err(InvalidRequest); }
      if run !in runs { return Err(RunNotFound); }
      var record := runs[run];
      if e.run != run || e.attempt != record.snapshot.attempt || e.digest != record.snapshot.digest
         || e.worker != record.snapshot.worker || e.generation != record.snapshot.generation
      {
        return Err(InvalidRequest);
      }
      record := record.(snapshot := record.snapshot.(evidenceDigest := Some(e.payloadDigest)));
      if e.targetSatisfied { record := record.(snapshot := record.snapshot.(state := TargetReached)); }
      runs := runs[run := record];
      if record.snapshot.version >= U64_MAX { return Err(InvalidRequest); }
      record := record.(snapshot := record.snapshot.(version := record.snapshot.version + 1));
      record := record.(evidence := Some(e));
      runs := runs[run := record];
      assert runs == old(runs)[run := record];
      return Ok(());
    }

    method CancelRun(q: CancelRequest) returns (r: Result<CancelReceipt, Error>)
      modifies this
      ensures (View(), r) == Cancel(old(View()), q)
    {
      if q.key == BLANK || q.reason == BLANK { return Err(InvalidRequest); }
      var key := (q.run, q.key);
      if key in cancels {
        var existing := cancels[key];
        if existing.request != q { return Err(IdempotencyConflict); }
        return Ok(existing.receipt.(disposition := CancelAdopted));
      }
      if q.run !in runs { return Err(RunNotFound); }
      var record := runs[q.run];
      var disposition := AlreadyTerminal;
      if record.snapshot.state != TargetReached {
        record := record.(snapshot := record.snapshot.(state := CancelRequested));
        runs := runs[q.run := record];
        if record.snapshot.version >= U64_MAX { return Err(InvalidRequest); }
        record := record.(snapshot := record.snapshot.(version := record.snapshot.version + 1));
        runs := runs[q.run := record];
        assert runs == old(runs)[q.run := record];
        disposition := Requested;
      }
      var receipt := CancelReceipt(q.run, q.key, disposition, record.snapshot.state, record.snapshot.version);
      cancels := cancels[key := Cancellation(q, receipt)];
      return Ok(receipt);
    }

    method AcknowledgeOutcome(q: AckRequest) returns (r: Result<AckReceipt, Error>)
      modifies this
      ensures (View(), r) == Acknowledge(old(View()), q)
    {
      if q.key == BLANK || q.evidenceDigest == BLANK { return Err(InvalidRequest); }
      var key := (q.run, q.key);
      if key in acks {
        var existing := acks[key];
        if existing.request != q { return Err(IdempotencyConflict); }
        return Ok(existing.receipt.(disposition := AckAdopted));
      }
      if q.run !in runs { return Err(RunNotFound); }
      var record := runs[q.run];
      if record.evidence.None? { return Err(EvidenceUnavailable); }
      if record.evidence.value.payloadDigest != q.evidenceDigest { return Err(EvidenceUnavailable); }
      record := record.(snapshot := record.snapshot.(acknowledged := true));
      runs := runs[q.run := record];
      if record.snapshot.version >= U64_MAX { return Err(InvalidRequest); }
      record := record.(snapshot := record.snapshot.(version := record.snapshot.version + 1));
      runs := runs[q.run := record];
      assert runs == old(runs)[q.run := record];
      var receipt := AckReceipt(q.run, q.key, q.evidenceDigest, Recorded, record.snapshot.version);
      acks := acks[key := Acknowledgement(q, receipt)];
      return Ok(receipt);
    }
  }
}
