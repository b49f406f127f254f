/** What holds of the Runmill gateway over every sequence of calls. */
module RunmillRuns {
  import opened Prelude
  import opened RunCursor
  import opened RunmillGateway
  import Decimal

  datatype Call =
    | DoSubmit(q: Qualification, newRun: Name)
    | DoAppend(run: Name, event: Event)
    | DoAttach(run: Name, evidence: Evidence)
    | DoCancel(cancel: CancelRequest)
    | DoAcknowledge(ack: AckRequest)

  function Step(w: Worker, s: State, c: Call): State {
    match c
    case DoSubmit(q, newRun) => Submit(w, s, q, newRun).0
    case DoAppend(run, e) => Append(w, s, run, e).0
    case DoAttach(run, e) => Attach(w, s, run, e).0
    case DoCancel(r) => Cancel(s, r).0
    case DoAcknowledge(r) => Acknowledge(s, r).0
  }

  function Run(w: Worker, s: State, calls: seq<Call>): State
    decreases |calls|
  {
    if calls == [] then s else Run(w, Step(w, s, calls[0]), calls[1..])
  }

  /** Generated run identifiers are new. */
  predicate Fresh(w: Worker, s: State, calls: seq<Call>)
    decreases |calls|
  {
    calls == [] ||
    ((calls[0].DoSubmit? ==> calls[0].newRun !in s.runs) && Fresh(w, Step(w, s, calls[0]), calls[1..]))
  }

  // ------------------------------------------------------------ the registry

  ghost predicate SubmissionIsIndexed(s: State, key: Name)
    requires key in s.submissions
  {
    var sub := s.submissions[key];
    var run := sub.receipt.run;
    && sub.q.key == key && IdentityIsValid(sub.q)
    && sub.receipt == SubmitReceipt(run, sub.q.attempt, key, sub.q.digest, Accepted)
    && sub.q.attempt in s.runByAttempt && s.runByAttempt[sub.q.attempt] == run
    && run in s.runs && s.runs[run].snapshot.key == key && s.runs[run].snapshot.attempt == sub.q.attempt
    && s.runs[run].snapshot.digest == sub.q.digest
  }

  ghost predicate RunIsIndexed(w: Worker, s: State, run: Name)
    requires run in s.runs
  {
    var snapshot := s.runs[run].snapshot;
    && snapshot.run == run && snapshot.worker == w.id && snapshot.generation == w.generation
    && snapshot.key in s.submissions && s.submissions[snapshot.key].receipt.run == run
  }

  ghost predicate AttemptIsIndexed(s: State, attempt: Name)
    requires attempt in s.runByAttempt
  {
    var run := s.runByAttempt[attempt];
    run in s.runs && s.runs[run].snapshot.attempt == attempt
  }

  /** Keys, attempts and runs are in bijection. */
  ghost predicate Registry(w: Worker, s: State) {
    && (forall key :: key in s.submissions ==> SubmissionIsIndexed(s, key))
    && (forall run :: run in s.runs ==> RunIsIndexed(w, s, run))
    && (forall attempt :: attempt in s.runByAttempt ==> AttemptIsIndexed(s, attempt))
  }

  predicate SameIdentity(a: Snapshot, b: Snapshot) {
    && a.run == b.run && a.attempt == b.attempt && a.key == b.key && a.digest == b.digest
    && a.worker == b.worker && a.generation == b.generation
  }

  /** The run a call is about. */
  function Subject(c: Call): Name {
    match c
    case DoSubmit(_, newRun) => newRun
    case DoAppend(run, _) => run
    case DoAttach(run, _) => run
    case DoCancel(r) => r.run
    case DoAcknowledge(r) => r.run
  }

  /** Does this call succeed in changing the run, other than by creating it? */
  function Effective(w: Worker, s: State, c: Call, run: Name): nat {
    match c
    case DoSubmit(_, _) => 0
    case DoAppend(r, e) => if r == run && Append(w, s, r, e).1.Ok? then 1 else 0
    case DoAttach(r, e) => if r == run && Attach(w, s, r, e).1.Ok? then 1 else 0
    case DoCancel(q) =>
      if q.run == run && Cancel(s, q).1.Ok? && Cancel(s, q).1.value.disposition == Requested then 1 else 0
    case DoAcknowledge(q) =>
      if q.run == run && Acknowledge(s, q).1.Ok? && Acknowledge(s, q).1.value.disposition == Recorded then 1 else 0
  }

  /** Only this run's record changes, not its identity; its version moves by `k` and its events only grow. */
  ghost predicate Touches(s: State, t: State, run: Name, k: nat) {
    && t.submissions == s.submissions && t.runByAttempt == s.runByAttempt && t.runs.Keys == s.runs.Keys
    && (forall r :: r in s.runs && r != run ==> t.runs[r] == s.runs[r])
    && (run in s.runs ==>
          && SameIdentity(s.runs[run].snapshot, t.runs[run].snapshot)
          && s.runs[run].events <= t.runs[run].events
          && t.runs[run].snapshot.version == s.runs[run].snapshot.version + k
          && (s.runs[run].snapshot.version <= U64_MAX ==> t.runs[run].snapshot.version <= U64_MAX))
  }

  /** No event is added. */
  ghost predicate Still(s: State, t: State, run: Name)
    requires t.runs.Keys == s.runs.Keys
  {
    && t.eventIds == s.eventIds
    && (run in s.runs ==>
          t.runs[run].events == s.runs[run].events && t.runs[run].snapshot.cursor == s.runs[run].snapshot.cursor)
  }

  lemma AppendTouches(w: Worker, s: State, run: Name, e: Event)
    ensures Touches(s, Append(w, s, run, e).0, run, Effective(w, s, DoAppend(run, e), run))
  {
    hide CursorFor;
  }

  /** Writing back a record with the same identity and events, its version moved by `k`. */
  lemma RecordTouches(s: State, t: State, run: Name, k: nat)
    requires t.submissions == s.submissions && t.runByAttempt == s.runByAttempt && t.eventIds == s.eventIds
    requires run in s.runs && run in t.runs && t.runs == s.runs[run := t.runs[run]]
    requires SameIdentity(s.runs[run].snapshot, t.runs[run].snapshot)
    requires t.runs[run].events == s.runs[run].events && t.runs[run].snapshot.cursor == s.runs[run].snapshot.cursor
    requires t.runs[run].snapshot.version == s.runs[run].snapshot.version + k
    requires k == 0 || t.runs[run].snapshot.version <= U64_MAX
    ensures Touches(s, t, run, k) && Still(s, t, run)
  {
    assert t.runs.Keys == s.runs.Keys;
  }

  lemma NothingTouched(s: State, t: State, run: Name)
    requires t.submissions == s.submissions && t.runByAttempt == s.runByAttempt && t.eventIds == s.eventIds
    requires t.runs == s.runs
    ensures Touches(s, t, run, 0) && Still(s, t, run)
  {
  }

  lemma AttachTouches(w: Worker, s: State, run: Name, e: Evidence)
    ensures var t := Attach(w, s, run, e).0;
            Touches(s, t, run, Effective(w, s, DoAttach(run, e), run)) && t.runs.Keys == s.runs.Keys && Still(s, t, run)
  {
    hide Touches, Still;
    var t := Attach(w, s, run, e).0;
    if t == s {
      NothingTouched(s, t, run);
    } else {
      RecordTouches(s, t, run, Effective(w, s, DoAttach(run, e), run));
    }
  }

  lemma CancelTouches(w: Worker, s: State, r: CancelRequest)
    ensures var t := Cancel(s, r).0;
            Touches(s, t, r.run, Effective(w, s, DoCancel(r), r.run)) && t.runs.Keys == s.runs.Keys && Still(s, t, r.run)
  {
    hide Touches, Still;
    var t := Cancel(s, r).0;
    if t.runs == s.runs && Effective(w, s, DoCancel(r), r.run) == 0 {
      NothingTouched(s, t, r.run);
    } else {
      RecordTouches(s, t, r.run, Effective(w, s, DoCancel(r), r.run));
    }
  }

  lemma AcknowledgeTouches(w: Worker, s: State, r: AckRequest)
    ensures var t := Acknowledge(s, r).0;
            Touches(s, t, r.run, Effective(w, s, DoAcknowledge(r), r.run)) && t.runs.Keys == s.runs.Keys && Still(s, t, r.run)
  {
    hide Touches, Still;
    var t := Acknowledge(s, r).0;
    if t.runs == s.runs && Effective(w, s, DoAcknowledge(r), r.run) == 0 {
      NothingTouched(s, t, r.run);
    } else {
      RecordTouches(s, t, r.run, Effective(w, s, DoAcknowledge(r), r.run));
    }
  }

  lemma CallTouches(w: Worker, s: State, c: Call)
    requires !c.DoSubmit?
    ensures Touches(s, Step(w, s, c), Subject(c), Effective(w, s, c, Subject(c)))
    ensures !c.DoAppend? ==> Still(s, Step(w, s, c), Subject(c))
  {
    hide Touches, Still, Append, Attach, Cancel, Acknowledge, Effective;
    match c
    case DoAppend(run, e) => AppendTouches(w, s, run, e);
    case DoAttach(run, e) => AttachTouches(w, s, run, e);
    case DoCancel(r) => CancelTouches(w, s, r);
    case DoAcknowledge(r) => AcknowledgeTouches(w, s, r);
  }

  /** What the indexes look at stays as it is. */
  lemma TouchKeepsIdentity(s: State, t: State, run: Name, k: nat, r: Name)
    requires Touches(s, t, run, k) && r in s.runs
    ensures r in t.runs && SameIdentity(s.runs[r].snapshot, t.runs[r].snapshot)
  {
  }

  lemma TouchKeepsRegistry(w: Worker, s: State, t: State, run: Name, k: nat)
    requires Registry(w, s) && Touches(s, t, run, k)
    ensures Registry(w, t)
  {
    assert t.submissions == s.submissions && t.runByAttempt == s.runByAttempt && t.runs.Keys == s.runs.Keys;
    forall r | r in s.runs ensures r in t.runs && SameIdentity(s.runs[r].snapshot, t.runs[r].snapshot) {
      TouchKeepsIdentity(s, t, run, k, r);
    }
    hide Touches;
    forall key | key in t.submissions ensures SubmissionIsIndexed(t, key) { assert SubmissionIsIndexed(s, key); }
    forall r | r in t.runs ensures RunIsIndexed(w, t, r) { assert RunIsIndexed(w, s, r); }
    forall a | a in t.runByAttempt ensures AttemptIsIndexed(t, a) { assert AttemptIsIndexed(s, a); }
  }

  lemma SubmitKeepsRegistry(w: Worker, s: State, q: Qualification, newRun: Name)
    requires Registry(w, s) && newRun !in s.runs
    ensures Registry(w, Submit(w, s, q, newRun).0)
  {
    var t := Submit(w, s, q, newRun).0;
    if t != s {
      forall key | key in t.submissions ensures SubmissionIsIndexed(t, key) {
        if key != q.key { assert SubmissionIsIndexed(s, key); }
      }
      forall r | r in t.runs ensures RunIsIndexed(w, t, r) {
        if r != newRun { assert RunIsIndexed(w, s, r); }
      }
      forall a | a in t.runByAttempt ensures AttemptIsIndexed(t, a) {
        if a != q.attempt { assert AttemptIsIndexed(s, a); }
      }
    }
  }

  lemma StepKeepsRegistry(w: Worker, s: State, c: Call)
    requires Registry(w, s) && (c.DoSubmit? ==> c.newRun !in s.runs)
    ensures Registry(w, Step(w, s, c))
  {
    if c.DoSubmit? {
      SubmitKeepsRegistry(w, s, c.q, c.newRun);
    } else {
      hide Registry, Touches, Step;
      CallTouches(w, s, c);
      TouchKeepsRegistry(w, s, Step(w, s, c), Subject(c), Effective(w, s, c, Subject(c)));
    }
  }

  /** The bijection holds in every reachable state. */
  lemma {:induction false} RunKeepsRegistry(w: Worker, s: State, calls: seq<Call>)
    requires Registry(w, s) && Fresh(w, s, calls)
    ensures Registry(w, Run(w, s, calls))
    decreases |calls|
  {
    hide Registry, Step;
    if calls != [] {
      StepKeepsRegistry(w, s, calls[0]);
      RunKeepsRegistry(w, Step(w, s, calls[0]), calls[1..]);
    }
  }

  /** The three lookups of a run agree, and each finds only the run it names. */
  lemma LookupsAgree(w: Worker, s: State, x: Snapshot, l: Lookup)
    requires Registry(w, s) && l != ByKey(BLANK)
    ensures GetRun(s, l) == Ok(Some(x)) ==>
              && GetRun(s, ByRun(x.run)) == GetRun(s, ByAttempt(x.attempt)) == GetRun(s, ByKey(x.key)) == Ok(Some(x))
              && (l == ByRun(x.run) || l == ByAttempt(x.attempt) || l == ByKey(x.key))
  {
    if GetRun(s, l) == Ok(Some(x)) {
      var run := match l
        case ByRun(run) => run
        case ByAttempt(attempt) => s.runByAttempt[attempt]
        case ByKey(key) => s.submissions[key].receipt.run;
      assert RunIsIndexed(w, s, run);
      assert SubmissionIsIndexed(s, x.key);
      if l.ByAttempt? { assert AttemptIsIndexed(s, l.attempt); }
      if l.ByKey? { assert SubmissionIsIndexed(s, l.key); }
    }
  }

  /** Two runs never share a key or an attempt. */
  lemma RunsAreDistinct(w: Worker, s: State, run: Name, run': Name)
    requires Registry(w, s) && run in s.runs && run' in s.runs && run != run'
    ensures s.runs[run].snapshot.key != s.runs[run'].snapshot.key
    ensures s.runs[run].snapshot.attempt != s.runs[run'].snapshot.attempt
  {
    assert RunIsIndexed(w, s, run) && RunIsIndexed(w, s, run');
    assert SubmissionIsIndexed(s, s.runs[run].snapshot.key);
    assert SubmissionIsIndexed(s, s.runs[run'].snapshot.key);
  }

  /** Submissions and their runs are never forgotten or changed. */
  ghost predicate Remembers(s: State, t: State) {
    && (forall key :: key in s.submissions ==> key in t.submissions && t.submissions[key] == s.submissions[key])
    && (forall run :: run in s.runs ==> run in t.runs && s.runs[run].events <= t.runs[run].events)
  }

  lemma StepRemembers(w: Worker, s: State, c: Call)
    requires c.DoSubmit? ==> c.newRun !in s.runs
    ensures Remembers(s, Step(w, s, c))
  {
    if !c.DoSubmit? {
      hide Step;
      CallTouches(w, s, c);
    }
  }

  lemma {:induction false} RunRemembers(w: Worker, s: State, calls: seq<Call>)
    requires Fresh(w, s, calls)
    ensures Remembers(s, Run(w, s, calls))
    decreases |calls|
  {
    hide Step;
    if calls != [] {
      StepRemembers(w, s, calls[0]);
      RunRemembers(w, Step(w, s, calls[0]), calls[1..]);
    }
  }

  /** A submission that was accepted is adopted ever after: same run, and no new one. */
  lemma ResubmissionAdopts(w: Worker, s: State, q: Qualification, newRun: Name, calls: seq<Call>, again: Name)
    requires newRun !in s.runs && Fresh(w, Submit(w, s, q, newRun).0, calls)
    requires Submit(w, s, q, newRun).1.Ok?
    ensures var receipt := Submit(w, s, q, newRun).1.value;
            var t := Run(w, Submit(w, s, q, newRun).0, calls);
            Submit(w, t, q, again) == (t, Ok(receipt.(disposition := Adopted)))
  {
    RunRemembers(w, Submit(w, s, q, newRun).0, calls);
  }

  /** Was this exact qualification accepted, with a run of its own, somewhere in the run of calls? */
  predicate WasAccepted(w: Worker, s: State, calls: seq<Call>, q: Qualification)
    decreases |calls|
  {
    calls != [] &&
    (|| (calls[0].DoSubmit? && calls[0].q == q && Submit(w, s, q, calls[0].newRun).1.Ok?
         && Submit(w, s, q, calls[0].newRun).1.value.disposition == Accepted)
     || WasAccepted(w, Step(w, s, calls[0]), calls[1..], q))
  }

  lemma {:induction false} AcceptedIsRecorded(w: Worker, s: State, calls: seq<Call>, q: Qualification)
    requires Registry(w, s) && Fresh(w, s, calls)
    ensures var t := Run(w, s, calls);
            (q.key in t.submissions && t.submissions[q.key].q == q) <==>
            (q.key in s.submissions && s.submissions[q.key].q == q) || WasAccepted(w, s, calls, q)
    decreases |calls|
  {
    if calls != [] {
      var s' := Step(w, s, calls[0]);
      StepKeepsRegistry(w, s, calls[0]);
      AcceptedIsRecorded(w, s', calls[1..], q);
      OneStepRecords(w, s, calls[0], q);
    }
  }

  lemma OneStepRecords(w: Worker, s: State, c: Call, q: Qualification)
    requires Registry(w, s)
    ensures var t := Step(w, s, c);
            (q.key in t.submissions && t.submissions[q.key].q == q) <==>
            || (q.key in s.submissions && s.submissions[q.key].q == q)
            || (c.DoSubmit? && c.q == q && Submit(w, s, q, c.newRun).1.Ok?
                && Submit(w, s, q, c.newRun).1.value.disposition == Accepted)
  {
    if c.DoSubmit? {
      assert c.q.key in s.submissions ==> SubmissionIsIndexed(s, c.q.key);
    } else {
      hide Step;
      CallTouches(w, s, c);
    }
  }

  /**
   Qualified lookup, over every run of calls: found exactly if that very qualification was accepted, by a worker
   with a name and a generation, and then the run found is the one its submission was given.
   */
  lemma QualifiedLookupIsExact(w: Worker, calls: seq<Call>, q: Qualification)
    requires Fresh(w, EMPTY, calls) && IdentityIsValid(q)
    ensures var s := Run(w, EMPTY, calls);
            && (LookupQualified(s, q) == Ok(NotFound) <==> !WasAccepted(w, EMPTY, calls, q))
            && (LookupQualified(s, q).Ok? && LookupQualified(s, q).value.Found? <==>
                  WasAccepted(w, EMPTY, calls, q) && w.id != BLANK && w.generation != 0)
            && (LookupQualified(s, q).Ok? && LookupQualified(s, q).value.Found? ==>
                  && LookupQualified(s, q).value.run.run == s.submissions[q.key].receipt.run
                  && GetRun(s, ByKey(q.key)) == Ok(Some(LookupQualified(s, q).value.run)))
  {
    var s := Run(w, EMPTY, calls);
    assert Registry(w, EMPTY);
    RunKeepsRegistry(w, EMPTY, calls);
    AcceptedIsRecorded(w, EMPTY, calls, q);
    if WasAccepted(w, EMPTY, calls, q) {
      assert SubmissionIsIndexed(s, q.key);
      assert RunIsIndexed(w, s, s.submissions[q.key].receipt.run);
    }
  }

  // ------------------------------------------------------------- the streams

  ghost predicate IsEvent(s: State, run: Name, i: nat, id: Name) {
    run in s.runs && i < |s.runs[run].events| && s.runs[run].events[i].id == id
  }

  /** Every event has one place in one stream, and no identifier is missing from the index. */
  ghost predicate EventsAreUnique(s: State) {
    && (forall run, i: nat, run', j: nat, id :: IsEvent(s, run, i, id) && IsEvent(s, run', j, id) ==> run == run' && i == j)
    && (forall run, i: nat, id :: IsEvent(s, run, i, id) ==> id in s.eventIds)
  }

  /** One stream: bound to its run, numbered upwards to the version, and pointed to by the cursor. */
  ghost predicate StreamIsSound(w: Worker, s: State, run: Name)
    requires run in s.runs
  {
    var record := s.runs[run];
    && (forall i :: 0 <= i < |record.events| ==>
          record.events[i].run == Some(run) && record.events[i].version <= record.snapshot.version)
    && (forall i, j :: 0 <= i < j < |record.events| ==> record.events[i].version < record.events[j].version)
    && record.snapshot.cursor == CursorAt(w, run, |record.events|)
    && |record.events| < record.snapshot.version <= U64_MAX
  }

  ghost predicate Streams(w: Worker, s: State) {
    EventsAreUnique(s) && forall run :: run in s.runs ==> StreamIsSound(w, s, run)
  }

  function CursorAt(w: Worker, run: Name, offset: nat): Option<string> {
    if offset == 0 then None else Some(CursorFor(w.runText(run), offset))
  }

  lemma AppendKeepsStreams(w: Worker, s: State, run: Name, e: Event)
    requires Streams(w, s)
    ensures Streams(w, Append(w, s, run, e).0)
  {
    hide CursorFor;
    var t := Append(w, s, run, e).0;
    if t != s {
      var n := |s.runs[run].events|;
      forall r, i: nat, id | IsEvent(t, r, i, id)
        ensures (r == run && i == n ==> id == e.id) && (!(r == run && i == n) ==> IsEvent(s, r, i, id) && id in s.eventIds)
      {
        if r == run && i < n { assert IsEvent(s, r, i, id); }
      }
      forall r | r in t.runs ensures StreamIsSound(w, t, r) { assert StreamIsSound(w, s, r); }
    }
  }

  /** Calls that leave every event where it is. */
  lemma StillKeepsStream(w: Worker, s: State, t: State, run: Name, k: nat, r: Name)
    requires Touches(s, t, run, k) && Still(s, t, run) && r in s.runs && StreamIsSound(w, s, r)
    ensures r in t.runs && t.runs[r].events == s.runs[r].events && StreamIsSound(w, t, r)
  {
    hide CursorAt;
  }

  lemma SameEventsAreUnique(s: State, t: State)
    requires EventsAreUnique(s) && t.eventIds == s.eventIds && t.runs.Keys == s.runs.Keys
    requires forall r :: r in s.runs ==> r in t.runs && t.runs[r].events == s.runs[r].events
    ensures EventsAreUnique(t)
  {
    forall r, i: nat, id ensures IsEvent(t, r, i, id) <==> IsEvent(s, r, i, id) {}
    hide IsEvent;
  }

  lemma StillKeepsStreams(w: Worker, s: State, t: State, run: Name, k: nat)
    requires Streams(w, s) && Touches(s, t, run, k) && Still(s, t, run)
    ensures Streams(w, t)
  {
    hide EventsAreUnique, StreamIsSound;
    assert t.eventIds == s.eventIds && t.runs.Keys == s.runs.Keys;
    hide Touches, Still;
    forall r | r in s.runs ensures r in t.runs && t.runs[r].events == s.runs[r].events && StreamIsSound(w, t, r) {
      StillKeepsStream(w, s, t, run, k, r);
    }
    SameEventsAreUnique(s, t);
  }

  lemma SubmitKeepsStreams(w: Worker, s: State, q: Qualification, newRun: Name)
    requires Streams(w, s) && newRun !in s.runs
    ensures Streams(w, Submit(w, s, q, newRun).0)
  {
    hide CursorFor;
    var t := Submit(w, s, q, newRun).0;
    forall r, i: nat, id ensures IsEvent(t, r, i, id) <==> IsEvent(s, r, i, id) {}
    forall r | r in t.runs ensures StreamIsSound(w, t, r) {
      if r in s.runs { assert StreamIsSound(w, s, r); }
    }
  }

  lemma StepKeepsStreams(w: Worker, s: State, c: Call)
    requires Streams(w, s) && (c.DoSubmit? ==> c.newRun !in s.runs)
    ensures Streams(w, Step(w, s, c))
  {
    if c.DoSubmit? {
      SubmitKeepsStreams(w, s, c.q, c.newRun);
    } else if c.DoAppend? {
      AppendKeepsStreams(w, s, c.run, c.event);
    } else {
      CallTouches(w, s, c);
      hide Streams, Step;
      StillKeepsStreams(w, s, Step(w, s, c), Subject(c), Effective(w, s, c, Subject(c)));
    }
  }

  /** Event identifiers stay globally unique and streams sound in every reachable state. */
  lemma {:induction false} RunKeepsStreams(w: Worker, s: State, calls: seq<Call>)
    requires Streams(w, s) && Fresh(w, s, calls)
    ensures Streams(w, Run(w, s, calls))
    decreases |calls|
  {
    hide Streams, Step;
    if calls != [] {
      StepKeepsStreams(w, s, calls[0]);
      RunKeepsStreams(w, Step(w, s, calls[0]), calls[1..]);
    }
  }

  /** Every reachable state has its indexes in bijection and its streams sound. */
  lemma ReachableIsSound(w: Worker, calls: seq<Call>)
    requires Fresh(w, EMPTY, calls)
    ensures Registry(w, Run(w, EMPTY, calls)) && Streams(w, Run(w, EMPTY, calls))
  {
    assert Registry(w, EMPTY) && Streams(w, EMPTY);
    RunKeepsRegistry(w, EMPTY, calls);
    RunKeepsStreams(w, EMPTY, calls);
  }

  // ------------------------------------------------------ version accounting

  function EffectiveCalls(w: Worker, s: State, calls: seq<Call>, run: Name): nat
    decreases |calls|
  {
    if calls == [] then 0
    else
      (if run in s.runs then Effective(w, s, calls[0], run) else 0)
      + EffectiveCalls(w, Step(w, s, calls[0]), calls[1..], run)
  }

  lemma StepCountsVersion(w: Worker, s: State, c: Call, run: Name)
    requires run in s.runs && (c.DoSubmit? ==> c.newRun !in s.runs)
    ensures run in Step(w, s, c).runs
    ensures Step(w, s, c).runs[run].snapshot.version == s.runs[run].snapshot.version + Effective(w, s, c, run)
  {
    if !c.DoSubmit? {
      hide Step;
      CallTouches(w, s, c);
    }
  }

  lemma {:induction false} RunCountsVersion(w: Worker, s: State, calls: seq<Call>, run: Name)
    requires Fresh(w, s, calls)
    ensures run in s.runs ==> run in Run(w, s, calls).runs
    ensures run in Run(w, s, calls).runs ==>
              Run(w, s, calls).runs[run].snapshot.version ==
              (if run in s.runs then s.runs[run].snapshot.version else 1) + EffectiveCalls(w, s, calls, run)
    decreases |calls|
  {
    if calls != [] {
      var s' := Step(w, s, calls[0]);
      if run in s.runs {
        StepCountsVersion(w, s, calls[0], run);
      } else {
        NewRunHasVersionOne(w, s, calls[0], run);
      }
      hide Step, Effective;
      RunCountsVersion(w, s', calls[1..], run);
    }
  }

  lemma NewRunHasVersionOne(w: Worker, s: State, c: Call, run: Name)
    requires run !in s.runs
    ensures run in Step(w, s, c).runs ==> Step(w, s, c).runs[run].snapshot.version == 1
  {
    if !c.DoSubmit? {
      hide Step;
      CallTouches(w, s, c);
    }
  }

  /** The aggregate version of a run, in every reachable state, counts what was done to it. */
  lemma VersionCountsEffects(w: Worker, calls: seq<Call>, run: Name)
    requires Fresh(w, EMPTY, calls) && run in Run(w, EMPTY, calls).runs
    ensures Run(w, EMPTY, calls).runs[run].snapshot.version == 1 + EffectiveCalls(w, EMPTY, calls, run)
  {
    RunCountsVersion(w, EMPTY, calls, run);
  }

  // -------------------------------------------------------------- reading pages

  /** The page at an offset that the stream has reached. */
  lemma PageAt(w: Worker, s: State, run: Name, offset: nat, limit: nat)
    requires run in s.runs && offset <= |s.runs[run].events| <= Decimal.USIZE_MAX
    requires 1 <= limit <= w.maxPage
    ensures var events := s.runs[run].events;
            var end := if offset + limit < |events| then offset + limit else |events|;
            GetRunEvents(w, s, run, CursorAt(w, run, offset), limit) ==
            Ok(EventPage(events[offset..end], CursorAt(w, run, end), end < |events|))
  {
    if offset > 0 {
      CursorRoundTrip(w.runText(run), offset, w.runText(run), |s.runs[run].events|);
    }
    hide CursorFor, ParseCursor;
  }

  /** A cursor is of no use for another run whose name has the same length and differs. */
  lemma CursorIsBoundToItsRun(w: Worker, s: State, run: Name, run': Name, offset: nat, limit: nat)
    requires run' in s.runs && 0 < offset <= Decimal.USIZE_MAX && 1 <= limit <= w.maxPage
    requires |w.runText(run)| == |w.runText(run')| && w.runText(run) != w.runText(run')
    ensures GetRunEvents(w, s, run', CursorAt(w, run, offset), limit) == Err(InvalidCursor(OtherRunOrSchema))
  {
    CursorRoundTrip(w.runText(run), offset, w.runText(run'), |s.runs[run'].events|);
    hide CursorFor, ParseCursor;
  }

  /** One read of a reader, and what the gateway did before it. */
  datatype Pull = Pull(calls: seq<Call>, limit: nat)

  /** The state, the cursor held and the events collected after some reads. */
  datatype Reader = Reader(s: State, cursor: Option<string>, got: seq<Event>)

  function PullAll(w: Worker, run: Name, reader: Reader, pulls: seq<Pull>): Result<Reader, Error>
    decreases |pulls|
  {
    if pulls == [] then Ok(reader)
    else
      var s := Run(w, reader.s, pulls[0].calls);
      match GetRunEvents(w, s, run, reader.cursor, pulls[0].limit)
      case Err(error) => Err(error)
      case Ok(page) =>
        PullAll(w, run, Reader(s, page.next, reader.got + page.events), pulls[1..])
  }

  ghost predicate PullsAreFair(w: Worker, s: State, pulls: seq<Pull>)
    decreases |pulls|
  {
    pulls == [] ||
    (&& 1 <= pulls[0].limit <= w.maxPage && Fresh(w, s, pulls[0].calls)
     && PullsAreFair(w, Run(w, s, pulls[0].calls), pulls[1..]))
  }

  /** The reader stands at a point of the stream and holds what comes before it. */
  ghost predicate HoldsAPrefix(w: Worker, run: Name, r: Reader) {
    run in r.s.runs && r.got <= r.s.runs[run].events && r.cursor == CursorAt(w, run, |r.got|)
  }

  lemma OnePull(w: Worker, run: Name, r: Reader, s: State, limit: nat)
    requires HoldsAPrefix(w, run, r) && Remembers(r.s, s) && Streams(w, s) && 1 <= limit <= w.maxPage
    ensures var page := GetRunEvents(w, s, run, r.cursor, limit);
            page.Ok? && HoldsAPrefix(w, run, Reader(s, page.value.next, r.got + page.value.events))
  {
    hide CursorFor, ParseCursor, GetRunEvents, CursorAt, EventsAreUnique;
    var events := s.runs[run].events;
    assert |events| <= Decimal.USIZE_MAX by { assert StreamIsSound(w, s, run); }
    assert r.got <= events;
    hide Streams, Remembers, StreamIsSound;
    PageAt(w, s, run, |r.got|, limit);
    var end := if |r.got| + limit < |events| then |r.got| + limit else |events|;
    assert r.got + events[|r.got|..end] == events[..end];
  }

  /**
   A reader that follows the cursors from any point it has reached, with any page sizes and any
   calls in between, always succeeds and holds exactly the beginning of the current stream.
   */
  lemma {:induction false} ReaderHoldsAPrefix(w: Worker, run: Name, reader: Reader, pulls: seq<Pull>)
    requires Streams(w, reader.s) && PullsAreFair(w, reader.s, pulls) && HoldsAPrefix(w, run, reader)
    ensures PullAll(w, run, reader, pulls).Ok? && HoldsAPrefix(w, run, PullAll(w, run, reader, pulls).value)
    ensures reader.got <= PullAll(w, run, reader, pulls).value.got
    decreases |pulls|
  {
    hide HoldsAPrefix, Streams, GetRunEvents, Remembers;
    if pulls != [] {
      var s := Run(w, reader.s, pulls[0].calls);
      RunRemembers(w, reader.s, pulls[0].calls);
      RunKeepsStreams(w, reader.s, pulls[0].calls);
      hide Fresh, Run;
      OnePull(w, run, reader, s, pulls[0].limit);
      var page := GetRunEvents(w, s, run, reader.cursor, pulls[0].limit).value;
      ReaderHoldsAPrefix(w, run, Reader(s, page.next, reader.got + page.events), pulls[1..]);
    }
  }

  /** In particular every reader that starts without a cursor, in any reachable state. */
  lemma ReaderFromTheStart(w: Worker, calls: seq<Call>, run: Name, pulls: seq<Pull>)
    requires Fresh(w, EMPTY, calls) && run in Run(w, EMPTY, calls).runs
    requires PullsAreFair(w, Run(w, EMPTY, calls), pulls)
    ensures var r := PullAll(w, run, Reader(Run(w, EMPTY, calls), None, []), pulls);
            r.Ok? && run in r.value.s.runs && r.value.got <= r.value.s.runs[run].events
  {
    ReachableIsSound(w, calls);
    ReaderHoldsAPrefix(w, run, Reader(Run(w, EMPTY, calls), None, []), pulls);
  }
}
