/** What each answer of the Linear close means, in the fields of the request and the issue. */
module LinearAnswers {
  import opened Prelude
  import opened SourcePort
  import opened LinearClose
  import opened LinearRuns
  import opened LinearCodec
  import CloseText

  // --------------------------------------------------------------- verdicts

  /** A close judges a marker by item, key, digest and correlation. */
  lemma CloseVerdictMeans(m: Marker, r: CloseRequest)
    ensures var same := m.tenant == r.effect.item.tenant && m.externalId == r.effect.item.externalId;
            && (CloseVerdict(m, r) == Exact <==>
                  same && m.key == r.key && m.digest == r.digest && m.correlation == r.effect.correlation)
            && (CloseVerdict(m, r) == Clash(IdempotencyConflict(r.key, m.digest, r.digest)) <==>
                  same && if m.key == r.key then m.digest != r.digest else m.correlation == r.effect.correlation)
            && (CloseVerdict(m, r) == Clash(SourceStateConflict) <==>
                  || !same
                  || (m.key == r.key && m.digest == r.digest && m.correlation != r.effect.correlation)
                  || (m.key != r.key && m.correlation != r.effect.correlation))
  {
  }

  /** A reconciliation judges likewise, but passes over other keys of the same item. */
  lemma ReconcileVerdictMeans(m: Marker, q: ReconcileRequest)
    ensures var same := m.tenant == q.item.tenant && m.externalId == q.item.externalId;
            && (ReconcileVerdict(m, q) == Exact <==>
                  same && m.key == q.key && m.digest == q.digest && m.correlation == q.correlation)
            && (ReconcileVerdict(m, q) == Unrelated <==> same && m.key != q.key && m.correlation != q.correlation)
            && (ReconcileVerdict(m, q) == Clash(IdempotencyConflict(q.key, m.digest, q.digest)) <==>
                  same && if m.key == q.key then m.digest != q.digest else m.correlation == q.correlation)
            && (ReconcileVerdict(m, q) == Clash(SourceStateConflict) <==>
                  !same || (m.key == q.key && m.digest == q.digest && m.correlation != q.correlation))
  {
  }

  // ------------------------------------------------------- when a call acts

  /** The request is a valid close of this connector's, and the issue read is the one it names. */
  predicate Reaches(c: Connector, r: CloseRequest, issue: Issue, w: Weather) {
    && r.key != BLANK && c.ports.effectIsValid(r.effect) && r.digest == c.ports.digestOf(r.effect)
    && r.effect.item.source == Linear && r.effect.item.tenant == c.tenant && c.closureIsSafe(r.effect.closure)
    && w.read.None? && issue.core.id == r.effect.item.externalId && issue.core.team in c.teams
    && forall i :: 0 <= i < |issue.notes| ==> issue.notes[i].id != BLANK
  }

  predicate IsOpen(c: Connector, core: Core)
    requires core.team in c.teams
  {
    && core.state != c.teams[core.team].completedState
    && !core.archived && !core.canceled && !core.completed && core.kind != CompletedKind && core.kind != CanceledKind
  }

  /** The issue is as the request expects it, and its pull request belongs to the team's repository. */
  predicate IsExpected(c: Connector, r: CloseRequest, core: Core)
    requires core.team in c.teams
  {
    && c.normalize(core) == Ok(SnapshotId(r.effect.expectedRevision, r.effect.expectedDigest))
    && r.effect.closure.pullRequest.Some?
    && r.effect.closure.pullRequest.value.repository == c.teams[core.team].repository
    && c.urlIsSafe(r.effect.closure.pullRequest.value.url) && c.write(r).Ok?
  }

  predicate AllOwn(c: Connector, r: CloseRequest, issue: Issue) {
    forall i :: 0 <= i < |Marks(c, issue)| ==>
      var m := Marks(c, issue)[i].marker;
      && m.tenant == r.effect.item.tenant && m.externalId == r.effect.item.externalId && m.key == r.key
      && m.digest == r.digest && m.correlation == r.effect.correlation
  }

  lemma ForCloseInFields(c: Connector, r: CloseRequest, issue: Issue)
    requires NotesAreNamed(issue.notes)
    ensures ForClose(c, r, issue.notes).Ok? <==> AllOwn(c, r, issue)
    ensures ForClose(c, r, issue.notes) == Ok(None) <==> Marks(c, issue) == []
  {
    var judge := m => CloseVerdict(m, r);
    var os := Marks(c, issue);
    SelectMeans(os, judge);
    forall i | 0 <= i < |os| ensures judge(os[i].marker) == CloseVerdict(os[i].marker, r) {
      CloseVerdictMeans(os[i].marker, r);
    }
    hide Select, ObservedIn;
    if os != [] {
      assert judge(os[0].marker) != Unrelated;
    }
  }

  lemma PlanInFields(c: Connector, r: CloseRequest, issue: Issue, w: Weather)
    requires Reaches(c, r, issue, w)
    ensures var plan := PlanFor(c, r, issue);
            && (plan.Begin? <==> Marks(c, issue) == [] && IsOpen(c, issue.core) && IsExpected(c, r, issue.core))
            && (plan.Finish? <==> Marks(c, issue) != [] && AllOwn(c, r, issue) && IsOpen(c, issue.core))
            && (plan.Adopt? <==> Marks(c, issue) != [] && AllOwn(c, r, issue)
                                 && issue.core.state == c.teams[issue.core.team].completedState)
  {
    assert NotesAreNamed(issue.notes);
    ForCloseInFields(c, r, issue);
    hide ForClose, Marks, AllOwn;
  }

  /** A comment is written exactly then. */
  lemma WritesMeans(c: Connector, r: CloseRequest, issue: Issue, w: Weather)
    ensures Writes(c, issue, r, w) <==>
            && Reaches(c, r, issue, w) && Marks(c, issue) == [] && IsOpen(c, issue.core)
            && IsExpected(c, r, issue.core) && w.comment != LostUnapplied
  {
    if Reaches(c, r, issue, w) {
      PlanInFields(c, r, issue, w);
    }
    hide Marks, IsOpen, IsExpected;
  }

  /** The issue is completed exactly then. */
  lemma MovesMeans(c: Connector, r: CloseRequest, issue: Issue, w: Weather)
    ensures Moves(c, issue, r, w) <==>
            && Reaches(c, r, issue, w) && IsOpen(c, issue.core) && w.update != LostUnapplied
            && if Marks(c, issue) != [] then AllOwn(c, r, issue)
               else IsExpected(c, r, issue.core) && w.comment == Delivered && w.noteId != BLANK
  {
    if Reaches(c, r, issue, w) {
      PlanInFields(c, r, issue, w);
    }
    hide Marks, IsOpen, IsExpected, AllOwn;
  }

  /** A conflict with the state of the issue, rather than with another close, is exactly this. */
  lemma StateConflictMeans(c: Connector, r: CloseRequest, issue: Issue, w: Weather)
    requires Reaches(c, r, issue, w) && Marks(c, issue) == [] && c.normalize(issue.core).Ok?
    requires r.effect.closure.pullRequest.Some?
    ensures Close(c, r, issue, w) == (issue, Err(SourceStateConflict)) <==>
            || !IsOpen(c, issue.core)
            || c.normalize(issue.core).value != SnapshotId(r.effect.expectedRevision, r.effect.expectedDigest)
            || r.effect.closure.pullRequest.value.repository != c.teams[issue.core.team].repository
            || (c.urlIsSafe(r.effect.closure.pullRequest.value.url) && c.write(r) == Err(SourceStateConflict))
  {
    assert NotesAreNamed(issue.notes);
    ForCloseInFields(c, r, issue);
    hide ForClose, Marks;
  }

  // ------------------------------------------------------------- receipts

  /**
   Every receipt: it is for this request, at the revision the issue has now, and it says Applied exactly if
   the issue bore no marker before the call, Adopted exactly if it bore one.
   */
  lemma ReceiptMeans(c: Connector, r: CloseRequest, issue: Issue, w: Weather)
    requires Close(c, r, issue, w).1.Ok?
    ensures var x := Close(c, r, issue, w).1.value;
            && ReceiptFor(x, r) && x.revision == c.revisionOf(Close(c, r, issue, w).0.core.updatedAt)
            && (x.disposition == Applied <==> Marks(c, issue) == [])
            && (x.disposition == Adopted <==> Marks(c, issue) != [])
            && TrustedCompleted(c, Close(c, r, issue, w).0.core)
  {
    ForCloseMeans(c, r, issue);
    hide Marks, ForClose;
  }

  /** The time on a receipt is that of the comment that bears the marker. */
  lemma ReceiptIsDated(c: Connector, r: CloseRequest, issue: Issue, w: Weather)
    requires Legible(c, r) && Close(c, r, issue, w).1.Ok?
    ensures exists o :: o in Marks(c, Close(c, r, issue, w).0) && MarkIs(o, r)
                        && o.recordedAt == Close(c, r, issue, w).1.value.recordedAt
  {
    MarksAfterClose(c, r, issue, w);
    ForCloseMeans(c, r, issue);
    var after := Marks(c, Close(c, r, issue, w).0);
    if PlanFor(c, r, issue).Begin? {
      hide Marks, ForClose, PlanFirst;
      assert after[0] in after && MarkIs(after[0], r);
    } else {
      var found := ForClose(c, r, issue.notes).value.value;
      hide Marks, ForClose, PlanFirst;
      assert found in after && MarkIs(found, r);
    }
  }

  function AppliedReceipts(c: Connector, issue: Issue, es: seq<Event>): nat
    decreases |es|
  {
    if es == [] then 0
    else
      var e := es[0];
      (if e.CallClose? && Close(c, e.r, issue, e.w).1.Ok? && Close(c, e.r, issue, e.w).1.value.disposition == Applied
       then 1 else 0)
      + AppliedReceipts(c, Next(c, issue, e), es[1..])
  }

  lemma AppliedIsWritten(c: Connector, r: CloseRequest, issue: Issue, w: Weather)
    requires Close(c, r, issue, w).1.Ok? && Close(c, r, issue, w).1.value.disposition == Applied
    ensures Writes(c, issue, r, w)
  {
    hide ForClose;
  }

  lemma {:induction false} AppliedAreWritten(c: Connector, issue: Issue, es: seq<Event>)
    ensures AppliedReceipts(c, issue, es) <= CommentsWritten(c, issue, es)
    decreases |es|
  {
    hide Close, Writes;
    if es != [] {
      var e := es[0];
      if e.CallClose? && Close(c, e.r, issue, e.w).1.Ok? && Close(c, e.r, issue, e.w).1.value.disposition == Applied {
        AppliedIsWritten(c, e.r, issue, e.w);
      }
      hide Next;
      AppliedAreWritten(c, Next(c, issue, e), es[1..]);
    }
  }

  /** Over every run at most one receipt says Applied, and none does once the issue is marked. */
  lemma AppliedOnce(c: Connector, issue: Issue, es: seq<Event>)
    requires c.Wired() && AllPermitted(c, es) && |Marks(c, issue)| <= 1
    ensures AppliedReceipts(c, issue, es) + |Marks(c, issue)| <= 1
  {
    hide Run, CommentsWritten, AppliedReceipts, AllPermitted, MovesAreMarked, Marks;
    ExactlyOnce(c, issue, es);
    AppliedAreWritten(c, issue, es);
  }

  // -------------------------------------------------------- reconciliations

  predicate IsSought(m: Marker, q: ReconcileRequest) {
    && m.tenant == q.item.tenant && m.externalId == q.item.externalId && m.key == q.key && m.digest == q.digest
    && m.correlation == q.correlation
  }

  predicate IsOther(m: Marker, q: ReconcileRequest) {
    && m.tenant == q.item.tenant && m.externalId == q.item.externalId && m.key != q.key
    && m.correlation != q.correlation
  }

  /** Reconciliation finds the effect exactly on a completed issue whose markers are the sought one or unrelated. */
  lemma FoundMeans(c: Connector, q: ReconcileRequest, issue: Issue, w: Weather)
    requires c.ports.AcceptsReconcile(q) && q.item.source == Linear && q.item.tenant == c.tenant && w.read.None?
    requires issue.core.id == q.item.externalId && issue.core.team in c.teams && NotesAreNamed(issue.notes)
    ensures var os := Marks(c, issue);
            var clear := forall i :: 0 <= i < |os| ==> IsSought(os[i].marker, q) || IsOther(os[i].marker, q);
            var sought := exists i :: 0 <= i < |os| && IsSought(os[i].marker, q);
            var answer := Reconcile(c, q, issue, w);
            && (answer.Ok? <==> clear)
            && (answer.Ok? && answer.value.Found? <==>
                  clear && sought && issue.core.state == c.teams[issue.core.team].completedState)
            && (answer.Ok? && answer.value.Found? ==>
                  var x := answer.value.receipt;
                  x.item == q.item && x.key == q.key && x.digest == q.digest && x.correlation == q.correlation
                  && x.disposition == Reconciled && x.revision == c.revisionOf(issue.core.updatedAt))
  {
    var judge := m => ReconcileVerdict(m, q);
    var os := Marks(c, issue);
    SelectMeans(os, judge);
    forall i | 0 <= i < |os|
      ensures judge(os[i].marker) == Exact <==> IsSought(os[i].marker, q)
      ensures judge(os[i].marker) == Unrelated <==> IsOther(os[i].marker, q)
    {
      ReconcileVerdictMeans(os[i].marker, q);
    }
    assert ForReconciliation(c, q, issue.notes) == Select(os, judge);
    hide Select, ObservedIn, Marks, ReconcileVerdict, ForReconciliation;
    var found := Select(os, judge);
    if found.Ok? && found.value.Some? {
      var i :| 0 <= i < |os| && os[i] == found.value.value;
      assert IsSought(os[i].marker, q);
    }
  }
}
