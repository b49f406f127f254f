/**
 Whole runs of the Linear close: any close and reconcile calls, one after the other and each
 settled before the next, with any requests and any losses, and other people commenting on the
 issue and editing it in between. Nobody else writes an authenticated marker or deletes a comment.
 */
module LinearRuns {
  import opened Prelude
  import opened SourcePort
  import opened LinearCodec
  import opened LinearClose
  import CloseText

  datatype Event =
    | CallClose(r: CloseRequest, w: Weather)
    | CallReconcile(q: ReconcileRequest, w: Weather)
    | OtherComment(note: Note)
    | OtherEdit(core: Core)

  function Next(c: Connector, issue: Issue, e: Event): Issue {
    match e
    case CallClose(r, w) => Close(c, r, issue, w).0
    case CallReconcile(_, _) => issue
    case OtherComment(note) => issue.(notes := issue.notes + [note])
    case OtherEdit(core) => issue.(core := core)
  }

  function Run(c: Connector, issue: Issue, es: seq<Event>): Issue
    decreases |es|
  {
    if es == [] then issue else Run(c, Next(c, issue, es[0]), es[1..])
  }

  predicate Permitted(c: Connector, e: Event) {
    match e
    case CallClose(r, _) => Admitted(c, r) ==> CloseText.ReadsBack(c.keys, r)
    case OtherComment(note) => c.read(note.body) == []
    case _ => true
  }

  predicate AllPermitted(c: Connector, es: seq<Event>) {
    forall i :: 0 <= i < |es| ==> Permitted(c, es[i])
  }

  /** The authenticated markers on the issue. */
  function Marks(c: Connector, issue: Issue): seq<Observed> {
    ObservedIn(c.read, issue.notes)
  }

  predicate MarkIs(o: Observed, r: CloseRequest) {
    CloseVerdict(o.marker, r) == Exact
  }

  /** Did this call get its marker comment applied? */
  predicate Writes(c: Connector, issue: Issue, r: CloseRequest, w: Weather) {
    && Admitted(c, r) && w.read.None? && PlanFor(c, r, issue).Begin?
    && w.comment != LostUnapplied
  }

  /** Did this call get the move to the completed state applied? */
  predicate Moves(c: Connector, issue: Issue, r: CloseRequest, w: Weather) {
    && Admitted(c, r) && w.read.None? && w.update != LostUnapplied
    && (|| PlanFor(c, r, issue).Finish?
        || (PlanFor(c, r, issue).Begin? && w.comment == Delivered && w.noteId != BLANK))
  }

  predicate TrustedCompleted(c: Connector, core: Core) {
    core.team in c.teams && core.state == c.teams[core.team].completedState
  }

  /** A call changes the issue only by its two mutations, the comment before the move. */
  lemma CloseChanges(c: Connector, r: CloseRequest, issue: Issue, w: Weather)
    ensures var issue' := Close(c, r, issue, w).0;
            && (Writes(c, issue, r, w) ==>
                  exists body :: issue'.notes == issue.notes + [Note(w.noteId, body, w.notedAt)] && c.write(r) == Ok(body))
            && (!Writes(c, issue, r, w) ==> issue'.notes == issue.notes)
            && (Moves(c, issue, r, w) ==> TrustedCompleted(c, issue'.core) && !TrustedCompleted(c, issue.core))
            && (!Moves(c, issue, r, w) ==> issue'.core.(updatedAt := 0) == issue.core.(updatedAt := 0))
            && (!Moves(c, issue, r, w) && !Writes(c, issue, r, w) ==> issue' == issue)
  {
  }

  /** A close call goes by a marker iff the issue bears one, and that marker is then its own. */
  lemma ForCloseMeans(c: Connector, r: CloseRequest, issue: Issue)
    ensures var found := ForClose(c, r, issue.notes);
            && (found == Ok(None) ==> Marks(c, issue) == [])
            && (found.Ok? && found.value.Some? ==> found.value.value in Marks(c, issue) && MarkIs(found.value.value, r))
            && (found.Ok? ==> forall i :: 0 <= i < |Marks(c, issue)| ==> MarkIs(Marks(c, issue)[i], r))
  {
    var judge := m => CloseVerdict(m, r);
    var os := Marks(c, issue);
    SelectMeans(os, judge);
    forall i | 0 <= i < |os| ensures judge(os[i].marker) == CloseVerdict(os[i].marker, r) {}
  }

  /** The converse: no marker, no match; one marker, its verdict. */
  lemma ForCloseOf(c: Connector, r: CloseRequest, issue: Issue)
    requires NotesAreNamed(issue.notes) && |Marks(c, issue)| <= 1
    ensures var os := Marks(c, issue);
            ForClose(c, r, issue.notes) ==
            if os == [] then Ok(None)
            else if MarkIs(os[0], r) then Ok(Some(os[0]))
            else Err(CloseVerdict(os[0].marker, r).error)
  {
    var os := Marks(c, issue);
    var judge := m => CloseVerdict(m, r);
    if os != [] {
      assert os == [os[0]] && os[1..] == [];
      assert Select(os[1..], judge) == Ok(None);
      assert judge(os[0].marker) == CloseVerdict(os[0].marker, r);
    }
  }

  lemma MarksAfterComment(c: Connector, issue: Issue, note: Note)
    ensures ObservedIn(c.read, issue.notes + [note]) == Marks(c, issue) + Stamp(c.read(note.body), note)
  {
    assert (issue.notes + [note])[..|issue.notes|] == issue.notes;
  }

  /** What the adapter would write for this request, it would read back as the request's marker. */
  predicate Legible(c: Connector, r: CloseRequest) {
    Admitted(c, r) && c.write(r).Ok? ==> c.read(c.write(r).value) == [CloseText.MarkerFor(r)]
  }

  /** Legibility is a matter of the prose. */
  lemma LegibleMeans(c: Connector, r: CloseRequest)
    requires c.Wired()
    ensures Legible(c, r) <==> (Admitted(c, r) && c.write(r).Ok? ==> CloseText.ReadsBack(c.keys, r))
  {
    CloseText.CommentReadsBack(c.keys, r);
    hide CloseText.ReadsBack, MarkersIn, EncodeMarker, Admitted;
  }

  /** What is written by one step: at most one marker, on an issue that had none, and the caller's. */
  lemma MarksAfterClose(c: Connector, r: CloseRequest, issue: Issue, w: Weather)
    requires Legible(c, r)
    ensures var issue' := Close(c, r, issue, w).0;
            && (!Writes(c, issue, r, w) ==> Marks(c, issue') == Marks(c, issue))
            && (Writes(c, issue, r, w) ==>
                  && Marks(c, issue) == []
                  && Marks(c, issue') == [Observed(CloseText.MarkerFor(r), w.noteId, w.notedAt)])
            && (Moves(c, issue, r, w) ==>
                  Marks(c, issue') != [] && forall i :: 0 <= i < |Marks(c, issue')| ==> MarkIs(Marks(c, issue')[i], r))
  {
    CloseChanges(c, r, issue, w);
    ForCloseMeans(c, r, issue);
    if Writes(c, issue, r, w) {
      assert ForClose(c, r, issue.notes) == Ok(None);
      var body :| Close(c, r, issue, w).0.notes == issue.notes + [Note(w.noteId, body, w.notedAt)] && c.write(r) == Ok(body);
      MarksAfterComment(c, issue, Note(w.noteId, body, w.notedAt));
    }
  }

  /** Marker comments applied over a run. */
  function CommentsWritten(c: Connector, issue: Issue, es: seq<Event>): nat
    decreases |es|
  {
    if es == [] then 0
    else
      var one := if es[0].CallClose? && Writes(c, issue, es[0].r, es[0].w) then 1 else 0;
      one + CommentsWritten(c, Next(c, issue, es[0]), es[1..])
  }

  /** Every move the adapter applies leaves the issue with one marker, that of the moving request. */
  ghost predicate MovesAreMarked(c: Connector, issue: Issue, es: seq<Event>)
    decreases |es|
  {
    es != [] ==>
      var next := Next(c, issue, es[0]);
      && (es[0].CallClose? && Moves(c, issue, es[0].r, es[0].w) ==>
            |Marks(c, next)| == 1 && MarkIs(Marks(c, next)[0], es[0].r))
      && MovesAreMarked(c, next, es[1..])
  }

  lemma MarksAfterStep(c: Connector, issue: Issue, e: Event)
    requires c.Wired() && Permitted(c, e) && |Marks(c, issue)| <= 1
    ensures var next := Next(c, issue, e);
            var wrote := e.CallClose? && Writes(c, issue, e.r, e.w);
            && |Marks(c, next)| == |Marks(c, issue)| + (if wrote then 1 else 0) <= 1
            && Marks(c, issue) <= Marks(c, next)
            && (e.CallClose? && Moves(c, issue, e.r, e.w) ==>
                  |Marks(c, next)| == 1 && MarkIs(Marks(c, next)[0], e.r))
  {
    match e
    case CallClose(r, w) =>
      LegibleMeans(c, r);
      MarksAfterClose(c, r, issue, w);
    case CallReconcile(_, _) =>
    case OtherComment(note) => MarksAfterComment(c, issue, note);
    case OtherEdit(_) =>
  }

  /**
   Exactly once, in every run: the markers on the issue are those it had and as many more as the
   calls wrote, never more than one in all; a marker once there stays; and the adapter completes
   the issue only when it bears the completing request's own marker.
   */
  lemma {:induction false} ExactlyOnce(c: Connector, issue: Issue, es: seq<Event>)
    requires c.Wired() && AllPermitted(c, es) && |Marks(c, issue)| <= 1
    ensures |Marks(c, Run(c, issue, es))| == |Marks(c, issue)| + CommentsWritten(c, issue, es) <= 1
    ensures Marks(c, issue) <= Marks(c, Run(c, issue, es))
    ensures MovesAreMarked(c, issue, es)
    decreases |es|
  {
    if es != [] {
      MarksAfterStep(c, issue, es[0]);
      ExactlyOnce(c, Next(c, issue, es[0]), es[1..]);
    }
  }

  // ------------------------------------------- the condition on the prose

  lemma ReadIsCurrent(c: Connector, body: string)
    requires c.Wired()
    ensures AreCurrent(c.read(body))
  {
    hide MarkersBetween, AreCurrent;
    assert c.read(body) == MarkersIn(c.keys, body);
    MarkersAreCurrent(c.keys, MARKER_PREFIX, MARKER_SUFFIX, body);
  }

  lemma MarkIsOwn(m: Marker, o: Observed, r: CloseRequest)
    requires o.marker == m && m.version == 1
    ensures MarkIs(o, r) <==> m == CloseText.MarkerFor(r)
  {
  }

  /** What the issue bears once a first comment is applied, its response lost or not. */
  lemma MarksAfterFirst(c: Connector, r: CloseRequest, issue: Issue, w: Weather)
    requires Writes(c, issue, r, w)
    ensures Admitted(c, r) && c.write(r).Ok?
    ensures Marks(c, Close(c, r, issue, w).0) ==
            Stamp(c.read(c.write(r).value), Note(w.noteId, c.write(r).value, w.notedAt))
  {
    CloseChanges(c, r, issue, w);
    ForCloseMeans(c, r, issue);
    MarksAfterComment(c, issue, Note(w.noteId, c.write(r).value, w.notedAt));
  }

  lemma WritesOnlyUnmarked(c: Connector, r: CloseRequest, issue: Issue, w: Weather)
    ensures Writes(c, issue, r, w) ==> Marks(c, issue) == []
  {
    ForCloseMeans(c, r, issue);
  }

  /**
   The condition on the prose is exact. For every first attempt whose comment is applied, and every further
   call for it, there is exactly one comment and one marker, the request's own, if and only if the prose
   reads back; prose that is open, or that carries any other marker, breaks it.
   */
  lemma OnceExactlyIfReadsBack(c: Connector, r: CloseRequest, issue: Issue, w: Weather, w': Weather)
    requires c.Wired() && Writes(c, issue, r, w)
    ensures var es := [CallClose(r, w), CallClose(r, w')];
            var marks := Marks(c, Run(c, issue, es));
            CommentsWritten(c, issue, es) == 1 && |marks| == 1 && MarkIs(marks[0], r) <==> CloseText.ReadsBack(c.keys, r)
  {
    hide Close, Run, CommentsWritten, PlanFor, Writes, Moves, CloseText.ReadsBack, MarkIs, CloseText.MarkerFor, Admitted,
         ObservedIn;
    var first := Close(c, r, issue, w).0;
    var second := Close(c, r, first, w').0;
    TwoCalls(c, r, issue, w, w');
    MarksAfterFirst(c, r, issue, w);
    CloseChanges(c, r, first, w');
    WritesOnlyUnmarked(c, r, first, w');
    LegibleMeans(c, r);
    var found := c.read(c.write(r).value);
    ReadIsCurrent(c, c.write(r).value);
    if found != [] {
      assert Marks(c, second) == Marks(c, first);
      MarkIsOwn(found[0], Marks(c, first)[0], r);
    }
  }

  lemma TwoCalls(c: Connector, r: CloseRequest, issue: Issue, w: Weather, w': Weather)
    ensures var es := [CallClose(r, w), CallClose(r, w')];
            var first := Close(c, r, issue, w).0;
            && Run(c, issue, es) == Close(c, r, first, w').0
            && CommentsWritten(c, issue, es) ==
               (if Writes(c, issue, r, w) then 1 else 0) + (if Writes(c, first, r, w') then 1 else 0)
  {
    hide Close, Writes;
    var es := [CallClose(r, w), CallClose(r, w')];
    var first := Close(c, r, issue, w).0;
    var second := Close(c, r, first, w').0;
    assert es[1..] == [CallClose(r, w')] && es[1..][1..] == [];
    assert Run(c, second, []) == second && CommentsWritten(c, second, []) == 0;
    assert Run(c, first, es[1..]) == Run(c, second, []);
    assert CommentsWritten(c, first, es[1..]) == if Writes(c, first, r, w') then 1 else 0;
  }

  /** A first comment that was applied while its response was lost. */
  predicate LosesComment(c: Connector, r: CloseRequest, issue: Issue, w: Weather) {
    && Admitted(c, r) && PlanFor(c, r, issue).Begin? && w.read.None?
    && w.comment == LostAfterApplied && w.noteId != BLANK && w.touchedAt == issue.core.updatedAt
  }

  lemma AfterLostComment(c: Connector, r: CloseRequest, issue: Issue, w: Weather)
    requires LosesComment(c, r, issue, w)
    ensures var first := Close(c, r, issue, w);
            && first.1 == Ambiguous(r) && first.0.core == issue.core && Writes(c, issue, r, w)
            && c.write(r).Ok? && first.0.notes == issue.notes + [Note(w.noteId, c.write(r).value, w.notedAt)]
            && Marks(c, first.0) == Stamp(c.read(c.write(r).value), Note(w.noteId, c.write(r).value, w.notedAt))
            && NotesAreNamed(issue.notes) && NotesAreNamed(first.0.notes)
  {
    MarksAfterFirst(c, r, issue, w);
    hide ObservedIn, Marks, Select, CloseVerdict;
  }

  /** Among unmarked issues the plan depends on nothing but the core. */
  lemma UnmarkedPlan(c: Connector, r: CloseRequest, issue: Issue, issue': Issue)
    requires issue.core == issue'.core && NotesAreNamed(issue.notes) && NotesAreNamed(issue'.notes)
    requires Marks(c, issue) == [] && Marks(c, issue') == []
    ensures PlanFor(c, r, issue) == PlanFor(c, r, issue')
  {
    ForCloseOf(c, r, issue);
    ForCloseOf(c, r, issue');
    hide ForClose, PlanFirst, Marks;
  }

  /** The retry of an issue that nobody touched writes again exactly if the first comment reads back as nothing. */
  lemma RetryAfterLostComment(c: Connector, r: CloseRequest, issue: Issue, w: Weather, w': Weather)
    requires LosesComment(c, r, issue, w) && w'.read.None? && w'.comment != LostUnapplied
    ensures c.write(r).Ok?
    ensures Writes(c, Close(c, r, issue, w).0, r, w') <==> c.read(c.write(r).value) == []
  {
    hide Close, PlanFor, Admitted, ObservedIn;
    var first := Close(c, r, issue, w).0;
    AfterLostComment(c, r, issue, w);
    WritesOnlyUnmarked(c, r, issue, w);
    WritesOnlyUnmarked(c, r, first, w');
    hide Marks;
    if c.read(c.write(r).value) == [] {
      UnmarkedPlan(c, r, issue, first);
    }
  }

  /** Open prose in particular: a comment that nobody can find again, so the retry writes another. */
  lemma OpenProseWritesTwice(c: Connector, r: CloseRequest, issue: Issue, w: Weather, w': Weather)
    requires c.Wired() && LosesComment(c, r, issue, w) && w'.read.None? && w'.comment != LostUnapplied
    requires r.effect.closure.pullRequest.Some?
    requires var prose := CloseText.Prose(r.effect.closure, r.effect.closure.pullRequest.value);
             MarkersIn(c.keys, prose) == [] && EndsInsideMarker(prose)
    ensures var first := Close(c, r, issue, w);
            var second := Close(c, r, first.0, w');
            && first.1 == Ambiguous(r)
            && Writes(c, issue, r, w) && Writes(c, first.0, r, w')
            && |second.0.notes| == |issue.notes| + 2
            && second.0.notes[|issue.notes|].body == second.0.notes[|issue.notes| + 1].body
  {
    AfterLostComment(c, r, issue, w);
    RetryAfterLostComment(c, r, issue, w, w');
    CloseText.OpenCommentDecodes(c.keys, r);
    CloseChanges(c, r, Close(c, r, issue, w).0, w');
    hide Close, PlanFor, Writes, CloseText.Prose, MarkersIn, EndsInsideMarker, EncodeMarker;
  }

  /** Once an issue is completed and bears one marker, calls only read it. */
  lemma ClosedIssueAnswers(c: Connector, r: CloseRequest, issue: Issue, w: Weather)
    requires |Marks(c, issue)| == 1 && NotesAreNamed(issue.notes) && TrustedCompleted(c, issue.core)
    requires Admitted(c, r) && w.read.None? && issue.core.id == r.effect.item.externalId
    ensures Close(c, r, issue, w).0 == issue
    ensures MarkIs(Marks(c, issue)[0], r) ==>
              && Close(c, r, issue, w).1.Ok?
              && Close(c, r, issue, w).1.value.disposition == Adopted
              && ReceiptFor(Close(c, r, issue, w).1.value, r)
    ensures !MarkIs(Marks(c, issue)[0], r) ==> Close(c, r, issue, w).1.Err?
  {
    ForCloseOf(c, r, issue);
  }

  /**
   After a reconciliation finds the effect, every further call leaves the issue alone: the same
   effect is adopted, and a request under any other key is refused.
   */
  lemma AfterReconciliation(c: Connector, q: ReconcileRequest, issue: Issue, w: Weather,
                            r: CloseRequest, w': Weather)
    requires |Marks(c, issue)| <= 1
    requires Reconcile(c, q, issue, w).Ok? && Reconcile(c, q, issue, w).value.Found?
    requires Admitted(c, r) && r.effect.item == q.item && w'.read.None?
    ensures Close(c, r, issue, w').0 == issue
    ensures FromClose(r) == q ==>
              && Close(c, r, issue, w').1.Ok?
              && Close(c, r, issue, w').1.value.disposition == Adopted
              && SameEffect(Close(c, r, issue, w').1.value, Reconcile(c, q, issue, w).value.receipt)
    ensures r.key != q.key ==> Close(c, r, issue, w').1.Err?
  {
    var os := Marks(c, issue);
    SelectMeans(os, m => ReconcileVerdict(m, q));
    assert os == [os[0]] && ReconcileVerdict(os[0].marker, q) == Exact;
    ClosedIssueAnswers(c, r, issue, w');
  }

  /** Calls, and comments by others; nobody else edits the issue. */
  predicate Unedited(c: Connector, es: seq<Event>) {
    forall i :: 0 <= i < |es| ==>
      !es[i].OtherEdit? && (es[i].OtherComment? ==> es[i].note.id != BLANK && c.read(es[i].note.body) == [])
  }

  /** A call leaves a completed issue alone, whatever it asks for. */
  lemma CompletedIsLeftAlone(c: Connector, r: CloseRequest, issue: Issue, w: Weather)
    requires TrustedCompleted(c, issue.core)
    ensures Close(c, r, issue, w).0 == issue
  {
  }

  lemma {:induction false} RunLeavesCompletedAlone(c: Connector, issue: Issue, es: seq<Event>)
    requires TrustedCompleted(c, issue.core) && NotesAreNamed(issue.notes) && Unedited(c, es)
    ensures var end := Run(c, issue, es);
            && end.core == issue.core && Marks(c, end) == Marks(c, issue) && NotesAreNamed(end.notes)
            && CommentsWritten(c, issue, es) == 0
    decreases |es|
  {
    hide TrustedCompleted;
    if es != [] {
      var next := Next(c, issue, es[0]);
      if es[0].CallClose? {
        CompletedIsLeftAlone(c, es[0].r, issue, es[0].w);
        CompletedIsNotWritten(c, es[0].r, issue, es[0].w);
      } else if es[0].OtherComment? {
        MarksAfterComment(c, issue, es[0].note);
      }
      hide Close, Writes;
      RunLeavesCompletedAlone(c, next, es[1..]);
    }
  }

  lemma CompletedIsNotWritten(c: Connector, r: CloseRequest, issue: Issue, w: Weather)
    requires TrustedCompleted(c, issue.core)
    ensures !Writes(c, issue, r, w)
  {
  }

  /** And so after any calls and comments in between: nothing is written, the same effect is adopted, others are refused. */
  lemma EverAfterReconciliation(c: Connector, q: ReconcileRequest, issue: Issue, w: Weather, es: seq<Event>,
                                r: CloseRequest, w': Weather)
    requires |Marks(c, issue)| <= 1 && Unedited(c, es)
    requires Reconcile(c, q, issue, w).Ok? && Reconcile(c, q, issue, w).value.Found?
    requires Admitted(c, r) && r.effect.item == q.item && w'.read.None?
    ensures var end := Run(c, issue, es);
            && end.core == issue.core && CommentsWritten(c, issue, es) == 0
            && Close(c, r, end, w').0 == end
            && (FromClose(r) == q ==>
                  && Close(c, r, end, w').1.Ok?
                  && Close(c, r, end, w').1.value.disposition == Adopted
                  && SameEffect(Close(c, r, end, w').1.value, Reconcile(c, q, issue, w).value.receipt))
            && (r.key != q.key ==> Close(c, r, end, w').1.Err?)
  {
    var end := Run(c, issue, es);
    assert TrustedCompleted(c, issue.core) && NotesAreNamed(issue.notes);
    RunLeavesCompletedAlone(c, issue, es);
    assert Reconcile(c, q, end, w) == Reconcile(c, q, issue, w) by {
      assert ForReconciliation(c, q, end.notes) == ForReconciliation(c, q, issue.notes);
    }
    hide Reconcile, Close, Run, CommentsWritten;
    AfterReconciliation(c, q, end, w, r, w');
  }

  /** Fair weather completes an issue that bears the request's marker. */
  lemma FinishCompletes(c: Connector, r: CloseRequest, issue: Issue, w: Weather)
    requires Admitted(c, r) && w.read.None? && w.update == Delivered
    requires issue.core.id == r.effect.item.externalId && issue.core.team in c.teams
    requires NotesAreNamed(issue.notes) && |Marks(c, issue)| == 1 && MarkIs(Marks(c, issue)[0], r)
    requires TrustedCompleted(c, issue.core) || IsMutable(issue.core)
    ensures var done := Close(c, r, issue, w);
            && done.1.Ok? && ReceiptFor(done.1.value, r)
            && TrustedCompleted(c, done.0.core) && Marks(c, done.0) == Marks(c, issue)
  {
    ForCloseOf(c, r, issue);
  }

  lemma BeginCompletes(c: Connector, r: CloseRequest, issue: Issue, w: Weather)
    requires Legible(c, r)
    requires Admitted(c, r) && w.read.None? && PlanFor(c, r, issue).Begin?
    requires w.comment == Delivered && w.update == Delivered && w.noteId != BLANK
    ensures var done := Close(c, r, issue, w);
            && done.1.Ok? && ReceiptFor(done.1.value, r)
            && TrustedCompleted(c, done.0.core) && |Marks(c, done.0)| == 1 && MarkIs(Marks(c, done.0)[0], r)
  {
    MarksAfterClose(c, r, issue, w);
    CloseChanges(c, r, issue, w);
  }

  /** A retry in fair weather completes whatever an ambiguous first attempt left behind. */
  lemma RetryCompletes(c: Connector, r: CloseRequest, issue: Issue, w: Weather, w': Weather)
    requires Legible(c, r)
    requires Admitted(c, r) && w.read.None? && PlanFor(c, r, issue).Begin? && w.noteId != BLANK
    requires Close(c, r, issue, w).1 == Ambiguous(r)
    requires w'.read.None? && w'.comment == Delivered && w'.update == Delivered && w'.noteId != BLANK
    ensures var first := Close(c, r, issue, w).0;
            var second := Close(c, r, first, w');
            && second.1.Ok? && ReceiptFor(second.1.value, r)
            && TrustedCompleted(c, second.0.core) && |Marks(c, second.0)| == 1 && MarkIs(Marks(c, second.0)[0], r)
  {
    var first := Close(c, r, issue, w).0;
    CloseChanges(c, r, issue, w);
    MarksAfterClose(c, r, issue, w);
    if Writes(c, issue, r, w) {
      FinishCompletes(c, r, first, w');
    } else {
      BeginCompletes(c, r, issue, w');
    }
  }
}
