/**
 The two-phase Linear close refines the atomic one. For one issue that nobody else writes to,
 every call, with every pattern of losses, is matched by the in-memory gateway either doing
 nothing or performing exactly one atomic close.
 */
module SourceSimulation {
  import opened Prelude
  import opened SourcePort
  import opened LinearClose
  import opened LinearRuns
  import G = SourceGateway
  import CloseText

  /** An issue is closed once it bears a marker and stands in the trusted completed state. */
  predicate Closed(c: Connector, issue: Issue) {
    Marks(c, issue) != [] && TrustedCompleted(c, issue.core)
  }

  /** The item, and the request whose marker the issue bears, if it bears one. */
  datatype Story = Story(item: ItemRef, author: Option<CloseRequest>)

  predicate WellPlaced(c: Connector, issue: Issue, story: Story) {
    && story.item.source == Linear && story.item.tenant == c.tenant
    && issue.core.id == story.item.externalId && issue.core.team in c.teams
    && NotesAreNamed(issue.notes)
  }

  predicate Authored(c: Connector, issue: Issue, story: Story) {
    match story.author
    case None => Marks(c, issue) == []
    case Some(r) =>
      |Marks(c, issue)| == 1 && MarkIs(Marks(c, issue)[0], r) && Admitted(c, r) && r.effect.item == story.item
  }

  /** The gateway still holds the snapshot that the pending request, or a first request, must expect. */
  predicate Open(c: Connector, sn: G.Snapshots, issue: Issue, story: Story, s: G.State)
    requires G.KeyOf(story.item) in s.items
  {
    var record := s.items[G.KeyOf(story.item)];
    var current := SnapshotId(record.current.content.revision, record.current.digest);
    && s.closes == map[] && s.keyByMarker == map[]
    && record.lifecycle == G.Active && record.closure.None?
    && G.ContentIsValid(sn, record.current.content) && record.current.connector != BLANK
    && match story.author
       case None => c.normalize(issue.core).Ok? ==> c.normalize(issue.core).value == current
       case Some(r) => current == SnapshotId(r.effect.expectedRevision, r.effect.expectedDigest)
  }

  /** The gateway holds the author's close, and no other. */
  predicate Recorded(story: Story, s: G.State)
    requires G.KeyOf(story.item) in s.items
  {
    && story.author.Some?
    && var r := story.author.value;
    && s.closes.Keys == {r.key} && s.closes[r.key].effect == r.effect
    && ReceiptFor(s.closes[r.key].receipt, r)
    && s.keyByMarker == map[r.effect.correlation := r.key]
    && s.items[G.KeyOf(story.item)].closure == Some(s.closes[r.key].receipt)
    && s.items[G.KeyOf(story.item)].lifecycle == G.Completed
  }

  /** The refinement relation. */
  predicate Related(c: Connector, sn: G.Snapshots, issue: Issue, story: Story, s: G.State) {
    && WellPlaced(c, issue, story) && Authored(c, issue, story)
    && G.KeyOf(story.item) in s.items && !s.loseNext
    && if Closed(c, issue) then Recorded(story, s) else Open(c, sn, issue, story, s)
  }

  /** An unmarked issue is related to the gateway that has just taken in its snapshot. */
  lemma FreshIsRelated(c: Connector, sn: G.Snapshots, issue: Issue, item: ItemRef, snapshot: G.Snapshot)
    requires WellPlaced(c, issue, Story(item, None)) && Marks(c, issue) == []
    requires G.SnapshotIsValid(sn, snapshot)
    requires G.KeyOf(item) == (snapshot.tenant, snapshot.content.externalId)
    requires c.normalize(issue.core) == Ok(SnapshotId(snapshot.content.revision, snapshot.digest))
    ensures Related(c, sn, issue, Story(item, None), G.Upsert(sn, G.EMPTY, snapshot).0)
  {
  }

  /** Whose marker the issue bears after a call. */
  function StoryAfter(c: Connector, issue: Issue, story: Story, r: CloseRequest, w: Weather): Story {
    if Writes(c, issue, r, w) then story.(author := Some(r)) else story
  }

  /** The gateway's move: an atomic close if this call completed the issue, nothing otherwise. */
  function Matching(c: Connector, sn: G.Snapshots, issue: Issue, r: CloseRequest, w: Weather, s: G.State): G.State {
    if Moves(c, issue, r, w) then G.Close(c.ports, sn, s, r).0 else s
  }

  /** Equal digests mean equal effects, so a request that a marker matches is its author's. */
  lemma SameAuthor(c: Connector, issue: Issue, story: Story, r: CloseRequest)
    requires c.ports.InjectiveDigest()
    requires Authored(c, issue, story) && story.author.Some? && Admitted(c, r) && MarkIs(Marks(c, issue)[0], r)
    ensures r.key == story.author.value.key && r.digest == story.author.value.digest
    ensures r.effect == story.author.value.effect
  {
    var a := story.author.value;
    assert c.ports.digestOf(r.effect) == c.ports.digestOf(a.effect);
  }

  /** The atomic close of a request that the open gateway expects. */
  lemma AtomicClose(c: Connector, sn: G.Snapshots, issue: Issue, story: Story, s: G.State, r: CloseRequest)
    requires sn.Sound() && Admitted(c, r) && r.effect.item == story.item
    requires G.KeyOf(story.item) in s.items && !s.loseNext
    requires Open(c, sn, issue, story.(author := Some(r)), s)
    ensures var (s', answer) := G.Close(c.ports, sn, s, r);
            && s' == G.Applied'(sn, s, r)
            && G.KeyOf(story.item) in s'.items && Recorded(story.(author := Some(r)), s') && !s'.loseNext
            && answer.Ok? && ReceiptFor(answer.value, r)
  {
  }

  /** A call that writes does so for a request the open gateway expects. */
  lemma WriterIsExpected(c: Connector, sn: G.Snapshots, issue: Issue, story: Story, s: G.State, r: CloseRequest, w: Weather)
    requires Related(c, sn, issue, story, s) && Writes(c, issue, r, w) && r.effect.item == story.item
    ensures story.author.None? && !Closed(c, issue)
    ensures Open(c, sn, Close(c, r, issue, w).0, story.(author := Some(r)), s)
  {
    ForCloseMeans(c, r, issue);
  }

  /** A call that finishes another's work is the author's own request again. */
  lemma FinisherIsAuthor(c: Connector, sn: G.Snapshots, issue: Issue, story: Story, s: G.State, r: CloseRequest, w: Weather)
    requires c.ports.InjectiveDigest()
    requires Related(c, sn, issue, story, s) && Moves(c, issue, r, w) && !Writes(c, issue, r, w)
    ensures story.author.Some? && !Closed(c, issue)
    ensures r.key == story.author.value.key && r.digest == story.author.value.digest
    ensures r.effect == story.author.value.effect
    ensures Open(c, sn, issue, story.(author := Some(r)), s)
  {
    ForCloseMeans(c, r, issue);
    var o := PlanFor(c, r, issue).observed;
    assert o in Marks(c, issue);
    assert o == Marks(c, issue)[0];
    SameAuthor(c, issue, story, r);
  }

  lemma StaysPlaced(c: Connector, issue: Issue, story: Story, r: CloseRequest, w: Weather)
    requires WellPlaced(c, issue, story) && w.noteId != BLANK
    ensures WellPlaced(c, Close(c, r, issue, w).0, story)
  {
    CloseChanges(c, r, issue, w);
  }

  lemma StaysAuthored(c: Connector, issue: Issue, story: Story, r: CloseRequest, w: Weather)
    requires Authored(c, issue, story) && Legible(c, r) && r.effect.item == story.item
    ensures Authored(c, Close(c, r, issue, w).0, StoryAfter(c, issue, story, r, w))
  {
    MarksAfterClose(c, r, issue, w);
  }

  /**
   Forward simulation: the call keeps the two sides related while the gateway stutters or closes
   once, and closes exactly when the issue becomes closed.
   */
  lemma Simulates(c: Connector, sn: G.Snapshots, issue: Issue, story: Story, s: G.State, r: CloseRequest, w: Weather)
    requires c.ports.InjectiveDigest() && sn.Sound() && Legible(c, r)
    requires Related(c, sn, issue, story, s) && r.effect.item == story.item && w.noteId != BLANK
    ensures var issue' := Close(c, r, issue, w).0;
            var s' := Matching(c, sn, issue, r, w, s);
            && Related(c, sn, issue', StoryAfter(c, issue, story, r, w), s')
            && (s' != s <==> Closed(c, issue') && !Closed(c, issue))
            && (s' != s ==> s' == G.Applied'(sn, s, r))
  {
    var issue' := Close(c, r, issue, w).0;
    CloseChanges(c, r, issue, w);
    StaysPlaced(c, issue, story, r, w);
    StaysAuthored(c, issue, story, r, w);
    if Writes(c, issue, r, w) {
      WriterIsExpected(c, sn, issue, story, s, r, w);
      if Moves(c, issue, r, w) { AtomicClose(c, sn, issue', story, s, r); }
    } else if Moves(c, issue, r, w) {
      FinisherIsAuthor(c, sn, issue, story, s, r, w);
      AtomicClose(c, sn, issue, story, s, r);
    }
  }

  /** The gateway now records this request, and would adopt it under a receipt for the same effect. */
  ghost predicate Agreed(c: Connector, sn: G.Snapshots, s': G.State, r: CloseRequest, receipt: Receipt) {
    var (s'', atomic) := G.Close(c.ports, sn, s', r);
    && s'' == s' && atomic.Ok? && atomic.value.disposition == Adopted
    && SameEffect(receipt, atomic.value) && ReceiptFor(atomic.value, r)
  }

  lemma MovedAgrees(c: Connector, sn: G.Snapshots, issue: Issue, story: Story, s: G.State, r: CloseRequest, w: Weather)
    requires c.ports.InjectiveDigest() && sn.Sound() && Legible(c, r)
    requires Related(c, sn, issue, story, s) && r.effect.item == story.item && w.noteId != BLANK
    requires Close(c, r, issue, w).1.Ok? && Moves(c, issue, r, w)
    ensures Agreed(c, sn, Matching(c, sn, issue, r, w, s), r, Close(c, r, issue, w).1.value)
  {
    Simulates(c, sn, issue, story, s, r, w);
    ForCloseMeans(c, r, issue);
    MarksAfterClose(c, r, issue, w);
    if !Writes(c, issue, r, w) { FinisherIsAuthor(c, sn, issue, story, s, r, w); }
  }

  lemma StillAgrees(c: Connector, sn: G.Snapshots, issue: Issue, story: Story, s: G.State, r: CloseRequest, w: Weather)
    requires c.ports.InjectiveDigest() && sn.Sound() && Legible(c, r)
    requires Related(c, sn, issue, story, s) && r.effect.item == story.item && w.noteId != BLANK
    requires Close(c, r, issue, w).1.Ok? && !Moves(c, issue, r, w)
    ensures Agreed(c, sn, Matching(c, sn, issue, r, w, s), r, Close(c, r, issue, w).1.value)
  {
    Simulates(c, sn, issue, story, s, r, w);
    ForCloseMeans(c, r, issue);
    SameAuthor(c, issue, story, r);
  }

  /**
   Every receipt agrees with the atomic one: a call that answers Ok leaves the gateway with the
   same request recorded, under a receipt for the same effect, and the gateway would say so.
   */
  lemma ReceiptsAgree(c: Connector, sn: G.Snapshots, issue: Issue, story: Story, s: G.State, r: CloseRequest, w: Weather)
    requires c.ports.InjectiveDigest() && sn.Sound() && Legible(c, r)
    requires Related(c, sn, issue, story, s) && r.effect.item == story.item && w.noteId != BLANK
    requires Close(c, r, issue, w).1.Ok?
    ensures Agreed(c, sn, Matching(c, sn, issue, r, w, s), r, Close(c, r, issue, w).1.value)
  {
    hide Agreed, Matching, Related, Legible;
    if Moves(c, issue, r, w) {
      MovedAgrees(c, sn, issue, story, s, r, w);
    } else {
      StillAgrees(c, sn, issue, story, s, r, w);
    }
  }

  /** Reconciliation finds the effect on one side iff on the other, with the same identity. */
  lemma ReconciliationsAgree(c: Connector, sn: G.Snapshots, issue: Issue, story: Story, s: G.State,
                             q: ReconcileRequest, w: Weather)
    requires Related(c, sn, issue, story, s) && q.item == story.item && w.read.None?
    ensures var linear := Reconcile(c, q, issue, w);
            var atomic := G.Reconcile(c.ports, s, q);
            && (linear.Ok? && linear.value.Found? <==> atomic.Ok? && atomic.value.Found?)
            && (linear.Ok? && linear.value.Found? ==> SameEffect(linear.value.receipt, atomic.value.receipt))
  {
    var os := Marks(c, issue);
    var judge := m => ReconcileVerdict(m, q);
    SelectMeans(os, judge);
    if os != [] {
      assert judge(os[0].marker) == ReconcileVerdict(os[0].marker, q);
    }
  }

  // ------------------------------------------------------------ whole runs

  datatype Attempt = Attempt(r: CloseRequest, w: Weather)

  function LinearRun(c: Connector, issue: Issue, calls: seq<Attempt>): Issue
    decreases |calls|
  {
    if calls == [] then issue else LinearRun(c, Close(c, calls[0].r, issue, calls[0].w).0, calls[1..])
  }

  predicate Usable(c: Connector, item: ItemRef, calls: seq<Attempt>) {
    forall i :: 0 <= i < |calls| ==>
      Legible(c, calls[i].r) && calls[i].r.effect.item == item && calls[i].w.noteId != BLANK
  }

  /**
   Whole runs: whatever the calls and the losses, the issue ends up as some run of atomic closes
   leaves the gateway, a run of at most one close, and of exactly one if the issue became closed.
   */
  lemma {:induction false} RunsRefine(c: Connector, sn: G.Snapshots, issue: Issue, story: Story, s: G.State,
                                      calls: seq<Attempt>)
    returns (story': Story, atomic: seq<G.Call>)
    requires c.ports.InjectiveDigest() && sn.Sound() && Usable(c, story.item, calls)
    requires Related(c, sn, issue, story, s)
    ensures story'.item == story.item
    ensures Related(c, sn, LinearRun(c, issue, calls), story', G.Run(c.ports, sn, s, atomic))
    ensures |atomic| == if Closed(c, LinearRun(c, issue, calls)) && !Closed(c, issue) then 1 else 0
    ensures |atomic| == 1 ==>
              atomic[0].CallClose? && story'.author.Some? && atomic[0].request.key == story'.author.value.key
    ensures Closed(c, issue) ==> Closed(c, LinearRun(c, issue, calls))
    decreases |calls|
  {
    if calls == [] {
      return story, [];
    }
    var r, w := calls[0].r, calls[0].w;
    Simulates(c, sn, issue, story, s, r, w);
    var issue' := Close(c, r, issue, w).0;
    var s' := Matching(c, sn, issue, r, w, s);
    var rest;
    story', rest := RunsRefine(c, sn, issue', StoryAfter(c, issue, story, r, w), s', calls[1..]);
    ClosedStays(c, sn, issue, story, s, r, w);
    if s' == s {
      atomic := rest;
    } else {
      atomic := [G.CallClose(r)];
      assert rest == [];
      assert atomic[1..] == [];
    }
  }

  /** A closed issue is not changed by any call. */
  lemma ClosedStays(c: Connector, sn: G.Snapshots, issue: Issue, story: Story, s: G.State, r: CloseRequest, w: Weather)
    requires Related(c, sn, issue, story, s)
    ensures Closed(c, issue) ==> Close(c, r, issue, w).0 == issue
  {
    CloseChanges(c, r, issue, w);
  }
}
