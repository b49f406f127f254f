/**
 The Linear adapter's close: a remote effect in two mutations, a signed marker comment and then
 the move to the team's completed state, either of whose responses may be lost.

 The provider holds one issue. A `Weather` says how each request of one call fares: whether the
 read fails, whether each mutation is applied, whether its response arrives, and which
 identifiers and times the provider picks.
 */
module LinearClose {
  import opened Prelude
  import opened SourcePort
  import opened LinearCodec
  import CloseText

  datatype Team = Team(repository: string, completedState: Name)

  datatype StateKind = CompletedKind | CanceledKind | OtherKind

  /** `content` is the title, description, labels and everything else of the issue. */
  datatype Core = Core(id: Name, team: Name, state: Name, kind: StateKind, archived: bool, canceled: bool,
                       completed: bool, updatedAt: int, content: Name)

  datatype Note = Note(id: Name, body: string, createdAt: int)

  datatype Issue = Issue(core: Core, notes: seq<Note>)

  datatype SnapshotId = SnapshotId(revision: Name, digest: Name)

  /**
   The configured adapter. Reading and writing comments are fields so that the protocol can be
   stated without their text; `Wired` ties them to the codec. Parsing of issues and hashing are
   parameters.
   */
  datatype Connector = Connector(
    tenant: Name,
    keys: Keys,
    read: string -> seq<Marker>,
    write: CloseRequest -> Result<string, Error>,
    teams: map<Name, Team>,
    ports: Ports,
    closureIsSafe: Closure -> bool,
    normalize: Core -> Result<SnapshotId, Error>,
    revisionOf: int -> Name,
    urlIsSafe: string -> bool)
  {
    ghost predicate Wired() {
      && keys.Sound()
      && (forall body: string :: read(body) == MarkersIn(keys, body))
      && (forall r: CloseRequest ::
            write(r) == CloseText.CloseComment(r, EncodeMarker(keys, CloseText.MarkerFor(r))))
    }
  }

  datatype Observed = Observed(marker: Marker, note: Name, recordedAt: int)

  datatype Fate = Delivered | LostAfterApplied | LostUnapplied

  datatype Weather = Weather(
    read: Option<Error>,
    comment: Fate, noteId: Name, notedAt: int, touchedAt: int,
    update: Fate, kind: StateKind, completed: bool, updatedAt: int)

  // -------------------------------------------------------- reading markers

  function Stamp(markers: seq<Marker>, note: Note): (r: seq<Observed>)
    ensures |r| == |markers| && forall i :: 0 <= i < |r| ==> r[i] == Observed(markers[i], note.id, note.createdAt)
  {
    seq(|markers|, i requires 0 <= i < |markers| => Observed(markers[i], note.id, note.createdAt))
  }

  function ObservedIn(read: string -> seq<Marker>, notes: seq<Note>): seq<Observed> {
    if notes == [] then []
    else ObservedIn(read, notes[..|notes| - 1]) + Stamp(read(notes[|notes| - 1].body), notes[|notes| - 1])
  }

  predicate NotesAreNamed(notes: seq<Note>) {
    forall i :: 0 <= i < |notes| ==> notes[i].id != BLANK
  }

  function Signed(read: string -> seq<Marker>, notes: seq<Note>): Result<seq<Observed>, Error> {
    if NotesAreNamed(notes) then Ok(ObservedIn(read, notes)) else Err(InvalidProviderResponse)
  }

  method SignedMarkers(read: string -> seq<Marker>, notes: seq<Note>) returns (r: Result<seq<Observed>, Error>)
    ensures r == Signed(read, notes)
  {
    var markers := [];
    for k := 0 to |notes|
      invariant markers == ObservedIn(read, notes[..k])
      invariant forall i :: 0 <= i < k ==> notes[i].id != BLANK
    {
      if notes[k].id == BLANK { return Err(InvalidProviderResponse); }
      assert notes[..k + 1][..k] == notes[..k];
      markers := markers + Stamp(read(notes[k].body), notes[k]);
    }
    assert notes[..|notes|] == notes;
    return Ok(markers);
  }

  datatype Verdict = Exact | Unrelated | Clash(error: Error)

  function CloseVerdict(m: Marker, r: CloseRequest): Verdict {
    if m.tenant != r.effect.item.tenant || m.externalId != r.effect.item.externalId then Clash(SourceStateConflict)
    else if m.key == r.key then
      if m.digest != r.digest then Clash(IdempotencyConflict(r.key, m.digest, r.digest))
      else if m.correlation != r.effect.correlation then Clash(SourceStateConflict)
      else Exact
    else if m.correlation == r.effect.correlation then Clash(IdempotencyConflict(r.key, m.digest, r.digest))
    else Clash(SourceStateConflict)
  }

  function ReconcileVerdict(m: Marker, r: ReconcileRequest): Verdict {
    if m.tenant != r.item.tenant || m.externalId != r.item.externalId then Clash(SourceStateConflict)
    else if m.key == r.key then
      if m.digest != r.digest then Clash(IdempotencyConflict(r.key, m.digest, r.digest))
      else if m.correlation != r.correlation then Clash(SourceStateConflict)
      else Exact
    else if m.correlation == r.correlation then Clash(IdempotencyConflict(r.key, m.digest, r.digest))
    else Unrelated
  }

  /** The first clash, or else the first exact match, or else nothing. */
  function Select(os: seq<Observed>, judge: Marker -> Verdict): Result<Option<Observed>, Error> {
    if os == [] then Ok(None)
    else
      match judge(os[0].marker)
      case Clash(error) => Err(error)
      case Unrelated => Select(os[1..], judge)
      case Exact =>
        match Select(os[1..], judge)
        case Err(error) => Err(error)
        case Ok(_) => Ok(Some(os[0]))
  }

  /** The scan of one list of markers, as both callers run it. */
  method Scan(os: seq<Observed>, judge: Marker -> Verdict) returns (r: Result<Option<Observed>, Error>)
    ensures r == Select(os, judge)
  {
    var exact: Option<Observed> := None;
    for k := 0 to |os|
      invariant Select(os, judge) ==
                match Select(os[k..], judge)
                case Err(error) => Err(error)
                case Ok(later) => Ok(if exact.Some? then exact else later)
    {
      assert os[k..][0] == os[k] && os[k..][1..] == os[k + 1..];
      match judge(os[k].marker)
      case Clash(error) => return Err(error);
      case Unrelated =>
      case Exact =>
        if exact.None? { exact := Some(os[k]); }
    }
    assert os[|os|..] == [];
    return Ok(exact);
  }

  lemma {:induction false} SelectMeans(os: seq<Observed>, judge: Marker -> Verdict)
    ensures var r := Select(os, judge);
            && (r.Err? <==> exists i :: 0 <= i < |os| && judge(os[i].marker).Clash?)
            && (r == Ok(None) <==> forall i :: 0 <= i < |os| ==> judge(os[i].marker) == Unrelated)
            && (r.Ok? && r.value.Some? ==> r.value.value in os && judge(r.value.value.marker) == Exact)
  {
    if os != [] {
      SelectMeans(os[1..], judge);
      assert forall i :: 1 <= i < |os| ==> os[i] == os[1..][i - 1];
      assert os == [os[0]] + os[1..];
    }
  }

  // ---------------------------------------------------------------- planning

  function ReceiptOf(item: ItemRef, o: Observed, d: Disposition, revision: Name): Receipt {
    Receipt(item, o.marker.key, o.marker.digest, o.marker.correlation, d, revision, o.recordedAt)
  }

  predicate IsMutable(core: Core) {
    !core.archived && !core.canceled && !core.completed && core.kind == OtherKind
  }

  /** What a close call decides to do with the issue it has read. */
  datatype Plan =
    | Refuse(error: Error)
    | Adopt(receipt: Receipt)
    | Finish(observed: Observed, state: Name)
    | Begin(body: string, state: Name)

  function PlanFor(c: Connector, r: CloseRequest, issue: Issue): Plan {
    var core := issue.core;
    if core.id != r.effect.item.externalId || core.team !in c.teams then Refuse(InvalidProviderResponse)
    else
      var team := c.teams[core.team];
      match ForClose(c, r, issue.notes)
      case Err(error) => Refuse(error)
      case Ok(exact) =>
        if core.state == team.completedState then
          if exact.None? then Refuse(SourceStateConflict)
          else Adopt(ReceiptOf(r.effect.item, exact.value, Adopted, c.revisionOf(core.updatedAt)))
        else if !IsMutable(core) then Refuse(SourceStateConflict)
        else if exact.Some? then Finish(exact.value, team.completedState)
        else PlanFirst(c, r, core, team)
  }

  /** The marker a close call goes by. */
  function ForClose(c: Connector, r: CloseRequest, notes: seq<Note>): Result<Option<Observed>, Error> {
    match Signed(c.read, notes)
    case Err(error) => Err(error)
    case Ok(os) => Select(os, m => CloseVerdict(m, r))
  }

  /** The marker a reconciliation goes by. */
  function ForReconciliation(c: Connector, r: ReconcileRequest, notes: seq<Note>): Result<Option<Observed>, Error> {
    match Signed(c.read, notes)
    case Err(error) => Err(error)
    case Ok(os) => Select(os, m => ReconcileVerdict(m, r))
  }

  /** The checks of a first attempt, when no marker exists yet. */
  function PlanFirst(c: Connector, r: CloseRequest, core: Core, team: Team): Plan {
    match c.normalize(core)
    case Err(error) => Refuse(error)
    case Ok(snapshot) =>
      if snapshot != SnapshotId(r.effect.expectedRevision, r.effect.expectedDigest) then Refuse(SourceStateConflict)
      else if r.effect.closure.pullRequest.None? then Refuse(InvalidRequest)
      else if r.effect.closure.pullRequest.value.repository != team.repository then Refuse(SourceStateConflict)
      else if !c.urlIsSafe(r.effect.closure.pullRequest.value.url) then Refuse(InvalidProviderResponse)
      else
        match c.write(r)
        case Err(error) => Refuse(error)
        case Ok(body) => Begin(body, team.completedState)
  }

  predicate Admitted(c: Connector, r: CloseRequest) {
    && c.ports.Accepts(r) && r.effect.item.source == Linear && r.effect.item.tenant == c.tenant
    && c.closureIsSafe(r.effect.closure)
  }

  // --------------------------------------------------------------- the close

  /** The issue once the marker comment is applied. */
  function Noted(issue: Issue, body: string, w: Weather): Issue {
    Issue(issue.core.(updatedAt := w.touchedAt), issue.notes + [Note(w.noteId, body, w.notedAt)])
  }

  /** The issue once it is moved to the completed state. */
  function Moved(issue: Issue, state: Name, w: Weather): Issue {
    issue.(core := issue.core.(state := state, kind := w.kind, completed := w.completed, updatedAt := w.updatedAt))
  }

  function Ambiguous(r: CloseRequest): Result<Receipt, Error> {
    Err(AmbiguousEffect(r.key, r.digest))
  }

  /** The second mutation and its response. */
  function Complete(c: Connector, r: CloseRequest, issue: Issue, o: Observed, d: Disposition, state: Name, w: Weather)
    : (Issue, Result<Receipt, Error>)
  {
    match w.update
    case LostUnapplied => (issue, Ambiguous(r))
    case LostAfterApplied => (Moved(issue, state, w), Ambiguous(r))
    case Delivered =>
      (Moved(issue, state, w), Ok(ReceiptOf(r.effect.item, o, d, c.revisionOf(w.updatedAt))))
  }

  /** One close call against an existing issue: the issue afterwards and the answer. */
  function Close(c: Connector, r: CloseRequest, issue: Issue, w: Weather): (Issue, Result<Receipt, Error>) {
    if !Admitted(c, r) then (issue, Err(InvalidRequest))
    else if w.read.Some? then (issue, Err(w.read.value))
    else
      match PlanFor(c, r, issue)
      case Refuse(error) => (issue, Err(error))
      case Adopt(receipt) => (issue, Ok(receipt))
      case Finish(o, state) => Complete(c, r, issue, o, Adopted, state, w)
      case Begin(body, state) =>
        var noted := Noted(issue, body, w);
        if w.comment == LostUnapplied then (issue, Ambiguous(r))
        else if w.comment == LostAfterApplied || w.noteId == BLANK then (noted, Ambiguous(r))
        else Complete(c, r, noted, Observed(CloseText.MarkerFor(r), w.noteId, w.notedAt), Applied, state, w)
  }

  function Reconcile(c: Connector, r: ReconcileRequest, issue: Issue, w: Weather): Result<Reconciliation, Error> {
    if !c.ports.AcceptsReconcile(r) || r.item.source != Linear || r.item.tenant != c.tenant then Err(InvalidRequest)
    else if w.read.Some? then Err(w.read.value)
    else if issue.core.id != r.item.externalId then Err(InvalidProviderResponse)
    else
      match ForReconciliation(c, r, issue.notes)
      case Err(error) => Err(error)
      case Ok(None) => Ok(NotObserved)
      case Ok(Some(o)) =>
        if issue.core.team !in c.teams then Err(InvalidProviderResponse)
        else if issue.core.state == c.teams[issue.core.team].completedState then
          Ok(Found(ReceiptOf(r.item, o, Reconciled, c.revisionOf(issue.core.updatedAt))))
        else Ok(NotObserved)
  }

  // ------------------------------------------------------ the provider in place

  /** Linear's side: at most one issue, changed by mutations whose response may not arrive. */
  class Provider {
    var issue: Option<Issue>

    constructor (issue: Option<Issue>)
      ensures this.issue == issue
    {
      this.issue := issue;
    }

    method CommentCreate(body: string, w: Weather) returns (reply: Option<Note>)
      requires issue.Some?
      modifies this
      ensures issue == Some(if w.comment == LostUnapplied then old(issue).value else Noted(old(issue).value, body, w))
      ensures reply == if w.comment == Delivered then Some(Note(w.noteId, body, w.notedAt)) else None
    {
      var note := Note(w.noteId, body, w.notedAt);
      if w.comment != LostUnapplied {
        issue := Some(Issue(issue.value.core.(updatedAt := w.touchedAt), issue.value.notes + [note]));
      }
      reply := if w.comment == Delivered then Some(note) else None;
    }

    method IssueUpdate(state: Name, w: Weather) returns (reply: Option<Core>)
      requires issue.Some?
      modifies this
      ensures issue == Some(if w.update == LostUnapplied then old(issue).value else Moved(old(issue).value, state, w))
      ensures reply == if w.update == Delivered then Some(Moved(old(issue).value, state, w).core) else None
    {
      var core := issue.value.core.(state := state, kind := w.kind, completed := w.completed, updatedAt := w.updatedAt);
      if w.update != LostUnapplied {
        issue := Some(issue.value.(core := core));
      }
      reply := if w.update == Delivered then Some(core) else None;
    }
  }

  method MarkerForClose(c: Connector, r: CloseRequest, notes: seq<Note>)
    returns (result: Result<Option<Observed>, Error>)
    ensures result == ForClose(c, r, notes)
  {
    var signed := SignedMarkers(c.read, notes);
    if signed.Err? { return Err(signed.error); }
    result := Scan(signed.value, m => CloseVerdict(m, r));
  }

  /** The text of the comment of a first attempt. */
  method FirstComment(c: Connector, r: CloseRequest, core: Core, team: Team) returns (result: Result<string, Error>)
    ensures PlanFirst(c, r, core, team) ==
            match result case Ok(body) => Begin(body, team.completedState) case Err(error) => Refuse(error)
  {
    var snapshot := c.normalize(core);
    if snapshot.Err? { return Err(snapshot.error); }
    if snapshot.value.revision != r.effect.expectedRevision || snapshot.value.digest != r.effect.expectedDigest {
      return Err(SourceStateConflict);
    }
    if r.effect.closure.pullRequest.None? { return Err(InvalidRequest); }
    var pullRequest := r.effect.closure.pullRequest.value;
    if pullRequest.repository != team.repository { return Err(SourceStateConflict); }
    if !c.urlIsSafe(pullRequest.url) { return Err(InvalidProviderResponse); }
    result := c.write(r);
  }

  method CloseSource(c: Connector, provider: Provider, r: CloseRequest, w: Weather)
    returns (result: Result<Receipt, Error>)
    modifies provider
    ensures old(provider.issue).Some? ==>
              && provider.issue.Some?
              && (provider.issue.value, result) == Close(c, r, old(provider.issue).value, w)
    ensures old(provider.issue).None? ==>
              && provider.issue.None?
              && result == Err(if !Admitted(c, r) then InvalidRequest
                               else if w.read.Some? then w.read.value
                               else ItemNotFound)
  {
    if !c.ports.Accepts(r) || r.effect.item.source != Linear || r.effect.item.tenant != c.tenant {
      return Err(InvalidRequest);
    }
    if !c.closureIsSafe(r.effect.closure) { return Err(InvalidRequest); }
    if w.read.Some? { return Err(w.read.value); }
    if provider.issue.None? { return Err(ItemNotFound); }
    var observed := provider.issue.value;
    if observed.core.id != r.effect.item.externalId { return Err(InvalidProviderResponse); }
    if observed.core.team !in c.teams { return Err(InvalidProviderResponse); }
    var team := c.teams[observed.core.team];
    var scanned := MarkerForClose(c, r, observed.notes);
    if scanned.Err? { return Err(scanned.error); }
    var exact := scanned.value;
    if observed.core.state == team.completedState {
      if exact.None? { return Err(SourceStateConflict); }
      return Ok(ReceiptOf(r.effect.item, exact.value, Adopted, c.revisionOf(observed.core.updatedAt)));
    }
    if !IsMutable(observed.core) { return Err(SourceStateConflict); }

    var markerExisted := exact.Some?;
    var marker;
    if exact.Some? {
      marker := exact.value;
    } else {
      var comment := FirstComment(c, r, observed.core, team);
      if comment.Err? { return Err(comment.error); }
      var reply := provider.CommentCreate(comment.value, w);
      if reply.None? || reply.value.id == BLANK || reply.value.body != comment.value { return Ambiguous(r); }
      marker := Observed(CloseText.MarkerFor(r), reply.value.id, reply.value.createdAt);
    }

    var reply := provider.IssueUpdate(team.completedState, w);
    if reply.None? || reply.value.id != observed.core.id || reply.value.state != team.completedState {
      return Ambiguous(r);
    }
    return Ok(ReceiptOf(r.effect.item, marker, if markerExisted then Adopted else Applied,
                        c.revisionOf(reply.value.updatedAt)));
  }
}
