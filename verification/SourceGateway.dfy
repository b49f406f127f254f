/**
 The in-memory Linear gateway: the source port with an atomic close. Every operation is given
 as a function of the gateway's state; the class performs it in place.
 */
module SourceGateway {
  import opened Prelude
  import opened SourcePort

  datatype Lifecycle = Active | Completed

  /** `body` is the title, objective, labels, priority and everything else that a close leaves alone. */
  datatype Content = Content(source: SourceSystem, externalId: Name, revision: Name, state: Name,
                             updatedAt: int, body: Name)

  datatype Snapshot = Snapshot(tenant: Name, content: Content, digest: Name, connector: Name, capturedAt: int)

  datatype Record = Record(history: seq<Snapshot>, current: Snapshot, lifecycle: Lifecycle, closure: Option<Receipt>)

  datatype CloseRecord = CloseRecord(effect: Effect, receipt: Receipt)

  type ItemKey = (Name, Name)

  datatype State = State(items: map<ItemKey, Record>, closes: map<Name, CloseRecord>,
                         keyByMarker: map<Name, Name>, effects: map<ItemKey, nat>, loseNext: bool)

  const EMPTY := State(map[], map[], map[], map[], false)

  /**
   Hashing, the checks on the body, and the text functions of the fake: the name of the
   "completed" state and the revision it derives from the old one and the effect digest.
   */
  datatype Snapshots = Snapshots(digestOf: Content -> Name, bodyIsValid: Name -> bool, urlIsSafe: Name -> bool,
                                 completed: Name, closedRevision: (Name, Name) -> Name)
  {
    /** The derived revision contains "+asf-close-", so it is not blank. */
    ghost predicate Sound() {
      forall revision: Name, digest: Name :: closedRevision(revision, digest) != BLANK
    }
  }

  predicate ContentIsValid(sn: Snapshots, c: Content) {
    c.externalId != BLANK && c.revision != BLANK && sn.bodyIsValid(c.body)
  }

  predicate SnapshotIsValid(sn: Snapshots, s: Snapshot) {
    && ContentIsValid(sn, s.content) && s.content.source == Linear && s.connector != BLANK
    && sn.digestOf(s.content) == s.digest && sn.urlIsSafe(s.content.body)
  }

  function KeyOf(item: ItemRef): ItemKey {
    (item.tenant, item.externalId)
  }

  // ------------------------------------------------------------ operations

  function Upsert(sn: Snapshots, s: State, snapshot: Snapshot): (State, Result<(), Error>) {
    if !SnapshotIsValid(sn, snapshot) then (s, Err(InvalidRequest))
    else
      var key := (snapshot.tenant, snapshot.content.externalId);
      if key !in s.items then
        (s.(items := s.items[key := Record([], snapshot, Active, None)]), Ok(()))
      else
        var record := s.items[key];
        if record.current.content.revision == snapshot.content.revision then
          if record.current.digest != snapshot.digest then (s, Err(SourceStateConflict)) else (s, Ok(()))
        else if record.closure.Some? then (s, Err(SourceStateConflict))
        else
          (s.(items := s.items[key := Record(record.history + [record.current], snapshot, Active, None)]), Ok(()))
  }

  function ClosedContent(sn: Snapshots, c: Content, r: CloseRequest): Content {
    c.(revision := sn.closedRevision(c.revision, r.digest), state := sn.completed, updatedAt := r.requestedAt)
  }

  function ClosedSnapshot(sn: Snapshots, s: Snapshot, r: CloseRequest): Snapshot {
    var content := ClosedContent(sn, s.content, r);
    Snapshot(s.tenant, content, sn.digestOf(content), s.connector, r.requestedAt)
  }

  function AppliedReceipt(sn: Snapshots, s: Snapshot, r: CloseRequest): Receipt {
    Receipt(r.effect.item, r.key, r.digest, r.effect.correlation, Applied,
            sn.closedRevision(s.content.revision, r.digest), r.requestedAt)
  }

  /** The state after the close effect is recorded for an item. */
  function Applied'(sn: Snapshots, s: State, r: CloseRequest): State
    requires KeyOf(r.effect.item) in s.items
  {
    var key := KeyOf(r.effect.item);
    var record := s.items[key];
    var receipt := AppliedReceipt(sn, record.current, r);
    State(
      s.items[key := Record(record.history + [record.current], ClosedSnapshot(sn, record.current, r),
                            Completed, Some(receipt))],
      s.closes[r.key := CloseRecord(r.effect, receipt)],
      s.keyByMarker[r.effect.correlation := r.key],
      s.effects[key := (if key in s.effects then s.effects[key] else 0) + 1],
      false)
  }

  /** Why a new close is refused, if it is. */
  function Refusal(sn: Snapshots, s: State, r: CloseRequest): Option<Error> {
    var key := KeyOf(r.effect.item);
    if r.effect.correlation in s.keyByMarker then
      var owner := s.keyByMarker[r.effect.correlation];
      Some(IdempotencyConflict(r.key, if owner in s.closes then s.closes[owner].receipt.digest else BLANK, r.digest))
    else if key !in s.items then Some(ItemNotFound)
    else
      var record := s.items[key];
      if record.lifecycle != Active || record.current.content.revision != r.effect.expectedRevision
         || record.current.digest != r.effect.expectedDigest
      then Some(SourceStateConflict)
      else if !ContentIsValid(sn, ClosedContent(sn, record.current.content, r)) || record.current.connector == BLANK then
        Some(InvalidRequest)
      else None
  }

  function Close(p: Ports, sn: Snapshots, s: State, r: CloseRequest): (State, Result<Receipt, Error>) {
    if !p.Accepts(r) || r.effect.item.source != Linear then (s, Err(InvalidRequest))
    else if r.key in s.closes then
      var existing := s.closes[r.key];
      if existing.receipt.digest != r.digest then
        (s, Err(IdempotencyConflict(r.key, existing.receipt.digest, r.digest)))
      else if existing.effect != r.effect then (s, Err(SourceStateConflict))
      else (s, Ok(existing.receipt.(disposition := Adopted)))
    else
      match Refusal(sn, s, r)
      case Some(error) => (s, Err(error))
      case None =>
        (Applied'(sn, s, r),
         if s.loseNext then Err(AmbiguousEffect(r.key, r.digest))
         else Ok(AppliedReceipt(sn, s.items[KeyOf(r.effect.item)].current, r)))
  }

  function Reconcile(p: Ports, s: State, r: ReconcileRequest): Result<Reconciliation, Error> {
    if !p.AcceptsReconcile(r) || r.item.source != Linear then Err(InvalidRequest)
    else if r.key !in s.closes then
      if r.correlation in s.keyByMarker then Err(SourceStateConflict) else Ok(NotObserved)
    else
      var receipt := s.closes[r.key].receipt;
      if receipt.item != r.item || receipt.digest != r.digest || receipt.correlation != r.correlation then
        Err(IdempotencyConflict(r.key, receipt.digest, r.digest))
      else Ok(Found(receipt.(disposition := Reconciled)))
  }

  // ------------------------------------------------- the gateway in place

  class InMemoryLinearGateway {
    var items: map<ItemKey, Record>
    var closes: map<Name, CloseRecord>
    var keyByMarker: map<Name, Name>
    var effects: map<ItemKey, nat>
    var loseNext: bool

    function View(): State
      reads this
    {
      State(items, closes, keyByMarker, effects, loseNext)
    }

    constructor ()
      ensures View() == EMPTY
    {
      items, closes, keyByMarker, effects, loseNext := map[], map[], map[], map[], false;
    }

    method LoseNextCloseResponse()
      modifies this
      ensures View() == old(View()).(loseNext := true)
    {
      loseNext := true;
    }

    method UpsertSnapshot(sn: Snapshots, snapshot: Snapshot) returns (r: Result<(), Error>)
      modifies this
      ensures (View(), r) == Upsert(sn, old(View()), snapshot)
    {
      if !SnapshotIsValid(sn, snapshot) { return Err(InvalidRequest); }
      var key := (snapshot.tenant, snapshot.content.externalId);
      if key !in items {
        items := items[key := Record([], snapshot, Active, None)];
        return Ok(());
      }
      var record := items[key];
      if record.current.content.revision == snapshot.content.revision {
        if record.current.digest != snapshot.digest { return Err(SourceStateConflict); }
      } else {
        if record.closure.Some? { return Err(SourceStateConflict); }
        record := record.(history := record.history + [record.current]);
        record := record.(current := snapshot);
        record := record.(lifecycle := Active);
        items := items[key := record];
      }
      return Ok(());
    }

    method CloseSource(p: Ports, sn: Snapshots, request: CloseRequest) returns (r: Result<Receipt, Error>)
      modifies this
      ensures (View(), r) == Close(p, sn, old(View()), request)
    {
      if !p.Accepts(request) || request.effect.item.source != Linear { return Err(InvalidRequest); }
      if request.key in closes {
        var existing := closes[request.key];
        if existing.receipt.digest != request.digest {
          return Err(IdempotencyConflict(request.key, existing.receipt.digest, request.digest));
        }
        if existing.effect != request.effect { return Err(SourceStateConflict); }
        return Ok(existing.receipt.(disposition := Adopted));
      }
      if request.effect.correlation in keyByMarker {
        var owner := keyByMarker[request.effect.correlation];
        var digest := if owner in closes then closes[owner].receipt.digest else BLANK;
        return Err(IdempotencyConflict(request.key, digest, request.digest));
      }
      var key := KeyOf(request.effect.item);
      if key !in items { return Err(ItemNotFound); }
      var record := items[key];
      if record.lifecycle != Active
         || record.current.content.revision != request.effect.expectedRevision
         || record.current.digest != request.effect.expectedDigest
      {
        return Err(SourceStateConflict);
      }
      var revision := sn.closedRevision(record.current.content.revision, request.digest);
      var content := record.current.content.(revision := revision);
      content := content.(state := sn.completed);
      content := content.(updatedAt := request.requestedAt);
      if !ContentIsValid(sn, content) || record.current.connector == BLANK { return Err(InvalidRequest); }
      var snapshot := Snapshot(record.current.tenant, content, sn.digestOf(content),
                               record.current.connector, request.requestedAt);
      var receipt := Receipt(request.effect.item, request.key, request.digest, request.effect.correlation,
                             Applied, revision, request.requestedAt);
      items := items[key := Record(record.history + [record.current], snapshot, Completed, Some(receipt))];
      effects := effects[key := (if key in effects then effects[key] else 0) + 1];
      keyByMarker := keyByMarker[request.effect.correlation := request.key];
      closes := closes[request.key := CloseRecord(request.effect, receipt)];
      if loseNext {
        loseNext := false;
        return Err(AmbiguousEffect(request.key, request.digest));
      }
      return Ok(receipt);
    }

    method ReconcileSourceClose(p: Ports, request: ReconcileRequest) returns (r: Result<Reconciliation, Error>)
      ensures r == Reconcile(p, View(), request)
    {
      if !p.AcceptsReconcile(request) || request.item.source != Linear { return Err(InvalidRequest); }
      if request.key !in closes {
        if request.correlation in keyByMarker { return Err(SourceStateConflict); }
        return Ok(NotObserved);
      }
      var receipt := closes[request.key].receipt;
      if receipt.item != request.item || receipt.digest != request.digest
         || receipt.correlation != request.correlation
      {
        return Err(IdempotencyConflict(request.key, receipt.digest, request.digest));
      }
      return Ok(Found(receipt.(disposition := Reconciled)));
    }
  }

  // ------------------------------------------------------------ whole runs

  datatype Call = CallUpsert(snapshot: Snapshot) | CallClose(request: CloseRequest) | CallLoseNext

  function Step(p: Ports, sn: Snapshots, s: State, c: Call): State {
    match c
    case CallUpsert(snapshot) => Upsert(sn, s, snapshot).0
    case CallClose(request) => Close(p, sn, s, request).0
    case CallLoseNext => s.(loseNext := true)
  }

  function Run(p: Ports, sn: Snapshots, s: State, calls: seq<Call>): State
    decreases |calls|
  {
    if calls == [] then s else Run(p, sn, Step(p, sn, s, calls[0]), calls[1..])
  }

  /** One recorded close is reached the same way from its key, its marker and its item. */
  ghost predicate Indexed(s: State, key: Name)
    requires key in s.closes
  {
    var close := s.closes[key];
    var item := KeyOf(close.effect.item);
    && close.receipt.key == key
    && close.receipt.item == close.effect.item && close.effect.item.source == Linear
    && close.receipt.correlation == close.effect.correlation
    && close.effect.correlation in s.keyByMarker && s.keyByMarker[close.effect.correlation] == key
    && item in s.items && s.items[item].closure == Some(close.receipt)
  }

  ghost predicate RecordIsSound(sn: Snapshots, s: State, item: ItemKey)
    requires item in s.items
  {
    var record := s.items[item];
    && (record.lifecycle == Completed <==> record.closure.Some?)
    && (record.closure.Some? <==> item in s.effects)
    && (record.closure.Some? ==>
          && record.closure.value.key in s.closes
          && s.closes[record.closure.value.key].receipt == record.closure.value
          && KeyOf(record.closure.value.item) == item)
    && ContentIsValid(sn, record.current.content) && record.current.connector != BLANK
  }

  ghost predicate ClosesAreIndexed(s: State) {
    forall key :: key in s.closes ==> Indexed(s, key)
  }

  ghost predicate MarkersAreIndexed(s: State) {
    forall marker :: marker in s.keyByMarker ==>
      s.keyByMarker[marker] in s.closes && s.closes[s.keyByMarker[marker]].effect.correlation == marker
  }

  ghost predicate RecordsAreSound(sn: Snapshots, s: State) {
    forall item :: item in s.items ==> RecordIsSound(sn, s, item)
  }

  ghost predicate EffectsAreSingle(s: State) {
    forall item :: item in s.effects ==> item in s.items && s.effects[item] == 1
  }

  /** The gateway's indexes agree: closes, markers and closed items are in bijection. */
  ghost predicate Consistent(sn: Snapshots, s: State) {
    ClosesAreIndexed(s) && MarkersAreIndexed(s) && RecordsAreSound(sn, s) && EffectsAreSingle(s)
  }

  /** A recorded close never changes, neither does the item it closed, and history only grows. */
  ghost predicate Keeps(s: State, t: State) {
    && (forall key :: key in s.closes ==> key in t.closes && t.closes[key] == s.closes[key])
    && (forall item :: item in s.items ==>
          && item in t.items
          && s.items[item].history <= t.items[item].history
          && (s.items[item].closure.Some? ==> t.items[item] == s.items[item]))
  }

  lemma PutKeeps(s: State, item: ItemKey, record: Record)
    requires item in s.items ==> s.items[item].closure.None? && s.items[item].history <= record.history
    ensures Keeps(s, s.(items := s.items[item := record]))
  {
  }

  /** Putting an open record where no closed one stood. */
  lemma PutOpenRecord(sn: Snapshots, s: State, item: ItemKey, record: Record)
    requires Consistent(sn, s)
    requires item in s.items ==> s.items[item].closure.None? && s.items[item].history <= record.history
    requires record.closure.None? && record.lifecycle == Active
    requires ContentIsValid(sn, record.current.content) && record.current.connector != BLANK
    ensures var t := s.(items := s.items[item := record]); Consistent(sn, t) && Keeps(s, t)
  {
    hide ContentIsValid, Keeps;
    PutKeeps(s, item, record);
    var t := s.(items := s.items[item := record]);
    forall key | key in t.closes ensures Indexed(t, key) {
      assert Indexed(s, key);
    }
    forall i | i in t.items ensures RecordIsSound(sn, t, i) {
      if i != item {
        assert RecordIsSound(sn, s, i);
      } else if i in s.items {
        assert RecordIsSound(sn, s, i);
      }
    }
  }

  lemma UpsertKeeps(sn: Snapshots, s: State, snapshot: Snapshot)
    requires Consistent(sn, s)
    ensures Consistent(sn, Upsert(sn, s, snapshot).0) && Keeps(s, Upsert(sn, s, snapshot).0)
  {
    var s' := Upsert(sn, s, snapshot).0;
    if s' != s {
      var item := (snapshot.tenant, snapshot.content.externalId);
      PutOpenRecord(sn, s, item, s'.items[item]);
    }
  }

  lemma AppliedIndexes(sn: Snapshots, s: State, r: CloseRequest)
    requires Consistent(sn, s) && r.effect.item.source == Linear
    requires r.key !in s.closes && Refusal(sn, s, r).None?
    ensures ClosesAreIndexed(Applied'(sn, s, r)) && MarkersAreIndexed(Applied'(sn, s, r))
  {
    var t := Applied'(sn, s, r);
    var item := KeyOf(r.effect.item);
    assert RecordIsSound(sn, s, item);
    forall key | key in t.closes ensures Indexed(t, key) {
      if key != r.key { assert Indexed(s, key); }
    }
    forall marker | marker in t.keyByMarker
      ensures t.keyByMarker[marker] in t.closes && t.closes[t.keyByMarker[marker]].effect.correlation == marker
    {
      if marker != r.effect.correlation { assert marker in s.keyByMarker; }
    }
  }

  lemma AppliedRecords(sn: Snapshots, s: State, r: CloseRequest)
    requires sn.Sound() && Consistent(sn, s)
    requires r.key !in s.closes && Refusal(sn, s, r).None?
    ensures RecordsAreSound(sn, Applied'(sn, s, r)) && EffectsAreSingle(Applied'(sn, s, r))
  {
    hide ContentIsValid;
    var t := Applied'(sn, s, r);
    var item := KeyOf(r.effect.item);
    assert RecordIsSound(sn, s, item);
    forall i | i in t.items ensures RecordIsSound(sn, t, i) {
      if i != item { assert RecordIsSound(sn, s, i); }
    }
  }

  lemma AppliedKeeps(sn: Snapshots, s: State, r: CloseRequest)
    requires Consistent(sn, s)
    requires r.key !in s.closes && Refusal(sn, s, r).None?
    ensures Keeps(s, Applied'(sn, s, r))
  {
    hide ContentIsValid, AppliedReceipt, ClosedSnapshot;
    assert RecordIsSound(sn, s, KeyOf(r.effect.item));
    hide RecordIsSound, RecordsAreSound, ClosesAreIndexed;
  }

  lemma StepKeeps(p: Ports, sn: Snapshots, s: State, c: Call)
    requires sn.Sound() && Consistent(sn, s)
    ensures Consistent(sn, Step(p, sn, s, c)) && Keeps(s, Step(p, sn, s, c))
  {
    match c
    case CallUpsert(snapshot) =>
      UpsertKeeps(sn, s, snapshot);
    case CallClose(r) =>
      CloseKeeps(p, sn, s, r);
    case CallLoseNext =>
      LoseNextKeeps(sn, s, true);
  }

  lemma CloseKeeps(p: Ports, sn: Snapshots, s: State, r: CloseRequest)
    requires sn.Sound() && Consistent(sn, s)
    ensures Consistent(sn, Close(p, sn, s, r).0) && Keeps(s, Close(p, sn, s, r).0)
  {
    if p.Accepts(r) && r.effect.item.source == Linear && r.key !in s.closes && Refusal(sn, s, r).None? {
      AppliedIndexes(sn, s, r);
      AppliedRecords(sn, s, r);
      AppliedKeeps(sn, s, r);
    }
    KeepsItself(s);
    hide Applied', Refusal, Keeps, ClosesAreIndexed, MarkersAreIndexed, RecordsAreSound, EffectsAreSingle;
  }

  lemma LoseNextKeeps(sn: Snapshots, s: State, lose: bool)
    requires Consistent(sn, s)
    ensures Consistent(sn, s.(loseNext := lose)) && Keeps(s, s.(loseNext := lose))
  {
    var t := s.(loseNext := lose);
    forall key | key in t.closes ensures Indexed(t, key) { assert Indexed(s, key); }
    forall item | item in t.items ensures RecordIsSound(sn, t, item) { assert RecordIsSound(sn, s, item); }
  }

  /** In every run the indexes stay in bijection, and what was closed stays as it was. */
  lemma {:induction false} RunKeeps(p: Ports, sn: Snapshots, s: State, calls: seq<Call>)
    requires sn.Sound() && Consistent(sn, s)
    ensures Consistent(sn, Run(p, sn, s, calls)) && Keeps(s, Run(p, sn, s, calls))
    decreases |calls|
  {
    if calls != [] {
      StepKeeps(p, sn, s, calls[0]);
      var t := Step(p, sn, s, calls[0]);
      RunKeeps(p, sn, t, calls[1..]);
      KeepsIsTransitive(s, t, Run(p, sn, t, calls[1..]));
    }
  }

  lemma KeepsItself(s: State)
    ensures Keeps(s, s)
  {
  }

  lemma KeepsIsTransitive(s: State, t: State, u: State)
    requires Keeps(s, t) && Keeps(t, u)
    ensures Keeps(s, u)
  {
  }

  /**
   At most one logical close per item, in every run: the count is one or absent, and two
   recorded closes of the same item, or with the same marker, are the same close.
   */
  lemma OneCloseEach(p: Ports, sn: Snapshots, calls: seq<Call>, key: Name, key': Name, item: ItemKey)
    requires sn.Sound()
    ensures var s := Run(p, sn, EMPTY, calls);
            && (item in s.effects <==> item in s.items && s.items[item].closure.Some?)
            && (item in s.effects ==> s.effects[item] == 1)
            && (key in s.closes && key' in s.closes ==>
                  && (KeyOf(s.closes[key].effect.item) == KeyOf(s.closes[key'].effect.item) ==> key == key')
                  && (s.closes[key].effect.correlation == s.closes[key'].effect.correlation ==> key == key'))
  {
    assert Consistent(sn, EMPTY);
    RunKeeps(p, sn, EMPTY, calls);
    var s := Run(p, sn, EMPTY, calls);
    assert item in s.items ==> RecordIsSound(sn, s, item);
    assert key in s.closes ==> Indexed(s, key);
    assert key' in s.closes ==> Indexed(s, key');
  }

  /**
   A close that took effect, even with its response lost, answers every later identical request
   with the same effect adopted, and a later reconciliation with the same effect found.
   */
  lemma CloseIsAnsweredForever(p: Ports, sn: Snapshots, s: State, r: CloseRequest, calls: seq<Call>)
    requires sn.Sound() && Consistent(sn, s)
    requires Close(p, sn, s, r).0 != s || Close(p, sn, s, r).1.Ok?
    ensures var t := Run(p, sn, Close(p, sn, s, r).0, calls);
            && Close(p, sn, t, r).0 == t
            && Close(p, sn, t, r).1.Ok? && Close(p, sn, t, r).1.value.disposition == Adopted
            && ReceiptFor(Close(p, sn, t, r).1.value, r)
            && (p.AcceptsReconcile(FromClose(r)) ==>
                  && Reconcile(p, t, FromClose(r)).Ok? && Reconcile(p, t, FromClose(r)).value.Found?
                  && SameEffect(Reconcile(p, t, FromClose(r)).value.receipt, Close(p, sn, t, r).1.value))
  {
    var s' := Close(p, sn, s, r).0;
    assert r.key in s'.closes && s'.closes[r.key].effect == r.effect && s'.closes[r.key].receipt.digest == r.digest;
    CloseKeeps(p, sn, s, r);
    RunKeeps(p, sn, s', calls);
    assert Indexed(Run(p, sn, s', calls), r.key);
  }
}
