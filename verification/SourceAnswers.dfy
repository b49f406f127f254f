/** What each operation of the in-memory Linear gateway does, in the fields of its state and request. */
module SourceAnswers {
  import opened Prelude
  import opened SourcePort
  import opened SourceGateway

  // ---------------------------------------------------------------- snapshots

  predicate IsWellFormed(sn: Snapshots, x: Snapshot) {
    && x.content.externalId != BLANK && x.content.revision != BLANK && sn.bodyIsValid(x.content.body)
    && x.content.source == Linear && x.connector != BLANK && x.digest == sn.digestOf(x.content)
    && sn.urlIsSafe(x.content.body)
  }

  /** A snapshot is taken in exactly if it is well formed and does not contradict what is known of its item. */
  lemma UpsertMeans(sn: Snapshots, s: State, x: Snapshot)
    ensures var key := (x.tenant, x.content.externalId);
            Upsert(sn, s, x).1.Ok? <==>
            && IsWellFormed(sn, x)
            && (key in s.items ==>
                  if s.items[key].current.content.revision == x.content.revision
                  then s.items[key].current.digest == x.digest
                  else s.items[key].closure.None?)
    ensures Upsert(sn, s, x).1.Err? ==> Upsert(sn, s, x).0 == s
  {
  }

  /** It then is the current one; a new revision pushes the one before into the history; nothing else changes. */
  lemma UpsertMakesCurrent(sn: Snapshots, s: State, x: Snapshot)
    requires Upsert(sn, s, x).1.Ok?
    ensures var key, t := (x.tenant, x.content.externalId), Upsert(sn, s, x).0;
            && key in t.items && t.items[key].current.content.revision == x.content.revision
            && t.items[key].current.digest == x.digest
            && (key !in s.items ==> t.items[key] == Record([], x, Active, None))
            && (key in s.items && s.items[key].current.content.revision != x.content.revision ==>
                  t.items[key] == Record(s.items[key].history + [s.items[key].current], x, Active, None))
            && (key in s.items && s.items[key].current.content.revision == x.content.revision ==> t == s)
            && (forall k :: k != key ==> (k in t.items <==> k in s.items) && (k in s.items ==> t.items[k] == s.items[k]))
            && t.closes == s.closes && t.keyByMarker == s.keyByMarker && t.effects == s.effects
            && t.loseNext == s.loseNext
  {
  }

  // ------------------------------------------------------------------- closes

  /** The item is open at the very revision and digest the request expects. */
  predicate IsExpected(s: State, r: CloseRequest) {
    var key := (r.effect.item.tenant, r.effect.item.externalId);
    && key in s.items && s.items[key].lifecycle == Active
    && s.items[key].current.content.revision == r.effect.expectedRevision
    && s.items[key].current.digest == r.effect.expectedDigest
  }

  predicate IsValid(p: Ports, r: CloseRequest) {
    && r.key != BLANK && p.effectIsValid(r.effect) && r.digest == p.digestOf(r.effect)
    && r.effect.item.source == Linear
  }

  /** The closed snapshot can be built. */
  predicate CanBeClosed(sn: Snapshots, x: Snapshot, r: CloseRequest) {
    && x.content.externalId != BLANK && sn.closedRevision(x.content.revision, r.digest) != BLANK
    && sn.bodyIsValid(x.content.body) && x.connector != BLANK
  }

  /** A close takes effect exactly if key and marker are unused and the item is as expected. */
  lemma CloseTakesEffectMeans(p: Ports, sn: Snapshots, s: State, r: CloseRequest)
    ensures var key := (r.effect.item.tenant, r.effect.item.externalId);
            Close(p, sn, s, r).0 != s <==>
            && IsValid(p, r) && r.key !in s.closes && r.effect.correlation !in s.keyByMarker
            && IsExpected(s, r) && CanBeClosed(sn, s.items[key].current, r)
  {
    var t := Close(p, sn, s, r).0;
    if IsValid(p, r) && r.key !in s.closes && Refusal(sn, s, r).None? {
      assert r.key in t.closes;
    }
  }

  /** What it then leaves behind. */
  lemma CloseEffect(p: Ports, sn: Snapshots, s: State, r: CloseRequest)
    requires Close(p, sn, s, r).0 != s
    ensures var key, t := (r.effect.item.tenant, r.effect.item.externalId), Close(p, sn, s, r).0;
            && key in s.items && key in t.items
            && var before, after := s.items[key], t.items[key];
            && after.history == before.history + [before.current] && after.lifecycle == Completed
            && after.current.content ==
               before.current.content.(revision := sn.closedRevision(before.current.content.revision, r.digest),
                                       state := sn.completed, updatedAt := r.requestedAt)
            && after.current.digest == sn.digestOf(after.current.content)
            && after.current.tenant == before.current.tenant && after.current.connector == before.current.connector
            && after.current.capturedAt == r.requestedAt
            && after.closure.Some? && ReceiptFor(after.closure.value, r)
            && after.closure.value.revision == after.current.content.revision
            && after.closure.value.recordedAt == r.requestedAt && after.closure.value.disposition == Applied
            && t.closes == s.closes[r.key := CloseRecord(r.effect, after.closure.value)]
            && t.keyByMarker == s.keyByMarker[r.effect.correlation := r.key]
            && !t.loseNext
            && (forall k :: k != key ==> (k in t.items <==> k in s.items) && (k in s.items ==> t.items[k] == s.items[k]))
            && Close(p, sn, s, r).1 ==
               (if s.loseNext then Err(AmbiguousEffect(r.key, r.digest)) else Ok(after.closure.value))
  {
  }

  /** A receipt says Applied exactly if the key was new, and Adopted exactly if this effect was recorded under it. */
  lemma DispositionMeans(p: Ports, sn: Snapshots, s: State, r: CloseRequest)
    requires Close(p, sn, s, r).1.Ok?
    ensures var x := Close(p, sn, s, r).1.value;
            && (x.disposition == Applied <==> r.key !in s.closes)
            && (x.disposition == Adopted <==> r.key in s.closes)
            && (r.key in s.closes ==> s.closes[r.key].effect == r.effect && s.closes[r.key].receipt.digest == r.digest
                                      && x == s.closes[r.key].receipt.(disposition := Adopted))
  {
  }

  /** Conflicts of idempotency and of state. */
  lemma ConflictMeans(p: Ports, sn: Snapshots, s: State, r: CloseRequest)
    requires IsValid(p, r)
    ensures r.key in s.closes && s.closes[r.key].receipt.digest != r.digest ==>
              Close(p, sn, s, r) == (s, Err(IdempotencyConflict(r.key, s.closes[r.key].receipt.digest, r.digest)))
    ensures r.key !in s.closes && r.effect.correlation in s.keyByMarker ==>
              Close(p, sn, s, r).0 == s && Close(p, sn, s, r).1.Err? && Close(p, sn, s, r).1.error.IdempotencyConflict?
    ensures r.key !in s.closes && r.effect.correlation !in s.keyByMarker
            && (r.effect.item.tenant, r.effect.item.externalId) in s.items && !IsExpected(s, r) ==>
              Close(p, sn, s, r) == (s, Err(SourceStateConflict))
    ensures r.key !in s.closes && r.effect.correlation !in s.keyByMarker
            && (r.effect.item.tenant, r.effect.item.externalId) !in s.items ==>
              Close(p, sn, s, r) == (s, Err(ItemNotFound))
  {
  }

  /** Reconciliation finds exactly what is recorded, and reports a clash exactly on a mismatch. */
  lemma ReconcileMeans(p: Ports, s: State, q: ReconcileRequest)
    requires q.item.externalId != BLANK && q.key != BLANK && q.digest != BLANK && q.correlation != BLANK
    requires q.item.source == Linear
    ensures var answer := Reconcile(p, s, q);
            && (answer == Ok(NotObserved) <==> q.key !in s.closes && q.correlation !in s.keyByMarker)
            && (answer.Ok? && answer.value.Found? <==>
                  && q.key in s.closes && s.closes[q.key].receipt.item == q.item
                  && s.closes[q.key].receipt.digest == q.digest && s.closes[q.key].receipt.correlation == q.correlation)
            && (answer.Ok? && answer.value.Found? ==>
                  answer.value.receipt == s.closes[q.key].receipt.(disposition := Reconciled))
            && (answer == Err(SourceStateConflict) <==> q.key !in s.closes && q.correlation in s.keyByMarker)
  {
  }
}
