/**
 The source-system port: what callers send and what both Linear adapters return.

 Fields that are only hashed or copied are folded into
 `details`. The canonical digest and the validity of an effect are parameters.
 */
module SourcePort {
  import opened Prelude

  datatype SourceSystem = Linear | Api | Github

  datatype ItemRef = ItemRef(tenant: Name, source: SourceSystem, externalId: Name)

  datatype PullRequest = PullRequest(repository: string, number: nat, url: string, details: Name)

  datatype Closure = Closure(pullRequest: Option<PullRequest>, evidenceId: string, evidenceDigest: string,
                             summary: string, cost: Option<nat>, wallTime: Option<nat>, details: Name)

  datatype Effect = Effect(item: ItemRef, expectedRevision: Name, expectedDigest: Name,
                           correlation: Name, closure: Closure)

  datatype CloseRequest = CloseRequest(key: Name, digest: Name, effect: Effect, requestedAt: int)

  datatype ReconcileRequest = ReconcileRequest(item: ItemRef, key: Name, digest: Name, correlation: Name)

  datatype Disposition = Applied | Adopted | Reconciled

  datatype Receipt = Receipt(item: ItemRef, key: Name, digest: Name, correlation: Name,
                             disposition: Disposition, revision: Name, recordedAt: int)

  datatype Reconciliation = Found(receipt: Receipt) | NotObserved

  datatype Error =
    | InvalidRequest
    | ItemNotFound
    | SourceStateConflict
    | IdempotencyConflict(key: Name, existing: Name, submitted: Name)
    | AmbiguousEffect(key: Name, digest: Name)
    | TransportUnavailable
    | ProviderRejected
    | InvalidProviderResponse
    | ResponseTooLarge

  datatype Ports = Ports(digestOf: Effect -> Name, effectIsValid: Effect -> bool)
  {
    /** No two effects share a digest. */
    ghost predicate InjectiveDigest() {
      forall e: Effect, e': Effect :: digestOf(e) == digestOf(e') ==> e == e'
    }

    predicate Accepts(r: CloseRequest) {
      r.key != BLANK && effectIsValid(r.effect) && r.digest == digestOf(r.effect)
    }

    predicate AcceptsReconcile(r: ReconcileRequest) {
      && r.item.externalId != BLANK && r.key != BLANK && r.digest != BLANK && r.correlation != BLANK
    }
  }

  function FromClose(r: CloseRequest): ReconcileRequest {
    ReconcileRequest(r.effect.item, r.key, r.digest, r.effect.correlation)
  }

  /** The parts of a receipt that identify the logical effect. */
  predicate SameEffect(a: Receipt, b: Receipt) {
    a.item == b.item && a.key == b.key && a.digest == b.digest && a.correlation == b.correlation
  }

  predicate ReceiptFor(a: Receipt, r: CloseRequest) {
    a.item == r.effect.item && a.key == r.key && a.digest == r.digest && a.correlation == r.effect.correlation
  }
}
