/**
 Deciding a promotion: the owner's signed approval, the grant it leads to, the rungs of the ladder
 and the decisions that move down it.

 Signatures and digests are opaque; the approval a signature covers is its whole binding.
 */
module Promotion {
  import opened Evaluation
  import opened Prelude

  const APPROVAL_SCHEMA: Name := 4
  const GRANT_SCHEMA: Name := 5

  datatype Rung =
    | Observe | SupervisedPullRequest | AutomaticVerifiedPullRequest | GuardedMergeCandidate | GuardedMergeEnabled

  datatype Owner = Owner(ownerId: Name, keyId: Name, key: Name)

  datatype Binding = Binding(
    schema: Name, owner: Name, ownerKey: Name, segment: Segment, window: Window, evaluationDigest: Name,
    policyDigest: Name, current: Rung, requested: Rung, effectiveFrom: int, expiresAt: int, rollback: Rung)

  datatype Approval = Approval(binding: Binding, signature: Name)

  datatype Request = Request(
    report: Report, policy: Policy, current: Rung, requested: Rung, effectiveFrom: int, expiresAt: int,
    decidedAt: int, approval: Option<Approval>, owner: Owner)

  datatype Grant = Grant(
    schema: Name, segment: Segment, window: Window, evaluationDigest: Name, policyDigest: Name, previous: Rung,
    promoted: Rung, rollback: Rung, effectiveFrom: int, expiresAt: int, owner: Name, ownerKey: Name,
    bindingDigest: Name)

  datatype Decision = Granted(grant: Grant) | Held(evaluationDigest: Name, reasons: set<HoldReason>)

  datatype Notary = Notary(
    rules: Rules,
    bindingDigest: Binding -> Name,
    grantDigest: Grant -> Name,
    signatureIsValid: (Name, Binding, Name) -> bool)
  {
    ghost predicate DigestsAreWellFormed() {
      rules.DigestsAreWellFormed() && forall b: Binding :: rules.isSha256(bindingDigest(b))
    }
  }

  // --------------------------------------------------------------- the rungs

  function Next(r: Rung): Option<Rung> {
    match r
    case Observe => Some(SupervisedPullRequest)
    case SupervisedPullRequest => Some(AutomaticVerifiedPullRequest)
    case AutomaticVerifiedPullRequest => Some(GuardedMergeCandidate)
    case GuardedMergeCandidate => Some(GuardedMergeEnabled)
    case GuardedMergeEnabled => None
  }

  function Previous(r: Rung): Option<Rung> {
    match r
    case Observe => None
    case SupervisedPullRequest => Some(Observe)
    case AutomaticVerifiedPullRequest => Some(SupervisedPullRequest)
    case GuardedMergeCandidate => Some(AutomaticVerifiedPullRequest)
    case GuardedMergeEnabled => Some(GuardedMergeCandidate)
  }

  predicate IsHighRisk(s: Segment) {
    s.risk == HighRisk || s.risk == CriticalRisk
  }

  // ------------------------------------------------------------ the decision

  predicate ReportVerifies(r: Rules, report: Report) {
    report.content.schema == REPORT_SCHEMA && r.isSha256(report.digest) && r.reportDigest(report.content) == report.digest
  }

  predicate PromotionWindowIsValid(effectiveFrom: int, expiresAt: int, decidedAt: int, maximum: nat) {
    var seconds := Seconds(expiresAt - effectiveFrom);
    effectiveFrom <= decidedAt < expiresAt && 0 < seconds <= maximum
  }

  function ExpectedBinding(n: Notary, q: Request): Binding {
    Binding(APPROVAL_SCHEMA, q.owner.ownerId, q.owner.keyId, q.report.content.segment, q.report.content.window,
            q.report.digest, n.rules.policyDigest(q.policy), q.current, q.requested, q.effectiveFrom, q.expiresAt,
            q.current)
  }

  function GrantFor(n: Notary, q: Request, approval: Approval): Grant {
    Grant(GRANT_SCHEMA, q.report.content.segment, q.report.content.window, q.report.digest,
          n.rules.policyDigest(q.policy), q.current, q.requested, q.current, q.effectiveFrom, q.expiresAt,
          q.owner.ownerId, q.owner.keyId, n.bindingDigest(approval.binding))
  }

  /** What the request itself is missing. */
  function RequestReasons(n: Notary, q: Request): set<HoldReason> {
    var age := Seconds(q.decidedAt - q.report.content.generatedAt);
    (if !ReportVerifies(n.rules, q.report) then {ReportIntegrityMismatch} else {})
    + (if q.report.content.policyDigest != n.rules.policyDigest(q.policy) then {PolicyDigestMismatch} else {})
    + (if !(0 <= age <= q.policy.thresholds.maxAge) then {EvaluationExpired} else {})
    + (if Next(q.current) != Some(q.requested) then {NonAdjacentPromotion} else {})
    + (if IsHighRisk(q.report.content.segment) && q.requested == GuardedMergeEnabled
       then {HighRiskGuardedMergeForbidden} else {})
    + (if !PromotionWindowIsValid(q.effectiveFrom, q.expiresAt, q.decidedAt, q.policy.thresholds.maxPromotion)
       then {InvalidPromotionWindow} else {})
  }

  /** What the approval is missing. */
  function ApprovalReasons(n: Notary, q: Request): set<HoldReason> {
    match q.approval
    case None => {MissingOwnerApproval}
    case Some(approval) =>
      (if approval.binding.owner != q.owner.ownerId || approval.binding.ownerKey != q.owner.keyId
       then {OwnerApprovalIdentityMismatch} else {})
      + (if approval.binding != ExpectedBinding(n, q) then {OwnerApprovalBindingMismatch} else {})
      + (if !n.signatureIsValid(q.owner.key, approval.binding, approval.signature)
         then {OwnerApprovalSignatureInvalid} else {})
  }

  function DecisionFor(n: Notary, q: Request): Result<Decision, Error> {
    if !PolicyIsValid(q.policy) then Err(Validation)
    else
      var reasons := q.report.content.reasons + RequestReasons(n, q) + ApprovalReasons(n, q);
      if reasons != {} || q.approval.None? then Ok(Held(q.report.digest, reasons))
      else Ok(Granted(GrantFor(n, q, q.approval.value)))
  }

  method CheckRequest(n: Notary, q: Request, reasons: set<HoldReason>) returns (all: set<HoldReason>)
    ensures all == reasons + RequestReasons(n, q)
  {
    hide ReportVerifies, Seconds, PromotionWindowIsValid;
    all := reasons;
    if !ReportVerifies(n.rules, q.report) { all := all + {ReportIntegrityMismatch}; }
    if q.report.content.policyDigest != n.rules.policyDigest(q.policy) { all := all + {PolicyDigestMismatch}; }
    var age := Seconds(q.decidedAt - q.report.content.generatedAt);
    if age < 0 || age > q.policy.thresholds.maxAge { all := all + {EvaluationExpired}; }
    if Next(q.current) != Some(q.requested) { all := all + {NonAdjacentPromotion}; }
    if IsHighRisk(q.report.content.segment) && q.requested == GuardedMergeEnabled {
      all := all + {HighRiskGuardedMergeForbidden};
    }
    if !PromotionWindowIsValid(q.effectiveFrom, q.expiresAt, q.decidedAt, q.policy.thresholds.maxPromotion) {
      all := all + {InvalidPromotionWindow};
    }
  }

  method CheckApproval(n: Notary, q: Request, reasons: set<HoldReason>) returns (all: set<HoldReason>)
    ensures all == reasons + ApprovalReasons(n, q)
    ensures all == {} ==> q.approval.Some?
  {
    all := reasons;
    match q.approval {
      case None =>
        all := all + {MissingOwnerApproval};
        assert MissingOwnerApproval in all;
      case Some(approval) =>
        if approval.binding.owner != q.owner.ownerId || approval.binding.ownerKey != q.owner.keyId {
          all := all + {OwnerApprovalIdentityMismatch};
        }
        if approval.binding != ExpectedBinding(n, q) { all := all + {OwnerApprovalBindingMismatch}; }
        if !n.signatureIsValid(q.owner.key, approval.binding, approval.signature) {
          all := all + {OwnerApprovalSignatureInvalid};
        }
    }
  }

  /** The decision as it is taken, one reason at a time. */
  method Decide(n: Notary, q: Request) returns (r: Result<Decision, Error>)
    ensures r == DecisionFor(n, q)
  {
    hide PolicyIsValid, RequestReasons, ApprovalReasons;
    if !PolicyIsValid(q.policy) {
      return Err(Validation);
    }
    var reasons := CheckRequest(n, q, q.report.content.reasons);
    reasons := CheckApproval(n, q, reasons);
    if reasons != {} {
      return Ok(Held(q.report.digest, reasons));
    }
    r := Ok(Granted(GrantFor(n, q, q.approval.value)));
  }

  // ------------------------------------------------------ what a grant means

  lemma SecondsMean(d: int, maximum: nat)
    ensures 0 <= Seconds(d) <= maximum <==> -NANOS < d < (maximum + 1) * NANOS
    ensures 0 < Seconds(d) <= maximum <==> NANOS <= d < (maximum + 1) * NANOS
  {
  }

  /** Nothing is wrong with the request, in exact durations. */
  predicate RequestIsSound(n: Notary, q: Request) {
    && q.report.content.schema == REPORT_SCHEMA && n.rules.isSha256(q.report.digest)
    && q.report.digest == n.rules.reportDigest(q.report.content)
    && q.report.content.policyDigest == n.rules.policyDigest(q.policy)
    && -NANOS < q.decidedAt - q.report.content.generatedAt < (q.policy.thresholds.maxAge + 1) * NANOS
    && Next(q.current) == Some(q.requested)
    && !(q.report.content.segment.risk in {HighRisk, CriticalRisk} && q.requested == GuardedMergeEnabled)
    && q.effectiveFrom <= q.decidedAt < q.expiresAt
    && NANOS <= q.expiresAt - q.effectiveFrom < (q.policy.thresholds.maxPromotion + 1) * NANOS
  }

  /** The owner signed exactly this promotion. */
  predicate ApprovalIsSound(n: Notary, q: Request) {
    && q.approval.Some? && q.approval.value.binding == ExpectedBinding(n, q)
    && n.signatureIsValid(q.owner.key, ExpectedBinding(n, q), q.approval.value.signature)
  }

  lemma RequestReasonsMean(n: Notary, q: Request)
    ensures RequestReasons(n, q) == {} <==> RequestIsSound(n, q)
  {
    SecondsMean(q.decidedAt - q.report.content.generatedAt, q.policy.thresholds.maxAge);
    SecondsMean(q.expiresAt - q.effectiveFrom, q.policy.thresholds.maxPromotion);
    hide Seconds;
    var reasons := RequestReasons(n, q);
    assert ReportIntegrityMismatch in reasons <==> !ReportVerifies(n.rules, q.report);
    assert PolicyDigestMismatch in reasons <==> q.report.content.policyDigest != n.rules.policyDigest(q.policy);
    assert EvaluationExpired in reasons <==>
             !(0 <= Seconds(q.decidedAt - q.report.content.generatedAt) <= q.policy.thresholds.maxAge);
    assert NonAdjacentPromotion in reasons <==> Next(q.current) != Some(q.requested);
    assert HighRiskGuardedMergeForbidden in reasons <==>
             IsHighRisk(q.report.content.segment) && q.requested == GuardedMergeEnabled;
    assert InvalidPromotionWindow in reasons <==>
             !PromotionWindowIsValid(q.effectiveFrom, q.expiresAt, q.decidedAt, q.policy.thresholds.maxPromotion);
  }

  lemma ApprovalReasonsMean(n: Notary, q: Request)
    ensures ApprovalReasons(n, q) == {} <==> ApprovalIsSound(n, q)
  {
    var reasons := ApprovalReasons(n, q);
    if q.approval.None? {
      assert MissingOwnerApproval in reasons;
    } else {
      var approval := q.approval.value;
      assert OwnerApprovalBindingMismatch in reasons <==> approval.binding != ExpectedBinding(n, q);
      assert OwnerApprovalSignatureInvalid in reasons <==>
               !n.signatureIsValid(q.owner.key, approval.binding, approval.signature);
    }
  }

  /** A promotion is granted exactly when the report is clean and the request and approval are sound. */
  lemma GrantedMeans(n: Notary, q: Request)
    ensures DecisionFor(n, q).Ok? <==> PolicyIsValid(q.policy)
    ensures PolicyIsValid(q.policy) ==>
              (DecisionFor(n, q).value.Granted? <==>
                 q.report.content.reasons == {} && RequestIsSound(n, q) && ApprovalIsSound(n, q))
  {
    RequestReasonsMean(n, q);
    ApprovalReasonsMean(n, q);
    hide RequestReasons, ApprovalReasons, PolicyIsValid, RequestIsSound;
  }

  /** A grant says exactly what the owner signed, and goes back to where it started. */
  lemma GrantSaysWhatWasSigned(n: Notary, q: Request)
    requires DecisionFor(n, q).Ok? && DecisionFor(n, q).value.Granted?
    ensures var g, b := DecisionFor(n, q).value.grant, q.approval.value.binding;
            && n.signatureIsValid(q.owner.key, b, q.approval.value.signature)
            && g.bindingDigest == n.bindingDigest(b)
            && g.owner == b.owner && g.ownerKey == b.ownerKey && g.segment == b.segment && g.window == b.window
            && g.evaluationDigest == b.evaluationDigest && g.policyDigest == b.policyDigest
            && g.previous == b.current && g.promoted == b.requested && g.rollback == b.rollback == b.current
            && g.effectiveFrom == b.effectiveFrom && g.expiresAt == b.expiresAt
            && g.owner == q.owner.ownerId && g.ownerKey == q.owner.keyId && g.segment == q.report.content.segment
            && g.window == q.report.content.window && g.evaluationDigest == q.report.digest
            && g.policyDigest == n.rules.policyDigest(q.policy) && g.previous == q.current && g.promoted == q.requested
            && g.effectiveFrom == q.effectiveFrom && g.expiresAt == q.expiresAt && g.schema == GRANT_SCHEMA
            && b.schema == APPROVAL_SCHEMA
  {
    GrantedMeans(n, q);
    hide RequestReasons, ApprovalReasons, PolicyIsValid, RequestIsSound;
  }

  // ------------------------------------------------------------------ grants

  predicate GrantIsValid(n: Notary, g: Grant) {
    && SegmentIsValid(n.rules, g.segment) && WindowIsValid(g.window)
    && g.schema == GRANT_SCHEMA
    && n.rules.isSha256(g.evaluationDigest) && n.rules.isSha256(g.policyDigest) && n.rules.isSha256(g.bindingDigest)
    && g.owner != BLANK && g.ownerKey != BLANK
    && g.previous == g.rollback && Next(g.previous) == Some(g.promoted) && g.effectiveFrom < g.expiresAt
    && !(IsHighRisk(g.segment) && g.promoted == GuardedMergeEnabled)
  }

  /** No grant that is valid, and none that is issued, gives guarded merge to a high- or critical-risk segment. */
  lemma NoGuardedMergeForHighRisk(n: Notary, g: Grant, q: Request)
    requires GrantIsValid(n, g) || DecisionFor(n, q) == Ok(Granted(g))
    ensures g.promoted == GuardedMergeEnabled ==> g.segment.risk !in {HighRisk, CriticalRisk}
  {
    if !GrantIsValid(n, g) {
      GrantedMeans(n, q);
      hide RequestReasons, ApprovalReasons, PolicyIsValid;
    }
  }

  function EffectiveRungAt(n: Notary, g: Grant, at: int): Result<Rung, Error> {
    if !GrantIsValid(n, g) then Err(Validation)
    else Ok(if g.effectiveFrom <= at < g.expiresAt then g.promoted else g.rollback)
  }

  /** An owner as the constructor accepts one. */
  predicate OwnerIsTrusted(o: Owner) {
    o.ownerId != BLANK && o.keyId != BLANK
  }

  /** Every grant issued on a report of the engine passes the grant's own validation. */
  lemma GrantPassesValidation(n: Notary, q: Request, c: Context, policy: Policy, samples: seq<Sample>,
                              incidents: seq<Incident>)
    requires c.rules == n.rules && n.DigestsAreWellFormed() && OwnerIsTrusted(q.owner)
    requires ReportFor(c, policy, samples, incidents) == Ok(q.report)
    requires DecisionFor(n, q).Ok? && DecisionFor(n, q).value.Granted?
    ensures GrantIsValid(n, DecisionFor(n, q).value.grant)
    ensures EffectiveRungAt(n, DecisionFor(n, q).value.grant, q.decidedAt) == Ok(q.requested)
  {
    hide ReportFor, PolicyIsValid, RequestReasons, ApprovalReasons, WindowIsValid, ReportVerifies;
    GrantedMeans(n, q);
    ReportIsBounded(c, policy, samples, incidents);
  }

  lemma ReportIsBounded(c: Context, policy: Policy, samples: seq<Sample>, incidents: seq<Incident>)
    requires ReportFor(c, policy, samples, incidents).Ok? && c.rules.DigestsAreWellFormed()
    ensures var report := ReportFor(c, policy, samples, incidents).value;
            && SegmentIsValid(c.rules, report.content.segment) && WindowIsValid(report.content.window)
            && c.rules.isSha256(report.digest)
            && report.content.segment == c.segment
  {
    hide AggregateOf, Counted, AllSampleReasons, AllIncidentReasons, ThresholdReasons, PolicyIsValid;
  }

  // ------------------------------------------------------------- going down

  datatype SafetyReason =
    | UnsoundSample(sample: Name) | FalseGreenSample(sample: Name) | SecurityViolationSample(sample: Name)
    | SevereViolationSample(sample: Name) | SafetyIncident(incident: Name) | UnresolvedIncident(incident: Name)
    | HighRiskGuardedMerge

  datatype Cause =
    | ExplicitRollback(actor: Name, reason: Name)
    | PromotionExpired(grantDigest: Name)
    | AutomaticSafety(reasons: set<SafetyReason>)

  datatype Demotion = Demotion(segment: Segment, from: Rung, to: Rung, effectiveAt: int, cause: Cause)

  datatype Rollback = Rollback(segment: Segment, current: Rung, requested: Rung, actor: Name, reason: Name,
                               effectiveAt: int)

  datatype SafetyDecision = Retain | FrozenAtObserve(reasons: set<SafetyReason>) | Demote(decision: Demotion)

  function ExpirationRollback(n: Notary, g: Grant, at: int): Result<Option<Demotion>, Error> {
    if !GrantIsValid(n, g) then Err(Validation)
    else if at < g.expiresAt then Ok(None)
    else Ok(Some(Demotion(g.segment, g.promoted, g.rollback, at, PromotionExpired(n.grantDigest(g)))))
  }

  function RollBack(r: Rules, q: Rollback): Result<Demotion, Error> {
    if !SegmentIsValid(r, q.segment) || q.actor == BLANK || q.reason == BLANK then Err(Validation)
    else if Previous(q.current) != Some(q.requested) then Err(Validation)
    else Ok(Demotion(q.segment, q.current, q.requested, q.effectiveAt, ExplicitRollback(q.actor, q.reason)))
  }

  predicate SampleIsAdmissible(segment: Segment, at: int, s: Sample) {
    s.content.segment == segment && s.content.evaluatedAt <= at
  }

  predicate IncidentIsAdmissible(r: Rules, segment: Segment, at: int, i: Incident) {
    IncidentIsValid(r, i, at) && i.segment == segment
  }

  function SampleDangers(r: Rules, s: Sample): set<SafetyReason> {
    var id, m := s.content.id, s.content.m;
    if !SampleIsSound(r, s) then {UnsoundSample(id)}
    else
      (if m.falseGreen then {FalseGreenSample(id)} else {})
      + (if m.security != CleanSecurity then {SecurityViolationSample(id)} else {})
      + (if m.severe.Some? then {SevereViolationSample(id)} else {})
  }

  function IncidentDangers(at: int, i: Incident): set<SafetyReason> {
    (if IsSafety(i) then {SafetyIncident(i.id)} else {})
    + (if IsHighSeverity(i.severity) && IsUnresolvedAt(i, at) then {UnresolvedIncident(i.id)} else {})
  }

  function RungDangers(segment: Segment, current: Rung): set<SafetyReason> {
    if IsHighRisk(segment) && current == GuardedMergeEnabled then {HighRiskGuardedMerge} else {}
  }

  function AllSampleDangers(r: Rules, samples: seq<Sample>): set<SafetyReason> {
    set s, x | s in samples && x in SampleDangers(r, s) :: x
  }

  function AllIncidentDangers(at: int, incidents: seq<Incident>): set<SafetyReason> {
    set i, x | i in incidents && x in IncidentDangers(at, i) :: x
  }

  predicate SafetyInputIsValid(r: Rules, segment: Segment, at: int, samples: seq<Sample>, incidents: seq<Incident>) {
    && SegmentIsValid(r, segment) && |samples| <= MAX_EVALUATION_SAMPLES && |incidents| <= MAX_INCIDENT_SNAPSHOTS
    && (forall i :: 0 <= i < |samples| ==> SampleIsAdmissible(segment, at, samples[i]))
    && (forall i :: 0 <= i < |incidents| ==> IncidentIsAdmissible(r, segment, at, incidents[i]))
  }

  function SafetyFor(r: Rules, segment: Segment, current: Rung, at: int, samples: seq<Sample>, incidents: seq<Incident>)
    : Result<SafetyDecision, Error>
  {
    if !SafetyInputIsValid(r, segment, at, samples, incidents) then Err(Validation)
    else
      var reasons := AllSampleDangers(r, samples) + AllIncidentDangers(at, incidents) + RungDangers(segment, current);
      if reasons == {} then Ok(Retain)
      else
        match Previous(current)
        case None => Ok(FrozenAtObserve(reasons))
        case Some(lower) => Ok(Demote(Demotion(segment, current, lower, at, AutomaticSafety(reasons))))
  }

  method ImmediateSafetyDecision(r: Rules, segment: Segment, current: Rung, at: int, samples: seq<Sample>,
                                 incidents: seq<Incident>) returns (d: Result<SafetyDecision, Error>)
    ensures d == SafetyFor(r, segment, current, at, samples, incidents)
  {
    hide SampleDangers, IncidentDangers, IncidentIsValid;
    if !SegmentIsValid(r, segment) || |samples| > MAX_EVALUATION_SAMPLES || |incidents| > MAX_INCIDENT_SNAPSHOTS {
      return Err(Validation);
    }
    var reasons := {};
    for k := 0 to |samples|
      invariant forall i :: 0 <= i < k ==> SampleIsAdmissible(segment, at, samples[i])
      invariant reasons == AllSampleDangers(r, samples[..k])
    {
      var sample := samples[k];
      if sample.content.segment != segment || sample.content.evaluatedAt > at {
        return Err(Validation);
      }
      var found := JudgeSample(r, sample);
      assert samples[..k + 1] == samples[..k] + [sample];
      reasons := reasons + found;
    }
    assert samples[..|samples|] == samples;
    for k := 0 to |incidents|
      invariant forall i :: 0 <= i < k ==> IncidentIsAdmissible(r, segment, at, incidents[i])
      invariant reasons == AllSampleDangers(r, samples) + AllIncidentDangers(at, incidents[..k])
    {
      var incident := incidents[k];
      if !IncidentIsValid(r, incident, at) {
        return Err(Validation);
      }
      if incident.segment != segment {
        return Err(Validation);
      }
      var found := JudgeIncident(at, incident);
      assert incidents[..k + 1] == incidents[..k] + [incident];
      reasons := reasons + found;
    }
    assert incidents[..|incidents|] == incidents;
    hide AllSampleDangers, AllIncidentDangers;
    if IsHighRisk(segment) && current == GuardedMergeEnabled {
      reasons := reasons + {HighRiskGuardedMerge};
    }
    assert reasons == AllSampleDangers(r, samples) + AllIncidentDangers(at, incidents) + RungDangers(segment, current);
    assert SafetyInputIsValid(r, segment, at, samples, incidents);
    hide SafetyInputIsValid;
    if reasons == {} {
      return Ok(Retain);
    }
    match Previous(current) {
      case None => d := Ok(FrozenAtObserve(reasons));
      case Some(lower) => d := Ok(Demote(Demotion(segment, current, lower, at, AutomaticSafety(reasons))));
    }
  }

  method JudgeSample(r: Rules, s: Sample) returns (found: set<SafetyReason>)
    ensures found == SampleDangers(r, s)
  {
    var id, m := s.content.id, s.content.m;
    if !SampleIsSound(r, s) {
      return {UnsoundSample(id)};
    }
    found := {};
    if m.falseGreen { found := found + {FalseGreenSample(id)}; }
    if m.security != CleanSecurity { found := found + {SecurityViolationSample(id)}; }
    if m.severe.Some? { found := found + {SevereViolationSample(id)}; }
  }

  method JudgeIncident(at: int, i: Incident) returns (found: set<SafetyReason>)
    ensures found == IncidentDangers(at, i)
  {
    found := {};
    if IsSafety(i) { found := found + {SafetyIncident(i.id)}; }
    if IsHighSeverity(i.severity) && IsUnresolvedAt(i, at) { found := found + {UnresolvedIncident(i.id)}; }
  }
}
