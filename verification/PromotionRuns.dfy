/** What a grant certifies, how promotion and the safety check meet, and runs up and down the ladder. */
module PromotionRuns {
  import opened Certificate
  import opened CleanReport
  import opened Evaluation
  import opened Prelude
  import opened Promotion

  lemma ReportNeedsValidInput(c: Context, policy: Policy, samples: seq<Sample>, incidents: seq<Incident>)
    requires ReportFor(c, policy, samples, incidents).Ok?
    ensures InputIsValid(c, policy, samples, incidents)
    ensures ReportFor(c, policy, samples, incidents).value.content.policyDigest == c.rules.policyDigest(policy)
    ensures ReportFor(c, policy, samples, incidents).value.content.segment == c.segment
  {
    hide InputIsValid, AggregateOf, Counted, AllSampleReasons, AllIncidentReasons, ThresholdReasons;
  }

  /** A grant certifies every unrounded inequality of the policy it was decided under. */
  lemma GrantCertifies(n: Notary, q: Request, c: Context, policy: Policy, samples: seq<Sample>, incidents: seq<Incident>)
    requires c.rules == n.rules && n.rules.InjectivePolicies()
    requires ReportFor(c, policy, samples, incidents) == Ok(q.report)
    requires DecisionFor(n, q).Ok? && DecisionFor(n, q).value.Granted?
    ensures policy == q.policy && Certified(c, q.policy.thresholds, samples, incidents)
    ensures ApprovalIsSound(n, q)
  {
    hide ReportFor, InputIsValid, PolicyIsValid, Certified, DecisionFor;
    ReportNeedsValidInput(c, policy, samples, incidents);
    GrantedMeans(n, q);
    CleanReportCertifies(c, policy, samples, incidents);
  }

  // ------------------------------------------------- safety against promotion

  /** Pending at high severity, or about safety and opened in the window. */
  predicate IncidentIsDangerous(c: Context, i: Incident) {
    || (i.severity in {HighSeverity, CriticalSeverity} && (i.resolvedAt.None? || i.resolvedAt.value > c.at))
    || (i.kind in {FalseGreenIncident, SecurityIncident, SeverePolicyViolation}
        && c.window.start <= i.openedAt < c.window.end)
  }

  predicate SampleIsDangerous(r: Rules, s: Sample) {
    || !SampleIsSound(r, s) || s.content.m.falseGreen || s.content.m.security != CleanSecurity
    || s.content.m.severe.Some?
  }

  /** A reason of the safety check other than a safety incident opened outside the window. */
  predicate InDanger(c: Context, current: Rung, samples: seq<Sample>, incidents: seq<Incident>) {
    || (exists i :: 0 <= i < |samples| && SampleIsDangerous(c.rules, samples[i]))
    || (exists i :: 0 <= i < |incidents| && IncidentIsDangerous(c, incidents[i]))
    || (c.segment.risk in {HighRisk, CriticalRisk} && current == GuardedMergeEnabled)
  }

  lemma SampleDangersMean(r: Rules, s: Sample)
    ensures SampleDangers(r, s) == {} <==> !SampleIsDangerous(r, s)
  {
    hide SampleIsSound;
    var id, m, d := s.content.id, s.content.m, SampleDangers(r, s);
    if SampleIsSound(r, s) {
      assert FalseGreenSample(id) in d <==> m.falseGreen;
      assert SecurityViolationSample(id) in d <==> m.security != CleanSecurity;
      assert SevereViolationSample(id) in d <==> m.severe.Some?;
    } else {
      assert UnsoundSample(id) in d;
    }
  }

  /** Whatever puts the rung in danger also holds its promotion. */
  lemma SafetyStopsPromotion(n: Notary, q: Request, c: Context, policy: Policy, samples: seq<Sample>,
                             incidents: seq<Incident>)
    requires c.rules == n.rules && PolicyIsValid(q.policy)
    requires ReportFor(c, policy, samples, incidents) == Ok(q.report)
    requires InDanger(c, q.current, samples, incidents)
    ensures DecisionFor(n, q).Ok? && DecisionFor(n, q).value.Held?
  {
    hide ReportFor, InputIsValid, PolicyIsValid, DecisionFor, SampleIsSound, SampleDangers, UniqueIds, UniqueIncidents,
         ThresholdsAreMet, ApprovalIsSound;
    ReportNeedsValidInput(c, policy, samples, incidents);
    GrantedMeans(n, q);
    CleanMeans(c, policy, samples, incidents);
    if i :| 0 <= i < |samples| && SampleIsDangerous(c.rules, samples[i]) {
      assert !SampleIsClean(c, samples[i]);
    } else if i :| 0 <= i < |incidents| && IncidentIsDangerous(c, incidents[i]) {
      assert !IncidentIsClean(c, incidents[i]);
    } else {
      assert Next(q.current) == None;
    }
  }

  predicate IncidentIsStale(c: Context, i: Incident) {
    && i.kind in {FalseGreenIncident, SecurityIncident, SeverePolicyViolation}
    && !(c.window.start <= i.openedAt < c.window.end)
  }

  lemma SampleDangersAre(r: Rules, samples: seq<Sample>)
    ensures AllSampleDangers(r, samples) == {} <==> forall i :: 0 <= i < |samples| ==> !SampleIsDangerous(r, samples[i])
  {
    forall i | 0 <= i < |samples| ensures SampleDangers(r, samples[i]) == {} <==> !SampleIsDangerous(r, samples[i]) {
      SampleDangersMean(r, samples[i]);
    }
    hide SampleDangers, SampleIsDangerous;
    forall i, x | 0 <= i < |samples| && x in SampleDangers(r, samples[i]) ensures x in AllSampleDangers(r, samples) {
      assert samples[i] in samples;
    }
  }

  lemma IncidentDangersMean(c: Context, i: Incident)
    ensures IncidentDangers(c.at, i) == {} <==> !IncidentIsDangerous(c, i) && !IncidentIsStale(c, i)
  {
    assert SafetyIncident(i.id) in IncidentDangers(c.at, i) <==> IsSafety(i);
    assert UnresolvedIncident(i.id) in IncidentDangers(c.at, i) <==> IsHighSeverity(i.severity) && IsUnresolvedAt(i, c.at);
  }

  lemma IncidentDangersAre(at: int, incidents: seq<Incident>)
    ensures AllIncidentDangers(at, incidents) == {} <==>
              forall i :: 0 <= i < |incidents| ==> IncidentDangers(at, incidents[i]) == {}
  {
    hide IncidentDangers;
    forall i, x | 0 <= i < |incidents| && x in IncidentDangers(at, incidents[i])
      ensures x in AllIncidentDangers(at, incidents)
    {
      assert incidents[i] in incidents;
    }
  }

  /** The rung is retained exactly when it is not in danger and no safety incident is listed at all. */
  lemma SafetyMeans(c: Context, current: Rung, samples: seq<Sample>, incidents: seq<Incident>)
    requires SafetyInputIsValid(c.rules, c.segment, c.at, samples, incidents)
    ensures SafetyFor(c.rules, c.segment, current, c.at, samples, incidents).Ok?
    ensures SafetyFor(c.rules, c.segment, current, c.at, samples, incidents).value.Retain? <==>
              && !InDanger(c, current, samples, incidents)
              && forall i :: 0 <= i < |incidents| ==> !IncidentIsStale(c, incidents[i])
  {
    hide SampleIsDangerous, IncidentDangers, IncidentIsStale, IncidentIsDangerous, AllSampleDangers, AllIncidentDangers,
         SafetyInputIsValid;
    SampleDangersAre(c.rules, samples);
    IncidentDangersAre(c.at, incidents);
    forall i | 0 <= i < |incidents|
      ensures IncidentDangers(c.at, incidents[i]) == {} <==>
                !IncidentIsDangerous(c, incidents[i]) && !IncidentIsStale(c, incidents[i])
    {
      IncidentDangersMean(c, incidents[i]);
    }
  }

  /** Everything a promotion needs besides safety. */
  predicate OtherwiseReady(n: Notary, q: Request, c: Context, samples: seq<Sample>, incidents: seq<Incident>) {
    && RequestIsSound(n, q) && ApprovalIsSound(n, q) && ThresholdsHold(q.policy.thresholds, samples)
    && UniqueIds(samples) && (forall i :: 0 <= i < |samples| ==> c.window.Contains(samples[i].content.evaluatedAt))
    && UniqueIncidents(incidents)
  }

  lemma CleanIsSafe(c: Context, t: Thresholds, current: Rung, samples: seq<Sample>, incidents: seq<Incident>)
    requires SafetyInputIsValid(c.rules, c.segment, c.at, samples, incidents)
    requires ThresholdsHold(t, samples) && UniqueIds(samples) && UniqueIncidents(incidents)
    requires forall i :: 0 <= i < |samples| ==> c.window.Contains(samples[i].content.evaluatedAt)
    requires !(c.segment.risk in {HighRisk, CriticalRisk} && current == GuardedMergeEnabled)
    ensures Clean(c, t, samples, incidents) <==> !InDanger(c, current, samples, incidents)
  {
    ThresholdsInFields(t, samples);
    hide SampleIsSound, UniqueIds, UniqueIncidents, ThresholdsAreMet, ThresholdsHold, IncidentIsValid;
    forall i | 0 <= i < |samples| ensures SampleIsClean(c, samples[i]) <==> !SampleIsDangerous(c.rules, samples[i]) {
      assert SampleIsAdmissible(c.segment, c.at, samples[i]);
    }
    forall i | 0 <= i < |incidents| ensures IncidentIsClean(c, incidents[i]) <==> !IncidentIsDangerous(c, incidents[i]) {
      assert IncidentIsAdmissible(c.rules, c.segment, c.at, incidents[i]);
    }
    hide SampleIsClean, SampleIsDangerous, IncidentIsClean, IncidentIsDangerous, SafetyInputIsValid;
  }

  /**
   The exact meeting point: of the safety check's reasons, only safety incidents opened outside the window fail
   to hold a promotion that is otherwise ready.
   */
  lemma PromotionHoldsExactlyInDanger(n: Notary, q: Request, c: Context, samples: seq<Sample>, incidents: seq<Incident>)
    requires c.rules == n.rules && ReportFor(c, q.policy, samples, incidents) == Ok(q.report)
    requires SafetyInputIsValid(c.rules, c.segment, c.at, samples, incidents)
    requires OtherwiseReady(n, q, c, samples, incidents)
    ensures DecisionFor(n, q).Ok?
    ensures DecisionFor(n, q).value.Held? <==> InDanger(c, q.current, samples, incidents)
  {
    hide ReportFor, PolicyIsValid, DecisionFor, SampleIsSound, ApprovalIsSound, ThresholdsHold, UniqueIds,
         UniqueIncidents, Clean, InDanger, SafetyInputIsValid;
    ReportNeedsValidInput(c, q.policy, samples, incidents);
    GrantedMeans(n, q);
    CleanMeans(c, q.policy, samples, incidents);
    CleanIsSafe(c, q.policy.thresholds, q.current, samples, incidents);
  }

  lemma UnsafeMovesDown(r: Rules, segment: Segment, current: Rung, at: int, samples: seq<Sample>, incidents: seq<Incident>)
    requires SafetyFor(r, segment, current, at, samples, incidents).Ok?
    requires !SafetyFor(r, segment, current, at, samples, incidents).value.Retain?
    ensures var safety := SafetyFor(r, segment, current, at, samples, incidents).value;
            && (current == Observe ==> safety.FrozenAtObserve?)
            && (current != Observe ==>
                  safety.Demote? && safety.decision.from == current && Previous(current) == Some(safety.decision.to))
  {
    hide SafetyInputIsValid, AllSampleDangers, AllIncidentDangers, RungDangers;
  }

  /** On every input: a stale safety incident lowers or freezes the rung whose otherwise ready promotion is granted. */
  lemma StaleIncidentDemotes(n: Notary, q: Request, c: Context, samples: seq<Sample>, incidents: seq<Incident>)
    requires c.rules == n.rules && ReportFor(c, q.policy, samples, incidents) == Ok(q.report)
    requires SafetyInputIsValid(c.rules, c.segment, c.at, samples, incidents)
    requires OtherwiseReady(n, q, c, samples, incidents) && !InDanger(c, q.current, samples, incidents)
    requires exists i :: 0 <= i < |incidents| && IncidentIsStale(c, incidents[i])
    ensures DecisionFor(n, q).Ok? && DecisionFor(n, q).value.Granted?
    ensures var safety := SafetyFor(c.rules, c.segment, q.current, c.at, samples, incidents);
            && safety.Ok?
            && (q.current == Observe ==> safety.value.FrozenAtObserve?)
            && (q.current != Observe ==> safety.value.Demote? && safety.value.decision.from == q.current
                                         && Previous(q.current) == Some(safety.value.decision.to))
  {
    hide ReportFor, SafetyFor, DecisionFor, SafetyInputIsValid, OtherwiseReady, InDanger, IncidentIsStale;
    PromotionHoldsExactlyInDanger(n, q, c, samples, incidents);
    SafetyMeans(c, q.current, samples, incidents);
    UnsafeMovesDown(c.rules, c.segment, q.current, c.at, samples, incidents);
  }

  const SEGMENT := Segment(1, 1, LowRisk, 1)
  const LENIENT := Thresholds(1, 1, 0, 0, 0, 0, 0, 0, 0, 0, 0, 0, 0, 1, 1, 100, 100)
  const GOOD := Measurements(true, true, true, true, false, true, false, NotApplicable, NotApplicable, CleanSecurity,
                             None, 0, 0)

  lemma GoodMeetsLenient(s: Sample)
    requires s.content.m == GOOD
    ensures ThresholdsHold(LENIENT, [s])
  {
    ThresholdsInFields(LENIENT, [s]);
    hide ThresholdsHold;
    forall q: Quantity ensures Tally(q, [s]) == Weight(q, GOOD) {
      Counting.SumOne(WeightOf(q), s);
    }
    hide Tally;
  }

  const STALE := Incident(1, SEGMENT, SecurityIncident, LowSeverity, -5, Some(1))
  const GOOD_CONTENT := SampleContent(SAMPLE_SCHEMA, 1, SEGMENT, 1, 5, GOOD)

  function GoodSample(r: Rules): Sample {
    Sample(GOOD_CONTENT, r.sampleDigest(GOOD_CONTENT))
  }

  lemma StaleInputIsValid(c: Context)
    requires c == Context(c.rules, SEGMENT, Window(0, 10 * NANOS), 20 * NANOS)
    requires SegmentIsValid(c.rules, SEGMENT) && c.rules.isSha256(c.rules.sampleDigest(GOOD_CONTENT))
    ensures InputIsValid(c, Policy(POLICY_SCHEMA, LENIENT), [GoodSample(c.rules)], [STALE])
    ensures SafetyInputIsValid(c.rules, SEGMENT, c.at, [GoodSample(c.rules)], [STALE])
    ensures IncidentIsStale(c, STALE)
    ensures !InDanger(c, SupervisedPullRequest, [GoodSample(c.rules)], [STALE])
  {
    SampleDangersMean(c.rules, GoodSample(c.rules));
  }

  /** A request from the second rung that an owner who can sign has approved. */
  lemma SoundApproval(n: Notary, report: Report, at: int, owner: Owner, sign: Binding -> Name) returns (q: Request)
    requires ReportVerifies(n.rules, report) && report.content.generatedAt == at && report.content.segment == SEGMENT
    requires report.content.policyDigest == n.rules.policyDigest(Policy(POLICY_SCHEMA, LENIENT))
    requires forall b :: n.signatureIsValid(owner.key, b, sign(b))
    ensures q.report == report && q.policy == Policy(POLICY_SCHEMA, LENIENT) && q.current == SupervisedPullRequest
    ensures q.owner == owner
    ensures RequestIsSound(n, q) && ApprovalIsSound(n, q)
  {
    var bare := Request(report, Policy(POLICY_SCHEMA, LENIENT), SupervisedPullRequest, AutomaticVerifiedPullRequest, at,
                        at + 50 * NANOS, at, None, owner);
    var binding := ExpectedBinding(n, bare);
    q := bare.(approval := Some(Approval(binding, sign(binding))));
    assert ExpectedBinding(n, q) == binding;
  }

  /**
   The one gap is real, whatever the digests and whoever signs: a resolved security incident from before the
   window demotes the very rung whose promotion is granted on the same input at the same instant.
   */
  lemma StaleIncidentDemotesAndPromotes(n: Notary, owner: Owner, sign: Binding -> Name)
    returns (q: Request, c: Context, samples: seq<Sample>, incidents: seq<Incident>)
    requires n.DigestsAreWellFormed() && SegmentIsValid(n.rules, SEGMENT)
    requires n.rules.isSha256(n.rules.sampleDigest(GOOD_CONTENT))
    requires forall b :: n.signatureIsValid(owner.key, b, sign(b))
    ensures c.rules == n.rules && q.owner == owner && ReportFor(c, q.policy, samples, incidents) == Ok(q.report)
    ensures DecisionFor(n, q).Ok? && DecisionFor(n, q).value.Granted?
    ensures var safety := SafetyFor(c.rules, c.segment, q.current, c.at, samples, incidents);
            safety.Ok? && safety.value.Demote? && safety.value.decision.from == q.current
  {
    hide ReportFor, ThresholdsHold, SafetyFor, InputIsValid, DecisionFor, SafetyInputIsValid, RequestIsSound,
         ApprovalIsSound, InDanger, IncidentIsStale, SegmentIsValid;
    c := Context(n.rules, SEGMENT, Window(0, 10 * NANOS), 20 * NANOS);
    samples, incidents := [GoodSample(n.rules)], [STALE];
    var policy := Policy(POLICY_SCHEMA, LENIENT);
    StaleInputIsValid(c);
    GoodMeetsLenient(GoodSample(n.rules));
    CleanMeans(c, policy, samples, incidents);
    ReportCarriesItsContext(c, policy, samples, incidents);
    q := SoundApproval(n, ReportFor(c, policy, samples, incidents).value, c.at, owner, sign);
    assert IncidentIsStale(c, incidents[0]);
    StaleIncidentDemotes(n, q, c, samples, incidents);
  }

  lemma ReportCarriesItsContext(c: Context, policy: Policy, samples: seq<Sample>, incidents: seq<Incident>)
    requires ReportFor(c, policy, samples, incidents).Ok?
    ensures var report := ReportFor(c, policy, samples, incidents).value;
            && report.content.generatedAt == c.at && report.content.schema == REPORT_SCHEMA
            && report.content.segment == c.segment && report.content.policyDigest == c.rules.policyDigest(policy)
            && report.digest == c.rules.reportDigest(report.content)
  {
    hide InputIsValid, AggregateOf, Counted, AllSampleReasons, AllIncidentReasons, ThresholdReasons;
  }

  // --------------------------------------------------------------- the ladder

  function Height(r: Rung): nat {
    match r
    case Observe => 0
    case SupervisedPullRequest => 1
    case AutomaticVerifiedPullRequest => 2
    case GuardedMergeCandidate => 3
    case GuardedMergeEnabled => 4
  }

  datatype Move =
    | Promote(request: Request)
    | Expire(grant: Grant, at: int)
    | Withdraw(rollback: Rollback)
    | CheckSafety(observedAt: int, samples: seq<Sample>, incidents: seq<Incident>)

  /** The rung a move leads to, if its decision applies to this segment at this rung. */
  function Destination(n: Notary, segment: Segment, rung: Rung, move: Move): Option<Rung> {
    match move
    case Promote(q) =>
      var d := DecisionFor(n, q);
      if d.Ok? && d.value.Granted? && d.value.grant.segment == segment && d.value.grant.previous == rung
      then Some(d.value.grant.promoted) else None
    case Expire(g, at) =>
      var d := ExpirationRollback(n, g, at);
      if d.Ok? && d.value.Some? && d.value.value.segment == segment && d.value.value.from == rung
      then Some(d.value.value.to) else None
    case Withdraw(q) =>
      var d := RollBack(n.rules, q);
      if d.Ok? && d.value.segment == segment && d.value.from == rung then Some(d.value.to) else None
    case CheckSafety(at, samples, incidents) =>
      var d := SafetyFor(n.rules, segment, rung, at, samples, incidents);
      if d.Ok? && d.value.Demote? then Some(d.value.decision.to) else None
  }

  function After(n: Notary, segment: Segment, rung: Rung, move: Move): Rung {
    match Destination(n, segment, rung, move)
    case Some(next) => next
    case None => rung
  }

  function Climb(n: Notary, segment: Segment, rung: Rung, moves: seq<Move>): Rung {
    if moves == [] then rung
    else After(n, segment, Climb(n, segment, rung, moves[..|moves| - 1]), moves[|moves| - 1])
  }

  /** How many decisions took effect in a run, upwards or downwards. */
  function Taken(n: Notary, segment: Segment, rung: Rung, moves: seq<Move>, up: bool): nat {
    if moves == [] then 0
    else
      var front, last := moves[..|moves| - 1], moves[|moves| - 1];
      Taken(n, segment, rung, front, up)
      + if last.Promote? == up && Destination(n, segment, Climb(n, segment, rung, front), last).Some? then 1 else 0
  }

  /** A decision that applies moves exactly one rung: up for a grant, down for everything else. */
  lemma MovesOneRung(n: Notary, segment: Segment, rung: Rung, move: Move)
    requires Destination(n, segment, rung, move).Some?
    ensures Height(After(n, segment, rung, move)) == Height(rung) + if move.Promote? then 1 else -1
    ensures segment.risk in {HighRisk, CriticalRisk} && move.Promote? ==>
              After(n, segment, rung, move) != GuardedMergeEnabled
  {
    if move.Promote? {
      GrantedMeans(n, move.request);
    }
    hide RequestReasons, ApprovalReasons, PolicyIsValid, SafetyInputIsValid, AllSampleDangers, AllIncidentDangers,
         RungDangers, ReportVerifies;
  }

  /** The height reached is the start, plus the grants, minus the demotions. */
  lemma {:induction false} HeightIsAccounted(n: Notary, segment: Segment, rung: Rung, moves: seq<Move>)
    ensures Height(Climb(n, segment, rung, moves))
            == Height(rung) + Taken(n, segment, rung, moves, true) - Taken(n, segment, rung, moves, false)
  {
    if moves != [] {
      var front, last := moves[..|moves| - 1], moves[|moves| - 1];
      HeightIsAccounted(n, segment, rung, front);
      var here := Climb(n, segment, rung, front);
      if Destination(n, segment, here, last).Some? {
        MovesOneRung(n, segment, here, last);
      }
      hide Destination;
    }
  }

  /** A high- or critical-risk segment that starts below guarded merge never reaches it. */
  lemma {:induction false} HighRiskNeverMerges(n: Notary, segment: Segment, rung: Rung, moves: seq<Move>)
    requires segment.risk in {HighRisk, CriticalRisk} && rung != GuardedMergeEnabled
    ensures Climb(n, segment, rung, moves) != GuardedMergeEnabled
  {
    if moves != [] {
      var front, last := moves[..|moves| - 1], moves[|moves| - 1];
      HighRiskNeverMerges(n, segment, rung, front);
      var here := Climb(n, segment, rung, front);
      if Destination(n, segment, here, last).Some? {
        MovesOneRung(n, segment, here, last);
      }
      hide Destination;
    }
  }

  /** Expiry and the effective rung tell the same story at every instant. */
  lemma ExpiryEndsGrant(n: Notary, g: Grant, at: int)
    requires GrantIsValid(n, g) && g.effectiveFrom <= at
    ensures After(n, g.segment, g.promoted, Expire(g, at)) == (if at < g.expiresAt then g.promoted else g.previous)
    ensures EffectiveRungAt(n, g, at) == Ok(After(n, g.segment, g.promoted, Expire(g, at)))
  {
    assert g.previous == g.rollback;
    hide GrantIsValid;
  }

  /** A grant lasts until it expires, and expiry returns to the rung it started from. */
  lemma ExpiryUndoesGrant(n: Notary, q: Request, c: Context, policy: Policy, samples: seq<Sample>, incidents: seq<Incident>,
                          at: int)
    requires c.rules == n.rules && n.DigestsAreWellFormed() && OwnerIsTrusted(q.owner)
    requires ReportFor(c, policy, samples, incidents) == Ok(q.report)
    requires DecisionFor(n, q).Ok? && DecisionFor(n, q).value.Granted? && q.effectiveFrom <= at
    ensures var g := DecisionFor(n, q).value.grant;
            && After(n, c.segment, q.current, Promote(q)) == q.requested
            && After(n, c.segment, q.requested, Expire(g, at)) == (if at < q.expiresAt then q.requested else q.current)
            && EffectiveRungAt(n, g, at) == Ok(After(n, c.segment, q.requested, Expire(g, at)))
  {
    hide ReportFor, PolicyIsValid, RequestReasons, ApprovalReasons, GrantIsValid, InputIsValid, EffectiveRungAt,
         ExpirationRollback, RollBack, SafetyFor;
    GrantPassesValidation(n, q, c, policy, samples, incidents);
    ReportNeedsValidInput(c, policy, samples, incidents);
    ExpiryEndsGrant(n, DecisionFor(n, q).value.grant, at);
  }
}
