/**
 The quality evaluation behind an autonomy promotion: samples and incidents in, a canonical
 report with its hold reasons out.

 Instants are nanoseconds. Digests are opaque names, ordered by their numbers; the ordering of
 reports rests only on that order being total. Sets of reasons stand for the source's sorted,
 deduplicated lists.
 */
module Evaluation {
  import opened Counting
  import opened Prelude
  import opened Sorting

  const U16_MAX: nat := 0xFFFF
  const U32_MAX: nat := 0xFFFF_FFFF
  const U64_MAX: nat := 0xFFFF_FFFF_FFFF_FFFF
  const U128_MAX: nat := 0xFFFF_FFFF_FFFF_FFFF_FFFF_FFFF_FFFF_FFFF
  const NANOS: int := 1_000_000_000
  const MAX_EVALUATION_SAMPLES: nat := 10_000
  const MAX_INCIDENT_SNAPSHOTS: nat := 10_000
  const MAX_WINDOW_SECONDS: int := 366 * 24 * 60 * 60
  const MAX_PROMOTION_SECONDS: int := 366 * 24 * 60 * 60
  const MAX_CYCLE_TIME_SECONDS: nat := 10 * 366 * 24 * 60 * 60
  const MAX_COST_MICROUNITS: nat := 1_000_000_000_000_000
  const BASIS_POINTS: nat := 10_000
  const SAMPLE_SCHEMA: Name := 1
  const POLICY_SCHEMA: Name := 2
  const REPORT_SCHEMA: Name := 3

  datatype Risk = LowRisk | MediumRisk | HighRisk | CriticalRisk | UnknownRisk

  datatype Segment = Segment(repository: Name, workClass: Name, risk: Risk, target: Name)

  datatype Window = Window(start: int, end: int)
  {
    predicate Contains(t: int) {
      start <= t < end
    }
  }

  datatype Applicability = NotApplicable | Pass | Fail

  datatype Security = CleanSecurity | LowViolation | HighViolation | CriticalViolation

  datatype Measurements = Measurements(
    correct: bool, acceptance: bool, scope: bool, verification: bool, falseGreen: bool, independent: bool,
    rework: bool, refusal: Applicability, recovery: Applicability, security: Security, severe: Option<Name>,
    cycle: nat, cost: nat)

  datatype SampleContent = SampleContent(schema: Name, id: Name, segment: Segment, subject: Name, evaluatedAt: int,
                                         m: Measurements)

  datatype Sample = Sample(content: SampleContent, digest: Name)

  datatype IncidentKind = QualityIncident | FalseGreenIncident | SecurityIncident | SeverePolicyViolation

  datatype Severity = LowSeverity | MediumSeverity | HighSeverity | CriticalSeverity

  datatype Incident = Incident(id: Name, segment: Segment, kind: IncidentKind, severity: Severity, openedAt: int,
                               resolvedAt: Option<int>)

  datatype Thresholds = Thresholds(
    minSamples: nat, maxSamples: nat, minCorrectness: nat, minAcceptance: nat, minScope: nat, minVerification: nat,
    minIndependence: nat, maxRework: nat, minRefusalObservations: nat, minRefusal: nat,
    minRecoveryObservations: nat, minRecovery: nat, minSecurity: nat, maxMeanCycle: nat, maxMeanCost: nat,
    maxAge: nat, maxPromotion: nat)

  datatype Policy = Policy(schema: Name, thresholds: Thresholds)

  datatype Metric =
    | Correctness | AcceptanceCriteria | Scope | Verification | ReviewerIndependence | HumanRework
    | RefusalOrEscalation | Recovery | SecurityMetric | CycleTime | Cost

  datatype Rate = Rate(passed: nat, observed: nat, bps: nat)

  datatype Aggregate = Aggregate(sampleCount: nat, rates: map<Metric, Option<Rate>>, falseGreens: nat,
                                 securityViolations: nat, severeViolations: nat, means: map<Metric, Option<nat>>)

  datatype HoldReason =
    | DuplicateSample(sample: Name) | InvalidSample(sample: Name) | SampleSegmentMismatch(sample: Name)
    | SampleOutsideWindow(sample: Name)
    | SampleCountBelowMinimum(required: nat, observed: nat) | SampleCountAboveMaximum(maximum: nat, observed: nat)
    | MetricBelowMinimum(metric: Metric, required: nat, observed: nat)
    | MetricAboveMaximum(metric: Metric, maximum: nat, observed: nat)
    | ApplicableObservationsBelowMinimum(metric: Metric, required: nat, observed: nat)
    | MeanAboveMaximum(metric: Metric, maximum: nat, observed: nat)
    | FalseGreenObserved(sample: Name) | SecurityViolationObserved(sample: Name) | SevereViolationObserved(sample: Name)
    | DuplicateIncident(incident: Name) | InvalidIncident(incident: Name) | IncidentSegmentMismatch(incident: Name)
    | SafetyIncidentObserved(incident: Name) | UnresolvedHighSeverityIncident(incident: Name)
    | ReportIntegrityMismatch | PolicyDigestMismatch | EvaluationExpired | NonAdjacentPromotion
    | HighRiskGuardedMergeForbidden | InvalidPromotionWindow | MissingOwnerApproval | OwnerApprovalIdentityMismatch
    | OwnerApprovalBindingMismatch | OwnerApprovalSignatureInvalid

  datatype Reference = Reference(id: Name, digest: Name)

  datatype ReportContent = ReportContent(
    schema: Name, segment: Segment, window: Window, generatedAt: int, policyDigest: Name,
    samples: seq<Reference>, incidents: seq<Incident>, aggregate: Aggregate, reasons: set<HoldReason>)

  datatype Report = Report(content: ReportContent, digest: Name)

  datatype Error = Validation

  /** Canonical digests, the form of a digest text, and the form of a work class. */
  datatype Rules = Rules(
    sampleDigest: SampleContent -> Name,
    incidentDigest: Incident -> Name,
    policyDigest: Policy -> Name,
    reportDigest: ReportContent -> Name,
    isSha256: Name -> bool,
    workClassIsValid: Name -> bool)
  {
    /** No two incidents share a digest. */
    ghost predicate InjectiveIncidents() {
      forall a: Incident, b: Incident :: incidentDigest(a) == incidentDigest(b) ==> a == b
    }

    /** No two policies share a digest. */
    ghost predicate InjectivePolicies() {
      forall a: Policy, b: Policy :: policyDigest(a) == policyDigest(b) ==> a == b
    }

    /** Computed digests have the form of one. */
    ghost predicate DigestsAreWellFormed() {
      && (forall p: Policy :: isSha256(policyDigest(p)))
      && (forall c: ReportContent :: isSha256(reportDigest(c)))
    }
  }

  // ------------------------------------------------------------- validation

  /** Whole seconds, truncated towards zero. */
  function Seconds(duration: int): int {
    if duration >= 0 then duration / NANOS else -((-duration) / NANOS)
  }

  predicate SegmentIsValid(r: Rules, s: Segment) {
    r.workClassIsValid(s.workClass)
  }

  predicate WindowIsValid(w: Window) {
    0 < Seconds(w.end - w.start) <= MAX_WINDOW_SECONDS
  }

  predicate PolicyIsValid(p: Policy) {
    var t := p.thresholds;
    && p.schema == POLICY_SCHEMA && 0 < t.minSamples <= t.maxSamples <= MAX_EVALUATION_SAMPLES
    && t.minRefusalObservations <= t.maxSamples && t.minRecoveryObservations <= t.maxSamples
    && t.minCorrectness <= BASIS_POINTS && t.minAcceptance <= BASIS_POINTS && t.minScope <= BASIS_POINTS
    && t.minVerification <= BASIS_POINTS && t.minIndependence <= BASIS_POINTS && t.maxRework <= BASIS_POINTS
    && t.minRefusal <= BASIS_POINTS && t.minRecovery <= BASIS_POINTS && t.minSecurity <= BASIS_POINTS
    && 0 < t.maxMeanCycle <= MAX_CYCLE_TIME_SECONDS && 0 < t.maxMeanCost <= MAX_COST_MICROUNITS
    && 0 < t.maxAge <= MAX_WINDOW_SECONDS && 0 < t.maxPromotion <= MAX_PROMOTION_SECONDS
  }

  predicate MeasurementsAreValid(m: Measurements) {
    !(m.falseGreen && m.verification) && m.cycle <= MAX_CYCLE_TIME_SECONDS && m.cost <= MAX_COST_MICROUNITS
  }

  predicate SampleIsSound(r: Rules, s: Sample) {
    && s.content.schema == SAMPLE_SCHEMA && s.content.id != BLANK
    && SegmentIsValid(r, s.content.segment) && MeasurementsAreValid(s.content.m)
    && r.isSha256(s.digest) && r.sampleDigest(s.content) == s.digest
  }

  predicate IncidentIsValid(r: Rules, i: Incident, at: int) {
    && i.id != BLANK && SegmentIsValid(r, i.segment) && i.openedAt <= at
    && (i.resolvedAt.Some? ==> i.openedAt <= i.resolvedAt.value <= at)
  }

  predicate IsHighSeverity(s: Severity) {
    s == HighSeverity || s == CriticalSeverity
  }

  predicate IsUnresolvedAt(i: Incident, at: int) {
    i.resolvedAt.None? || i.resolvedAt.value > at
  }

  predicate IsSafety(i: Incident) {
    i.kind != QualityIncident
  }

  // ------------------------------------------------------------- aggregation

  /** The quantities an aggregate sums over its samples. */
  datatype Quantity = Passed(metric: Metric) | Observed(metric: Metric) | Amount(metric: Metric)
                    | FalseGreens | SecurityViolations | SevereViolations

  function One(b: bool): nat {
    if b then 1 else 0
  }

  function Weight(q: Quantity, m: Measurements): nat {
    match q
    case Passed(metric) =>
      (match metric
       case Correctness => One(m.correct)
       case AcceptanceCriteria => One(m.acceptance)
       case Scope => One(m.scope)
       case Verification => One(m.verification)
       case ReviewerIndependence => One(m.independent)
       case HumanRework => One(m.rework)
       case RefusalOrEscalation => One(m.refusal == Pass)
       case Recovery => One(m.recovery == Pass)
       case SecurityMetric => One(m.security == CleanSecurity)
       case _ => 0)
    case Observed(metric) =>
      if metric == RefusalOrEscalation then One(m.refusal != NotApplicable)
      else if metric == Recovery then One(m.recovery != NotApplicable)
      else 1
    case Amount(metric) => if metric == CycleTime then m.cycle else if metric == Cost then m.cost else 0
    case FalseGreens => One(m.falseGreen)
    case SecurityViolations => One(m.security != CleanSecurity)
    case SevereViolations => One(m.severe.Some?)
  }

  function WeightOf(q: Quantity): Sample -> nat {
    (s: Sample) => Weight(q, s.content.m)
  }

  function Tally(q: Quantity, v: seq<Sample>): nat {
    Sum(WeightOf(q), v)
  }

  /** The running total of a mean, in a saturating u128. */
  function SaturatingTally(q: Quantity, v: seq<Sample>): nat {
    if v == [] then 0
    else
      var sum := SaturatingTally(q, v[..|v| - 1]) + Weight(q, v[|v| - 1].content.m);
      if sum > U128_MAX then U128_MAX else sum
  }

  const RATE_METRICS: set<Metric> := {Correctness, AcceptanceCriteria, Scope, Verification, ReviewerIndependence,
                                      HumanRework, RefusalOrEscalation, Recovery, SecurityMetric}
  const MEAN_METRICS: set<Metric> := {CycleTime, Cost}

  /** A rate in basis points, rounded down, with every conversion that could fail. */
  function FromCounts(passed: nat, observed: nat): Result<Option<Rate>, Error> {
    if observed == 0 then Ok(None)
    else if passed > U32_MAX || observed > U32_MAX then Err(Validation)
    else
      var product := if passed * BASIS_POINTS > U64_MAX then U64_MAX else passed * BASIS_POINTS;
      var points := product / observed;
      if points > U16_MAX then Err(Validation) else Ok(Some(Rate(passed, observed, points)))
  }

  function RateOf(m: Metric, v: seq<Sample>): Result<Option<Rate>, Error> {
    FromCounts(Tally(Passed(m), v), Tally(Observed(m), v))
  }

  function MeanOf(m: Metric, v: seq<Sample>): Result<Option<nat>, Error> {
    if v == [] then Ok(None)
    else
      var mean := SaturatingTally(Amount(m), v) / |v|;
      if mean > U64_MAX then Err(Validation) else Ok(Some(mean))
  }

  predicate IsComplete(a: Aggregate) {
    a.rates.Keys == RATE_METRICS && a.means.Keys == MEAN_METRICS
  }

  function AggregateOf(v: seq<Sample>): (r: Result<Aggregate, Error>)
    ensures r.Ok? ==> IsComplete(r.value)
  {
    if || |v| > U32_MAX
       || (exists m :: m in RATE_METRICS && RateOf(m, v).Err?)
       || (exists m :: m in MEAN_METRICS && MeanOf(m, v).Err?)
       || Tally(FalseGreens, v) > U32_MAX || Tally(SecurityViolations, v) > U32_MAX || Tally(SevereViolations, v) > U32_MAX
    then Err(Validation)
    else
      Ok(Aggregate(|v|, map m | m in RATE_METRICS :: RateOf(m, v).value, Tally(FalseGreens, v),
                   Tally(SecurityViolations, v), Tally(SevereViolations, v),
                   map m | m in MEAN_METRICS :: MeanOf(m, v).value))
  }

  // ------------------------------------------------------------- thresholds

  function Minimum(t: Thresholds, m: Metric): nat {
    match m
    case Correctness => t.minCorrectness
    case AcceptanceCriteria => t.minAcceptance
    case Scope => t.minScope
    case Verification => t.minVerification
    case ReviewerIndependence => t.minIndependence
    case SecurityMetric => t.minSecurity
    case RefusalOrEscalation => t.minRefusal
    case Recovery => t.minRecovery
    case _ => 0
  }

  function MinimumObservations(t: Thresholds, m: Metric): nat {
    if m == RefusalOrEscalation then t.minRefusalObservations
    else if m == Recovery then t.minRecoveryObservations
    else 0
  }

  function MaximumMean(t: Thresholds, m: Metric): nat {
    if m == CycleTime then t.maxMeanCycle else t.maxMeanCost
  }

  const MINIMUM_METRICS: seq<Metric> := [Correctness, AcceptanceCriteria, Scope, Verification,
                                         ReviewerIndependence, SecurityMetric]
  const APPLICABLE_METRICS: seq<Metric> := [RefusalOrEscalation, Recovery]

  function CountReasons(a: Aggregate, t: Thresholds): set<HoldReason> {
    (if a.sampleCount < t.minSamples then {SampleCountBelowMinimum(t.minSamples, a.sampleCount)} else {})
    + (if a.sampleCount > t.maxSamples then {SampleCountAboveMaximum(t.maxSamples, a.sampleCount)} else {})
  }

  function RateReason(t: Thresholds, m: Metric, rate: Option<Rate>): set<HoldReason> {
    if rate.Some? && rate.value.bps < Minimum(t, m) then {MetricBelowMinimum(m, Minimum(t, m), rate.value.bps)} else {}
  }

  function ReworkReason(t: Thresholds, rate: Option<Rate>): set<HoldReason> {
    if rate.Some? && rate.value.bps > t.maxRework
    then {MetricAboveMaximum(HumanRework, t.maxRework, rate.value.bps)} else {}
  }

  function ApplicableReason(t: Thresholds, m: Metric, rate: Option<Rate>): set<HoldReason> {
    var observed := if rate.Some? then rate.value.observed else 0;
    (if observed < MinimumObservations(t, m) then
       {ApplicableObservationsBelowMinimum(m, MinimumObservations(t, m), observed)} else {})
    + RateReason(t, m, rate)
  }

  function MeanReason(t: Thresholds, m: Metric, mean: Option<nat>): set<HoldReason> {
    if mean.Some? && mean.value > MaximumMean(t, m) then {MeanAboveMaximum(m, MaximumMean(t, m), mean.value)} else {}
  }

  function ThresholdReasons(a: Aggregate, t: Thresholds): set<HoldReason>
    requires IsComplete(a)
  {
    CountReasons(a, t)
    + (set m, x | m in MINIMUM_METRICS && x in RateReason(t, m, a.rates[m]) :: x)
    + ReworkReason(t, a.rates[HumanRework])
    + ApplicableReason(t, RefusalOrEscalation, a.rates[RefusalOrEscalation])
    + ApplicableReason(t, Recovery, a.rates[Recovery])
    + MeanReason(t, CycleTime, a.means[CycleTime]) + MeanReason(t, Cost, a.means[Cost])
  }

  /** The threshold checks, adding to a set of reasons in place. */
  method ApplyThresholds(a: Aggregate, t: Thresholds, reasons: set<HoldReason>) returns (all: set<HoldReason>)
    requires IsComplete(a)
    ensures all == reasons + ThresholdReasons(a, t)
  {
    hide RateReason, ApplicableReason, MeanReason;
    all := reasons;
    if a.sampleCount < t.minSamples { all := all + {SampleCountBelowMinimum(t.minSamples, a.sampleCount)}; }
    if a.sampleCount > t.maxSamples { all := all + {SampleCountAboveMaximum(t.maxSamples, a.sampleCount)}; }
    ghost var before := all;
    for k := 0 to |MINIMUM_METRICS|
      invariant all == before + set m, x | m in MINIMUM_METRICS[..k] && x in RateReason(t, m, a.rates[m]) :: x
    {
      var m := MINIMUM_METRICS[k];
      assert MINIMUM_METRICS[..k + 1] == MINIMUM_METRICS[..k] + [m];
      all := all + RateReason(t, m, a.rates[m]);
    }
    assert MINIMUM_METRICS[..|MINIMUM_METRICS|] == MINIMUM_METRICS;
    var rework := a.rates[HumanRework];
    if rework.Some? && rework.value.bps > t.maxRework {
      all := all + {MetricAboveMaximum(HumanRework, t.maxRework, rework.value.bps)};
    }
    all := all + ApplicableReason(t, RefusalOrEscalation, a.rates[RefusalOrEscalation]);
    all := all + ApplicableReason(t, Recovery, a.rates[Recovery]);
    all := all + MeanReason(t, CycleTime, a.means[CycleTime]);
    all := all + MeanReason(t, Cost, a.means[Cost]);
  }

  // ------------------------------------------------------ judging the inputs

  /** What a sample or an incident is judged against. */
  datatype Context = Context(rules: Rules, segment: Segment, window: Window, at: int)

  function HasId(id: Name): Sample -> nat {
    (s: Sample) => One(s.content.id == id)
  }

  function IncidentHasId(id: Name): Incident -> nat {
    (i: Incident) => One(i.id == id)
  }

  function IdCount(samples: seq<Sample>, id: Name): nat {
    Sum(HasId(id), samples)
  }

  function IncidentCount(incidents: seq<Incident>, id: Name): nat {
    Sum(IncidentHasId(id), incidents)
  }

  /** Why a sample is set aside, if it is; `copies` is how many samples share its identifier. */
  function Fault(c: Context, s: Sample, copies: nat): Option<HoldReason> {
    var id := s.content.id;
    if copies > 1 then Some(DuplicateSample(id))
    else if !SampleIsSound(c.rules, s) then Some(InvalidSample(id))
    else if s.content.segment != c.segment then Some(SampleSegmentMismatch(id))
    else if !c.window.Contains(s.content.evaluatedAt) then Some(SampleOutsideWindow(id))
    else None
  }

  /** What a sample that counts has to answer for. */
  function Alarms(s: Sample): set<HoldReason> {
    var id, m := s.content.id, s.content.m;
    (if m.falseGreen then {FalseGreenObserved(id)} else {})
    + (if m.security != CleanSecurity then {SecurityViolationObserved(id)} else {})
    + (if m.severe.Some? then {SevereViolationObserved(id)} else {})
  }

  function SampleReasons(c: Context, s: Sample, copies: nat): set<HoldReason> {
    match Fault(c, s, copies)
    case Some(reason) => {reason}
    case None => Alarms(s)
  }

  function IncidentReasons(c: Context, i: Incident, copies: nat): set<HoldReason> {
    if copies > 1 then {DuplicateIncident(i.id)}
    else if !IncidentIsValid(c.rules, i, c.at) then {InvalidIncident(i.id)}
    else if i.segment != c.segment then {IncidentSegmentMismatch(i.id)}
    else
      (if IsHighSeverity(i.severity) && IsUnresolvedAt(i, c.at) then {UnresolvedHighSeverityIncident(i.id)} else {})
      + (if IsSafety(i) && c.window.Contains(i.openedAt) then {SafetyIncidentObserved(i.id)} else {})
  }

  function Counts(c: Context, all: seq<Sample>): Sample -> bool {
    (s: Sample) => Fault(c, s, IdCount(all, s.content.id)).None?
  }

  /** The samples that count, in the order given. */
  function Counted(c: Context, all: seq<Sample>): seq<Sample> {
    Filter(Counts(c, all), all)
  }

  function AllSampleReasons(c: Context, all: seq<Sample>, some: seq<Sample>): set<HoldReason> {
    set s, x | s in some && x in SampleReasons(c, s, IdCount(all, s.content.id)) :: x
  }

  function AllIncidentReasons(c: Context, all: seq<Incident>, some: seq<Incident>): set<HoldReason> {
    set i, x | i in some && x in IncidentReasons(c, i, IncidentCount(all, i.id)) :: x
  }

  function RefOf(s: Sample): Reference {
    Reference(s.content.id, s.digest)
  }

  function RefsOf(samples: seq<Sample>): (r: seq<Reference>)
    ensures |r| == |samples| && forall i :: 0 <= i < |r| ==> r[i] == RefOf(samples[i])
  {
    seq(|samples|, i requires 0 <= i < |samples| => RefOf(samples[i]))
  }

  predicate NotAfter(a: Reference, b: Reference) {
    a.id < b.id || (a.id == b.id && a.digest <= b.digest)
  }

  function RefLe(): (Reference, Reference) -> bool {
    (a: Reference, b: Reference) => NotAfter(a, b)
  }

  function SampleLe(): (Sample, Sample) -> bool {
    (a: Sample, b: Sample) => NotAfter(RefOf(a), RefOf(b))
  }

  function IncidentLe(r: Rules): (Incident, Incident) -> bool {
    (a: Incident, b: Incident) => NotAfter(Reference(a.id, r.incidentDigest(a)), Reference(b.id, r.incidentDigest(b)))
  }

  predicate InputIsValid(c: Context, policy: Policy, samples: seq<Sample>, incidents: seq<Incident>) {
    && SegmentIsValid(c.rules, c.segment) && WindowIsValid(c.window) && PolicyIsValid(policy)
    && c.window.end <= c.at
    && |samples| <= MAX_EVALUATION_SAMPLES && |incidents| <= MAX_INCIDENT_SNAPSHOTS
  }

  /** The report, stated without the engine's loops and without its order of work. */
  function ReportFor(c: Context, policy: Policy, samples: seq<Sample>, incidents: seq<Incident>): Result<Report, Error> {
    if !InputIsValid(c, policy, samples, incidents) then Err(Validation)
    else
      match AggregateOf(Counted(c, samples))
      case Err(error) => Err(error)
      case Ok(aggregate) =>
        var content := ReportContent(
          REPORT_SCHEMA, c.segment, c.window, c.at, c.rules.policyDigest(policy),
          Sort(RefLe(), RefsOf(samples)), Sort(IncidentLe(c.rules), incidents), aggregate,
          AllSampleReasons(c, samples, samples) + ThresholdReasons(aggregate, policy.thresholds)
          + AllIncidentReasons(c, incidents, incidents));
        Ok(Report(content, c.rules.reportDigest(content)))
  }
}
