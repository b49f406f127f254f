/**
 What a clean report certifies, in the fields of the samples, the incidents and the thresholds: counts of
 samples whose own measurement holds, sums of measured amounts, and thresholds by name.
 */
module Certificate {
  import opened CleanReport
  import opened Counting
  import opened Evaluation
  import opened Prelude
  import EvaluationEngine
  import Sorting

  // ------------------------------------------- the samples with a property

  function Correct(v: seq<Sample>): set<nat> {
    set i | 0 <= i < |v| && v[i].content.m.correct
  }

  function Accepted(v: seq<Sample>): set<nat> {
    set i | 0 <= i < |v| && v[i].content.m.acceptance
  }

  function InScope(v: seq<Sample>): set<nat> {
    set i | 0 <= i < |v| && v[i].content.m.scope
  }

  function Verified(v: seq<Sample>): set<nat> {
    set i | 0 <= i < |v| && v[i].content.m.verification
  }

  function Independent(v: seq<Sample>): set<nat> {
    set i | 0 <= i < |v| && v[i].content.m.independent
  }

  function Reworked(v: seq<Sample>): set<nat> {
    set i | 0 <= i < |v| && v[i].content.m.rework
  }

  function Secure(v: seq<Sample>): set<nat> {
    set i | 0 <= i < |v| && v[i].content.m.security == CleanSecurity
  }

  function Insecure(v: seq<Sample>): set<nat> {
    set i | 0 <= i < |v| && v[i].content.m.security != CleanSecurity
  }

  function FalselyGreen(v: seq<Sample>): set<nat> {
    set i | 0 <= i < |v| && v[i].content.m.falseGreen
  }

  function Severe(v: seq<Sample>): set<nat> {
    set i | 0 <= i < |v| && v[i].content.m.severe.Some?
  }

  function RefusalsSeen(v: seq<Sample>): set<nat> {
    set i | 0 <= i < |v| && v[i].content.m.refusal != NotApplicable
  }

  function RefusalsPassed(v: seq<Sample>): set<nat> {
    set i | 0 <= i < |v| && v[i].content.m.refusal == Pass
  }

  function RecoveriesSeen(v: seq<Sample>): set<nat> {
    set i | 0 <= i < |v| && v[i].content.m.recovery != NotApplicable
  }

  function RecoveriesPassed(v: seq<Sample>): set<nat> {
    set i | 0 <= i < |v| && v[i].content.m.recovery == Pass
  }

  function CycleTotal(v: seq<Sample>): nat {
    if v == [] then 0 else CycleTotal(v[..|v| - 1]) + v[|v| - 1].content.m.cycle
  }

  function CostTotal(v: seq<Sample>): nat {
    if v == [] then 0 else CostTotal(v[..|v| - 1]) + v[|v| - 1].content.m.cost
  }

  lemma TallyIsSize(q: Quantity, v: seq<Sample>, places: set<nat>)
    requires forall i :: i in places ==> i < |v|
    requires forall i :: 0 <= i < |v| ==> Weight(q, v[i].content.m) == if i in places then 1 else 0
    ensures Tally(q, v) == |places|
  {
    SumIsSize(WeightOf(q), v, places);
  }

  lemma PassedInFields(v: seq<Sample>)
    ensures Tally(Passed(Correctness), v) == |Correct(v)|
    ensures Tally(Passed(AcceptanceCriteria), v) == |Accepted(v)|
    ensures Tally(Passed(Scope), v) == |InScope(v)|
    ensures Tally(Passed(Verification), v) == |Verified(v)|
    ensures Tally(Passed(ReviewerIndependence), v) == |Independent(v)|
    ensures Tally(Passed(HumanRework), v) == |Reworked(v)|
    ensures Tally(Passed(SecurityMetric), v) == |Secure(v)|
  {
    hide Tally;
    TallyIsSize(Passed(Correctness), v, Correct(v));
    TallyIsSize(Passed(AcceptanceCriteria), v, Accepted(v));
    TallyIsSize(Passed(Scope), v, InScope(v));
    TallyIsSize(Passed(Verification), v, Verified(v));
    TallyIsSize(Passed(ReviewerIndependence), v, Independent(v));
    TallyIsSize(Passed(HumanRework), v, Reworked(v));
    TallyIsSize(Passed(SecurityMetric), v, Secure(v));
  }

  lemma OthersInFields(v: seq<Sample>)
    ensures Tally(Passed(RefusalOrEscalation), v) == |RefusalsPassed(v)|
    ensures Tally(Observed(RefusalOrEscalation), v) == |RefusalsSeen(v)|
    ensures Tally(Passed(Recovery), v) == |RecoveriesPassed(v)|
    ensures Tally(Observed(Recovery), v) == |RecoveriesSeen(v)|
    ensures Tally(FalseGreens, v) == |FalselyGreen(v)|
    ensures Tally(SecurityViolations, v) == |Insecure(v)|
    ensures Tally(SevereViolations, v) == |Severe(v)|
  {
    hide Tally;
    TallyIsSize(Passed(RefusalOrEscalation), v, RefusalsPassed(v));
    TallyIsSize(Observed(RefusalOrEscalation), v, RefusalsSeen(v));
    TallyIsSize(Passed(Recovery), v, RecoveriesPassed(v));
    TallyIsSize(Observed(Recovery), v, RecoveriesSeen(v));
    TallyIsSize(FalseGreens, v, FalselyGreen(v));
    TallyIsSize(SecurityViolations, v, Insecure(v));
    TallyIsSize(SevereViolations, v, Severe(v));
  }

  lemma {:induction false} AmountsInFields(v: seq<Sample>)
    ensures Tally(Amount(CycleTime), v) == CycleTotal(v) && Tally(Amount(Cost), v) == CostTotal(v)
  {
    if v != [] {
      AmountsInFields(v[..|v| - 1]);
    }
  }

  lemma AllAreObserved(v: seq<Sample>)
    ensures forall m :: m in MINIMUM_METRICS ==> Tally(Observed(m), v) == |v|
    ensures Tally(Observed(HumanRework), v) == |v|
  {
    hide Tally;
    forall m | m in MINIMUM_METRICS ensures Tally(Observed(m), v) == |v| {
      AllObserve(m, v);
    }
    AllObserve(HumanRework, v);
  }

  // ------------------------------------------------------------- thresholds

  /** The thresholds, as inequalities between whole numbers. */
  predicate ThresholdsHold(t: Thresholds, v: seq<Sample>) {
    && t.minSamples <= |v| <= t.maxSamples
    && 10_000 * |Correct(v)| >= t.minCorrectness * |v|
    && 10_000 * |Accepted(v)| >= t.minAcceptance * |v|
    && 10_000 * |InScope(v)| >= t.minScope * |v|
    && 10_000 * |Verified(v)| >= t.minVerification * |v|
    && 10_000 * |Independent(v)| >= t.minIndependence * |v|
    && 10_000 * |Secure(v)| >= t.minSecurity * |v|
    && 10_000 * |Reworked(v)| < (t.maxRework + 1) * |v|
    && |RefusalsSeen(v)| >= t.minRefusalObservations
    && 10_000 * |RefusalsPassed(v)| >= t.minRefusal * |RefusalsSeen(v)|
    && |RecoveriesSeen(v)| >= t.minRecoveryObservations
    && 10_000 * |RecoveriesPassed(v)| >= t.minRecovery * |RecoveriesSeen(v)|
    && CycleTotal(v) < (t.maxMeanCycle + 1) * |v|
    && CostTotal(v) < (t.maxMeanCost + 1) * |v|
  }

  lemma MinimumRatesInFields(t: Thresholds, v: seq<Sample>)
    ensures (forall m :: m in MINIMUM_METRICS ==> RateIsMet(t, m, v)) <==>
            && 10_000 * |Correct(v)| >= t.minCorrectness * |v| && 10_000 * |Accepted(v)| >= t.minAcceptance * |v|
            && 10_000 * |InScope(v)| >= t.minScope * |v| && 10_000 * |Verified(v)| >= t.minVerification * |v|
            && 10_000 * |Independent(v)| >= t.minIndependence * |v| && 10_000 * |Secure(v)| >= t.minSecurity * |v|
  {
    PassedInFields(v);
    AllAreObserved(v);
    hide Tally, Correct, Accepted, InScope, Verified, Independent, Secure;
    assert (forall m :: m in MINIMUM_METRICS ==> RateIsMet(t, m, v)) <==>
           && RateIsMet(t, Correctness, v) && RateIsMet(t, AcceptanceCriteria, v) && RateIsMet(t, Scope, v)
           && RateIsMet(t, Verification, v) && RateIsMet(t, ReviewerIndependence, v) && RateIsMet(t, SecurityMetric, v) by {
      hide RateIsMet;
      assert Correctness in MINIMUM_METRICS && AcceptanceCriteria in MINIMUM_METRICS && Scope in MINIMUM_METRICS;
      assert Verification in MINIMUM_METRICS && ReviewerIndependence in MINIMUM_METRICS;
      assert SecurityMetric in MINIMUM_METRICS;
    }
  }

  lemma ThresholdsInFields(t: Thresholds, v: seq<Sample>)
    ensures ThresholdsAreMet(t, v) <==> ThresholdsHold(t, v)
  {
    MinimumRatesInFields(t, v);
    PassedInFields(v);
    OthersInFields(v);
    AmountsInFields(v);
    hide Tally, Correct, Accepted, InScope, Verified, Independent, Secure, Reworked, RefusalsSeen, RefusalsPassed,
         RecoveriesSeen, RecoveriesPassed, CycleTotal, CostTotal;
  }

  function Share(places: set<nat>, of: nat): Option<Rate> {
    if of == 0 then None else Some(Rate(|places|, of, |places| * 10_000 / of))
  }

  function Average(total: nat, of: nat): Option<nat> {
    if of == 0 then None else Some(total / of)
  }

  lemma {:induction false} SharesInFields(v: seq<Sample>, a: Aggregate)
    requires IsExact(a, v)
    ensures a.rates[Correctness] == Share(Correct(v), |v|)
    ensures a.rates[AcceptanceCriteria] == Share(Accepted(v), |v|)
    ensures a.rates[Scope] == Share(InScope(v), |v|)
    ensures a.rates[Verification] == Share(Verified(v), |v|)
    ensures a.rates[ReviewerIndependence] == Share(Independent(v), |v|)
    ensures a.rates[HumanRework] == Share(Reworked(v), |v|)
    ensures a.rates[SecurityMetric] == Share(Secure(v), |v|)
    ensures a.rates[RefusalOrEscalation] == Share(RefusalsPassed(v), |RefusalsSeen(v)|)
    ensures a.rates[Recovery] == Share(RecoveriesPassed(v), |RecoveriesSeen(v)|)
    ensures a.means[CycleTime] == Average(CycleTotal(v), |v|) && a.means[Cost] == Average(CostTotal(v), |v|)
  {
    hide Tally, Correct, Accepted, InScope, Verified, Independent, Secure, Reworked, RefusalsSeen, RefusalsPassed,
         RecoveriesSeen, RecoveriesPassed, CycleTotal, CostTotal;
    PassedInFields(v);
    OthersInFields(v);
    AmountsInFields(v);
    AllAreObserved(v);
  }

  /** The figures a report shows: each metric's own share, rounded down, of the samples it was seen in. */
  lemma {:induction false} FiguresInFields(v: seq<Sample>)
    requires Measured(v)
    ensures AggregateOf(v).Ok?
    ensures var a := AggregateOf(v).value;
            && a.sampleCount == |v| && IsComplete(a)
            && a.rates[Correctness] == Share(Correct(v), |v|)
            && a.rates[AcceptanceCriteria] == Share(Accepted(v), |v|)
            && a.rates[Scope] == Share(InScope(v), |v|)
            && a.rates[Verification] == Share(Verified(v), |v|)
            && a.rates[ReviewerIndependence] == Share(Independent(v), |v|)
            && a.rates[HumanRework] == Share(Reworked(v), |v|)
            && a.rates[SecurityMetric] == Share(Secure(v), |v|)
            && a.rates[RefusalOrEscalation] == Share(RefusalsPassed(v), |RefusalsSeen(v)|)
            && a.rates[Recovery] == Share(RecoveriesPassed(v), |RecoveriesSeen(v)|)
            && a.means[CycleTime] == Average(CycleTotal(v), |v|) && a.means[Cost] == Average(CostTotal(v), |v|)
            && a.falseGreens == |FalselyGreen(v)| && a.securityViolations == |Insecure(v)|
            && a.severeViolations == |Severe(v)|
  {
    hide Tally, Correct, Accepted, InScope, Verified, Independent, Secure, Reworked, RefusalsSeen, RefusalsPassed,
         RecoveriesSeen, RecoveriesPassed, CycleTotal, CostTotal, FalselyGreen, Insecure, Severe, AggregateOf, Share,
         Average;
    AggregateIsExact(v);
    SharesInFields(v, AggregateOf(v).value);
    CountsInFields(v);
    OthersInFields(v);
  }

  lemma {:induction false} CountsInFields(v: seq<Sample>)
    requires AggregateOf(v).Ok?
    ensures var a := AggregateOf(v).value;
            && a.falseGreens == Tally(FalseGreens, v) && a.securityViolations == Tally(SecurityViolations, v)
            && a.severeViolations == Tally(SevereViolations, v)
  {
    hide Tally, RateOf, MeanOf;
  }

  // ------------------------------------------------- samples and incidents

  /** A sample is sound exactly if it is consistent, within bounds and carries its own digest. */
  lemma SoundInFields(r: Rules, s: Sample)
    ensures SampleIsSound(r, s) <==>
            && s.content.schema == SAMPLE_SCHEMA && s.content.id != BLANK
            && r.workClassIsValid(s.content.segment.workClass)
            && (s.content.m.falseGreen ==> !s.content.m.verification)
            && s.content.m.cycle <= 10 * 366 * 24 * 60 * 60 && s.content.m.cost <= 1_000_000_000_000_000
            && r.isSha256(s.digest) && s.digest == r.sampleDigest(s.content)
  {
  }

  /** A sample that is what it says it is, of this segment and window, and has nothing to answer for. */
  predicate SampleInOrder(c: Context, s: Sample) {
    var x, m := s.content, s.content.m;
    && x.schema == SAMPLE_SCHEMA && x.id != BLANK && c.rules.workClassIsValid(x.segment.workClass)
    && m.cycle <= 10 * 366 * 24 * 60 * 60 && m.cost <= 1_000_000_000_000_000
    && c.rules.isSha256(s.digest) && s.digest == c.rules.sampleDigest(x)
    && x.segment == c.segment && c.window.start <= x.evaluatedAt < c.window.end
    && !m.falseGreen && m.security == CleanSecurity && m.severe.None?
  }

  /** An incident that is consistent, of this segment, and neither pending at high severity nor about safety in the window. */
  predicate IncidentInOrder(c: Context, i: Incident) {
    && i.id != BLANK && c.rules.workClassIsValid(i.segment.workClass) && i.segment == c.segment
    && i.openedAt <= c.at && (i.resolvedAt.Some? ==> i.openedAt <= i.resolvedAt.value <= c.at)
    && !(i.severity in {HighSeverity, CriticalSeverity} && i.resolvedAt.None?)
    && !(i.kind in {FalseGreenIncident, SecurityIncident, SeverePolicyViolation}
         && c.window.start <= i.openedAt < c.window.end)
  }

  /** What a clean report certifies. */
  predicate Certified(c: Context, t: Thresholds, samples: seq<Sample>, incidents: seq<Incident>) {
    && (forall i, j :: 0 <= i < j < |samples| ==> samples[i].content.id != samples[j].content.id)
    && (forall i :: 0 <= i < |samples| ==> SampleInOrder(c, samples[i]))
    && ThresholdsHold(t, samples)
    && (forall i, j :: 0 <= i < j < |incidents| ==> incidents[i].id != incidents[j].id)
    && (forall i :: 0 <= i < |incidents| ==> IncidentInOrder(c, incidents[i]))
  }

  lemma SampleOrderMeansClean(c: Context, s: Sample)
    ensures SampleIsClean(c, s) <==> SampleInOrder(c, s)
  {
  }

  lemma IncidentOrderMeansClean(c: Context, i: Incident)
    ensures IncidentIsClean(c, i) <==> IncidentInOrder(c, i)
  {
  }

  lemma CleanIsCertified(c: Context, t: Thresholds, samples: seq<Sample>, incidents: seq<Incident>)
    ensures Clean(c, t, samples, incidents) <==> Certified(c, t, samples, incidents)
  {
    ThresholdsInFields(t, samples);
    hide ThresholdsAreMet, ThresholdsHold, SampleIsClean, SampleInOrder, IncidentIsClean, IncidentInOrder;
    forall i | 0 <= i < |samples| ensures SampleIsClean(c, samples[i]) <==> SampleInOrder(c, samples[i]) {
      SampleOrderMeansClean(c, samples[i]);
    }
    forall i | 0 <= i < |incidents| ensures IncidentIsClean(c, incidents[i]) <==> IncidentInOrder(c, incidents[i]) {
      IncidentOrderMeansClean(c, incidents[i]);
    }
  }

  // -------------------------------------------------------------- the theorem

  predicate ThresholdsAreValid(t: Thresholds) {
    && 1 <= t.minSamples <= t.maxSamples <= 10_000
    && t.minRefusalObservations <= t.maxSamples && t.minRecoveryObservations <= t.maxSamples
    && t.minCorrectness <= 10_000 && t.minAcceptance <= 10_000 && t.minScope <= 10_000 && t.minVerification <= 10_000
    && t.minIndependence <= 10_000 && t.maxRework <= 10_000 && t.minRefusal <= 10_000 && t.minRecovery <= 10_000
    && t.minSecurity <= 10_000
    && 1 <= t.maxMeanCycle <= 10 * 366 * 24 * 60 * 60 && 1 <= t.maxMeanCost <= 1_000_000_000_000_000
    && 1 <= t.maxAge <= 366 * 24 * 60 * 60 && 1 <= t.maxPromotion <= 366 * 24 * 60 * 60
  }

  lemma WindowInFields(w: Window)
    ensures WindowIsValid(w) <==> NANOS <= w.end - w.start < (366 * 24 * 60 * 60 + 1) * NANOS
  {
  }

  lemma PolicyInFields(p: Policy)
    ensures PolicyIsValid(p) <==> p.schema == POLICY_SCHEMA && ThresholdsAreValid(p.thresholds)
  {
  }

  lemma ReportNeedsOnlyValidInput(c: Context, policy: Policy, samples: seq<Sample>, incidents: seq<Incident>)
    ensures ReportFor(c, policy, samples, incidents).Ok? <==> InputIsValid(c, policy, samples, incidents)
  {
    hide InputIsValid;
    if InputIsValid(c, policy, samples, incidents) {
      hide ReportFor;
      CleanMeans(c, policy, samples, incidents);
    }
  }

  /** The input gets a report at all exactly if its bounds are kept; a window is closed and lasts a second to 366 days. */
  lemma ReportExists(c: Context, policy: Policy, samples: seq<Sample>, incidents: seq<Incident>)
    ensures ReportFor(c, policy, samples, incidents).Ok? <==>
            && c.rules.workClassIsValid(c.segment.workClass)
            && NANOS <= c.window.end - c.window.start < (366 * 24 * 60 * 60 + 1) * NANOS && c.window.end <= c.at
            && policy.schema == POLICY_SCHEMA && ThresholdsAreValid(policy.thresholds)
            && |samples| <= 10_000 && |incidents| <= 10_000
  {
    hide ReportFor, WindowIsValid, PolicyIsValid, ThresholdsAreValid;
    ReportNeedsOnlyValidInput(c, policy, samples, incidents);
    WindowInFields(c.window);
    PolicyInFields(policy);
  }

  /** Its reasons are empty exactly if everything is certified. */
  lemma CleanReportCertifies(c: Context, policy: Policy, samples: seq<Sample>, incidents: seq<Incident>)
    requires ReportFor(c, policy, samples, incidents).Ok?
    ensures ReportFor(c, policy, samples, incidents).value.content.reasons == {}
            <==> Certified(c, policy.thresholds, samples, incidents)
  {
    assert InputIsValid(c, policy, samples, incidents);
    hide ReportFor, InputIsValid, Clean, Certified;
    CleanMeans(c, policy, samples, incidents);
    CleanIsCertified(c, policy.thresholds, samples, incidents);
  }

  /** What a report says of itself: its scope and time, and every sample and incident once, in order. */
  lemma ReportLists(c: Context, policy: Policy, samples: seq<Sample>, incidents: seq<Incident>)
    requires ReportFor(c, policy, samples, incidents).Ok?
    ensures var r := ReportFor(c, policy, samples, incidents).value;
            var x := r.content;
            && x.segment == c.segment && x.window == c.window && x.generatedAt == c.at && x.schema == REPORT_SCHEMA
            && x.policyDigest == c.rules.policyDigest(policy) && r.digest == c.rules.reportDigest(x)
            && multiset(x.samples) == multiset(RefsOf(samples)) && multiset(x.incidents) == multiset(incidents)
            && (forall i, j :: 0 <= i < j < |x.samples| ==>
                  || x.samples[i].id < x.samples[j].id
                  || (x.samples[i].id == x.samples[j].id && x.samples[i].digest <= x.samples[j].digest))
            && (forall i, j :: 0 <= i < j < |x.incidents| ==> x.incidents[i].id <= x.incidents[j].id)
            && x.aggregate == AggregateOf(Counted(c, samples)).value
  {
    hide AggregateOf, Counted, AllSampleReasons, AllIncidentReasons, ThresholdReasons, InputIsValid, Sorting.Sort;
    EvaluationEngine.RefOrder();
    EvaluationEngine.IncidentOrder(c.rules);
    Sorting.SortSorts(RefLe(), RefsOf(samples));
    Sorting.SortSorts(IncidentLe(c.rules), incidents);
    var x := ReportFor(c, policy, samples, incidents).value.content;
    forall i, j | 0 <= i < j < |x.samples| ensures NotAfter(x.samples[i], x.samples[j]) {
      assert RefLe()(x.samples[i], x.samples[j]);
    }
    forall i, j | 0 <= i < j < |x.incidents| ensures x.incidents[i].id <= x.incidents[j].id {
      assert IncidentLe(c.rules)(x.incidents[i], x.incidents[j]);
    }
  }
}
