/** When a report is clean, in the unrounded inequalities its thresholds stand for. */
module CleanReport {
  import opened Counting
  import opened Evaluation
  import opened Prelude

  // ------------------------------------------------------- exact arithmetic

  /** Comparing a rounded-down quotient with a bound is comparing the product. */
  lemma QuotientBelow(total: nat, n: nat, bound: nat)
    requires n > 0
    ensures total / n < bound <==> total < bound * n
  {
    var q, r := total / n, total % n;
    assert total == q * n + r;
    if q < bound {
      assert (q + 1) * n <= bound * n;
    } else {
      assert bound * n <= q * n;
    }
  }

  ghost predicate Measured(v: seq<Sample>) {
    |v| <= MAX_EVALUATION_SAMPLES && forall i :: 0 <= i < |v| ==> MeasurementsAreValid(v[i].content.m)
  }

  lemma TalliesFit(m: Metric, v: seq<Sample>)
    ensures Tally(Passed(m), v) <= Tally(Observed(m), v) <= |v|
  {
    SumMonotone(WeightOf(Passed(m)), WeightOf(Observed(m)), v);
    SumBound(WeightOf(Observed(m)), v, 1);
  }

  lemma AmountsFit(m: Metric, v: seq<Sample>)
    requires Measured(v)
    ensures Tally(Amount(m), v) <= MAX_COST_MICROUNITS * |v|
  {
    SumBound(WeightOf(Amount(m)), v, MAX_COST_MICROUNITS);
  }

  function ExactRate(passed: nat, observed: nat): Option<Rate> {
    if observed == 0 then None else Some(Rate(passed, observed, passed * BASIS_POINTS / observed))
  }

  function ExactMean(total: nat, n: nat): Option<nat> {
    if n == 0 then None else Some(total / n)
  }

  /** No conversion fails and nothing saturates below ten thousand observations. */
  lemma RateIsExact(passed: nat, observed: nat)
    requires passed <= observed <= MAX_EVALUATION_SAMPLES
    ensures FromCounts(passed, observed) == Ok(ExactRate(passed, observed))
    ensures observed > 0 ==> passed * BASIS_POINTS / observed <= BASIS_POINTS
  {
    if observed > 0 {
      QuotientBelow(passed * BASIS_POINTS, observed, BASIS_POINTS + 1);
    }
  }

  lemma {:induction false} NothingSaturates(q: Quantity, v: seq<Sample>)
    requires Tally(q, v) <= U128_MAX
    ensures SaturatingTally(q, v) == Tally(q, v)
  {
    if v != [] {
      NothingSaturates(q, v[..|v| - 1]);
    }
  }

  lemma MeanIsExact(m: Metric, v: seq<Sample>)
    requires Measured(v)
    ensures MeanOf(m, v) == Ok(ExactMean(Tally(Amount(m), v), |v|))
  {
    AmountsFit(m, v);
    NothingSaturates(Amount(m), v);
    if v != [] {
      QuotientBelow(Tally(Amount(m), v), |v|, MAX_COST_MICROUNITS + 1);
    }
  }

  lemma EventsFit(q: Quantity, v: seq<Sample>)
    requires q.FalseGreens? || q.SecurityViolations? || q.SevereViolations?
    ensures Tally(q, v) <= |v|
  {
    SumBound(WeightOf(q), v, 1);
  }

  ghost predicate IsExact(a: Aggregate, v: seq<Sample>) {
    && IsComplete(a) && a.sampleCount == |v|
    && (forall m :: m in RATE_METRICS ==> a.rates[m] == ExactRate(Tally(Passed(m), v), Tally(Observed(m), v)))
    && (forall m :: m in MEAN_METRICS ==> a.means[m] == ExactMean(Tally(Amount(m), v), |v|))
  }

  /** The aggregate of valid samples always exists, and each figure is the exact quotient. */
  lemma AggregateIsExact(v: seq<Sample>)
    requires Measured(v)
    ensures AggregateOf(v).Ok? && IsExact(AggregateOf(v).value, v)
  {
    hide Tally;
    forall m: Metric
      ensures RateOf(m, v) == Ok(ExactRate(Tally(Passed(m), v), Tally(Observed(m), v)))
      ensures MeanOf(m, v) == Ok(ExactMean(Tally(Amount(m), v), |v|))
    {
      TalliesFit(m, v);
      RateIsExact(Tally(Passed(m), v), Tally(Observed(m), v));
      MeanIsExact(m, v);
    }
    EventsFit(FalseGreens, v);
    EventsFit(SecurityViolations, v);
    EventsFit(SevereViolations, v);
    hide RateOf, MeanOf, ExactRate, ExactMean;
  }

  // ------------------------------------------------------------- thresholds

  predicate RateIsMet(t: Thresholds, m: Metric, v: seq<Sample>) {
    Tally(Passed(m), v) * BASIS_POINTS >= Minimum(t, m) * Tally(Observed(m), v)
  }

  predicate ReworkIsMet(t: Thresholds, v: seq<Sample>) {
    Tally(Passed(HumanRework), v) * BASIS_POINTS < (t.maxRework + 1) * |v|
  }

  predicate ObservationsAreMet(t: Thresholds, m: Metric, v: seq<Sample>) {
    Tally(Observed(m), v) >= MinimumObservations(t, m)
  }

  predicate MeanIsMet(t: Thresholds, m: Metric, v: seq<Sample>) {
    Tally(Amount(m), v) < (MaximumMean(t, m) + 1) * |v|
  }

  /** The thresholds as inequalities between whole numbers. */
  predicate ThresholdsAreMet(t: Thresholds, v: seq<Sample>) {
    && t.minSamples <= |v| <= t.maxSamples
    && (forall m :: m in MINIMUM_METRICS ==> RateIsMet(t, m, v))
    && ReworkIsMet(t, v)
    && ObservationsAreMet(t, RefusalOrEscalation, v) && RateIsMet(t, RefusalOrEscalation, v)
    && ObservationsAreMet(t, Recovery, v) && RateIsMet(t, Recovery, v)
    && MeanIsMet(t, CycleTime, v) && MeanIsMet(t, Cost, v)
  }

  lemma RateReasonMeans(t: Thresholds, m: Metric, v: seq<Sample>)
    ensures RateReason(t, m, ExactRate(Tally(Passed(m), v), Tally(Observed(m), v))) == {} <==> RateIsMet(t, m, v)
  {
    var passed, observed := Tally(Passed(m), v), Tally(Observed(m), v);
    if observed > 0 {
      QuotientBelow(passed * BASIS_POINTS, observed, Minimum(t, m));
    }
    hide Tally, Minimum;
  }

  lemma {:induction false} AllObserve(m: Metric, v: seq<Sample>)
    requires m !in APPLICABLE_METRICS
    ensures Tally(Observed(m), v) == |v|
  {
    if v != [] {
      AllObserve(m, v[..|v| - 1]);
    }
  }

  lemma ReworkReasonMeans(t: Thresholds, v: seq<Sample>)
    requires v != []
    ensures ReworkReason(t, ExactRate(Tally(Passed(HumanRework), v), Tally(Observed(HumanRework), v))) == {}
            <==> ReworkIsMet(t, v)
  {
    AllObserve(HumanRework, v);
    QuotientBelow(Tally(Passed(HumanRework), v) * BASIS_POINTS, |v|, t.maxRework + 1);
    hide Tally;
  }

  lemma ApplicableReasonMeans(t: Thresholds, m: Metric, v: seq<Sample>)
    ensures ApplicableReason(t, m, ExactRate(Tally(Passed(m), v), Tally(Observed(m), v))) == {}
            <==> ObservationsAreMet(t, m, v) && RateIsMet(t, m, v)
  {
    RateReasonMeans(t, m, v);
    hide Tally, RateReason, RateIsMet, MinimumObservations;
  }

  lemma MeanReasonMeans(t: Thresholds, m: Metric, v: seq<Sample>)
    requires v != []
    ensures MeanReason(t, m, ExactMean(Tally(Amount(m), v), |v|)) == {} <==> MeanIsMet(t, m, v)
  {
    QuotientBelow(Tally(Amount(m), v), |v|, MaximumMean(t, m) + 1);
    hide Tally, MaximumMean;
  }

  lemma NoReasons(a: Aggregate, t: Thresholds)
    requires IsComplete(a)
    ensures ThresholdReasons(a, t) == {} <==>
              && t.minSamples <= a.sampleCount <= t.maxSamples
              && (forall m :: m in MINIMUM_METRICS ==> RateReason(t, m, a.rates[m]) == {})
              && ReworkReason(t, a.rates[HumanRework]) == {}
              && ApplicableReason(t, RefusalOrEscalation, a.rates[RefusalOrEscalation]) == {}
              && ApplicableReason(t, Recovery, a.rates[Recovery]) == {}
              && MeanReason(t, CycleTime, a.means[CycleTime]) == {} && MeanReason(t, Cost, a.means[Cost]) == {}
  {
    hide RateReason, ReworkReason, ApplicableReason, MeanReason;
    assert CountReasons(a, t) == {} <==> t.minSamples <= a.sampleCount <= t.maxSamples by {
      if a.sampleCount < t.minSamples {
        assert SampleCountBelowMinimum(t.minSamples, a.sampleCount) in CountReasons(a, t);
      } else if a.sampleCount > t.maxSamples {
        assert SampleCountAboveMaximum(t.maxSamples, a.sampleCount) in CountReasons(a, t);
      }
    }
    hide CountReasons;
    var rates := set m, x | m in MINIMUM_METRICS && x in RateReason(t, m, a.rates[m]) :: x;
    assert rates == {} <==> forall m :: m in MINIMUM_METRICS ==> RateReason(t, m, a.rates[m]) == {} by {
      forall m, x | m in MINIMUM_METRICS && x in RateReason(t, m, a.rates[m]) ensures x in rates {
      }
    }
  }

  lemma MinimumRatesMean(t: Thresholds, v: seq<Sample>, a: Aggregate)
    requires IsExact(a, v)
    ensures (forall m :: m in MINIMUM_METRICS ==> RateReason(t, m, a.rates[m]) == {})
            <==> (forall m :: m in MINIMUM_METRICS ==> RateIsMet(t, m, v))
  {
    hide Tally, ExactRate, ExactMean, RateReason, RateIsMet;
    forall m | m in MINIMUM_METRICS ensures RateReason(t, m, a.rates[m]) == {} <==> RateIsMet(t, m, v) {
      RateReasonMeans(t, m, v);
    }
  }

  lemma OtherReasonsMean(t: Thresholds, v: seq<Sample>, a: Aggregate)
    requires IsExact(a, v) && v != []
    ensures ReworkReason(t, a.rates[HumanRework]) == {} <==> ReworkIsMet(t, v)
    ensures ApplicableReason(t, RefusalOrEscalation, a.rates[RefusalOrEscalation]) == {}
            <==> ObservationsAreMet(t, RefusalOrEscalation, v) && RateIsMet(t, RefusalOrEscalation, v)
    ensures ApplicableReason(t, Recovery, a.rates[Recovery]) == {}
            <==> ObservationsAreMet(t, Recovery, v) && RateIsMet(t, Recovery, v)
    ensures MeanReason(t, CycleTime, a.means[CycleTime]) == {} <==> MeanIsMet(t, CycleTime, v)
    ensures MeanReason(t, Cost, a.means[Cost]) == {} <==> MeanIsMet(t, Cost, v)
  {
    hide Tally, ExactRate, ExactMean, ReworkReason, ApplicableReason, MeanReason, RateIsMet, ReworkIsMet, MeanIsMet,
         ObservationsAreMet;
    ReworkReasonMeans(t, v);
    ApplicableReasonMeans(t, RefusalOrEscalation, v);
    ApplicableReasonMeans(t, Recovery, v);
    MeanReasonMeans(t, CycleTime, v);
    MeanReasonMeans(t, Cost, v);
  }

  /** No threshold reason exactly when every inequality holds. */
  lemma ThresholdReasonsMean(t: Thresholds, v: seq<Sample>, a: Aggregate)
    requires IsExact(a, v) && t.minSamples > 0
    ensures ThresholdReasons(a, t) == {} <==> ThresholdsAreMet(t, v)
  {
    hide RateReason, ReworkReason, ApplicableReason, MeanReason, RateIsMet, ReworkIsMet, MeanIsMet, ObservationsAreMet,
         ThresholdReasons;
    assert IsComplete(a) && a.sampleCount == |v|;
    hide IsExact;
    NoReasons(a, t);
    if |v| >= t.minSamples {
      MinimumRatesMean(t, v, a);
      OtherReasonsMean(t, v, a);
    }
  }

  // ------------------------------------------------- samples and incidents

  predicate UniqueIds(samples: seq<Sample>) {
    forall i, j :: 0 <= i < j < |samples| ==> samples[i].content.id != samples[j].content.id
  }

  predicate UniqueIncidents(incidents: seq<Incident>) {
    forall i, j :: 0 <= i < j < |incidents| ==> incidents[i].id != incidents[j].id
  }

  predicate SampleIsClean(c: Context, s: Sample) {
    && SampleIsSound(c.rules, s) && s.content.segment == c.segment && c.window.Contains(s.content.evaluatedAt)
    && !s.content.m.falseGreen && s.content.m.security == CleanSecurity && s.content.m.severe.None?
  }

  predicate IncidentIsClean(c: Context, i: Incident) {
    && IncidentIsValid(c.rules, i, c.at) && i.segment == c.segment
    && !(IsHighSeverity(i.severity) && IsUnresolvedAt(i, c.at))
    && !(IsSafety(i) && c.window.Contains(i.openedAt))
  }

  predicate SamplesAreClean(c: Context, samples: seq<Sample>) {
    UniqueIds(samples) && forall i :: 0 <= i < |samples| ==> SampleIsClean(c, samples[i])
  }

  predicate IncidentsAreClean(c: Context, incidents: seq<Incident>) {
    UniqueIncidents(incidents) && forall i :: 0 <= i < |incidents| ==> IncidentIsClean(c, incidents[i])
  }

  lemma AlarmsMean(s: Sample)
    ensures Alarms(s) == {} <==>
              !s.content.m.falseGreen && s.content.m.security == CleanSecurity && s.content.m.severe.None?
  {
    if s.content.m.falseGreen {
      assert FalseGreenObserved(s.content.id) in Alarms(s);
    } else if s.content.m.security != CleanSecurity {
      assert SecurityViolationObserved(s.content.id) in Alarms(s);
    } else if s.content.m.severe.Some? {
      assert SevereViolationObserved(s.content.id) in Alarms(s);
    }
  }

  lemma SampleReasonsMean(c: Context, s: Sample, copies: nat)
    ensures SampleReasons(c, s, copies) == {} <==> copies <= 1 && SampleIsClean(c, s)
  {
    AlarmsMean(s);
    hide SampleIsSound, Alarms;
  }

  lemma IncidentReasonsMean(c: Context, i: Incident, copies: nat)
    ensures IncidentReasons(c, i, copies) == {} <==> copies <= 1 && IncidentIsClean(c, i)
  {
    hide IncidentIsValid;
    if IsHighSeverity(i.severity) && IsUnresolvedAt(i, c.at) {
      assert UnresolvedHighSeverityIncident(i.id) in {UnresolvedHighSeverityIncident(i.id)};
    }
    if IsSafety(i) && c.window.Contains(i.openedAt) {
      assert SafetyIncidentObserved(i.id) in {SafetyIncidentObserved(i.id)};
    }
  }

  lemma UniqueIdsMean(samples: seq<Sample>)
    ensures UniqueIds(samples) <==> forall i :: 0 <= i < |samples| ==> IdCount(samples, samples[i].content.id) <= 1
  {
    forall id: Name
      ensures IdCount(samples, id) <= 1 <==>
                forall i, j :: 0 <= i < j < |samples| ==> samples[i].content.id != id || samples[j].content.id != id
    {
      AtMostOnce(HasId(id), samples);
    }
  }

  lemma UniqueIncidentsMean(incidents: seq<Incident>)
    ensures UniqueIncidents(incidents) <==>
              forall i :: 0 <= i < |incidents| ==> IncidentCount(incidents, incidents[i].id) <= 1
  {
    forall id: Name
      ensures IncidentCount(incidents, id) <= 1 <==>
                forall i, j :: 0 <= i < j < |incidents| ==> incidents[i].id != id || incidents[j].id != id
    {
      AtMostOnce(IncidentHasId(id), incidents);
    }
  }

  lemma AllSampleReasonsMean(c: Context, samples: seq<Sample>)
    ensures AllSampleReasons(c, samples, samples) == {} <==> SamplesAreClean(c, samples)
  {
    UniqueIdsMean(samples);
    hide UniqueIds, IdCount, SampleReasons, SampleIsClean;
    forall i | 0 <= i < |samples|
      ensures SampleReasons(c, samples[i], IdCount(samples, samples[i].content.id)) == {} <==>
                IdCount(samples, samples[i].content.id) <= 1 && SampleIsClean(c, samples[i])
    {
      SampleReasonsMean(c, samples[i], IdCount(samples, samples[i].content.id));
    }
    var all := AllSampleReasons(c, samples, samples);
    forall i, x | 0 <= i < |samples| && x in SampleReasons(c, samples[i], IdCount(samples, samples[i].content.id))
      ensures x in all
    {
      assert samples[i] in samples;
    }
  }

  lemma AllIncidentReasonsMean(c: Context, incidents: seq<Incident>)
    ensures AllIncidentReasons(c, incidents, incidents) == {} <==> IncidentsAreClean(c, incidents)
  {
    UniqueIncidentsMean(incidents);
    hide UniqueIncidents, IncidentCount, IncidentReasons, IncidentIsClean;
    forall i | 0 <= i < |incidents|
      ensures IncidentReasons(c, incidents[i], IncidentCount(incidents, incidents[i].id)) == {} <==>
                IncidentCount(incidents, incidents[i].id) <= 1 && IncidentIsClean(c, incidents[i])
    {
      IncidentReasonsMean(c, incidents[i], IncidentCount(incidents, incidents[i].id));
    }
    var all := AllIncidentReasons(c, incidents, incidents);
    forall i, x | 0 <= i < |incidents| && x in IncidentReasons(c, incidents[i], IncidentCount(incidents, incidents[i].id))
      ensures x in all
    {
      assert incidents[i] in incidents;
    }
  }

  // ------------------------------------------------------------ the theorem

  /** What a clean report certifies. */
  predicate Clean(c: Context, t: Thresholds, samples: seq<Sample>, incidents: seq<Incident>) {
    SamplesAreClean(c, samples) && ThresholdsAreMet(t, samples) && IncidentsAreClean(c, incidents)
  }

  lemma CountedIsMeasured(c: Context, samples: seq<Sample>)
    requires |samples| <= MAX_EVALUATION_SAMPLES
    ensures Measured(Counted(c, samples))
  {
    FilterLength(Counts(c, samples), samples);
    var v := Counted(c, samples);
    forall i | 0 <= i < |v| ensures MeasurementsAreValid(v[i].content.m) {
      FilterMembers(Counts(c, samples), samples, v[i]);
      assert v[i] in v;
    }
  }

  lemma AllCount(c: Context, samples: seq<Sample>)
    requires SamplesAreClean(c, samples)
    ensures Counted(c, samples) == samples
  {
    UniqueIdsMean(samples);
    hide UniqueIds, IdCount, SampleIsSound;
    FilterAll(Counts(c, samples), samples);
  }

  /** Valid input always gets a report, and the report is clean exactly when every inequality holds. */
  lemma CleanMeans(c: Context, policy: Policy, samples: seq<Sample>, incidents: seq<Incident>)
    requires InputIsValid(c, policy, samples, incidents)
    ensures ReportFor(c, policy, samples, incidents).Ok?
    ensures ReportFor(c, policy, samples, incidents).value.content.reasons == {}
            <==> Clean(c, policy.thresholds, samples, incidents)
  {
    hide AggregateOf, Counted, AllSampleReasons, AllIncidentReasons, ThresholdReasons, ThresholdsAreMet,
         SamplesAreClean, IncidentsAreClean, IsExact, Measured;
    var t, v := policy.thresholds, Counted(c, samples);
    CountedIsMeasured(c, samples);
    AggregateIsExact(v);
    AllSampleReasonsMean(c, samples);
    AllIncidentReasonsMean(c, incidents);
    ThresholdReasonsMean(t, v, AggregateOf(v).value);
    if SamplesAreClean(c, samples) {
      AllCount(c, samples);
    }
  }
}
