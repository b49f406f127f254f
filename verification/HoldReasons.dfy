/** Which reasons a report gives: each kind exactly for what it names. */
module HoldReasons {
  import opened Certificate
  import opened CleanReport
  import opened Counting
  import opened Evaluation
  import opened Prelude

  // ----------------------------------------------------------------- samples

  predicate IsShared(samples: seq<Sample>, k: nat)
    requires k < |samples|
  {
    exists j :: 0 <= j < |samples| && j != k && samples[j].content.id == samples[k].content.id
  }

  lemma SharedMeans(samples: seq<Sample>, k: nat)
    requires k < |samples|
    ensures IdCount(samples, samples[k].content.id) > 1 <==> IsShared(samples, k)
  {
    var id := samples[k].content.id;
    AtMostOnce(HasId(id), samples);
    if IsShared(samples, k) {
      var j :| 0 <= j < |samples| && j != k && samples[j].content.id == id;
      assert HasId(id)(samples[j]) == 1 && HasId(id)(samples[k]) == 1;
    } else {
      forall i, j | 0 <= i < j < |samples| ensures HasId(id)(samples[i]) == 0 || HasId(id)(samples[j]) == 0 {
      }
    }
  }

  /** What one sample is held for. */
  lemma SampleSays(c: Context, s: Sample, copies: nat, x: HoldReason)
    ensures var id, m := s.content.id, s.content.m;
            var sound := copies <= 1 && SampleIsSound(c.rules, s);
            var ours := sound && s.content.segment == c.segment;
            var counts := ours && c.window.start <= s.content.evaluatedAt < c.window.end;
            x in SampleReasons(c, s, copies) <==>
            || (x == DuplicateSample(id) && copies > 1)
            || (x == InvalidSample(id) && copies <= 1 && !SampleIsSound(c.rules, s))
            || (x == SampleSegmentMismatch(id) && sound && s.content.segment != c.segment)
            || (x == SampleOutsideWindow(id) && ours && !counts)
            || (x == FalseGreenObserved(id) && counts && m.falseGreen)
            || (x == SecurityViolationObserved(id) && counts && m.security != CleanSecurity)
            || (x == SevereViolationObserved(id) && counts && m.severe.Some?)
  {
    hide SampleIsSound;
  }

  lemma SampleIsNamed(c: Context, s: Sample, copies: nat, x: HoldReason)
    requires x in SampleReasons(c, s, copies)
    ensures x.DuplicateSample? || x.InvalidSample? || x.SampleSegmentMismatch? || x.SampleOutsideWindow?
            || x.FalseGreenObserved? || x.SecurityViolationObserved? || x.SevereViolationObserved?
    ensures x.sample == s.content.id
  {
    SampleSays(c, s, copies, x);
  }

  /** A reason that names the sample at a place is a reason of that sample, or of one that shares its identifier. */
  lemma ReasonIsOf(c: Context, samples: seq<Sample>, k: nat, x: HoldReason)
    requires k < |samples|
    requires x == DuplicateSample(samples[k].content.id) || x == InvalidSample(samples[k].content.id)
             || x == SampleSegmentMismatch(samples[k].content.id) || x == SampleOutsideWindow(samples[k].content.id)
             || x == FalseGreenObserved(samples[k].content.id) || x == SecurityViolationObserved(samples[k].content.id)
             || x == SevereViolationObserved(samples[k].content.id)
    ensures x in AllSampleReasons(c, samples, samples) <==>
            if IsShared(samples, k) then x.DuplicateSample? else x in SampleReasons(c, samples[k], 1)
  {
    hide SampleReasons, IdCount;
    var id := samples[k].content.id;
    var copies := IdCount(samples, id);
    SharedMeans(samples, k);
    assert copies >= 1 by { AtLeastOne(samples, k); }
    assert samples[k] in samples;
    if x in AllSampleReasons(c, samples, samples) {
      var s :| s in samples && x in SampleReasons(c, s, IdCount(samples, s.content.id));
      SampleIsNamed(c, s, IdCount(samples, s.content.id), x);
      var j :| 0 <= j < |samples| && samples[j] == s;
      if IsShared(samples, k) {
        SampleSays(c, s, copies, x);
      } else {
        assert j == k;
      }
    }
    if IsShared(samples, k) {
      SampleSays(c, samples[k], copies, DuplicateSample(id));
    }
  }

  lemma AtLeastOne(samples: seq<Sample>, k: nat)
    requires k < |samples|
    ensures IdCount(samples, samples[k].content.id) >= 1
  {
    var id := samples[k].content.id;
    AtMostOnce(HasId(id), samples);
    assert HasId(id)(samples[k]) == 1;
  }

  /** The reasons about each sample, one kind at a time. */
  lemma SampleReasonsSay(c: Context, samples: seq<Sample>, k: nat)
    requires k < |samples|
    ensures var all, id, m := AllSampleReasons(c, samples, samples), samples[k].content.id, samples[k].content.m;
            var sound := !IsShared(samples, k) && SampleIsSound(c.rules, samples[k]);
            var ours := sound && samples[k].content.segment == c.segment;
            var counts := ours && c.window.start <= samples[k].content.evaluatedAt < c.window.end;
            && (DuplicateSample(id) in all <==> IsShared(samples, k))
            && (InvalidSample(id) in all <==> !IsShared(samples, k) && !SampleIsSound(c.rules, samples[k]))
            && (SampleSegmentMismatch(id) in all <==> sound && samples[k].content.segment != c.segment)
            && (SampleOutsideWindow(id) in all <==> ours && !counts)
            && (FalseGreenObserved(id) in all <==> counts && m.falseGreen)
            && (SecurityViolationObserved(id) in all <==> counts && m.security != CleanSecurity)
            && (SevereViolationObserved(id) in all <==> counts && m.severe.Some?)
  {
    hide SampleReasons, AllSampleReasons, IsShared, SampleIsSound;
    var id := samples[k].content.id;
    forall x | x in {DuplicateSample(id), InvalidSample(id), SampleSegmentMismatch(id), SampleOutsideWindow(id),
                     FalseGreenObserved(id), SecurityViolationObserved(id), SevereViolationObserved(id)}
      ensures x in AllSampleReasons(c, samples, samples) <==>
              if IsShared(samples, k) then x.DuplicateSample? else x in SampleReasons(c, samples[k], 1)
    {
      ReasonIsOf(c, samples, k, x);
    }
    SampleSays(c, samples[k], 1, DuplicateSample(id));
    SampleSays(c, samples[k], 1, InvalidSample(id));
    SampleSays(c, samples[k], 1, SampleSegmentMismatch(id));
    SampleSays(c, samples[k], 1, SampleOutsideWindow(id));
    SampleSays(c, samples[k], 1, FalseGreenObserved(id));
    SampleSays(c, samples[k], 1, SecurityViolationObserved(id));
    SampleSays(c, samples[k], 1, SevereViolationObserved(id));
  }

  // --------------------------------------------------------------- incidents

  /** What one incident holds a promotion for. */
  lemma IncidentSays(c: Context, i: Incident, copies: nat, x: HoldReason)
    ensures var valid := && copies <= 1 && i.id != BLANK && c.rules.workClassIsValid(i.segment.workClass)
                         && i.openedAt <= c.at
                         && (i.resolvedAt.Some? ==> i.openedAt <= i.resolvedAt.value <= c.at);
            var ours := valid && i.segment == c.segment;
            x in IncidentReasons(c, i, copies) <==>
            || (x == DuplicateIncident(i.id) && copies > 1)
            || (x == InvalidIncident(i.id) && copies <= 1 && !valid)
            || (x == IncidentSegmentMismatch(i.id) && valid && i.segment != c.segment)
            || (x == UnresolvedHighSeverityIncident(i.id)
                && ours && i.severity in {HighSeverity, CriticalSeverity} && i.resolvedAt.None?)
            || (x == SafetyIncidentObserved(i.id)
                && ours && i.kind in {FalseGreenIncident, SecurityIncident, SeverePolicyViolation}
                && c.window.start <= i.openedAt < c.window.end)
  {
  }

  // -------------------------------------------------------------- thresholds

  /** Does the sweep over the minimum rates give this reason? */
  predicate IsRateReason(t: Thresholds, a: Aggregate, x: HoldReason)
    requires IsComplete(a)
  {
    exists m :: m in MINIMUM_METRICS && x in RateReason(t, m, a.rates[m])
  }

  lemma ReasonParts(t: Thresholds, a: Aggregate, x: HoldReason)
    requires IsComplete(a)
    ensures x in ThresholdReasons(a, t) <==>
            || x in CountReasons(a, t) || IsRateReason(t, a, x) || x in ReworkReason(t, a.rates[HumanRework])
            || x in ApplicableReason(t, RefusalOrEscalation, a.rates[RefusalOrEscalation])
            || x in ApplicableReason(t, Recovery, a.rates[Recovery])
            || x in MeanReason(t, CycleTime, a.means[CycleTime]) || x in MeanReason(t, Cost, a.means[Cost])
  {
    hide RateReason, CountReasons, ReworkReason, ApplicableReason, MeanReason;
  }

  lemma RateReasonIs(t: Thresholds, a: Aggregate, x: HoldReason)
    requires IsComplete(a)
    ensures IsRateReason(t, a, x) <==>
            && x.MetricBelowMinimum? && x.metric in MINIMUM_METRICS && a.rates[x.metric].Some?
            && x.required == Minimum(t, x.metric) && x.observed == a.rates[x.metric].value.bps < x.required
  {
    hide Minimum;
    if IsRateReason(t, a, x) {
      var m :| m in MINIMUM_METRICS && x in RateReason(t, m, a.rates[m]);
      assert x.metric == m;
    } else if x.MetricBelowMinimum? && x.metric in MINIMUM_METRICS {
      assert x !in RateReason(t, x.metric, a.rates[x.metric]);
    }
  }

  function Required(t: Thresholds, m: Metric): nat {
    match m
    case Correctness => t.minCorrectness
    case AcceptanceCriteria => t.minAcceptance
    case Scope => t.minScope
    case Verification => t.minVerification
    case ReviewerIndependence => t.minIndependence
    case SecurityMetric => t.minSecurity
    case RefusalOrEscalation => t.minRefusal
    case Recovery => t.minRecovery
    case _ => 0
  }

  /** A metric is held for falling short of its own threshold, with the figures that show it. */
  lemma BelowMinimumSays(t: Thresholds, a: Aggregate, m: Metric, required: nat, observed: nat)
    requires IsComplete(a)
    ensures MetricBelowMinimum(m, required, observed) in ThresholdReasons(a, t) <==>
            && m in {Correctness, AcceptanceCriteria, Scope, Verification, ReviewerIndependence, SecurityMetric,
                     RefusalOrEscalation, Recovery}
            && a.rates[m].Some? && observed == a.rates[m].value.bps && observed < required && required == Required(t, m)
  {
    var x := MetricBelowMinimum(m, required, observed);
    ReasonParts(t, a, x);
    RateReasonIs(t, a, x);
    hide ThresholdReasons, IsRateReason;
  }

  lemma CountsSay(t: Thresholds, a: Aggregate, required: nat, observed: nat)
    requires IsComplete(a)
    ensures SampleCountBelowMinimum(required, observed) in ThresholdReasons(a, t) <==>
            required == t.minSamples && observed == a.sampleCount < t.minSamples
    ensures SampleCountAboveMaximum(required, observed) in ThresholdReasons(a, t) <==>
            required == t.maxSamples && observed == a.sampleCount > t.maxSamples
  {
    hide ThresholdReasons, IsRateReason;
    ReasonParts(t, a, SampleCountBelowMinimum(required, observed));
    ReasonParts(t, a, SampleCountAboveMaximum(required, observed));
    RateReasonIs(t, a, SampleCountBelowMinimum(required, observed));
    RateReasonIs(t, a, SampleCountAboveMaximum(required, observed));
  }

  lemma MaximumsSay(t: Thresholds, a: Aggregate, required: nat, observed: nat)
    requires IsComplete(a)
    ensures MetricAboveMaximum(HumanRework, required, observed) in ThresholdReasons(a, t) <==>
            && required == t.maxRework && a.rates[HumanRework].Some? && observed == a.rates[HumanRework].value.bps
            && observed > t.maxRework
    ensures MeanAboveMaximum(CycleTime, required, observed) in ThresholdReasons(a, t) <==>
            required == t.maxMeanCycle && a.means[CycleTime] == Some(observed) && observed > t.maxMeanCycle
    ensures MeanAboveMaximum(Cost, required, observed) in ThresholdReasons(a, t) <==>
            required == t.maxMeanCost && a.means[Cost] == Some(observed) && observed > t.maxMeanCost
  {
    hide ThresholdReasons, IsRateReason;
    ReasonParts(t, a, MetricAboveMaximum(HumanRework, required, observed));
    ReasonParts(t, a, MeanAboveMaximum(CycleTime, required, observed));
    ReasonParts(t, a, MeanAboveMaximum(Cost, required, observed));
    RateReasonIs(t, a, MetricAboveMaximum(HumanRework, required, observed));
    RateReasonIs(t, a, MeanAboveMaximum(CycleTime, required, observed));
    RateReasonIs(t, a, MeanAboveMaximum(Cost, required, observed));
  }

  lemma ObservationsSay(t: Thresholds, a: Aggregate, required: nat, observed: nat)
    requires IsComplete(a)
    ensures ApplicableObservationsBelowMinimum(RefusalOrEscalation, required, observed) in ThresholdReasons(a, t) <==>
            && required == t.minRefusalObservations && observed < required
            && observed == (if a.rates[RefusalOrEscalation].Some? then a.rates[RefusalOrEscalation].value.observed else 0)
    ensures ApplicableObservationsBelowMinimum(Recovery, required, observed) in ThresholdReasons(a, t) <==>
            && required == t.minRecoveryObservations && observed < required
            && observed == (if a.rates[Recovery].Some? then a.rates[Recovery].value.observed else 0)
  {
    hide ThresholdReasons, IsRateReason;
    ReasonParts(t, a, ApplicableObservationsBelowMinimum(RefusalOrEscalation, required, observed));
    ReasonParts(t, a, ApplicableObservationsBelowMinimum(Recovery, required, observed));
    RateReasonIs(t, a, ApplicableObservationsBelowMinimum(RefusalOrEscalation, required, observed));
    RateReasonIs(t, a, ApplicableObservationsBelowMinimum(Recovery, required, observed));
  }
}
