/** The engine's loops, and that the report they build does not depend on the order of its input. */
module EvaluationEngine {
  import opened Counting
  import opened Evaluation
  import opened Prelude
  import opened Sorting

  // ---------------------------------------------------------- the orderings

  lemma RefOrder()
    ensures TotalPreorder(RefLe())
    ensures forall x, y :: RefLe()(x, y) && RefLe()(y, x) ==> x == y
  {
  }

  lemma SampleOrder()
    ensures TotalPreorder(SampleLe())
  {
  }

  lemma IncidentOrder(r: Rules)
    ensures TotalPreorder(IncidentLe(r))
    ensures r.InjectiveIncidents() ==> forall x, y :: IncidentLe(r)(x, y) && IncidentLe(r)(y, x) ==> x == y
  {
  }

  function IsRef(ref: Reference): Sample -> nat {
    (s: Sample) => One(RefOf(s) == ref)
  }

  lemma {:induction false} RefCounts(samples: seq<Sample>, ref: Reference)
    ensures multiset(RefsOf(samples))[ref] == Sum(IsRef(ref), samples)
  {
    if samples != [] {
      var n := |samples| - 1;
      RefCounts(samples[..n], ref);
      assert RefsOf(samples) == RefsOf(samples[..n]) + [RefOf(samples[n])];
    }
  }

  lemma RefsPermute(s: seq<Sample>, t: seq<Sample>)
    requires multiset(s) == multiset(t)
    ensures multiset(RefsOf(s)) == multiset(RefsOf(t))
  {
    var a, b := multiset(RefsOf(s)), multiset(RefsOf(t));
    forall ref: Reference ensures a[ref] == b[ref] {
      RefCounts(s, ref);
      RefCounts(t, ref);
      SumPermutes(IsRef(ref), s, t);
    }
    assert a == b;
  }

  /** Sorting references puts any rearrangement of the samples in one order. */
  lemma SortedRefs(s: seq<Sample>, t: seq<Sample>)
    requires multiset(s) == multiset(t)
    ensures Sort(RefLe(), RefsOf(s)) == Sort(RefLe(), RefsOf(t))
  {
    RefOrder();
    RefsPermute(s, t);
    SortSorts(RefLe(), RefsOf(s));
    SortSorts(RefLe(), RefsOf(t));
    SortedIsUnique(RefLe(), Sort(RefLe(), RefsOf(s)), Sort(RefLe(), RefsOf(t)));
  }

  /** Sorting the samples and then naming them is naming them and then sorting. */
  lemma RefsOfSorted(s: seq<Sample>)
    ensures RefsOf(Sort(SampleLe(), s)) == Sort(RefLe(), RefsOf(s))
    ensures multiset(Sort(SampleLe(), s)) == multiset(s)
  {
    SampleOrder();
    SortSorts(SampleLe(), s);
    var t := Sort(SampleLe(), s);
    assert Sorted(RefLe(), RefsOf(t)) by {
      forall i, j | 0 <= i < j < |t| ensures RefLe()(RefsOf(t)[i], RefsOf(t)[j]) {
        assert SampleLe()(t[i], t[j]);
      }
    }
    RefOrder();
    RefsPermute(t, s);
    SortSorts(RefLe(), RefsOf(s));
    SortedIsUnique(RefLe(), RefsOf(t), Sort(RefLe(), RefsOf(s)));
  }

  lemma SortedIncidents(r: Rules, s: seq<Incident>, t: seq<Incident>)
    requires multiset(s) == multiset(t) && r.InjectiveIncidents()
    ensures Sort(IncidentLe(r), s) == Sort(IncidentLe(r), t)
  {
    IncidentOrder(r);
    SortSorts(IncidentLe(r), s);
    SortSorts(IncidentLe(r), t);
    SortedIsUnique(IncidentLe(r), Sort(IncidentLe(r), s), Sort(IncidentLe(r), t));
  }

  // ------------------------------------------------------------- aggregates

  /** The saturating total is the total, capped. */
  lemma {:induction false} SaturatingIsCapped(q: Quantity, v: seq<Sample>)
    ensures SaturatingTally(q, v) == if Tally(q, v) > U128_MAX then U128_MAX else Tally(q, v)
  {
    if v != [] {
      SaturatingIsCapped(q, v[..|v| - 1]);
    }
  }

  lemma TallyPermutes(q: Quantity, v: seq<Sample>, w: seq<Sample>)
    requires multiset(v) == multiset(w)
    ensures Tally(q, v) == Tally(q, w) && SaturatingTally(q, v) == SaturatingTally(q, w)
  {
    SumPermutes(WeightOf(q), v, w);
    SaturatingIsCapped(q, v);
    SaturatingIsCapped(q, w);
  }

  lemma RatePermutes(m: Metric, v: seq<Sample>, w: seq<Sample>)
    requires multiset(v) == multiset(w)
    ensures RateOf(m, v) == RateOf(m, w) && MeanOf(m, v) == MeanOf(m, w)
  {
    TallyPermutes(Passed(m), v, w);
    TallyPermutes(Observed(m), v, w);
    TallyPermutes(Amount(m), v, w);
    assert |v| == |multiset(v)| && |w| == |multiset(w)|;
  }

  lemma AggregatePermutes(v: seq<Sample>, w: seq<Sample>)
    requires multiset(v) == multiset(w)
    ensures AggregateOf(v) == AggregateOf(w)
  {
    hide RateOf, MeanOf, Tally;
    assert |v| == |multiset(v)| && |w| == |multiset(w)|;
    forall m: Metric ensures RateOf(m, v) == RateOf(m, w) && MeanOf(m, v) == MeanOf(m, w) {
      RatePermutes(m, v, w);
    }
    TallyPermutes(FalseGreens, v, w);
    TallyPermutes(SecurityViolations, v, w);
    TallyPermutes(SevereViolations, v, w);
    var a, b := AggregateOf(v), AggregateOf(w);
    if a.Ok? {
      assert b.Ok?;
      assert a.value.rates == b.value.rates && a.value.means == b.value.means;
    }
  }

  // ------------------------------------------------------------- canonicity

  lemma CountedPermutes(c: Context, s: seq<Sample>, t: seq<Sample>)
    requires multiset(s) == multiset(t)
    ensures multiset(Counted(c, s)) == multiset(Filter(Counts(c, t), t))
  {
    hide Fault;
    forall i | 0 <= i < |s| ensures Counts(c, s)(s[i]) == Counts(c, t)(s[i]) {
      SumPermutes(HasId(s[i].content.id), s, t);
    }
    FilterPermutes(Counts(c, s), Counts(c, t), s, t);
  }

  lemma SameMembers<T>(s: seq<T>, t: seq<T>)
    requires multiset(s) == multiset(t)
    ensures forall x :: x in s <==> x in t
  {
    forall x ensures x in s <==> x in t {
      assert x in s <==> x in multiset(s);
      assert x in t <==> x in multiset(t);
    }
  }

  lemma SampleReasonsPermute(c: Context, s: seq<Sample>, t: seq<Sample>)
    requires multiset(s) == multiset(t)
    ensures AllSampleReasons(c, s, s) == AllSampleReasons(c, t, t)
  {
    hide SampleReasons;
    SameMembers(s, t);
    forall id: Name ensures IdCount(s, id) == IdCount(t, id) {
      SumPermutes(HasId(id), s, t);
    }
  }

  lemma IncidentReasonsPermute(c: Context, s: seq<Incident>, t: seq<Incident>)
    requires multiset(s) == multiset(t)
    ensures AllIncidentReasons(c, s, s) == AllIncidentReasons(c, t, t)
  {
    hide IncidentReasons;
    SameMembers(s, t);
    forall id: Name ensures IncidentCount(s, id) == IncidentCount(t, id) {
      SumPermutes(IncidentHasId(id), s, t);
    }
  }

  /** Rearranging samples and incidents gives the identical report, duplicates and forgeries included. */
  lemma ReportIsCanonical(c: Context, policy: Policy, s: seq<Sample>, t: seq<Sample>, i: seq<Incident>, j: seq<Incident>)
    requires multiset(s) == multiset(t) && multiset(i) == multiset(j)
    requires c.rules.InjectiveIncidents()
    ensures ReportFor(c, policy, s, i) == ReportFor(c, policy, t, j)
  {
    assert |s| == |multiset(s)| && |t| == |multiset(t)| && |i| == |multiset(i)| && |j| == |multiset(j)|;
    SortedRefs(s, t);
    SortedIncidents(c.rules, i, j);
    SampleReasonsPermute(c, s, t);
    IncidentReasonsPermute(c, i, j);
    CountedPermutes(c, s, t);
    AggregatePermutes(Counted(c, s), Counted(c, t));
    hide AggregateOf, AllSampleReasons, AllIncidentReasons, ThresholdReasons, PolicyIsValid, Sort, Counted;
  }

  // -------------------------------------------------------------- the loops

  method CountSamples(samples: seq<Sample>) returns (counts: map<Name, nat>)
    ensures forall id :: (if id in counts then counts[id] else 0) == IdCount(samples, id)
  {
    counts := map[];
    for k := 0 to |samples|
      invariant forall id :: (if id in counts then counts[id] else 0) == IdCount(samples[..k], id)
    {
      var id := samples[k].content.id;
      assert samples[..k + 1][..k] == samples[..k];
      counts := counts[id := (if id in counts then counts[id] else 0) + 1];
    }
    assert samples[..|samples|] == samples;
  }

  method CountIncidents(incidents: seq<Incident>) returns (counts: map<Name, nat>)
    ensures forall id :: (if id in counts then counts[id] else 0) == IncidentCount(incidents, id)
  {
    counts := map[];
    for k := 0 to |incidents|
      invariant forall id :: (if id in counts then counts[id] else 0) == IncidentCount(incidents[..k], id)
    {
      var id := incidents[k].id;
      assert incidents[..k + 1][..k] == incidents[..k];
      counts := counts[id := (if id in counts then counts[id] else 0) + 1];
    }
    assert incidents[..|incidents|] == incidents;
  }

  function FaultSet(c: Context, s: Sample, copies: nat): set<HoldReason> {
    match Fault(c, s, copies)
    case Some(reason) => {reason}
    case None => {}
  }

  function Faults(c: Context, all: seq<Sample>, some: seq<Sample>): set<HoldReason> {
    set s, x | s in some && x in FaultSet(c, s, IdCount(all, s.content.id)) :: x
  }

  lemma FaultsExtend(c: Context, all: seq<Sample>, some: seq<Sample>, s: Sample)
    ensures Faults(c, all, some + [s]) == Faults(c, all, some) + FaultSet(c, s, IdCount(all, s.content.id))
  {
    hide FaultSet, IdCount;
  }

  lemma CountedExtend(c: Context, all: seq<Sample>, some: seq<Sample>, s: Sample)
    ensures Filter(Counts(c, all), some + [s])
            == Filter(Counts(c, all), some) + if FaultSet(c, s, IdCount(all, s.content.id)) == {} then [s] else []
  {
    hide Fault, IdCount;
    assert (some + [s])[..|some|] == some;
  }

  function AllAlarms(v: seq<Sample>): set<HoldReason> {
    set s, x | s in v && x in Alarms(s) :: x
  }

  lemma NothingSifted(c: Context, all: seq<Sample>)
    ensures Faults(c, all, all[..0]) == {} && Filter(Counts(c, all), all[..0]) == []
  {
  }

  /** The first pass: references for every sample, reasons for those set aside, the rest kept. */
  method SiftSamples(c: Context, ordered: seq<Sample>)
    returns (references: seq<Reference>, reasons: set<HoldReason>, valid: seq<Sample>)
    ensures references == RefsOf(ordered)
    ensures reasons == Faults(c, ordered, ordered)
    ensures valid == Counted(c, ordered)
  {
    var counts := CountSamples(ordered);
    hide IdCount, Faults, Filter, SampleIsSound;
    references, reasons, valid := [], {}, [];
    assert Faults(c, ordered, ordered[..0]) == {} && Filter(Counts(c, ordered), ordered[..0]) == [] by {
      NothingSifted(c, ordered);
    }
    for k := 0 to |ordered|
      invariant references == RefsOf(ordered[..k])
      invariant reasons == Faults(c, ordered, ordered[..k])
      invariant valid == Filter(Counts(c, ordered), ordered[..k])
    {
      var sample := ordered[k];
      var id := sample.content.id;
      assert ordered[..k + 1] == ordered[..k] + [sample];
      FaultsExtend(c, ordered, ordered[..k], sample);
      CountedExtend(c, ordered, ordered[..k], sample);
      references := references + [Reference(id, sample.digest)];
      var copies := if id in counts then counts[id] else 0;
      assert copies == IdCount(ordered, id);
      ghost var before := reasons;
      if copies > 1 {
        reasons := reasons + {DuplicateSample(id)};
      } else if !SampleIsSound(c.rules, sample) {
        reasons := reasons + {InvalidSample(id)};
      } else if sample.content.segment != c.segment {
        reasons := reasons + {SampleSegmentMismatch(id)};
      } else if !c.window.Contains(sample.content.evaluatedAt) {
        reasons := reasons + {SampleOutsideWindow(id)};
      } else {
        valid := valid + [sample];
      }
      assert reasons == before + FaultSet(c, sample, copies);
    }
    assert ordered[..|ordered|] == ordered;
  }

  /** The second pass, over the samples that count. */
  method RaiseAlarms(valid: seq<Sample>, reasons: set<HoldReason>) returns (all: set<HoldReason>)
    ensures all == reasons + AllAlarms(valid)
  {
    all := reasons;
    for k := 0 to |valid|
      invariant all == reasons + AllAlarms(valid[..k])
    {
      var sample := valid[k];
      var id, m := sample.content.id, sample.content.m;
      assert valid[..k + 1] == valid[..k] + [sample];
      ghost var before := all;
      if m.falseGreen { all := all + {FalseGreenObserved(id)}; }
      if m.security != CleanSecurity { all := all + {SecurityViolationObserved(id)}; }
      if m.severe.Some? { all := all + {SevereViolationObserved(id)}; }
      assert all == before + Alarms(sample);
    }
    assert valid[..|valid|] == valid;
  }

  /** The pass over the incidents. */
  method JudgeIncidents(c: Context, ordered: seq<Incident>, reasons: set<HoldReason>) returns (all: set<HoldReason>)
    ensures all == reasons + AllIncidentReasons(c, ordered, ordered)
  {
    var counts := CountIncidents(ordered);
    hide IncidentCount;
    all := reasons;
    for k := 0 to |ordered|
      invariant all == reasons + AllIncidentReasons(c, ordered, ordered[..k])
    {
      var incident := ordered[k];
      var id := incident.id;
      assert ordered[..k + 1] == ordered[..k] + [incident];
      var copies := if id in counts then counts[id] else 0;
      assert copies == IncidentCount(ordered, id);
      var found := {};
      if copies > 1 {
        found := {DuplicateIncident(id)};
      } else if !IncidentIsValid(c.rules, incident, c.at) {
        found := {InvalidIncident(id)};
      } else if incident.segment != c.segment {
        found := {IncidentSegmentMismatch(id)};
      } else {
        if IsHighSeverity(incident.severity) && IsUnresolvedAt(incident, c.at) {
          found := found + {UnresolvedHighSeverityIncident(id)};
        }
        if IsSafety(incident) && c.window.Contains(incident.openedAt) {
          found := found + {SafetyIncidentObserved(id)};
        }
      }
      assert found == IncidentReasons(c, incident, copies);
      all := all + found;
    }
    assert ordered[..|ordered|] == ordered;
  }

  /** The two passes over the samples find what the specification asks of each sample. */
  lemma PassesFind(c: Context, s: seq<Sample>)
    ensures Faults(c, s, s) + AllAlarms(Counted(c, s)) == AllSampleReasons(c, s, s)
  {
    forall x ensures x in Counted(c, s) <==> x in s && Counts(c, s)(x) {
      FilterMembers(Counts(c, s), s, x);
    }
    hide Alarms, IdCount, Counted, Fault;
    var all := AllSampleReasons(c, s, s);
    forall x, y | x in s && y in SampleReasons(c, x, IdCount(s, x.content.id))
      ensures y in Faults(c, s, s) + AllAlarms(Counted(c, s))
    {
      if Fault(c, x, IdCount(s, x.content.id)).Some? {
        assert y in FaultSet(c, x, IdCount(s, x.content.id));
      } else {
        assert x in Counted(c, s) && y in Alarms(x);
      }
    }
    forall x, y | x in Counted(c, s) && y in Alarms(x) ensures y in all {
      assert y in SampleReasons(c, x, IdCount(s, x.content.id));
    }
    forall x, y | x in s && y in FaultSet(c, x, IdCount(s, x.content.id)) ensures y in all {
      assert y in SampleReasons(c, x, IdCount(s, x.content.id));
    }
  }

  lemma SiftedAsSpecified(c: Context, samples: seq<Sample>)
    ensures var ordered := Sort(SampleLe(), samples);
            && AggregateOf(Counted(c, ordered)) == AggregateOf(Counted(c, samples))
            && RefsOf(ordered) == Sort(RefLe(), RefsOf(samples))
            && Faults(c, ordered, ordered) + AllAlarms(Counted(c, ordered)) == AllSampleReasons(c, samples, samples)
  {
    var ordered := Sort(SampleLe(), samples);
    RefsOfSorted(samples);
    CountedPermutes(c, ordered, samples);
    AggregatePermutes(Counted(c, ordered), Counted(c, samples));
    PassesFind(c, ordered);
    SampleReasonsPermute(c, ordered, samples);
  }

  lemma JudgedAsSpecified(c: Context, incidents: seq<Incident>)
    ensures var ordered := Sort(IncidentLe(c.rules), incidents);
            AllIncidentReasons(c, ordered, ordered) == AllIncidentReasons(c, incidents, incidents)
  {
    IncidentOrder(c.rules);
    SortSorts(IncidentLe(c.rules), incidents);
    IncidentReasonsPermute(c, Sort(IncidentLe(c.rules), incidents), incidents);
  }

  /** The engine builds the specified report. */
  method Evaluate(c: Context, policy: Policy, samples: seq<Sample>, incidents: seq<Incident>)
    returns (r: Result<Report, Error>)
    ensures r == ReportFor(c, policy, samples, incidents)
  {
    hide Sort, Counted, AllSampleReasons, AllIncidentReasons, ThresholdReasons, Faults, AllAlarms, InputIsValid,
         AggregateOf;
    if !InputIsValid(c, policy, samples, incidents) {
      return Err(Validation);
    }
    var ordered := Sort(SampleLe(), samples);
    var references, reasons, valid := SiftSamples(c, ordered);
    var aggregated := AggregateOf(valid);
    SiftedAsSpecified(c, samples);
    if aggregated.Err? {
      return Err(aggregated.error);
    }
    var aggregate := aggregated.value;
    reasons := ApplyThresholds(aggregate, policy.thresholds, reasons);
    reasons := RaiseAlarms(valid, reasons);
    var orderedIncidents := Sort(IncidentLe(c.rules), incidents);
    reasons := JudgeIncidents(c, orderedIncidents, reasons);
    JudgedAsSpecified(c, incidents);
    assert reasons == AllSampleReasons(c, samples, samples) + ThresholdReasons(aggregate, policy.thresholds)
                      + AllIncidentReasons(c, incidents, incidents);
    var content := ReportContent(REPORT_SCHEMA, c.segment, c.window, c.at, c.rules.policyDigest(policy), references,
                                 orderedIncidents, aggregate, reasons);
    r := Ok(Report(content, c.rules.reportDigest(content)));
  }
}
