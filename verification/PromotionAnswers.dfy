/** What the decisions on the ladder say, in the fields of what they decide on. */
module PromotionAnswers {
  import opened Evaluation
  import opened Prelude
  import opened Promotion

  // ------------------------------------------------------------- holds

  /** A hold lists the report's own reasons and exactly these. */
  lemma HeldSays(n: Notary, q: Request, x: HoldReason)
    requires PolicyIsValid(q.policy) && DecisionFor(n, q).value.Held?
    ensures DecisionFor(n, q).value.evaluationDigest == q.report.digest
    ensures var age := q.decidedAt - q.report.content.generatedAt;
            var term := q.expiresAt - q.effectiveFrom;
            x in DecisionFor(n, q).value.reasons <==>
            || x in q.report.content.reasons
            || (x == ReportIntegrityMismatch && !(q.report.content.schema == REPORT_SCHEMA && n.rules.isSha256(q.report.digest)
                                                  && q.report.digest == n.rules.reportDigest(q.report.content)))
            || (x == PolicyDigestMismatch && q.report.content.policyDigest != n.rules.policyDigest(q.policy))
            || (x == EvaluationExpired && !(-NANOS < age < (q.policy.thresholds.maxAge + 1) * NANOS))
            || (x == NonAdjacentPromotion && Next(q.current) != Some(q.requested))
            || (x == HighRiskGuardedMergeForbidden
                && q.report.content.segment.risk in {HighRisk, CriticalRisk} && q.requested == GuardedMergeEnabled)
            || (x == InvalidPromotionWindow
                && !(q.effectiveFrom <= q.decidedAt < q.expiresAt
                     && NANOS <= term < (q.policy.thresholds.maxPromotion + 1) * NANOS))
            || x in ApprovalReasons(n, q)
  {
    SecondsMean(q.decidedAt - q.report.content.generatedAt, q.policy.thresholds.maxAge);
    SecondsMean(q.expiresAt - q.effectiveFrom, q.policy.thresholds.maxPromotion);
    hide Seconds, PolicyIsValid, ApprovalReasons;
  }

  /** What can be wrong with an approval. */
  lemma ApprovalSays(n: Notary, q: Request, x: HoldReason)
    ensures x in ApprovalReasons(n, q) <==>
            || (x == MissingOwnerApproval && q.approval.None?)
            || (x == OwnerApprovalIdentityMismatch && q.approval.Some?
                && (q.approval.value.binding.owner != q.owner.ownerId || q.approval.value.binding.ownerKey != q.owner.keyId))
            || (x == OwnerApprovalBindingMismatch && q.approval.Some? && q.approval.value.binding != ExpectedBinding(n, q))
            || (x == OwnerApprovalSignatureInvalid && q.approval.Some?
                && !n.signatureIsValid(q.owner.key, q.approval.value.binding, q.approval.value.signature))
  {
  }

  // ------------------------------------------------------------- safety

  /** The safety check answers exactly on samples and incidents of this segment that are not from the future. */
  lemma SafetyAnswers(r: Rules, segment: Segment, current: Rung, at: int, samples: seq<Sample>, incidents: seq<Incident>)
    ensures SafetyFor(r, segment, current, at, samples, incidents).Ok? <==>
            && r.workClassIsValid(segment.workClass) && |samples| <= 10_000 && |incidents| <= 10_000
            && (forall k :: 0 <= k < |samples| ==>
                  samples[k].content.segment == segment && samples[k].content.evaluatedAt <= at)
            && (forall k :: 0 <= k < |incidents| ==>
                  && incidents[k].id != BLANK && r.workClassIsValid(incidents[k].segment.workClass)
                  && incidents[k].segment == segment && incidents[k].openedAt <= at
                  && (incidents[k].resolvedAt.Some? ==> incidents[k].openedAt <= incidents[k].resolvedAt.value <= at))
  {
    hide AllSampleDangers, AllIncidentDangers, RungDangers, Previous;
    assert (forall k :: 0 <= k < |samples| ==> SampleIsAdmissible(segment, at, samples[k])) <==>
           (forall k :: 0 <= k < |samples| ==>
              samples[k].content.segment == segment && samples[k].content.evaluatedAt <= at);
    assert (forall k :: 0 <= k < |incidents| ==> IncidentIsAdmissible(r, segment, at, incidents[k])) <==>
           (forall k :: 0 <= k < |incidents| ==>
              && incidents[k].id != BLANK && r.workClassIsValid(incidents[k].segment.workClass)
              && incidents[k].segment == segment && incidents[k].openedAt <= at
              && (incidents[k].resolvedAt.Some? ==> incidents[k].openedAt <= incidents[k].resolvedAt.value <= at));
  }

  /** The dangers of one sample and of one incident. */
  lemma DangersSay(r: Rules, at: int, s: Sample, i: Incident, x: SafetyReason)
    ensures x in SampleDangers(r, s) <==>
            || (x == UnsoundSample(s.content.id) && !SampleIsSound(r, s))
            || (x == FalseGreenSample(s.content.id) && SampleIsSound(r, s) && s.content.m.falseGreen)
            || (x == SecurityViolationSample(s.content.id) && SampleIsSound(r, s) && s.content.m.security != CleanSecurity)
            || (x == SevereViolationSample(s.content.id) && SampleIsSound(r, s) && s.content.m.severe.Some?)
    ensures x in IncidentDangers(at, i) <==>
            || (x == SafetyIncident(i.id) && i.kind in {FalseGreenIncident, SecurityIncident, SeverePolicyViolation})
            || (x == UnresolvedIncident(i.id) && i.severity in {HighSeverity, CriticalSeverity}
                && (i.resolvedAt.None? || i.resolvedAt.value > at))
  {
    hide SampleIsSound;
  }

  /** A demotion for safety names the rung, the one below, the instant, and every danger there is. */
  lemma DemotionSays(r: Rules, segment: Segment, current: Rung, at: int, samples: seq<Sample>, incidents: seq<Incident>,
                     x: SafetyReason)
    requires SafetyFor(r, segment, current, at, samples, incidents).Ok?
    requires SafetyFor(r, segment, current, at, samples, incidents).value.Demote?
    ensures var d := SafetyFor(r, segment, current, at, samples, incidents).value.decision;
            && d.segment == segment && d.from == current && Previous(current) == Some(d.to) && d.effectiveAt == at
            && d.cause.AutomaticSafety?
            && (x in d.cause.reasons <==>
                  || (exists k :: 0 <= k < |samples| && x in SampleDangers(r, samples[k]))
                  || (exists k :: 0 <= k < |incidents| && x in IncidentDangers(at, incidents[k]))
                  || (x == HighRiskGuardedMerge && segment.risk in {HighRisk, CriticalRisk}
                      && current == GuardedMergeEnabled))
  {
    hide SampleDangers, IncidentDangers, SafetyInputIsValid;
    assert x in AllSampleDangers(r, samples) <==> exists k :: 0 <= k < |samples| && x in SampleDangers(r, samples[k]) by {
      if x in AllSampleDangers(r, samples) {
        var s :| s in samples && x in SampleDangers(r, s);
      } else {
        forall k | 0 <= k < |samples| ensures x !in SampleDangers(r, samples[k]) {
          assert samples[k] in samples;
        }
      }
    }
    assert x in AllIncidentDangers(at, incidents) <==>
           exists k :: 0 <= k < |incidents| && x in IncidentDangers(at, incidents[k]) by {
      if x in AllIncidentDangers(at, incidents) {
        var i :| i in incidents && x in IncidentDangers(at, i);
      } else {
        forall k | 0 <= k < |incidents| ensures x !in IncidentDangers(at, incidents[k]) {
          assert incidents[k] in incidents;
        }
      }
    }
    hide AllSampleDangers, AllIncidentDangers;
  }

  // ----------------------------------------------------- rollback and expiry

  /** An explicit rollback needs an actor, a reason and exactly the rung below. */
  lemma RollBackMeans(r: Rules, q: Rollback)
    ensures RollBack(r, q).Ok? <==>
            && r.workClassIsValid(q.segment.workClass) && q.actor != BLANK && q.reason != BLANK
            && Previous(q.current) == Some(q.requested)
    ensures RollBack(r, q).Ok? ==>
              RollBack(r, q).value ==
              Demotion(q.segment, q.current, q.requested, q.effectiveAt, ExplicitRollback(q.actor, q.reason))
  {
  }

  /** A valid grant rolls back exactly from its expiry on, to the rung it started from. */
  lemma ExpirationMeans(n: Notary, g: Grant, at: int)
    requires GrantIsValid(n, g)
    ensures ExpirationRollback(n, g, at) ==
            Ok(if g.expiresAt <= at
               then Some(Demotion(g.segment, g.promoted, g.previous, at, PromotionExpired(n.grantDigest(g)))) else None)
  {
  }

  /** A grant is valid exactly if it is well formed and one rung up, and not guarded merge at high risk. */
  lemma ValidGrantMeans(n: Notary, g: Grant)
    ensures GrantIsValid(n, g) <==>
            && n.rules.workClassIsValid(g.segment.workClass)
            && NANOS <= g.window.end - g.window.start < (366 * 24 * 60 * 60 + 1) * NANOS && g.schema == GRANT_SCHEMA
            && n.rules.isSha256(g.evaluationDigest) && n.rules.isSha256(g.policyDigest)
            && n.rules.isSha256(g.bindingDigest) && g.owner != BLANK && g.ownerKey != BLANK
            && g.rollback == g.previous && Previous(g.promoted) == Some(g.previous) && g.effectiveFrom < g.expiresAt
            && !(g.segment.risk in {HighRisk, CriticalRisk} && g.promoted == GuardedMergeEnabled)
  {
  }
}
