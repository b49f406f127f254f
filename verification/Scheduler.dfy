/** The deterministic scheduler. Instants are nanoseconds; a priority is a u8. */
module Scheduler {
  import opened Prelude
  import opened Sorting

  const NANOS: int := 1_000_000_000
  const AGING_SECONDS: int := 24 * 60 * 60
  const DAY: int := AGING_SECONDS * NANOS
  const MAX_AGING_BONUS: int := 20

  type Priority = x: int | 0 <= x < 256

  datatype Candidate = Candidate(
    id: nat, priority: Priority, readyAt: int, dueAt: Option<int>,
    dependenciesReady: bool, sourceCurrent: bool, approvalsReady: bool, budgetAvailable: bool,
    workerAvailable: bool, identityAvailable: bool, wipAvailable: bool, breakerOpen: bool)

  datatype Rejection =
    | DependencyBlocked | StaleSource | ApprovalMissing | BudgetUnavailable | WorkerUnavailable
    | IdentityUnavailable | RepositoryWipFull | CircuitBreakerOpen

  function Bonus(c: Candidate, now: int): int {
    var age := if now > c.readyAt then now - c.readyAt else 0;
    var days := age / NANOS / AGING_SECONDS;
    if days > MAX_AGING_BONUS then MAX_AGING_BONUS else days
  }

  function EffectivePriority(c: Candidate, now: int): (r: Priority)
    ensures r <= 100 + MAX_AGING_BONUS
  {
    var sum := c.priority + Bonus(c, now);
    var saturated := if sum > 255 then 255 else sum;
    if saturated > 100 + MAX_AGING_BONUS then 100 + MAX_AGING_BONUS else saturated
  }

  function When(b: bool, r: Rejection): seq<Rejection> {
    if b then [r] else []
  }

  function Rejections(c: Candidate): seq<Rejection> {
    When(!c.dependenciesReady, DependencyBlocked) + When(!c.sourceCurrent, StaleSource)
    + When(!c.approvalsReady, ApprovalMissing) + When(!c.budgetAvailable, BudgetUnavailable)
    + When(!c.workerAvailable, WorkerUnavailable) + When(!c.identityAvailable, IdentityUnavailable)
    + When(!c.wipAvailable, RepositoryWipFull) + When(c.breakerOpen, CircuitBreakerOpen)
  }

  predicate Eligible(c: Candidate) {
    Rejections(c) == []
  }

  datatype Ordering = Less | Equal | Greater

  function Cmp(a: int, b: int): Ordering {
    if a < b then Less else if a > b then Greater else Equal
  }

  function Then(first: Ordering, second: Ordering): Ordering {
    if first == Equal then second else first
  }

  function CompareDue(a: Option<int>, b: Option<int>): Ordering {
    match (a, b)
    case (Some(x), Some(y)) => Cmp(x, y)
    case (Some(_), None) => Less
    case (None, Some(_)) => Greater
    case (None, None) => Equal
  }

  function Compare(a: Candidate, b: Candidate, now: int): Ordering {
    Then(Cmp(EffectivePriority(b, now), EffectivePriority(a, now)),
         Then(CompareDue(a.dueAt, b.dueAt), Then(Cmp(a.readyAt, b.readyAt), Cmp(a.id, b.id))))
  }

  function NotAfter(now: int): (Candidate, Candidate) -> bool {
    (a, b) => Compare(a, b, now) != Greater
  }

  /** At every instant the comparator is a total order, strict between different items. */
  lemma CompareIsTotal(now: int)
    ensures TotalPreorder(NotAfter(now))
    ensures forall a, b :: Compare(a, b, now) == Less <==> Compare(b, a, now) == Greater
    ensures forall a, b :: Compare(a, b, now) == Equal ==> a.id == b.id
  {
    hide EffectivePriority;
    forall a: Candidate, b: Candidate ensures NotAfter(now)(a, b) || NotAfter(now)(b, a) {}
    forall a: Candidate, b: Candidate, c: Candidate
      ensures NotAfter(now)(a, b) && NotAfter(now)(b, c) ==> NotAfter(now)(a, c)
    {
    }
  }

  datatype Evaluation = Evaluation(id: nat, priority: Priority, selected: bool, rejections: seq<Rejection>)

  datatype Decision = Decision(selected: Option<nat>, evaluations: seq<Evaluation>)

  /** The choice: an eligible candidate that no eligible candidate precedes, if any is eligible. */
  ghost predicate IsChoice(cs: seq<Candidate>, now: int, choice: Option<nat>) {
    match choice
    case None => forall c :: c in cs ==> !Eligible(c)
    case Some(id) =>
      exists c :: c in cs && Eligible(c) && c.id == id &&
                  forall d :: d in cs && Eligible(d) ==> Compare(d, c, now) != Less
  }

  function First(cs: seq<Candidate>): Option<nat> {
    if cs == [] then None else Some(cs[0].id)
  }

  /** The head of the sorted eligible candidates is the choice. */
  lemma HeadIsChoice(cs: seq<Candidate>, eligible: seq<Candidate>, now: int)
    requires forall c :: c in eligible <==> c in cs && Eligible(c)
    ensures IsChoice(cs, now, First(Sort(NotAfter(now), eligible)))
  {
    hide Compare, Rejections, TotalPreorder;
    CompareIsTotal(now);
    SortSorts(NotAfter(now), eligible);
    var sorted := Sort(NotAfter(now), eligible);
    assert forall c :: c in sorted <==> c in multiset(sorted);
    assert forall c :: c in eligible <==> c in multiset(eligible);
    if sorted != [] {
      var best := sorted[0];
      forall c | c in cs && Eligible(c) ensures Compare(c, best, now) != Less {
        assert c in sorted;
        var i :| 0 <= i < |sorted| && sorted[i] == c;
        NotBefore(best, c, now);
        assert i > 0 ==> NotAfter(now)(best, sorted[i]);
      }
      assert best in cs && Eligible(best);
    }
  }

  lemma NotBefore(a: Candidate, b: Candidate, now: int)
    ensures NotAfter(now)(a, b) <==> Compare(b, a, now) != Less
    ensures Compare(a, a, now) == Equal
    ensures NotAfter(now)(a, b) && NotAfter(now)(b, a) ==> a.id == b.id
  {
    hide EffectivePriority;
  }

  method Filter(cs: seq<Candidate>) returns (eligible: seq<Candidate>)
    ensures forall c :: c in eligible <==> c in cs && Eligible(c)
  {
    hide Rejections;
    eligible := [];
    for k := 0 to |cs|
      invariant forall c :: c in eligible <==> c in cs[..k] && Eligible(c)
    {
      assert cs[..k + 1] == cs[..k] + [cs[k]];
      if Rejections(cs[k]) == [] { eligible := eligible + [cs[k]]; }
    }
    assert cs[..|cs|] == cs;
  }

  method Select(cs: seq<Candidate>, now: int) returns (d: Decision)
    ensures IsChoice(cs, now, d.selected)
    ensures |d.evaluations| == |cs|
    ensures forall i :: 0 <= i < |cs| ==>
              d.evaluations[i] == Evaluation(cs[i].id, EffectivePriority(cs[i], now),
                                             d.selected == Some(cs[i].id), Rejections(cs[i]))
  {
    hide EffectivePriority, Rejections, IsChoice;
    var eligible := Filter(cs);
    HeadIsChoice(cs, eligible, now);
    eligible := Sort(NotAfter(now), eligible);
    var selected := First(eligible);
    var evaluations := [];
    for k := 0 to |cs|
      invariant |evaluations| == k
      invariant forall i :: 0 <= i < k ==>
                  evaluations[i] == Evaluation(cs[i].id, EffectivePriority(cs[i], now),
                                               selected == Some(cs[i].id), Rejections(cs[i]))
    {
      evaluations := evaluations +
        [Evaluation(cs[k].id, EffectivePriority(cs[k], now), selected == Some(cs[k].id), Rejections(cs[k]))];
    }
    d := Decision(selected, evaluations);
  }

  /** The choice depends on which candidates there are, not on their order or repetition. */
  lemma ChoiceIsUnique(cs: seq<Candidate>, cs': seq<Candidate>, now: int, x: Option<nat>, y: Option<nat>)
    requires forall c :: c in cs <==> c in cs'
    requires IsChoice(cs, now, x) && IsChoice(cs', now, y)
    ensures x == y
  {
    hide Compare, Rejections;
    if x.Some? && y.Some? {
      var c :| c in cs && Eligible(c) && c.id == x.value && forall d :: d in cs && Eligible(d) ==> Compare(d, c, now) != Less;
      var e :| e in cs' && Eligible(e) && e.id == y.value && forall d :: d in cs' && Eligible(d) ==> Compare(d, e, now) != Less;
      NotBefore(c, e, now);
      NotBefore(e, c, now);
    }
  }

  // ----------------------------------------------------------------- ageing

  lemma BonusMeans(c: Candidate, now: int)
    ensures now - c.readyAt < DAY ==> Bonus(c, now) == 0
    ensures now - c.readyAt >= MAX_AGING_BONUS * DAY ==> Bonus(c, now) == MAX_AGING_BONUS
    ensures 0 <= Bonus(c, now) <= MAX_AGING_BONUS
  {
    var age := if now > c.readyAt then now - c.readyAt else 0;
    assert age / NANOS / AGING_SECONDS == age / DAY;
  }

  /**
   Bounded ageing prevents starvation and only that: a fully aged item is chosen over every
   candidate ready for less than a day exactly up to twenty points of base priority.
   */
  lemma AgedBeatsFresh(aged: Candidate, recent: Candidate, now: int)
    requires aged.priority <= 100
    requires now - aged.readyAt >= MAX_AGING_BONUS * DAY && now - recent.readyAt < DAY
    ensures recent.priority < aged.priority + MAX_AGING_BONUS ==> Compare(aged, recent, now) == Less
    ensures recent.priority > aged.priority + MAX_AGING_BONUS && aged.priority < 100 ==> Compare(recent, aged, now) == Less
  {
    BonusMeans(aged, now);
    BonusMeans(recent, now);
  }

  /** Such an item cannot be passed over by the choice. */
  lemma AgedIsNotPassedOver(cs: seq<Candidate>, now: int, aged: Candidate, chosen: Candidate)
    requires aged in cs && Eligible(aged) && chosen in cs && Eligible(chosen)
    requires forall d :: d in cs && Eligible(d) ==> Compare(d, chosen, now) != Less
    requires aged.priority <= 100 && now - aged.readyAt >= MAX_AGING_BONUS * DAY
    ensures now - chosen.readyAt < DAY ==> chosen.priority >= aged.priority + MAX_AGING_BONUS
  {
    if now - chosen.readyAt < DAY && chosen.priority < aged.priority + MAX_AGING_BONUS {
      AgedBeatsFresh(aged, chosen, now);
    }
  }

  /** Once both items are fully aged, their order never changes again. */
  lemma AgedOrderIsFinal(a: Candidate, b: Candidate, now: int, later: int)
    requires now <= later
    requires now - a.readyAt >= MAX_AGING_BONUS * DAY && now - b.readyAt >= MAX_AGING_BONUS * DAY
    ensures Compare(a, b, later) == Compare(a, b, now)
  {
    BonusMeans(a, now);
    BonusMeans(b, now);
    BonusMeans(a, later);
    BonusMeans(b, later);
  }

  // ---------------------------------------------------------- in the fields

  /** The bonus reaches `k` points exactly after `k` whole days, and never more than twenty. */
  lemma BonusInDays(c: Candidate, now: int, k: int)
    ensures Bonus(c, now) >= k <==> k <= 0 || (k <= 20 && now - c.readyAt >= k * DAY)
  {
    var age := if now > c.readyAt then now - c.readyAt else 0;
    assert age / NANOS / AGING_SECONDS >= k <==> age >= k * DAY;
  }

  lemma EffectivePriorityMeans(c: Candidate, now: int)
    ensures EffectivePriority(c, now) == if c.priority + Bonus(c, now) > 120 then 120 else c.priority + Bonus(c, now)
  {
    BonusMeans(c, now);
    hide Bonus;
  }

  /** A candidate is eligible exactly if every gate is open, and every closed gate is reported. */
  lemma RejectionsMean(c: Candidate)
    ensures DependencyBlocked in Rejections(c) <==> !c.dependenciesReady
    ensures StaleSource in Rejections(c) <==> !c.sourceCurrent
    ensures ApprovalMissing in Rejections(c) <==> !c.approvalsReady
    ensures BudgetUnavailable in Rejections(c) <==> !c.budgetAvailable
    ensures WorkerUnavailable in Rejections(c) <==> !c.workerAvailable
    ensures IdentityUnavailable in Rejections(c) <==> !c.identityAvailable
    ensures RepositoryWipFull in Rejections(c) <==> !c.wipAvailable
    ensures CircuitBreakerOpen in Rejections(c) <==> c.breakerOpen
    ensures Eligible(c) <==>
            && c.dependenciesReady && c.sourceCurrent && c.approvalsReady && c.budgetAvailable && c.workerAvailable
            && c.identityAvailable && c.wipAvailable && !c.breakerOpen
  {
    hide Rejections;
    RejectionIn(c, DependencyBlocked);
    RejectionIn(c, StaleSource);
    RejectionIn(c, ApprovalMissing);
    RejectionIn(c, BudgetUnavailable);
    RejectionIn(c, WorkerUnavailable);
    RejectionIn(c, IdentityUnavailable);
    RejectionIn(c, RepositoryWipFull);
    RejectionIn(c, CircuitBreakerOpen);
    if Rejections(c) != [] {
      RejectionIn(c, Rejections(c)[0]);
      assert Rejections(c)[0] in Rejections(c);
    }
  }

  lemma RejectionIn(c: Candidate, r: Rejection)
    ensures r in Rejections(c) <==>
            match r
            case DependencyBlocked => !c.dependenciesReady
            case StaleSource => !c.sourceCurrent
            case ApprovalMissing => !c.approvalsReady
            case BudgetUnavailable => !c.budgetAvailable
            case WorkerUnavailable => !c.workerAvailable
            case IdentityUnavailable => !c.identityAvailable
            case RepositoryWipFull => !c.wipAvailable
            case CircuitBreakerOpen => c.breakerOpen
  {
    var a, b := When(!c.dependenciesReady, DependencyBlocked), When(!c.sourceCurrent, StaleSource);
    var d, e := When(!c.approvalsReady, ApprovalMissing), When(!c.budgetAvailable, BudgetUnavailable);
    var f, g := When(!c.workerAvailable, WorkerUnavailable), When(!c.identityAvailable, IdentityUnavailable);
    var h, i := When(!c.wipAvailable, RepositoryWipFull), When(c.breakerOpen, CircuitBreakerOpen);
    InEight(a, b, d, e, f, g, h, i, r);
  }

  lemma InEight(a: seq<Rejection>, b: seq<Rejection>, d: seq<Rejection>, e: seq<Rejection>, f: seq<Rejection>,
                g: seq<Rejection>, h: seq<Rejection>, i: seq<Rejection>, r: Rejection)
    ensures r in a + b + d + e + f + g + h + i <==>
            r in a || r in b || r in d || r in e || r in f || r in g || r in h || r in i
  {
    InFour(a, b, d, e, r);
    InFour(a + b + d + e, f, g, h, r);
    InSum(a + b + d + e + f + g + h, i, r);
  }

  lemma InFour(a: seq<Rejection>, b: seq<Rejection>, d: seq<Rejection>, e: seq<Rejection>, r: Rejection)
    ensures r in a + b + d + e <==> r in a || r in b || r in d || r in e
  {
    InSum(a, b, r);
    InSum(a + b, d, r);
    InSum(a + b + d, e, r);
  }

  lemma InSum(a: seq<Rejection>, b: seq<Rejection>, r: Rejection)
    ensures r in a + b <==> r in a || r in b
  {
  }

  predicate IsDueBefore(a: Option<int>, b: Option<int>) {
    a.Some? && (b.None? || a.value < b.value)
  }

  /** Which of two candidates goes first: priority, then the earlier due date, then waiting time, then the identifier. */
  lemma CompareMeans(a: Candidate, b: Candidate, now: int)
    ensures var p, q := EffectivePriority(a, now), EffectivePriority(b, now);
            Compare(a, b, now) == Less <==>
            || p > q
            || (p == q && IsDueBefore(a.dueAt, b.dueAt))
            || (p == q && a.dueAt == b.dueAt && a.readyAt < b.readyAt)
            || (p == q && a.dueAt == b.dueAt && a.readyAt == b.readyAt && a.id < b.id)
  {
    hide EffectivePriority;
  }
}
