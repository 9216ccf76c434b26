/** Fail-closed revalidation of a detected opportunity against current quotes. */
module Lifecycle {
  import opened Wrappers
  import opened Reals
  import opened Ordering
  import opened Domain
  import opened ArbitrageMath
  import opened StakeConstraints
  import opened StakeSearch
  import opened Allocation

  type Rate = x: real | 0.0 <= x < 1.0 witness 0.0

  datatype ActionabilityPolicy = ActionabilityPolicy(
    bankroll: Positive,
    rounding: RoundingPolicy,
    constraints: seq<StakeConstraint>,
    maximumAgeSeconds: NonNegative,
    maximumExposure: Option<Positive>,
    minimumProfit: NonNegative,
    minimumRoi: NonNegative,
    maximumMarginDrift: Option<NonNegative>,
    commissionRate: Rate,
    taxRate: Rate)
  {
    /** The most that may be staked. */
    function Exposure(): (exposure: Positive)
      ensures exposure <= bankroll && (maximumExposure.Some? ==> exposure <= maximumExposure.value)
      ensures exposure == bankroll || maximumExposure == Some(exposure)
    {
      Min(bankroll, maximumExposure.GetOr(bankroll))
    }
  }

  datatype LifecycleState = Validated | Actionable | Stale | Invalidated | Expired

  datatype LifecycleReason =
    | ReadyToAct | StaleQuotes | MarketClosed | QuoteSetChanged | NoLongerArbitrage
    | OddsDriftExceeded | StakesInfeasible | MinimumProfit | MinimumRoi

  datatype Figures = Figures(plan: StakePlan, grossProfit: real, netProfit: real, netRoi: real)

  datatype LifecycleEvaluation = LifecycleEvaluation(
    state: LifecycleState,
    reason: LifecycleReason,
    margin: real,
    figures: Option<Figures>)

  datatype LifecycleError = EvaluationFailed(math: MathError) | AllocationFailed(allocation: AllocationError)

  predicate FreshEnough(quote: OddsQuote, now: Instant, maximumAgeSeconds: NonNegative) {
    var age := (now - quote.Effective()) as real / 1_000_000.0;
    0.0 <= age <= maximumAgeSeconds
  }

  predicate AllFresh(quotes: seq<OddsQuote>, now: Instant, maximumAgeSeconds: NonNegative) {
    forall i :: 0 <= i < |quotes| ==> FreshEnough(quotes[i], now, maximumAgeSeconds)
  }

  predicate SameQuoteSet(opportunity: Opportunity, quotes: seq<OddsQuote>) {
    |quotes| >= 2 && Members(Ids(quotes)) == Members(opportunity.quoteIds)
  }

  predicate AllActive(quotes: seq<OddsQuote>) {
    forall q :: q in quotes ==> q.status == Active
  }

  function Unactionable(state: LifecycleState, reason: LifecycleReason, margin: real): LifecycleEvaluation {
    LifecycleEvaluation(state, reason, margin, None)
  }

  /** Profit left after commission on the gross profit and tax on the remainder. */
  function NetProfit(gross: real, policy: ActionabilityPolicy): real {
    var commission := gross * policy.commissionRate;
    var taxable := Max(0.0, gross - commission);
    gross - commission - taxable * policy.taxRate
  }

  lemma ShareKept(amount: real, share: real)
    requires amount > 0.0 && 0.0 <= share < 1.0
    ensures amount - amount * share == amount * (1.0 - share)
    ensures 0.0 < amount - amount * share <= amount
  {
    ScaleCompare(0.0, 1.0 - share, amount);
    ScaleCompare(1.0 - share, 1.0, amount);
  }

  lemma NetProfitFactors(gross: real, policy: ActionabilityPolicy)
    requires gross > 0.0
    ensures NetProfit(gross, policy) == gross * (1.0 - policy.commissionRate) * (1.0 - policy.taxRate)
    ensures 0.0 < NetProfit(gross, policy) <= gross
  {
    ShareKept(gross, policy.commissionRate);
    var kept := gross - gross * policy.commissionRate;
    ShareKept(kept, policy.taxRate);
    assert kept == gross * (1.0 - policy.commissionRate);
    assert NetProfit(gross, policy) == kept - kept * policy.taxRate;
  }

  /** What acting on an actionable result is guaranteed to return, whichever leg wins. */
  ghost predicate SafeToAct(quotes: seq<OddsQuote>, now: Instant, policy: ActionabilityPolicy, figures: Figures) {
    && AllActive(quotes) && AllFresh(quotes, now, policy.maximumAgeSeconds)
    && SafePlan(OrderedBySelection(quotes), policy, figures)
  }

  ghost predicate SafePlan(ordered: seq<OddsQuote>, policy: ActionabilityPolicy, figures: Figures) {
    var plan := figures.plan;
    var staked := Sum(Amounts(plan.allocations));
    && |plan.allocations| == |ordered|
    && 0.0 < staked <= policy.bankroll
    && (policy.maximumExposure.Some? ==> staked <= policy.maximumExposure.value)
    && figures.grossProfit > 0.0
    && (forall i :: 0 <= i < |ordered| ==> LegReturns(ordered[i], plan.allocations[i], staked, figures.grossProfit))
    && figures.netProfit == figures.grossProfit * (1.0 - policy.commissionRate) * (1.0 - policy.taxRate)
    && figures.netProfit > 0.0 && figures.netProfit >= policy.minimumProfit
    && figures.netRoi == figures.netProfit / staked && figures.netRoi >= policy.minimumRoi
  }

  /** If this leg wins, its stake pays back everything staked and at least `gross` more. */
  ghost predicate LegReturns(quote: OddsQuote, allocation: StakeAllocation, staked: real, gross: real) {
    && allocation.quoteId == quote.id && allocation.amount > 0.0
    && allocation.amount * quote.price - staked >= gross
  }

  lemma RoundedPayoutIsLower(amount: real, price: Odds, quantum: Positive, guaranteed: real)
    requires guaranteed <= ConservativePayout(amount, price, quantum)
    ensures guaranteed <= amount * price
  {
  }

  lemma PlanReturns(plan: StakePlan, quotes: seq<OddsQuote>, quantum: Positive, i: nat)
    requires i < |quotes|
    requires Describes(plan, quotes, quantum)
    requires plan.allocations[i].amount > 0.0
    ensures LegReturns(quotes[i], plan.allocations[i], Sum(Amounts(plan.allocations)), plan.guaranteedProfit)
  {
    hide Sum, MinOf, ConservativePayout;
    var payouts := Payouts(quotes, Amounts(plan.allocations), quantum);
    MinOfIsLeast(payouts, plan.guaranteedPayout);
    assert plan.guaranteedPayout <= payouts[i];
    RoundedPayoutIsLower(plan.allocations[i].amount, quotes[i].price, quantum, plan.guaranteedPayout);
  }

  lemma StakesPositive(quotes: seq<OddsQuote>, constraints: seq<StakeConstraint>, quantum: Positive, bankroll: real,
                       threshold: real, amounts: seq<real>)
    requires |quotes| > 0
    requires SafeStakes(quotes, constraints, quantum, bankroll, threshold, amounts)
    ensures Sum(amounts) > 0.0
  {
    var zeros: seq<real> := seq(|amounts|, i => 0.0);
    SumNonNegative(zeros);
    SumStrict(zeros, amounts, 0);
  }

  /** Every figure reported with a plan is the one the plan implies. */
  ghost predicate FiguresOf(figures: Figures, policy: ActionabilityPolicy) {
    && figures.grossProfit == figures.plan.guaranteedProfit > 0.0
    && figures.netProfit == figures.grossProfit * (1.0 - policy.commissionRate) * (1.0 - policy.taxRate)
    && Sum(Amounts(figures.plan.allocations)) > 0.0
    && figures.netRoi == figures.netProfit / Sum(Amounts(figures.plan.allocations))
  }

  function Revalidated(opportunity: Opportunity, evaluation: ArbitrageEvaluation): Opportunity {
    Opportunity(opportunity.id, opportunity.event, opportunity.market, Ids(evaluation.quotes),
                evaluation.impliedSum, evaluation.margin, opportunity.detectedAt, OpportunityActive)
  }

  predicate DriftExceeded(opportunity: Opportunity, evaluation: ArbitrageEvaluation, policy: ActionabilityPolicy) {
    policy.maximumMarginDrift.Some? && opportunity.margin - evaluation.margin > policy.maximumMarginDrift.value
  }

  /** The outcome of the checks that come before stake allocation, if one of them decides. */
  function EarlyOutcome(opportunity: Opportunity, quotes: seq<OddsQuote>, now: Instant, policy: ActionabilityPolicy)
    : Option<Result<LifecycleEvaluation, LifecycleError>>
  {
    if !SameQuoteSet(opportunity, quotes) then Some(Ok(Unactionable(Invalidated, QuoteSetChanged, 0.0)))
    else if !AllActive(quotes) then Some(Ok(Unactionable(Expired, MarketClosed, 0.0)))
    else if !AllFresh(quotes, now, policy.maximumAgeSeconds) then Some(Ok(Unactionable(Stale, StaleQuotes, 0.0)))
    else match EvaluateMarket(quotes, Selections(quotes), 0.0)
      case Err(e) => Some(Err(EvaluationFailed(e)))
      case Ok(evaluation) =>
        if !evaluation.isArbitrage then Some(Ok(Unactionable(Invalidated, NoLongerArbitrage, evaluation.margin)))
        else if DriftExceeded(opportunity, evaluation, policy) then
          Some(Ok(Unactionable(Invalidated, OddsDriftExceeded, evaluation.margin)))
        else None
  }

  /** What stops the allocation once every earlier check has passed. */
  ghost predicate AllocationFails(opportunity: Opportunity, quotes: seq<OddsQuote>, policy: ActionabilityPolicy,
                                  error: AllocationError)
    requires |quotes| > 0
  {
    if quotes[0].event != opportunity.event then error == WrongEvent
    else if quotes[0].market != opportunity.market then error == WrongMarket
    else error.BadConstraint?
         && ConstraintsFail(OrderedBySelection(quotes), policy.constraints, policy.rounding.quantum, error.error)
  }

  /** What revalidation concludes about these quotes. */
  ghost predicate Revalidates(e: LifecycleEvaluation, opportunity: Opportunity, quotes: seq<OddsQuote>, now: Instant,
                              policy: ActionabilityPolicy)
  {
    match EarlyOutcome(opportunity, quotes, now, policy)
    case Some(early) => early == Ok(e)
    case None =>
      var ordered, quantum := OrderedBySelection(quotes), policy.rounding.quantum;
      && |quotes| > 0 && e.margin == EvaluateMarket(quotes, Selections(quotes), 0.0).value.margin
      && match e.figures
         case None =>
           && e.state == Validated && e.reason == StakesInfeasible
           && forall amounts :: !SafeStakes(ordered, policy.constraints, quantum, policy.Exposure(), 0.0, amounts)
         case Some(f) =>
           && FiguresOf(f, policy) && IsBestPlan(f.plan, ordered, policy.constraints, quantum, policy.Exposure(), 0.0)
           && e.reason == (if f.netProfit < policy.minimumProfit then MinimumProfit
                           else if f.netRoi < policy.minimumRoi then MinimumRoi else ReadyToAct)
           && e.state == (if e.reason == ReadyToAct then Actionable else Validated)
  }

  // ----- The same, by the fields of the quotes

  /** The position of a reason among the checks; the market is evaluated at position 3. */
  function ReasonRank(reason: LifecycleReason): int {
    match reason
    case QuoteSetChanged => 0
    case MarketClosed => 1
    case StaleQuotes => 2
    case NoLongerArbitrage => 4
    case OddsDriftExceeded => 5
    case _ => 6
  }

  /** What speaks against acting before stakes are allocated. */
  ghost predicate Hinders(reason: LifecycleReason, opportunity: Opportunity, quotes: seq<OddsQuote>, now: Instant,
                          policy: ActionabilityPolicy)
  {
    match reason
    case QuoteSetChanged => |quotes| < 2 || OtherIds(quotes, opportunity.quoteIds)
    case MarketClosed => exists i :: 0 <= i < |quotes| && quotes[i].status != Active
    case StaleQuotes => exists i :: 0 <= i < |quotes| && !SeenRecently(quotes[i], now, policy.maximumAgeSeconds)
    case NoLongerArbitrage => ReciprocalSum(quotes) >= 1.0
    case OddsDriftExceeded =>
      && policy.maximumMarginDrift.Some? && ReciprocalSum(quotes) > 0.0
      && 1.0 / ReciprocalSum(quotes) - 1.0 < opportunity.margin - policy.maximumMarginDrift.value
    case _ => false
  }

  /** Stamped by its source, or else ingested, not after now and at most so many seconds ago. */
  predicate SeenRecently(quote: OddsQuote, now: Instant, seconds: real) {
    var seen := match quote.sourceTimestamp case Some(t) => t case None => quote.ingestedAt;
    seen <= now && (now - seen) as real <= seconds * 1_000_000.0
  }

  /** None of the reasons before this position applies. */
  ghost predicate NothingHindersBefore(position: int, opportunity: Opportunity, quotes: seq<OddsQuote>, now: Instant,
                                       policy: ActionabilityPolicy)
  {
    forall reason :: ReasonRank(reason) < position ==> !Hinders(reason, opportunity, quotes, now, policy)
  }

  /** The quotes are one per selection, of one event and market, and each has its own id. */
  ghost predicate MarketInOrder(quotes: seq<OddsQuote>) {
    forall check :: !FindsWrong(check, quotes, Selections(quotes), 0.0)
  }

  /** The first check on the market that finds something wrong. */
  ghost predicate FirstToFail(check: MathError, quotes: seq<OddsQuote>) {
    && FindsWrong(check, quotes, Selections(quotes), 0.0)
    && forall c :: CheckRank(c) < CheckRank(check) ==> !FindsWrong(c, quotes, Selections(quotes), 0.0)
  }

  function StateOf(reason: LifecycleReason): LifecycleState {
    match reason
    case QuoteSetChanged => Invalidated
    case MarketClosed => Expired
    case StaleQuotes => Stale
    case NoLongerArbitrage => Invalidated
    case OddsDriftExceeded => Invalidated
    case ReadyToAct => Actionable
    case _ => Validated
  }

  /** The result names the first reason that applies, and the margin that the current prices imply. */
  ghost predicate Judges(r: Result<LifecycleEvaluation, LifecycleError>, opportunity: Opportunity,
                         quotes: seq<OddsQuote>, now: Instant, policy: ActionabilityPolicy)
  {
    match r
    case Err(EvaluationFailed(check)) =>
      NothingHindersBefore(3, opportunity, quotes, now, policy) && FirstToFail(check, quotes)
    case Err(AllocationFailed(_)) =>
      NothingHindersBefore(6, opportunity, quotes, now, policy) && MarketInOrder(quotes)
    case Ok(e) =>
      var position := ReasonRank(e.reason);
      && NothingHindersBefore(position, opportunity, quotes, now, policy)
      && (position < 6 ==> Hinders(e.reason, opportunity, quotes, now, policy))
      && (position > 3 ==> MarketInOrder(quotes) && ReciprocalSum(quotes) > 0.0)
      && e.state == StateOf(e.reason)
      && e.margin == (if position > 3 then 1.0 / ReciprocalSum(quotes) - 1.0 else 0.0)
      && (e.figures.Some? <==> e.reason in {MinimumProfit, MinimumRoi, ReadyToAct})
  }

  lemma FreshMeans(quotes: seq<OddsQuote>, now: Instant, policy: ActionabilityPolicy)
    ensures AllFresh(quotes, now, policy.maximumAgeSeconds)
            <==> forall i :: 0 <= i < |quotes| ==> SeenRecently(quotes[i], now, policy.maximumAgeSeconds)
  {
    forall i | 0 <= i < |quotes|
      ensures FreshEnough(quotes[i], now, policy.maximumAgeSeconds)
              <==> SeenRecently(quotes[i], now, policy.maximumAgeSeconds)
    {
    }
  }

  lemma EarlyChecksMean(opportunity: Opportunity, quotes: seq<OddsQuote>, now: Instant, policy: ActionabilityPolicy)
    ensures Hinders(QuoteSetChanged, opportunity, quotes, now, policy) <==> !SameQuoteSet(opportunity, quotes)
    ensures Hinders(MarketClosed, opportunity, quotes, now, policy) <==> !AllActive(quotes)
    ensures Hinders(StaleQuotes, opportunity, quotes, now, policy)
            <==> !AllFresh(quotes, now, policy.maximumAgeSeconds)
  {
    hide OtherIds, SeenRecently, AllFresh, Ids;
    OtherIdsMeans(quotes, opportunity.quoteIds);
    FreshMeans(quotes, now, policy);
  }

  lemma EvaluatedMeans(opportunity: Opportunity, quotes: seq<OddsQuote>, now: Instant, policy: ActionabilityPolicy)
    ensures var r := EvaluateMarket(quotes, Selections(quotes), 0.0);
      && (r.Err? ==> FirstToFail(r.error, quotes))
      && (r.Ok? ==>
            && MarketInOrder(quotes) && ReciprocalSum(quotes) > 0.0
            && r.value.margin == 1.0 / ReciprocalSum(quotes) - 1.0
            && (Hinders(NoLongerArbitrage, opportunity, quotes, now, policy) <==> !r.value.isArbitrage)
            && (Hinders(OddsDriftExceeded, opportunity, quotes, now, policy)
                <==> DriftExceeded(opportunity, r.value, policy)))
  {
    hide EvaluateMarket, ReciprocalSum, FindsWrong, Selections, InSelectionOrder;
    EvaluationMeans(quotes, Selections(quotes), 0.0);
    if ReciprocalSum(quotes) > 0.0 {
      SumBelowOneIsProfit(ReciprocalSum(quotes));
    }
  }

  lemma EarlyMeans(opportunity: Opportunity, quotes: seq<OddsQuote>, now: Instant, policy: ActionabilityPolicy)
    ensures var early := EarlyOutcome(opportunity, quotes, now, policy);
      && (early.Some? ==> Judges(early.value, opportunity, quotes, now, policy))
      && (early.None? ==>
            && NothingHindersBefore(6, opportunity, quotes, now, policy) && MarketInOrder(quotes)
            && ReciprocalSum(quotes) > 0.0
            && EvaluateMarket(quotes, Selections(quotes), 0.0).value.margin == 1.0 / ReciprocalSum(quotes) - 1.0)
  {
    hide Hinders, SameQuoteSet, AllActive, AllFresh, EvaluateMarket, DriftExceeded, MarketInOrder, FirstToFail,
      ReciprocalSum;
    EarlyChecksMean(opportunity, quotes, now, policy);
    EvaluatedMeans(opportunity, quotes, now, policy);
  }

  lemma DriftWithin(opportunity: Opportunity, quotes: seq<OddsQuote>, now: Instant, policy: ActionabilityPolicy)
    ensures NothingHindersBefore(6, opportunity, quotes, now, policy) && ReciprocalSum(quotes) > 0.0
            && policy.maximumMarginDrift.Some? ==>
              1.0 / ReciprocalSum(quotes) - 1.0 >= opportunity.margin - policy.maximumMarginDrift.value
  {
    hide ReciprocalSum;
    assert NothingHindersBefore(6, opportunity, quotes, now, policy) ==>
        !Hinders(OddsDriftExceeded, opportunity, quotes, now, policy);
  }

  /**
    An actionable result is safe end to end, infeasible stakes are reported only when no
    safe plan exists within the exposure, and an error is raised exactly when the market
    cannot be evaluated, the quotes belong elsewhere, or the stake constraints are unusable.
   */
  method RevalidateOpportunity(opportunity: Opportunity, quotes: seq<OddsQuote>, now: Instant, planId: Id,
                               policy: ActionabilityPolicy)
    returns (r: Result<LifecycleEvaluation, LifecycleError>)
    ensures var early := EarlyOutcome(opportunity, quotes, now, policy);
      early.Some? ==> r == early.value
    ensures EarlyOutcome(opportunity, quotes, now, policy).None? ==>
      && |quotes| > 0 && (r.Err? ==> r.error.AllocationFailed?)
      && forall e :: r == Err(AllocationFailed(e)) <==> AllocationFails(opportunity, quotes, policy, e)
    ensures r.Ok? ==> Revalidates(r.value, opportunity, quotes, now, policy)
    ensures r.Ok? ==> (r.value.state == Actionable <==> r.value.reason == ReadyToAct)
    ensures r.Ok? && r.value.state == Actionable ==>
              r.value.figures.Some? && SafeToAct(quotes, now, policy, r.value.figures.value)
    ensures Judges(r, opportunity, quotes, now, policy)
    ensures r.Ok? && r.value.figures.Some? ==>
              var plan := r.value.figures.value.plan;
              && plan.id == planId && plan.opportunityId == opportunity.id && plan.createdAt == now
              && plan.currency == policy.rounding.currency && plan.bankroll == policy.Exposure()
    ensures r.Ok? && r.value.state == Actionable && policy.maximumMarginDrift.Some? ==>
              && ReciprocalSum(quotes) > 0.0
              && 1.0 / ReciprocalSum(quotes) - 1.0 >= opportunity.margin - policy.maximumMarginDrift.value
  {
    hide LegReturns, FiguresOf, Describes, NothingPaysMore, NothingCheaper, SafeStakes, ConstraintsFail, EvaluateMarket,
      AllocationFault, SortBy, FreshEnough, SafePlan, ReciprocalSum, MarketInOrder, FirstToFail, Refuses, Hinders,
      NothingHindersBefore;
    EarlyMeans(opportunity, quotes, now, policy);
    DriftWithin(opportunity, quotes, now, policy);
    var early := EarlyOutcome(opportunity, quotes, now, policy);
    if early.Some? {
      return early.value;
    }
    Established(opportunity, quotes, now, policy);
    var evaluated := Evaluate(quotes, Selections(quotes), 0.0);
    var evaluation := evaluated.value;
    var exposure := policy.Exposure();
    OrderingTwice(quotes);
    OnlyElsewhere(opportunity, quotes, now, policy);
    var allocation := AllocateStakes(Revalidated(opportunity, evaluation), evaluation.quotes, exposure, planId, now,
                                    policy.rounding, policy.constraints, 0.0);
    if allocation.Raised? {
      return Err(AllocationFailed(allocation.error));
    }
    if allocation.Nothing? {
      return Ok(Unactionable(Validated, StakesInfeasible, evaluation.margin));
    }
    var judged := JudgePlan(allocation.value, evaluation.quotes, policy, evaluation.margin);
    return Ok(judged);
  }

  /** What the early checks leave established. */
  lemma Established(opportunity: Opportunity, quotes: seq<OddsQuote>, now: Instant, policy: ActionabilityPolicy)
    requires EarlyOutcome(opportunity, quotes, now, policy).None?
    ensures |quotes| >= 2 && AllActive(quotes) && AllFresh(quotes, now, policy.maximumAgeSeconds)
    ensures Distinct(Ids(quotes)) && Distinct(Selections(quotes))
    ensures forall q :: q in quotes ==> q.event == quotes[0].event && q.market == quotes[0].market
    ensures var r, ordered := EvaluateMarket(quotes, Selections(quotes), 0.0), OrderedBySelection(quotes);
      && r.Ok? && r.value.quotes == ordered && |ordered| == |quotes|
      && r.value.impliedSum == ImpliedSum(Prices(ordered)) && r.value.impliedSum > 0.0
      && r.value.margin == 1.0 / r.value.impliedSum - 1.0
  {
    hide Distinct, SortBy, ImpliedSum, FreshEnough, DriftExceeded;
    ImpliedSumPositive(Prices(OrderedBySelection(quotes)));
  }

  /** After the early checks the allocator's own checks can fail only on the event and the market. */
  lemma OnlyElsewhere(opportunity: Opportunity, quotes: seq<OddsQuote>, now: Instant, policy: ActionabilityPolicy)
    requires EarlyOutcome(opportunity, quotes, now, policy).None?
    ensures |quotes| > 0 && EvaluateMarket(quotes, Selections(quotes), 0.0).Ok?
    ensures var evaluation := EvaluateMarket(quotes, Selections(quotes), 0.0).value;
      AllocationFault(Revalidated(opportunity, evaluation), evaluation.quotes, policy.Exposure(), 0.0)
      == if quotes[0].event != opportunity.event then Some(WrongEvent)
         else if quotes[0].market != opportunity.market then Some(WrongMarket) else None
  {
    hide EarlyOutcome, EvaluateMarket, ImpliedSum, Sum, Distinct, SortBy, Insert, KeyLess, AllFresh;
    Established(opportunity, quotes, now, policy);
    var ordered := OrderedBySelection(quotes);
    SortByMembers(quotes, BySelection);
    OrderingTwice(quotes);
    assert quotes[0] in quotes && quotes[0] in ordered && ordered[0] in ordered;
    KeepsDistinct(quotes);
  }

  function ByQuoteId(quote: OddsQuote): Key { [quote.id] }

  lemma DistinctMeans(quotes: seq<OddsQuote>)
    ensures Distinct(Ids(quotes)) <==> DistinctKeys(quotes, ByQuoteId)
    ensures Distinct(Selections(quotes)) <==> DistinctKeys(quotes, BySelection)
  {
    forall i, j | 0 <= i < j < |quotes|
      ensures Ids(quotes)[i] == Ids(quotes)[j] <==> ByQuoteId(quotes[i]) == ByQuoteId(quotes[j])
      ensures Selections(quotes)[i] == Selections(quotes)[j] <==> BySelection(quotes[i]) == BySelection(quotes[j])
    {
      assert ByQuoteId(quotes[i])[0] == quotes[i].id && ByQuoteId(quotes[j])[0] == quotes[j].id;
      assert BySelection(quotes[i])[0] == quotes[i].selection && BySelection(quotes[j])[0] == quotes[j].selection;
    }
  }

  /** Sorting keeps ids and selections distinct. */
  lemma KeepsDistinct(quotes: seq<OddsQuote>)
    requires Distinct(Ids(quotes)) && Distinct(Selections(quotes))
    ensures var ordered := OrderedBySelection(quotes); Distinct(Ids(ordered)) && Distinct(Selections(ordered))
  {
    var ordered := OrderedBySelection(quotes);
    DistinctMeans(quotes);
    DistinctMeans(ordered);
    PermutationKeepsDistinctKeys(quotes, ordered, ByQuoteId);
    PermutationKeepsDistinctKeys(quotes, ordered, BySelection);
  }

  /** Nets the plan's profit and compares it with the policy's floors. */
  method JudgePlan(plan: StakePlan, ordered: seq<OddsQuote>, policy: ActionabilityPolicy, margin: real)
    returns (r: LifecycleEvaluation)
    requires |ordered| > 0 && Describes(plan, ordered, policy.rounding.quantum)
    requires SafeStakes(ordered, policy.constraints, policy.rounding.quantum, policy.Exposure(), 0.0,
                        Amounts(plan.allocations))
    ensures r.margin == margin && r.figures.Some? && r.figures.value.plan == plan
    ensures FiguresOf(r.figures.value, policy)
    ensures r.reason == (if r.figures.value.netProfit < policy.minimumProfit then MinimumProfit
                         else if r.figures.value.netRoi < policy.minimumRoi then MinimumRoi else ReadyToAct)
    ensures r.state == (if r.reason == ReadyToAct then Actionable else Validated)
    ensures r.state == Actionable ==> SafePlan(ordered, policy, r.figures.value)
  {
    hide Sum, NetProfit, SafeStakes, Describes, SafePlan;
    ghost var amounts := Amounts(plan.allocations);
    var staked := Staked(plan);
    StakesPositive(ordered, policy.constraints, policy.rounding.quantum, policy.Exposure(), 0.0, amounts);
    GrossPositive(plan, ordered, policy.constraints, policy.rounding.quantum, policy.Exposure());
    var grossProfit := plan.guaranteedProfit;
    var netProfit := NetProfit(grossProfit, policy);
    var netRoi := netProfit / staked;
    NetProfitFactors(grossProfit, policy);
    var figures := Some(Figures(plan, grossProfit, netProfit, netRoi));
    if netProfit < policy.minimumProfit || netProfit <= 0.0 {
      return LifecycleEvaluation(Validated, MinimumProfit, margin, figures);
    } else if netRoi < policy.minimumRoi {
      return LifecycleEvaluation(Validated, MinimumRoi, margin, figures);
    } else {
      PlanIsSafe(ordered, policy, figures.value);
      return LifecycleEvaluation(Actionable, ReadyToAct, margin, figures);
    }
  }

  lemma GrossPositive(plan: StakePlan, ordered: seq<OddsQuote>, constraints: seq<StakeConstraint>, quantum: Positive,
                      bankroll: real)
    requires |ordered| > 0 && Describes(plan, ordered, quantum)
    requires SafeStakes(ordered, constraints, quantum, bankroll, 0.0, Amounts(plan.allocations))
    ensures plan.guaranteedProfit > 0.0
  {
    hide Sum;
  }

  /** A safe plan whose figures reach the floors is safe to act on. */
  lemma PlanIsSafe(ordered: seq<OddsQuote>, policy: ActionabilityPolicy, figures: Figures)
    requires |ordered| > 0 && Describes(figures.plan, ordered, policy.rounding.quantum)
    requires SafeStakes(ordered, policy.constraints, policy.rounding.quantum, policy.Exposure(), 0.0,
                        Amounts(figures.plan.allocations))
    requires FiguresOf(figures, policy) && figures.netProfit > 0.0
    requires figures.netProfit >= policy.minimumProfit && figures.netRoi >= policy.minimumRoi
    ensures SafePlan(ordered, policy, figures)
  {
    hide LegReturns, Sum;
    EveryLegReturns(figures.plan, ordered, policy, 0.0);
  }

  lemma EveryLegReturns(plan: StakePlan, ordered: seq<OddsQuote>, policy: ActionabilityPolicy, threshold: real)
    requires Describes(plan, ordered, policy.rounding.quantum)
    requires SafeStakes(ordered, policy.constraints, policy.rounding.quantum, policy.Exposure(), threshold,
                        Amounts(plan.allocations))
    ensures |plan.allocations| == |ordered|
    ensures forall i :: 0 <= i < |ordered| ==>
              LegReturns(ordered[i], plan.allocations[i], Sum(Amounts(plan.allocations)), plan.guaranteedProfit)
  {
    forall i | 0 <= i < |ordered|
      ensures LegReturns(ordered[i], plan.allocations[i], Sum(Amounts(plan.allocations)), plan.guaranteedProfit)
    {
      assert Amounts(plan.allocations)[i] > 0.0;
      PlanReturns(plan, ordered, policy.rounding.quantum, i);
    }
  }

  method Staked(plan: StakePlan) returns (total: real)
    ensures total == Sum(Amounts(plan.allocations))
  {
    total := 0.0;
    var amounts := Amounts(plan.allocations);
    for i := 0 to |amounts|
      invariant total == Sum(amounts[..i])
    {
      SumStep(amounts, i);
      total := total + amounts[i];
    }
    assert amounts[..|amounts|] == amounts;
  }

  /** Quotes already in selection order stay as they are. */
  lemma OrderingTwice(quotes: seq<OddsQuote>)
    ensures OrderedBySelection(OrderedBySelection(quotes)) == OrderedBySelection(quotes)
    ensures |OrderedBySelection(quotes)| == |quotes|
  {
    SortBySorts(quotes, BySelection);
    SortBySorted(OrderedBySelection(quotes), BySelection);
  }
}
