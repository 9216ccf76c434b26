/** The public allocator: validation, the two searches, and the stake plan. */
module Allocation {
  import opened Wrappers
  import opened Reals
  import opened Ordering
  import opened Domain
  import opened ArbitrageMath
  import opened StakeConstraints
  import opened WaterFilling
  import opened StakeSearch

  datatype RoundingPolicy = RoundingPolicy(currency: Id, quantum: Positive)

  datatype AllocationError =
    | OpportunityNotActive | BankrollNotPositive | ThresholdNegative | NeedsTwoQuotes
    | QuoteNotActive | WrongEvent | WrongMarket | QuoteIdsRepeat | SelectionsRepeat
    | QuoteSetMismatch | ImpliedSumMismatch | MarginMismatch
    | BadConstraint(error: ConstraintError)

  function AllocationFault(opportunity: Opportunity, quotes: seq<OddsQuote>, bankroll: real, threshold: real)
    : Option<AllocationError>
  {
    if opportunity.status != OpportunityActive then Some(OpportunityNotActive)
    else if bankroll <= 0.0 then Some(BankrollNotPositive)
    else if threshold < 0.0 then Some(ThresholdNegative)
    else if |quotes| < 2 then Some(NeedsTwoQuotes)
    else if exists q :: q in quotes && q.status != Active then Some(QuoteNotActive)
    else if exists q :: q in quotes && q.event != opportunity.event then Some(WrongEvent)
    else if exists q :: q in quotes && q.market != opportunity.market then Some(WrongMarket)
    else if !Distinct(Ids(quotes)) then Some(QuoteIdsRepeat)
    else if !Distinct(Selections(quotes)) then Some(SelectionsRepeat)
    else if Members(Ids(quotes)) != Members(opportunity.quoteIds) then Some(QuoteSetMismatch)
    else
      var odds := Prices(OrderedBySelection(quotes));
      ImpliedSumPositive(odds);
      if ImpliedSum(odds) != opportunity.impliedSum then Some(ImpliedSumMismatch)
      else if 1.0 / ImpliedSum(odds) - 1.0 != opportunity.margin then Some(MarginMismatch)
      else None
  }

  // ----- What a refusal says, by the fields it looks at

  /** The position of a check among those the program makes. */
  function RefusalRank(error: AllocationError): int {
    match error
    case OpportunityNotActive => 0
    case BankrollNotPositive => 1
    case ThresholdNegative => 2
    case NeedsTwoQuotes => 3
    case QuoteNotActive => 4
    case WrongEvent => 5
    case WrongMarket => 6
    case QuoteIdsRepeat => 7
    case SelectionsRepeat => 8
    case QuoteSetMismatch => 9
    case ImpliedSumMismatch => 10
    case MarginMismatch => 11
    case BadConstraint(_) => 12
  }

  /** What each check before the constraints finds wrong. */
  ghost predicate Refuses(error: AllocationError, opportunity: Opportunity, quotes: seq<OddsQuote>, bankroll: real,
                          threshold: real)
  {
    match error
    case OpportunityNotActive => opportunity.status != OpportunityActive
    case BankrollNotPositive => bankroll <= 0.0
    case ThresholdNegative => threshold < 0.0
    case NeedsTwoQuotes => |quotes| < 2
    case QuoteNotActive => exists i :: 0 <= i < |quotes| && quotes[i].status != Active
    case WrongEvent => exists i :: 0 <= i < |quotes| && quotes[i].event != opportunity.event
    case WrongMarket => exists i :: 0 <= i < |quotes| && quotes[i].market != opportunity.market
    case QuoteIdsRepeat => exists i, j :: 0 <= i < j < |quotes| && quotes[i].id == quotes[j].id
    case SelectionsRepeat => exists i, j :: 0 <= i < j < |quotes| && quotes[i].selection == quotes[j].selection
    case QuoteSetMismatch => OtherIds(quotes, opportunity.quoteIds)
    case ImpliedSumMismatch => ReciprocalSum(quotes) != opportunity.impliedSum
    case MarginMismatch => ReciprocalSum(quotes) > 0.0 && 1.0 / ReciprocalSum(quotes) - 1.0 != opportunity.margin
    case BadConstraint(_) => false
  }

  /** Some quote's id is not listed, or some listed id is no quote's. */
  ghost predicate OtherIds(quotes: seq<OddsQuote>, ids: seq<Id>) {
    || (exists i :: 0 <= i < |quotes| && quotes[i].id !in ids)
    || exists k :: 0 <= k < |ids| && forall i :: 0 <= i < |quotes| ==> quotes[i].id != ids[k]
  }

  lemma OtherIdsMeans(quotes: seq<OddsQuote>, ids: seq<Id>)
    ensures OtherIds(quotes, ids) <==> Members(Ids(quotes)) != Members(ids)
  {
    var own := Ids(quotes);
    assert forall i :: 0 <= i < |quotes| ==> own[i] == quotes[i].id;
    if OtherIds(quotes, ids) {
      if i :| 0 <= i < |quotes| && quotes[i].id !in ids {
        assert own[i] in Members(own) && own[i] !in Members(ids);
      } else {
        var k :| 0 <= k < |ids| && forall i :: 0 <= i < |quotes| ==> quotes[i].id != ids[k];
        assert ids[k] in Members(ids) && ids[k] !in Members(own);
      }
    } else {
      forall id
        ensures id in Members(own) <==> id in Members(ids)
      {
        if id in ids {
          var k :| 0 <= k < |ids| && ids[k] == id;
        }
      }
    }
  }

  lemma RefusalChecksMean(opportunity: Opportunity, quotes: seq<OddsQuote>, bankroll: real, threshold: real)
    ensures Refuses(QuoteNotActive, opportunity, quotes, bankroll, threshold)
            <==> exists q :: q in quotes && q.status != Active
    ensures Refuses(WrongEvent, opportunity, quotes, bankroll, threshold)
            <==> exists q :: q in quotes && q.event != opportunity.event
    ensures Refuses(WrongMarket, opportunity, quotes, bankroll, threshold)
            <==> exists q :: q in quotes && q.market != opportunity.market
    ensures Refuses(QuoteIdsRepeat, opportunity, quotes, bankroll, threshold) <==> !Distinct(Ids(quotes))
    ensures Refuses(SelectionsRepeat, opportunity, quotes, bankroll, threshold) <==> !Distinct(Selections(quotes))
  {
    assert forall i :: 0 <= i < |quotes| ==> Ids(quotes)[i] == quotes[i].id;
    assert forall i :: 0 <= i < |quotes| ==> Selections(quotes)[i] == quotes[i].selection;
  }

  lemma SumChecksMean(opportunity: Opportunity, quotes: seq<OddsQuote>, bankroll: real, threshold: real)
    requires |quotes| > 0
    ensures var s := ImpliedSum(Prices(OrderedBySelection(quotes)));
      && s > 0.0
      && (Refuses(ImpliedSumMismatch, opportunity, quotes, bankroll, threshold) <==> s != opportunity.impliedSum)
      && (Refuses(MarginMismatch, opportunity, quotes, bankroll, threshold) <==> 1.0 / s - 1.0 != opportunity.margin)
  {
    hide ImpliedSum, ReciprocalSum;
    OrderedSum(quotes);
    ImpliedSumPositive(Prices(OrderedBySelection(quotes)));
  }

  /** The first check that finds something wrong is the one reported; without one all of them pass. */
  lemma RefusalMeans(opportunity: Opportunity, quotes: seq<OddsQuote>, bankroll: real, threshold: real)
    ensures var fault := AllocationFault(opportunity, quotes, bankroll, threshold);
      && (fault.Some? ==> Refuses(fault.value, opportunity, quotes, bankroll, threshold))
      && forall e :: RefusalRank(e) < (if fault.Some? then RefusalRank(fault.value) else 12) ==>
           !Refuses(e, opportunity, quotes, bankroll, threshold)
    ensures AllocationFault(opportunity, quotes, bankroll, threshold).None? ==> |quotes| >= 2
  {
    hide ImpliedSum, ReciprocalSum, OtherIds, SortBy, Distinct, Ids, Selections, Members;
    RefusalChecksMean(opportunity, quotes, bankroll, threshold);
    OtherIdsMeans(quotes, opportunity.quoteIds);
    if |quotes| > 0 {
      SumChecksMean(opportunity, quotes, bankroll, threshold);
    }
  }

  /** A stake vector that respects the stated limits and profits whichever leg wins. */
  ghost predicate SafeStakes(quotes: seq<OddsQuote>, constraints: seq<StakeConstraint>, quantum: Positive,
                             bankroll: real, threshold: real, amounts: seq<real>)
    requires |quotes| > 0
  {
    && |amounts| == |quotes|
    && (forall i :: 0 <= i < |quotes| ==> Admissible(StatedFor(constraints, quotes[i].id, quantum), amounts[i]))
    && Profitable(quotes, amounts, bankroll, quantum, threshold)
  }

  /** No safe stake vector guarantees more than `payout`. */
  ghost predicate NothingPaysMore(quotes: seq<OddsQuote>, constraints: seq<StakeConstraint>, quantum: Positive,
                                  bankroll: real, threshold: real, payout: real)
    requires |quotes| > 0
  {
    forall amounts :: SafeStakes(quotes, constraints, quantum, bankroll, threshold, amounts)
                      ==> GuaranteedPayout(quotes, amounts, quantum) <= payout
  }

  /** Among the safe stake vectors of the same guaranteed payout none stakes less on any leg. */
  ghost predicate NothingCheaper(quotes: seq<OddsQuote>, constraints: seq<StakeConstraint>, quantum: Positive,
                                 bankroll: real, threshold: real, amounts: seq<real>)
    requires |quotes| == |amounts| > 0
  {
    forall others, i ::
      && SafeStakes(quotes, constraints, quantum, bankroll, threshold, others)
      && GuaranteedPayout(quotes, others, quantum) == GuaranteedPayout(quotes, amounts, quantum)
      && 0 <= i < |quotes|
      ==> amounts[i] <= others[i]
  }

  function Amounts(allocations: seq<StakeAllocation>): seq<real> {
    seq(|allocations|, i requires 0 <= i < |allocations| => allocations[i].amount)
  }

  /** The plan lists every leg in order with its stake and rounded payout, and its totals add up. */
  ghost predicate Describes(plan: StakePlan, quotes: seq<OddsQuote>, quantum: Positive) {
    && |plan.allocations| == |quotes| > 0
    && (forall i :: 0 <= i < |quotes| ==>
          plan.allocations[i] == StakeAllocation(quotes[i].id, quotes[i].selection, quotes[i].provider,
                                   plan.allocations[i].amount,
                                   ConservativePayout(plan.allocations[i].amount, quotes[i].price, quantum)))
    && plan.guaranteedPayout == GuaranteedPayout(quotes, Amounts(plan.allocations), quantum)
    && plan.guaranteedProfit == plan.guaranteedPayout - Sum(Amounts(plan.allocations))
  }

  /** The limits of a quote: those of the constraint that names it, or any positive multiple of the quantum. */
  lemma {:induction false} LimitsMean(constraints: seq<StakeConstraint>, id: Id, quantum: Positive, amount: real)
    requires Distinct(StatedIds(constraints))
    ensures forall k :: 0 <= k < |constraints| && constraints[k].quoteId == id ==>
              StatedFor(constraints, id, quantum) == constraints[k]
    ensures (forall k :: 0 <= k < |constraints| ==> constraints[k].quoteId != id) ==>
              (Admissible(StatedFor(constraints, id, quantum), amount) <==> amount > 0.0 && OnGrid(amount, quantum))
  {
    if |constraints| > 0 {
      var n := |constraints| - 1;
      var ids := StatedIds(constraints);
      assert StatedIds(constraints[..n]) == ids[..n];
      assert forall k :: 0 <= k <= n ==> constraints[k].quoteId == ids[k];
      assert forall k :: 0 <= k < n ==> ids[k] != ids[n] && constraints[..n][k] == constraints[k];
      LimitsMean(constraints[..n], id, quantum, amount);
    }
  }

  /** What is known of a returned plan. */
  ghost predicate IsBestPlan(plan: StakePlan, quotes: seq<OddsQuote>, constraints: seq<StakeConstraint>,
                             quantum: Positive, bankroll: real, threshold: real)
  {
    && Describes(plan, quotes, quantum)
    && SafeStakes(quotes, constraints, quantum, bankroll, threshold, Amounts(plan.allocations))
    && NothingPaysMore(quotes, constraints, quantum, bankroll, threshold, plan.guaranteedPayout)
    && NothingCheaper(quotes, constraints, quantum, bankroll, threshold, Amounts(plan.allocations))
  }

  /** That leaves no choice: two such plans stake and pay the same on every leg. */
  lemma BestPlanUnique(a: StakePlan, b: StakePlan, quotes: seq<OddsQuote>, constraints: seq<StakeConstraint>,
                       quantum: Positive, bankroll: real, threshold: real)
    requires IsBestPlan(a, quotes, constraints, quantum, bankroll, threshold)
    requires IsBestPlan(b, quotes, constraints, quantum, bankroll, threshold)
    ensures a.allocations == b.allocations
    ensures a.guaranteedPayout == b.guaranteedPayout && a.guaranteedProfit == b.guaranteedProfit
  {
    hide SafeStakes, GuaranteedPayout, ConservativePayout, Sum;
    var xs, ys := Amounts(a.allocations), Amounts(b.allocations);
    assert a.guaranteedPayout == b.guaranteedPayout;
    forall i | 0 <= i < |quotes|
      ensures xs[i] == ys[i]
    {
      assert xs[i] <= ys[i] && ys[i] <= xs[i];
    }
    assert xs == ys;
    forall i | 0 <= i < |quotes|
      ensures a.allocations[i] == b.allocations[i]
    {
      assert a.allocations[i].amount == xs[i] && b.allocations[i].amount == ys[i];
    }
  }

  /** No safe stakes of the plan's payout leave a larger profit. */
  lemma NoLargerProfit(plan: StakePlan, quotes: seq<OddsQuote>, constraints: seq<StakeConstraint>, quantum: Positive,
                       bankroll: real, threshold: real, amounts: seq<real>)
    requires IsBestPlan(plan, quotes, constraints, quantum, bankroll, threshold)
    requires SafeStakes(quotes, constraints, quantum, bankroll, threshold, amounts)
    requires GuaranteedPayout(quotes, amounts, quantum) == plan.guaranteedPayout
    ensures GuaranteedPayout(quotes, amounts, quantum) - Sum(amounts) <= plan.guaranteedProfit
  {
    hide GuaranteedPayout, ConservativePayout, Sum;
    SumMonotone(Amounts(plan.allocations), amounts);
  }

  /** A leg without room rules every plan out. */
  lemma NoRoomNoPlan(quotes: seq<OddsQuote>, constraints: seq<StakeConstraint>, quantum: Positive, bankroll: real,
                     threshold: real, k: nat)
    requires k < |quotes|
    requires !HasRoom(StatedFor(constraints, quotes[k].id, quantum))
    ensures forall amounts :: !SafeStakes(quotes, constraints, quantum, bankroll, threshold, amounts)
  {
    NothingAdmissible(StatedFor(constraints, quotes[k].id, quantum));
  }

  /** Minimums beyond the bankroll rule every plan out. */
  lemma MinimumsTooHigh(quotes: seq<OddsQuote>, effective: seq<EffectiveConstraint>, quantum: Positive, bankroll: real,
                        threshold: real)
    requires |quotes| == |effective| > 0
    requires Sum(Minimums(effective)) > bankroll
    ensures NoSafePlan(quotes, effective, bankroll, quantum, threshold)
  {
    forall amounts
      ensures !Safe(quotes, effective, amounts, bankroll, quantum, threshold)
    {
      if Accepted(effective, amounts) {
        SumMonotone(Minimums(effective), amounts);
      }
    }
  }

  /** Nothing found means nothing safe exists; a found plan is safe and best. */
  method FindPlan(quotes: seq<OddsQuote>, constraints: seq<StakeConstraint>, effective: seq<EffectiveConstraint>,
                  bankroll: real, quantum: Positive, threshold: real)
    returns (plan: Option<TargetPlan>)
    requires |quotes| == |effective| > 0
    requires forall i :: 0 <= i < |quotes| ==>
                           Represents(effective[i], StatedFor(constraints, quotes[i].id, quantum))
    ensures plan.None? ==>
              forall amounts :: !SafeStakes(quotes, constraints, quantum, bankroll, threshold, amounts)
    ensures plan.Some? ==>
      && Accounts(plan.value, quotes, quantum)
      && SafeStakes(quotes, constraints, quantum, bankroll, threshold, plan.value.amounts)
      && NothingPaysMore(quotes, constraints, quantum, bankroll, threshold, plan.value.guaranteedPayout)
      && NothingCheaper(quotes, constraints, quantum, bankroll, threshold, plan.value.amounts)
  {
    forall amounts
      ensures SafeStakes(quotes, constraints, quantum, bankroll, threshold, amounts)
              <==> Safe(quotes, effective, amounts, bankroll, quantum, threshold)
    {
    }
    var continuousTarget := ContinuousTargetPayout(quotes, effective, bankroll);
    if continuousTarget.None? {
      MinimumsTooHigh(quotes, effective, quantum, bankroll, threshold);
      return None;
    }
    plan := FindSafeDiscretePlan(quotes, effective, bankroll, continuousTarget.value, quantum, threshold);
  }

  /**
    Returns nothing exactly when no safe stake vector exists; otherwise the plan is
    one, and none guarantees more.
   */
  method AllocateStakes(opportunity: Opportunity, quotes: seq<OddsQuote>, bankroll: real, planId: Id,
                        createdAt: Instant, policy: RoundingPolicy, constraints: seq<StakeConstraint>,
                        minimumGuaranteedProfit: real)
    returns (r: Outcome<StakePlan, AllocationError>)
    ensures AllocationFault(opportunity, quotes, bankroll, minimumGuaranteedProfit).Some? ==>
              r == Raised(AllocationFault(opportunity, quotes, bankroll, minimumGuaranteedProfit).value)
    ensures AllocationFault(opportunity, quotes, bankroll, minimumGuaranteedProfit).None? ==>
      && (r.Raised? ==> r.error.BadConstraint?)
      && forall e :: r == Raised(BadConstraint(e))
                     <==> ConstraintsFail(OrderedBySelection(quotes), constraints, policy.quantum, e)
    ensures !r.Raised? ==>
              Members(StatedIds(constraints)) <= Members(Ids(quotes)) && Distinct(StatedIds(constraints))
    ensures var ordered, quantum, threshold := OrderedBySelection(quotes), policy.quantum, minimumGuaranteedProfit;
      && (r.Nothing? ==>
            && |quotes| > 0
            && forall amounts :: !SafeStakes(ordered, constraints, quantum, bankroll, threshold, amounts))
      && (r.Found? ==>
            && |quotes| > 0
            && r.value == r.value.(id := planId, opportunityId := opportunity.id, currency := policy.currency,
                                   bankroll := bankroll, createdAt := createdAt)
            && IsBestPlan(r.value, ordered, constraints, quantum, bankroll, threshold))
    ensures r.Raised? && !r.error.BadConstraint? ==>
              Refuses(r.error, opportunity, quotes, bankroll, minimumGuaranteedProfit)
    ensures forall e :: RefusalRank(e) < (if r.Raised? then RefusalRank(r.error) else 12) ==>
              !Refuses(e, opportunity, quotes, bankroll, minimumGuaranteedProfit)
  {
    hide AllocationFault, Refuses, SafeStakes, NothingPaysMore, NothingCheaper, ConstraintsFail, SortBy,
      GuaranteedPayout, ConservativePayout, Sum, HasRoom, OnQuantum, ChecksPassBelow, Distinct;
    var fault := AllocationFault(opportunity, quotes, bankroll, minimumGuaranteedProfit);
    RefusalMeans(opportunity, quotes, bankroll, minimumGuaranteedProfit);
    if fault.Some? {
      return Raised(fault.value);
    }
    var ordered := OrderedBySelection(quotes);
    SortByMembers(quotes, BySelection);
    assert Members(Ids(ordered)) == Members(Ids(quotes)) by {
      SameIds(quotes, ordered);
    }
    var effective := EffectiveConstraints(ordered, constraints, policy.quantum);
    if effective.Raised? {
      return Raised(BadConstraint(effective.error));
    }
    if effective.Nothing? {
      ghost var stated := StatedForAll(ordered, constraints, policy.quantum);
      ghost var k :| 0 <= k < |stated| && !HasRoom(stated[k]);
      NoRoomNoPlan(ordered, constraints, policy.quantum, bankroll, minimumGuaranteedProfit, k);
      return Nothing;
    }
    var selected := FindPlan(ordered, constraints, effective.value, bankroll, policy.quantum, minimumGuaranteedProfit);
    if selected.None? {
      return Nothing;
    }
    var plan := selected.value;
    var allocations := seq(|ordered|, i requires 0 <= i < |ordered| =>
      StakeAllocation(ordered[i].id, ordered[i].selection, ordered[i].provider, plan.amounts[i], plan.payouts[i]));
    assert Amounts(allocations) == plan.amounts;
    return Found(StakePlan(planId, opportunity.id, policy.currency, bankroll, allocations,
                           plan.guaranteedPayout, plan.guaranteedProfit, createdAt));
  }

  lemma SameIds(xs: seq<OddsQuote>, ys: seq<OddsQuote>)
    requires forall q :: q in xs <==> q in ys
    ensures Members(Ids(xs)) == Members(Ids(ys))
  {
    IdMembers(xs);
    IdMembers(ys);
  }

  lemma IdMembers(xs: seq<OddsQuote>)
    ensures forall id :: id in Ids(xs) <==> exists q :: q in xs && q.id == id
  {
    forall id
      ensures id in Ids(xs) <==> exists q :: q in xs && q.id == id
    {
      if id in Ids(xs) {
        var i :| 0 <= i < |xs| && Ids(xs)[i] == id;
        assert xs[i] in xs;
      }
      if q :| q in xs && q.id == id {
        var i :| 0 <= i < |xs| && xs[i] == q;
        assert Ids(xs)[i] == id;
      }
    }
  }
}
