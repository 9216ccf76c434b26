/**
  The discrete search: from the continuous bound walk down the payouts at which
  some leg's stake can drop by one increment, and stop at the first safe plan.
 */
module StakeSearch {
  import opened Wrappers
  import opened Reals
  import opened Domain
  import opened StakeConstraints
  import opened WaterFilling

  // ----- Plans

  function ConservativePayout(stake: real, price: Odds, quantum: Positive): real {
    FloorToGrid(stake * price, quantum)
  }

  function Payouts(quotes: seq<OddsQuote>, amounts: seq<real>, quantum: Positive): seq<real>
    requires |quotes| == |amounts|
  {
    seq(|quotes|, i requires 0 <= i < |quotes| => ConservativePayout(amounts[i], quotes[i].price, quantum))
  }

  function GuaranteedPayout(quotes: seq<OddsQuote>, amounts: seq<real>, quantum: Positive): real
    requires |quotes| == |amounts| > 0
  {
    MinOf(Payouts(quotes, amounts, quantum))
  }

  /** Positive and sufficient profit, whichever leg wins, within the bankroll. */
  ghost predicate Profitable(quotes: seq<OddsQuote>, amounts: seq<real>, bankroll: real, quantum: Positive,
                             threshold: real)
    requires |quotes| == |amounts| > 0
  {
    var profit := GuaranteedPayout(quotes, amounts, quantum) - Sum(amounts);
    Sum(amounts) <= bankroll && profit > 0.0 && profit >= threshold
  }

  ghost predicate Accepted(constraints: seq<EffectiveConstraint>, amounts: seq<real>) {
    |constraints| == |amounts| && forall i :: 0 <= i < |amounts| ==> constraints[i].Accepts(amounts[i])
  }

  ghost predicate Safe(quotes: seq<OddsQuote>, constraints: seq<EffectiveConstraint>, amounts: seq<real>,
                       bankroll: real, quantum: Positive, threshold: real)
    requires |quotes| == |constraints| > 0
  {
    Accepted(constraints, amounts) && Profitable(quotes, amounts, bankroll, quantum, threshold)
  }

  // ----- The least stakes that reach a target

  function LeastStake(quote: OddsQuote, constraint: EffectiveConstraint, target: real): real
  {
    Max(constraint.minimum, CeilToGrid(target / quote.price, constraint.increment))
  }

  function LeastStakes(quotes: seq<OddsQuote>, constraints: seq<EffectiveConstraint>, target: real): seq<real>
    requires |quotes| == |constraints|
  {
    seq(|quotes|, i requires 0 <= i < |quotes| => LeastStake(quotes[i], constraints[i], target))
  }

  lemma LeastStakeIsLeast(quote: OddsQuote, constraint: EffectiveConstraint, target: real, amount: real)
    requires OnGrid(amount, constraint.increment)
    ensures LeastStake(quote, constraint, target) <= amount <==>
            constraint.minimum <= amount && target <= amount * quote.price
  {
    CeilIsLeast(target / quote.price, constraint.increment, amount);
    DivideCompare(target, quote.price, amount);
  }

  lemma PayoutReaches(amount: real, price: Odds, quantum: Positive, target: real)
    requires OnGrid(target, quantum)
    ensures target <= ConservativePayout(amount, price, quantum) <==> target <= amount * price
  {
    FloorIsGreatest(amount * price, quantum, target);
  }

  /** A stake pays at least a quantum multiple, after rounding down, exactly from the least stake on. */
  lemma LegReaches(quote: OddsQuote, constraint: EffectiveConstraint, target: real, quantum: Positive, amount: real)
    requires OnGrid(amount, constraint.increment) && OnGrid(target, quantum)
    ensures LeastStake(quote, constraint, target) <= amount <==>
            constraint.minimum <= amount && target <= ConservativePayout(amount, quote.price, quantum)
  {
    PayoutReaches(amount, quote.price, quantum, target);
    LeastStakeIsLeast(quote, constraint, target, amount);
  }

  /** Lowering the target by any amount either keeps a leg's stake or drops it by a whole increment. */
  lemma LeastStakeDrop(quote: OddsQuote, constraint: EffectiveConstraint, low: real, high: real)
    requires constraint.Valid() && low <= high
    ensures var a, b := LeastStake(quote, constraint, low), LeastStake(quote, constraint, high);
      a == b || (a <= b - constraint.increment && constraint.minimum <= b - constraint.increment)
  {
    var a, b := LeastStake(quote, constraint, low), LeastStake(quote, constraint, high);
    LeastStakeIsLeast(quote, constraint, low, b);
    LeastStakeIsLeast(quote, constraint, high, b);
    if a < b {
      GridGap(a, b, constraint.increment);
    }
  }

  // ----- One step of the walk

  /** The payout of a leg at one increment below its stake, where the leg can go there. */
  ghost predicate LowerPayout(quote: OddsQuote, constraint: EffectiveConstraint, amount: real, target: real,
                              quantum: Positive, payout: real)
  {
    && constraint.minimum <= amount - constraint.increment
    && payout == ConservativePayout(amount - constraint.increment, quote.price, quantum)
    && 0.0 < payout < target
  }

  /** `next` is the greatest lower payout of any leg, or `None` when there is none. */
  ghost predicate NextBreakpoint(quotes: seq<OddsQuote>, constraints: seq<EffectiveConstraint>, amounts: seq<real>,
                                 target: real, quantum: Positive, next: Option<real>)
    requires |quotes| == |constraints| == |amounts|
  {
    && (forall i, p :: 0 <= i < |quotes| && LowerPayout(quotes[i], constraints[i], amounts[i], target, quantum, p)
                       ==> next.Some? && p <= next.value)
    && (next.Some? ==> exists i :: 0 <= i < |quotes|
                         && LowerPayout(quotes[i], constraints[i], amounts[i], target, quantum, next.value))
  }

  /**
    The walk skips nothing: between a target and its next lower breakpoint every
    payout on the currency quantum needs exactly the same stakes.
   */
  lemma SkipsNothing(quotes: seq<OddsQuote>, constraints: seq<EffectiveConstraint>, target: real, quantum: Positive,
                     next: Option<real>, between: real)
    requires |quotes| == |constraints| && AllValid(constraints)
    requires NextBreakpoint(quotes, constraints, LeastStakes(quotes, constraints, target), target, quantum, next)
    requires OnGrid(target, quantum) && OnGrid(between, quantum) && 0.0 < between <= target
    requires next.Some? ==> next.value < between
    ensures LeastStakes(quotes, constraints, between) == LeastStakes(quotes, constraints, target)
  {
    forall i | 0 <= i < |quotes|
      ensures LeastStake(quotes[i], constraints[i], between) == LeastStake(quotes[i], constraints[i], target)
    {
      SkipsNothingOnLeg(quotes[i], constraints[i], target, quantum, between);
      assert LeastStakes(quotes, constraints, target)[i] == LeastStake(quotes[i], constraints[i], target);
    }
  }

  lemma SkipsNothingOnLeg(quote: OddsQuote, constraint: EffectiveConstraint, target: real, quantum: Positive,
                          between: real)
    requires constraint.Valid()
    requires OnGrid(target, quantum) && OnGrid(between, quantum) && 0.0 < between <= target
    ensures var amount := LeastStake(quote, constraint, target);
      || LeastStake(quote, constraint, between) == amount
      || exists p :: between <= p && LowerPayout(quote, constraint, amount, target, quantum, p)
  {
    var less, amount := LeastStake(quote, constraint, between), LeastStake(quote, constraint, target);
    LeastStakeDrop(quote, constraint, between, target);
    if less != amount {
      var lower := amount - constraint.increment;
      GridShift(amount, constraint.increment);
      LegReaches(quote, constraint, between, quantum, lower);
      LegReaches(quote, constraint, target, quantum, lower);
      assert LowerPayout(quote, constraint, amount, target, quantum, ConservativePayout(lower, quote.price, quantum));
    }
  }

  // ----- Safe plans and targets

  /** The least stakes for an accepted plan's payout are no larger than the plan, leg by leg. */
  lemma LeastStakesBelow(quotes: seq<OddsQuote>, constraints: seq<EffectiveConstraint>, amounts: seq<real>,
                         quantum: Positive)
    requires |quotes| == |constraints| > 0
    requires Accepted(constraints, amounts)
    ensures var payout := GuaranteedPayout(quotes, amounts, quantum);
      && OnGrid(payout, quantum)
      && forall i :: 0 <= i < |quotes| ==> LeastStakes(quotes, constraints, payout)[i] <= amounts[i]
  {
    var payout := GuaranteedPayout(quotes, amounts, quantum);
    var payouts := Payouts(quotes, amounts, quantum);
    MinOfIsLeast(payouts, payout);
    assert OnGrid(payout, quantum) by {
      var k :| 0 <= k < |payouts| && payouts[k] == payout;
    }
    forall i | 0 <= i < |quotes|
      ensures LeastStake(quotes[i], constraints[i], payout) <= amounts[i]
    {
      assert payout <= payouts[i];
      LegReaches(quotes[i], constraints[i], payout, quantum, amounts[i]);
    }
  }

  /** The least stakes for a quantum multiple guarantee at least that payout. */
  lemma LeastStakesReach(quotes: seq<OddsQuote>, constraints: seq<EffectiveConstraint>, target: real, quantum: Positive)
    requires |quotes| == |constraints| > 0 && AllValid(constraints)
    requires OnGrid(target, quantum)
    ensures target <= GuaranteedPayout(quotes, LeastStakes(quotes, constraints, target), quantum)
  {
    var least := LeastStakes(quotes, constraints, target);
    var payouts := Payouts(quotes, least, quantum);
    forall i | 0 <= i < |payouts|
      ensures target <= payouts[i]
    {
      LegReaches(quotes[i], constraints[i], target, quantum, least[i]);
    }
    MinOfIsLeast(payouts, target);
  }

  /** Replacing a safe plan by the least stakes for its own payout keeps it safe. */
  lemma LeastStakesSafe(quotes: seq<OddsQuote>, constraints: seq<EffectiveConstraint>, amounts: seq<real>,
                        bankroll: real, quantum: Positive, threshold: real)
    requires |quotes| == |constraints| > 0 && AllValid(constraints)
    requires Safe(quotes, constraints, amounts, bankroll, quantum, threshold)
    ensures var payout := GuaranteedPayout(quotes, amounts, quantum);
      Safe(quotes, constraints, LeastStakes(quotes, constraints, payout), bankroll, quantum, threshold)
  {
    var payout := GuaranteedPayout(quotes, amounts, quantum);
    var least := LeastStakes(quotes, constraints, payout);
    LeastStakesBelow(quotes, constraints, amounts, quantum);
    SumMonotone(least, amounts);
    forall i | 0 <= i < |quotes|
      ensures constraints[i].Accepts(least[i])
    {
    }
    LeastStakesReach(quotes, constraints, payout, quantum);
  }

  lemma SafeStakeSuffices(quote: OddsQuote, constraint: EffectiveConstraint, amount: real, payout: real)
    requires constraint.Valid() && constraint.Accepts(amount)
    requires LeastStake(quote, constraint, payout) <= amount
    ensures Max(constraint.minimum, payout / quote.price) <= amount
    ensures BelowCap(quote, constraint, payout)
  {
    if constraint.maximum.Some? {
      LeastStakeIsLeast(quote, constraint, payout, constraint.maximum.value);
    }
  }

  /** The payout of any safe plan is an affordable continuous target. */
  lemma SafePayoutAffordable(quotes: seq<OddsQuote>, constraints: seq<EffectiveConstraint>, amounts: seq<real>,
                             bankroll: real, quantum: Positive, threshold: real)
    requires |quotes| == |constraints| > 0 && AllValid(constraints)
    requires Safe(quotes, constraints, amounts, bankroll, quantum, threshold)
    ensures Affordable(quotes, constraints, bankroll, GuaranteedPayout(quotes, amounts, quantum))
    ensures GuaranteedPayout(quotes, amounts, quantum) > 0.0
  {
    var payout := GuaranteedPayout(quotes, amounts, quantum);
    LeastStakesBelow(quotes, constraints, amounts, quantum);
    var needed, least := StakesFor(quotes, constraints, payout), LeastStakes(quotes, constraints, payout);
    forall i | 0 <= i < |quotes|
      ensures needed[i] <= amounts[i]
      ensures BelowCap(quotes[i], constraints[i], payout)
    {
      assert least[i] <= amounts[i];
      SafeStakeSuffices(quotes[i], constraints[i], amounts[i], payout);
    }
    SumMonotone(needed, amounts);
    SumNonNegative(amounts);
  }

  /** No safe plan pays more than `target`. */
  ghost predicate BoundsSafePlans(quotes: seq<OddsQuote>, constraints: seq<EffectiveConstraint>, bankroll: real,
                                  quantum: Positive, threshold: real, target: real)
    requires |quotes| == |constraints| > 0
  {
    forall amounts :: Safe(quotes, constraints, amounts, bankroll, quantum, threshold)
                      ==> GuaranteedPayout(quotes, amounts, quantum) <= target
  }

  ghost predicate NoSafePlan(quotes: seq<OddsQuote>, constraints: seq<EffectiveConstraint>, bankroll: real,
                             quantum: Positive, threshold: real)
    requires |quotes| == |constraints| > 0
  {
    forall amounts :: !Safe(quotes, constraints, amounts, bankroll, quantum, threshold)
  }

  /** When the least stakes for `target` are not safe, the next breakpoint still bounds every safe plan. */
  lemma WalkStep(quotes: seq<OddsQuote>, constraints: seq<EffectiveConstraint>, bankroll: real, quantum: Positive,
                 threshold: real, target: real, next: Option<real>)
    requires |quotes| == |constraints| > 0 && AllValid(constraints)
    requires OnGrid(target, quantum)
    requires BoundsSafePlans(quotes, constraints, bankroll, quantum, threshold, target)
    requires !Safe(quotes, constraints, LeastStakes(quotes, constraints, target), bankroll, quantum, threshold)
    requires NextBreakpoint(quotes, constraints, LeastStakes(quotes, constraints, target), target, quantum, next)
    ensures next.Some? ==> BoundsSafePlans(quotes, constraints, bankroll, quantum, threshold, next.value)
    ensures next.None? ==> NoSafePlan(quotes, constraints, bankroll, quantum, threshold)
  {
    forall amounts | Safe(quotes, constraints, amounts, bankroll, quantum, threshold)
      ensures next.Some? && GuaranteedPayout(quotes, amounts, quantum) <= next.value
    {
      var payout := GuaranteedPayout(quotes, amounts, quantum);
      LeastStakesBelow(quotes, constraints, amounts, quantum);
      LeastStakesSafe(quotes, constraints, amounts, bankroll, quantum, threshold);
      SafePayoutAffordable(quotes, constraints, amounts, bankroll, quantum, threshold);
      if next.Some? ==> next.value < payout {
        SkipsNothing(quotes, constraints, target, quantum, next, payout);
        assert false;
      }
    }
  }

  // ----- The search

  datatype TargetPlan = TargetPlan(
    amounts: seq<real>,
    payouts: seq<real>,
    totalStaked: real,
    guaranteedPayout: real,
    guaranteedProfit: real)

  /** The derived fields of a plan agree with its stakes. */
  ghost predicate Accounts(plan: TargetPlan, quotes: seq<OddsQuote>, quantum: Positive) {
    && |plan.amounts| == |quotes| > 0
    && plan.payouts == Payouts(quotes, plan.amounts, quantum)
    && plan.totalStaked == Sum(plan.amounts)
    && plan.guaranteedPayout == GuaranteedPayout(quotes, plan.amounts, quantum)
    && plan.guaranteedProfit == plan.guaranteedPayout - plan.totalStaked
  }

  function MinimumStakeForTarget(quote: OddsQuote, constraint: EffectiveConstraint, target: real): Option<real>
  {
    var amount := LeastStake(quote, constraint, target);
    if constraint.maximum.Some? && amount > constraint.maximum.value then None else Some(amount)
  }

  /** Below the caps no leg needs more than its maximum. */
  lemma CapsSuffice(quotes: seq<OddsQuote>, constraints: seq<EffectiveConstraint>, target: real)
    requires |quotes| == |constraints| && AllValid(constraints)
    requires WithinCaps(quotes, constraints, target)
    ensures Accepted(constraints, LeastStakes(quotes, constraints, target))
  {
    forall i | 0 <= i < |quotes|
      ensures constraints[i].Accepts(LeastStake(quotes[i], constraints[i], target))
    {
      if constraints[i].maximum.Some? {
        LeastStakeIsLeast(quotes[i], constraints[i], target, constraints[i].maximum.value);
      }
    }
  }

  /** `None` exactly when some leg would need more than its maximum. */
  method EvaluateTargetPayout(quotes: seq<OddsQuote>, constraints: seq<EffectiveConstraint>, target: real,
                              quantum: Positive)
    returns (r: Option<TargetPlan>)
    requires |quotes| == |constraints| > 0 && AllValid(constraints)
    ensures r.Some? <==> Accepted(constraints, LeastStakes(quotes, constraints, target))
    ensures r.Some? ==> r.value.amounts == LeastStakes(quotes, constraints, target)
    ensures r.Some? ==> Accounts(r.value, quotes, quantum)
  {
    var amounts: seq<real>, payouts: seq<real> := [], [];
    ghost var least := LeastStakes(quotes, constraints, target);
    for i := 0 to |quotes|
      invariant |amounts| == |payouts| == i
      invariant forall j :: 0 <= j < i ==>
        && amounts[j] == least[j] && constraints[j].Accepts(least[j])
        && payouts[j] == ConservativePayout(least[j], quotes[j].price, quantum)
    {
      var amount := MinimumStakeForTarget(quotes[i], constraints[i], target);
      if amount.None? {
        assert !constraints[i].Accepts(least[i]);
        return None;
      }
      amounts := amounts + [amount.value];
      payouts := payouts + [ConservativePayout(amount.value, quotes[i].price, quantum)];
    }
    assert amounts == least && payouts == Payouts(quotes, least, quantum);
    var total, guaranteed := Totals(amounts, payouts);
    return Some(TargetPlan(amounts, payouts, total, guaranteed, guaranteed - total));
  }

  method Totals(amounts: seq<real>, payouts: seq<real>) returns (total: real, guaranteed: real)
    requires |amounts| == |payouts| > 0
    ensures total == Sum(amounts) && guaranteed == MinOf(payouts)
  {
    total, guaranteed := amounts[0], payouts[0];
    SumStep(amounts, 0);
    for i := 1 to |amounts|
      invariant total == Sum(amounts[..i]) && guaranteed == MinOf(payouts[..i])
    {
      SumStep(amounts, i);
      MinOfStep(payouts, i);
      total, guaranteed := total + amounts[i], Min(guaranteed, payouts[i]);
    }
    assert amounts[..|amounts|] == amounts && payouts[..|payouts|] == payouts;
  }

  method NextLowerPayoutBreakpoint(quotes: seq<OddsQuote>, constraints: seq<EffectiveConstraint>, amounts: seq<real>,
                                   target: real, quantum: Positive)
    returns (next: Option<real>)
    requires |quotes| == |constraints| == |amounts|
    ensures NextBreakpoint(quotes, constraints, amounts, target, quantum, next)
  {
    next := None;
    for i := 0 to |quotes|
      invariant NextBreakpoint(quotes[..i], constraints[..i], amounts[..i], target, quantum, next)
    {
      assert quotes[..i + 1][..i] == quotes[..i];
      ghost var previous := next;
      var lowerAmount := amounts[i] - constraints[i].increment;
      if lowerAmount >= constraints[i].minimum {
        var lowerPayout := ConservativePayout(lowerAmount, quotes[i].price, quantum);
        if 0.0 < lowerPayout < target {
          next := Some(if next.None? then lowerPayout else Max(next.value, lowerPayout));
        }
      }
    }
    assert quotes[..|quotes|] == quotes && constraints[..|quotes|] == constraints && amounts[..|quotes|] == amounts;
  }

  /** What one visited target leads to: the plan to return, or the next target if any. */
  method VisitTarget(quotes: seq<OddsQuote>, constraints: seq<EffectiveConstraint>, bankroll: real, target: real,
                     quantum: Positive, threshold: real)
    returns (plan: Option<TargetPlan>, next: Option<real>)
    requires |quotes| == |constraints| > 0 && AllValid(constraints)
    requires OnGrid(target, quantum) && WithinCaps(quotes, constraints, target)
    requires BoundsSafePlans(quotes, constraints, bankroll, quantum, threshold, target)
    ensures plan.Some? ==> Best(plan.value, quotes, constraints, bankroll, quantum, threshold)
    ensures plan.None? && next.None? ==> NoSafePlan(quotes, constraints, bankroll, quantum, threshold)
    ensures plan.None? && next.Some? ==>
      && OnGrid(next.value, quantum) && 0.0 < next.value < target
      && BoundsSafePlans(quotes, constraints, bankroll, quantum, threshold, next.value)
  {
    CapsSuffice(quotes, constraints, target);
    var candidate := EvaluateTargetPayout(quotes, constraints, target, quantum);
    if candidate.None? {
      assert false;
    }
    if candidate.value.totalStaked <= bankroll && candidate.value.guaranteedProfit > 0.0
       && candidate.value.guaranteedProfit >= threshold {
      LeastStakesReach(quotes, constraints, target, quantum);
      LeastStakesCheapest(quotes, constraints, target, bankroll, quantum, threshold);
      return candidate, None;
    }
    next := NextLowerPayoutBreakpoint(quotes, constraints, candidate.value.amounts, target, quantum);
    WalkStep(quotes, constraints, bankroll, quantum, threshold, target, next);
    return None, next;
  }

  /** Among the safe plans of the same payout none stakes less on any leg. */
  ghost predicate Cheapest(amounts: seq<real>, quotes: seq<OddsQuote>, constraints: seq<EffectiveConstraint>,
                           bankroll: real, quantum: Positive, threshold: real)
    requires |quotes| == |constraints| == |amounts| > 0
  {
    forall others, i ::
      && Safe(quotes, constraints, others, bankroll, quantum, threshold)
      && GuaranteedPayout(quotes, others, quantum) == GuaranteedPayout(quotes, amounts, quantum)
      && 0 <= i < |amounts|
      ==> amounts[i] <= others[i]
  }

  /** Least stakes that guarantee exactly their target are the cheapest of that payout. */
  lemma LeastStakesCheapest(quotes: seq<OddsQuote>, constraints: seq<EffectiveConstraint>, target: real,
                            bankroll: real, quantum: Positive, threshold: real)
    requires |quotes| == |constraints| > 0
    requires GuaranteedPayout(quotes, LeastStakes(quotes, constraints, target), quantum) == target
    ensures Cheapest(LeastStakes(quotes, constraints, target), quotes, constraints, bankroll, quantum, threshold)
  {
    hide GuaranteedPayout, LeastStake, Profitable;
    forall others | Safe(quotes, constraints, others, bankroll, quantum, threshold)
                    && GuaranteedPayout(quotes, others, quantum) == target
      ensures forall i :: 0 <= i < |quotes| ==> LeastStakes(quotes, constraints, target)[i] <= others[i]
    {
      LeastStakesBelow(quotes, constraints, others, quantum);
    }
  }

  /** A safe plan of the greatest payout any safe plan has, with the least stake on every leg for that payout. */
  ghost predicate Best(plan: TargetPlan, quotes: seq<OddsQuote>, constraints: seq<EffectiveConstraint>, bankroll: real,
                       quantum: Positive, threshold: real)
    requires |quotes| == |constraints| > 0
  {
    && Accounts(plan, quotes, quantum)
    && Safe(quotes, constraints, plan.amounts, bankroll, quantum, threshold)
    && BoundsSafePlans(quotes, constraints, bankroll, quantum, threshold, plan.guaranteedPayout)
    && Cheapest(plan.amounts, quotes, constraints, bankroll, quantum, threshold)
  }

  /**
    Complete and optimal: nothing is returned only when no safe plan exists, and a
    returned plan is a best one. Neither the walk's no-progress error nor its
    over-maximum exit can happen.
   */
  method FindSafeDiscretePlan(quotes: seq<OddsQuote>, constraints: seq<EffectiveConstraint>, bankroll: real,
                              continuousTarget: real, quantum: Positive, threshold: real)
    returns (plan: Option<TargetPlan>)
    requires |quotes| == |constraints| > 0 && AllValid(constraints)
    requires WithinCaps(quotes, constraints, continuousTarget)
    requires forall t :: Affordable(quotes, constraints, bankroll, t) ==> t <= continuousTarget
    ensures plan.None? ==> NoSafePlan(quotes, constraints, bankroll, quantum, threshold)
    ensures plan.Some? ==> Best(plan.value, quotes, constraints, bankroll, quantum, threshold)
  {
    var target := FloorToGrid(continuousTarget, quantum);
    StartBounds(quotes, constraints, bankroll, continuousTarget, quantum, threshold);
    if target <= 0.0 {
      return None;
    }
    var seenTargets: set<real> := {};
    while target > 0.0
      invariant 0.0 < target <= continuousTarget && OnGrid(target, quantum)
      invariant BoundsSafePlans(quotes, constraints, bankroll, quantum, threshold, target)
      invariant forall t :: t in seenTargets ==> target < t
      decreases Units(target, quantum)
    {
      if target in seenTargets {
        assert false;
      }
      seenTargets := seenTargets + {target};
      CapsDescend(quotes, constraints, continuousTarget, target);
      var next: Option<real>;
      plan, next := VisitTarget(quotes, constraints, bankroll, target, quantum, threshold);
      if plan.Some? || next.None? {
        return;
      }
      UnitsDecrease(next.value, target, quantum);
      target := next.value;
    }
  }

  lemma CapsDescend(quotes: seq<OddsQuote>, constraints: seq<EffectiveConstraint>, high: real, low: real)
    requires |quotes| == |constraints| && low <= high
    requires WithinCaps(quotes, constraints, high)
    ensures WithinCaps(quotes, constraints, low)
  {
    hide CapPayout;
    assert forall i :: 0 <= i < |quotes| && BelowCap(quotes[i], constraints[i], high)
                       ==> BelowCap(quotes[i], constraints[i], low);
  }

  ghost function Units(value: real, quantum: Positive): int {
    (value / quantum).Floor
  }

  lemma UnitsDecrease(low: real, high: real, quantum: Positive)
    requires OnGrid(low, quantum) && OnGrid(high, quantum) && 0.0 < low < high
    ensures 0 <= Units(low, quantum) < Units(high, quantum)
  {
    GridGap(low, high, quantum);
    DivideCompare(high, quantum, low / quantum + 1.0);
    DivideCompare(low, quantum, 0.0);
    assert (low / quantum + 1.0) * quantum == low + quantum;
  }

  lemma StartBounds(quotes: seq<OddsQuote>, constraints: seq<EffectiveConstraint>, bankroll: real,
                    continuousTarget: real, quantum: Positive, threshold: real)
    requires |quotes| == |constraints| > 0 && AllValid(constraints)
    requires forall t :: Affordable(quotes, constraints, bankroll, t) ==> t <= continuousTarget
    ensures BoundsSafePlans(quotes, constraints, bankroll, quantum, threshold, FloorToGrid(continuousTarget, quantum))
    ensures FloorToGrid(continuousTarget, quantum) <= 0.0 ==>
              NoSafePlan(quotes, constraints, bankroll, quantum, threshold)
  {
    forall amounts | Safe(quotes, constraints, amounts, bankroll, quantum, threshold)
      ensures 0.0 < GuaranteedPayout(quotes, amounts, quantum) <= FloorToGrid(continuousTarget, quantum)
    {
      var payout := GuaranteedPayout(quotes, amounts, quantum);
      SafePayoutAffordable(quotes, constraints, amounts, bankroll, quantum, threshold);
      LeastStakesBelow(quotes, constraints, amounts, quantum);
      FloorIsGreatest(continuousTarget, quantum, payout);
    }
  }
}
