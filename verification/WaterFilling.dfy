/**
  Constrained water-filling: the greatest payout every leg can be raised to when
  no leg is staked below its minimum or above its maximum and the stakes add up
  to at most the bankroll.
 */
module WaterFilling {
  import opened Wrappers
  import opened Reals
  import opened Domain
  import opened StakeConstraints

  // ----- What is computed

  function Minimums(constraints: seq<EffectiveConstraint>): seq<real> {
    seq(|constraints|, i requires 0 <= i < |constraints| => constraints[i].minimum)
  }

  /** The stakes that lift every leg to `target`, but not below its minimum. */
  function StakesFor(quotes: seq<OddsQuote>, constraints: seq<EffectiveConstraint>, target: real): seq<real>
    requires |quotes| == |constraints|
  {
    seq(|quotes|, i requires 0 <= i < |quotes| => Max(constraints[i].minimum, target / quotes[i].price))
  }

  /** What a capped leg pays out at its maximum stake. */
  function CapPayout(quote: OddsQuote, constraint: EffectiveConstraint): real
    requires constraint.maximum.Some?
  {
    constraint.maximum.value * quote.price
  }

  /** The leg's maximum stake, if it has one, pays at least `target`. */
  ghost predicate BelowCap(quote: OddsQuote, constraint: EffectiveConstraint, target: real) {
    constraint.maximum.Some? ==> target <= CapPayout(quote, constraint)
  }

  /** No capped leg would pay out less than `target` at its maximum stake. */
  ghost predicate WithinCaps(quotes: seq<OddsQuote>, constraints: seq<EffectiveConstraint>, target: real)
    requires |quotes| == |constraints|
  {
    forall i :: 0 <= i < |quotes| ==> BelowCap(quotes[i], constraints[i], target)
  }

  ghost predicate Affordable(quotes: seq<OddsQuote>, constraints: seq<EffectiveConstraint>, bankroll: real,
                             target: real)
    requires |quotes| == |constraints|
  {
    Sum(StakesFor(quotes, constraints, target)) <= bankroll && WithinCaps(quotes, constraints, target)
  }

  ghost predicate AllValid(constraints: seq<EffectiveConstraint>) {
    forall i :: 0 <= i < |constraints| ==> constraints[i].Valid()
  }

  // ----- Filling some legs and leaving the others at their minimum

  function Reciprocals(quotes: seq<OddsQuote>, active: set<int>): seq<real> {
    seq(|quotes|, i requires 0 <= i < |quotes| => if i in active then 1.0 / quotes[i].price else 0.0)
  }

  function FixedStakes(constraints: seq<EffectiveConstraint>, active: set<int>): seq<real> {
    seq(|constraints|, i requires 0 <= i < |constraints| => if i in active then 0.0 else constraints[i].minimum)
  }

  ghost function Filled(quotes: seq<OddsQuote>, constraints: seq<EffectiveConstraint>, active: set<int>, target: real)
    : seq<real>
    requires |quotes| == |constraints|
  {
    seq(|quotes|, i requires 0 <= i < |quotes| =>
      if i in active then target / quotes[i].price else constraints[i].minimum)
  }

  lemma FilledTotal(quotes: seq<OddsQuote>, constraints: seq<EffectiveConstraint>, active: set<int>, target: real)
    requires |quotes| == |constraints|
    ensures Sum(Filled(quotes, constraints, active, target))
            == target * Sum(Reciprocals(quotes, active)) + Sum(FixedStakes(constraints, active))
  {
    hide Sum;
    SumLinear(Reciprocals(quotes, active), target, FixedStakes(constraints, active),
              Filled(quotes, constraints, active, target));
  }

  lemma ReciprocalsPositive(quotes: seq<OddsQuote>, active: set<int>)
    requires exists k :: k in active && 0 <= k < |quotes|
    ensures Sum(Reciprocals(quotes, active)) > 0.0
  {
    hide Sum;
    var k :| k in active && 0 <= k < |quotes|;
    var zeros := seq(|quotes|, i => 0.0);
    forall i | 0 <= i < |quotes|
      ensures 1.0 / quotes[i].price > 0.0
    {
      ReciprocalPositive(quotes[i].price);
    }
    SumStrict(zeros, Reciprocals(quotes, active), k);
    SumNonNegative(zeros);
  }

  lemma ReciprocalPositive(price: Odds)
    ensures 1.0 / price > 0.0
  {
  }

  /** The payout that spends exactly the bankroll when `active` legs are filled. */
  ghost predicate Balances(quotes: seq<OddsQuote>, constraints: seq<EffectiveConstraint>, bankroll: real,
                           active: set<int>, target: real)
    requires |quotes| == |constraints|
  {
    Sum(Filled(quotes, constraints, active, target)) == bankroll
  }

  lemma BalancedTarget(quotes: seq<OddsQuote>, constraints: seq<EffectiveConstraint>, bankroll: real, active: set<int>,
                       target: real)
    requires |quotes| == |constraints|
    requires Sum(Reciprocals(quotes, active)) > 0.0
    requires target == (bankroll - Sum(FixedStakes(constraints, active))) / Sum(Reciprocals(quotes, active))
    ensures Balances(quotes, constraints, bankroll, active, target)
  {
    hide Sum, Filled, Reciprocals, FixedStakes;
    FilledTotal(quotes, constraints, active, target);
    QuotientTimes(bankroll - Sum(FixedStakes(constraints, active)), Sum(Reciprocals(quotes, active)));
  }

  lemma QuotientTimes(total: real, divisor: real)
    requires divisor > 0.0
    ensures total / divisor * divisor == total
  {
  }

  /** Filling `active` to a higher payout costs strictly more. */
  lemma FilledGrows(quotes: seq<OddsQuote>, constraints: seq<EffectiveConstraint>, active: set<int>, low: real,
                    high: real)
    requires |quotes| == |constraints| && low < high
    requires exists k :: k in active && 0 <= k < |quotes|
    ensures Sum(Filled(quotes, constraints, active, low)) < Sum(Filled(quotes, constraints, active, high))
  {
    hide Sum, Filled, Reciprocals;
    FilledTotal(quotes, constraints, active, low);
    FilledTotal(quotes, constraints, active, high);
    ReciprocalsPositive(quotes, active);
    ScaleCompare(low, high, Sum(Reciprocals(quotes, active)));
  }

  function AllLegs(count: nat): (r: set<int>)
    ensures forall i :: i in r <==> 0 <= i < count
  {
    if count == 0 then {} else AllLegs(count - 1) + {count - 1}
  }

  /** `target` would stake leg `i` below its minimum. */
  predicate Violates(quotes: seq<OddsQuote>, constraints: seq<EffectiveConstraint>, target: real, i: int)
    requires |quotes| == |constraints| && 0 <= i < |quotes|
  {
    target / quotes[i].price < constraints[i].minimum
  }

  /** Fixing violating legs at their minimum leaves at most as much for the rest. */
  lemma FixingCostsMore(quotes: seq<OddsQuote>, constraints: seq<EffectiveConstraint>, active: set<int>,
                        fewer: set<int>, target: real)
    requires |quotes| == |constraints| && fewer <= active
    requires forall i :: 0 <= i < |quotes| && i in active && i !in fewer ==> Violates(quotes, constraints, target, i)
    ensures Sum(Filled(quotes, constraints, active, target)) <= Sum(Filled(quotes, constraints, fewer, target))
    ensures (exists k :: 0 <= k < |quotes| && k in active && k !in fewer) ==>
              Sum(Filled(quotes, constraints, active, target)) < Sum(Filled(quotes, constraints, fewer, target))
  {
    var before, after := Filled(quotes, constraints, active, target), Filled(quotes, constraints, fewer, target);
    SumMonotone(before, after);
    if k :| 0 <= k < |quotes| && k in active && k !in fewer {
      SumStrict(before, after, k);
    }
  }

  /** If every active leg violates the target then the minimums exceed the bankroll. */
  lemma AllViolatingOverspends(quotes: seq<OddsQuote>, constraints: seq<EffectiveConstraint>, bankroll: real,
                               active: set<int>, target: real, k: nat)
    requires |quotes| == |constraints|
    requires Balances(quotes, constraints, bankroll, active, target)
    requires k < |quotes| && k in active
    requires forall i :: 0 <= i < |quotes| && i in active ==> Violates(quotes, constraints, target, i)
    ensures Sum(Minimums(constraints)) > bankroll
  {
    FixingCostsMore(quotes, constraints, active, {}, target);
    assert Filled(quotes, constraints, {}, target) == Minimums(constraints);
  }

  lemma SomeLegStaysActive(quotes: seq<OddsQuote>, constraints: seq<EffectiveConstraint>, bankroll: real,
                           active: set<int>, violating: set<int>, target: real)
    requires |quotes| == |constraints|
    requires Sum(Minimums(constraints)) <= bankroll
    requires Balances(quotes, constraints, bankroll, active, target)
    requires exists k :: 0 <= k < |quotes| && k in active
    requires forall i :: i in active && i in violating ==> 0 <= i < |quotes| && Violates(quotes, constraints, target, i)
    ensures exists k :: k in active - violating
  {
    var k :| 0 <= k < |quotes| && k in active;
    if forall i :: i in active ==> i in violating {
      AllViolatingOverspends(quotes, constraints, bankroll, active, target, k);
      assert false;
    }
    var free :| free in active && free !in violating;
    assert free in active - violating;
  }

  /** The next target is no greater, so a fixed leg stays violating. */
  lemma TargetsDescend(quotes: seq<OddsQuote>, constraints: seq<EffectiveConstraint>, bankroll: real, active: set<int>,
                       fewer: set<int>, target: real, next: real)
    requires |quotes| == |constraints| && fewer <= active
    requires forall i :: 0 <= i < |quotes| && i in active && i !in fewer ==> Violates(quotes, constraints, target, i)
    requires exists k :: k in fewer && 0 <= k < |quotes|
    requires Balances(quotes, constraints, bankroll, active, target)
    requires Balances(quotes, constraints, bankroll, fewer, next)
    ensures next <= target
    ensures forall i :: 0 <= i < |quotes| && Violates(quotes, constraints, target, i)
                        ==> Violates(quotes, constraints, next, i)
  {
    FixingCostsMore(quotes, constraints, active, fewer, target);
    if target < next {
      FilledGrows(quotes, constraints, fewer, target, next);
      assert false;
    }
    forall i | 0 <= i < |quotes|
      ensures next / quotes[i].price <= target / quotes[i].price
    {
      QuotientMonotone(next, target, quotes[i].price);
    }
  }

  // ----- Optimality

  lemma StakesForMonotone(quotes: seq<OddsQuote>, constraints: seq<EffectiveConstraint>, low: real, high: real)
    requires |quotes| == |constraints| && low <= high
    ensures forall i :: 0 <= i < |quotes| ==>
                          StakesFor(quotes, constraints, low)[i] <= StakesFor(quotes, constraints, high)[i]
    ensures Sum(StakesFor(quotes, constraints, low)) <= Sum(StakesFor(quotes, constraints, high))
  {
    forall i | 0 <= i < |quotes|
      ensures low / quotes[i].price <= high / quotes[i].price
    {
      QuotientMonotone(low, high, quotes[i].price);
    }
    SumMonotone(StakesFor(quotes, constraints, low), StakesFor(quotes, constraints, high));
  }

  /** A balanced target with no violating active leg spends exactly the bankroll, and no higher one fits. */
  lemma BalancedIsGreatest(quotes: seq<OddsQuote>, constraints: seq<EffectiveConstraint>, bankroll: real,
                           active: set<int>, target: real, other: real)
    requires |quotes| == |constraints|
    requires Balances(quotes, constraints, bankroll, active, target)
    requires exists k :: k in active && 0 <= k < |quotes|
    requires forall i :: 0 <= i < |quotes| ==> (i in active <==> !Violates(quotes, constraints, target, i))
    ensures Sum(StakesFor(quotes, constraints, target)) == bankroll
    ensures target < other ==> Sum(StakesFor(quotes, constraints, other)) > bankroll
  {
    assert StakesFor(quotes, constraints, target) == Filled(quotes, constraints, active, target);
    if target < other {
      var k :| k in active && 0 <= k < |quotes|;
      StakesForMonotone(quotes, constraints, target, other);
      QuotientMonotone(target, other, quotes[k].price);
      SumStrict(StakesFor(quotes, constraints, target), StakesFor(quotes, constraints, other), k);
    }
  }

  // ----- The algorithm

  method SumOfMinimums(constraints: seq<EffectiveConstraint>) returns (total: real)
    ensures total == Sum(Minimums(constraints))
  {
    total := 0.0;
    for i := 0 to |constraints|
      invariant total == Sum(Minimums(constraints)[..i])
    {
      SumStep(Minimums(constraints), i);
      total := total + constraints[i].minimum;
    }
    assert Minimums(constraints)[..|constraints|] == Minimums(constraints);
  }

  method SumOfReciprocals(quotes: seq<OddsQuote>, active: set<int>) returns (total: real)
    ensures total == Sum(Reciprocals(quotes, active))
  {
    total := 0.0;
    for i := 0 to |quotes|
      invariant total == Sum(Reciprocals(quotes, active)[..i])
    {
      SumStep(Reciprocals(quotes, active), i);
      if i in active {
        total := total + 1.0 / quotes[i].price;
      }
    }
    assert Reciprocals(quotes, active)[..|quotes|] == Reciprocals(quotes, active);
  }

  /** Moves the violating legs from the active set to the fixed stake. */
  method FixViolating(constraints: seq<EffectiveConstraint>, active: set<int>, violating: set<int>, fixed: real)
    returns (stillActive: set<int>, nowFixed: real)
    requires violating <= active && forall i :: i in active ==> 0 <= i < |constraints|
    requires fixed == Sum(FixedStakes(constraints, active))
    ensures stillActive == active - violating
    ensures nowFixed == Sum(FixedStakes(constraints, stillActive))
  {
    stillActive, nowFixed := active, fixed;
    ghost var moved := seq(|constraints|, i requires 0 <= i < |constraints| =>
      if i in violating then constraints[i].minimum else 0.0);
    for i := 0 to |constraints|
      invariant stillActive == active - (set j | j in violating && j < i)
      invariant nowFixed == fixed + Sum(moved[..i])
    {
      SumStep(moved, i);
      if i in violating {
        nowFixed := nowFixed + constraints[i].minimum;
        stillActive := stillActive - {i};
      }
    }
    assert moved[..|constraints|] == moved;
    SumAdd(moved, FixedStakes(constraints, active), FixedStakes(constraints, stillActive));
  }

  method LeastCappedPayout(quotes: seq<OddsQuote>, constraints: seq<EffectiveConstraint>, bound: real)
    returns (target: real)
    requires |quotes| == |constraints|
    ensures target <= bound && WithinCaps(quotes, constraints, target)
    ensures forall t :: t <= bound && WithinCaps(quotes, constraints, t) ==> t <= target
  {
    hide CapPayout;
    target := bound;
    for i := 0 to |quotes|
      invariant target <= bound
      invariant forall j :: 0 <= j < i ==> BelowCap(quotes[j], constraints[j], target)
      invariant forall t :: t <= bound && WithinCaps(quotes, constraints, t) ==> t <= target
    {
      assert forall t :: WithinCaps(quotes, constraints, t) ==> BelowCap(quotes[i], constraints[i], t);
      if constraints[i].maximum.Some? {
        target := Min(target, CapPayout(quotes[i], constraints[i]));
      }
    }
  }

  /**
    Between iterations: the fixed legs are those the last target violates, and that
    target balanced the bankroll over the legs that were active then.
   */
  ghost predicate Descended(quotes: seq<OddsQuote>, constraints: seq<EffectiveConstraint>, bankroll: real,
                            active: set<int>, target: Option<real>)
    requires |quotes| == |constraints|
  {
    match target
    case None => forall i :: 0 <= i < |quotes| ==> i in active
    case Some(t) =>
      && (forall i :: 0 <= i < |quotes| && i !in active ==> Violates(quotes, constraints, t, i))
      && exists earlier: set<int> :: active <= earlier && Balances(quotes, constraints, bankroll, earlier, t)
  }

  lemma DescendFurther(quotes: seq<OddsQuote>, constraints: seq<EffectiveConstraint>, bankroll: real, active: set<int>,
                       previous: Option<real>, target: real)
    requires |quotes| == |constraints|
    requires exists k :: k in active && 0 <= k < |quotes|
    requires Descended(quotes, constraints, bankroll, active, previous)
    requires Balances(quotes, constraints, bankroll, active, target)
    ensures previous.Some? ==> target <= previous.value
    ensures forall i :: 0 <= i < |quotes| && i !in active ==> Violates(quotes, constraints, target, i)
  {
    if previous.Some? {
      var earlier: set<int> :| active <= earlier && Balances(quotes, constraints, bankroll, earlier, previous.value);
      TargetsDescend(quotes, constraints, bankroll, earlier, active, previous.value, target);
    }
  }

  /** The legs that `target` would stake below their minimum. */
  method FindViolating(quotes: seq<OddsQuote>, constraints: seq<EffectiveConstraint>, active: set<int>, target: real)
    returns (violating: set<int>)
    requires |quotes| == |constraints|
    requires forall i :: i in active ==> 0 <= i < |quotes|
    ensures violating <= active
    ensures forall i :: i in active ==> (i in violating <==> Violates(quotes, constraints, target, i))
  {
    violating := set i | i in active && Violates(quotes, constraints, target, i);
  }

  /** The exit for a non-positive reciprocal sum is unreachable. */
  method BalanceTarget(quotes: seq<OddsQuote>, constraints: seq<EffectiveConstraint>, bankroll: real, active: set<int>,
                       fixed: real)
    returns (target: real)
    requires |quotes| == |constraints|
    requires exists k :: 0 <= k < |quotes| && k in active
    requires fixed == Sum(FixedStakes(constraints, active))
    ensures Balances(quotes, constraints, bankroll, active, target)
  {
    var reciprocalSum := SumOfReciprocals(quotes, active);
    ReciprocalsPositive(quotes, active);
    if reciprocalSum <= 0.0 {
      assert false;
    }
    target := (bankroll - fixed) / reciprocalSum;
    BalancedTarget(quotes, constraints, bankroll, active, target);
  }

  /** One iteration of the filling loop; the exit for an overspent fixed stake is unreachable. */
  method FillOnce(quotes: seq<OddsQuote>, constraints: seq<EffectiveConstraint>, bankroll: real, active: set<int>,
                  fixed: real, ghost previous: Option<real>)
    returns (target: real, violating: set<int>, stillActive: set<int>, nowFixed: real)
    requires |quotes| == |constraints| && AllValid(constraints)
    requires Sum(Minimums(constraints)) <= bankroll
    requires exists k :: 0 <= k < |quotes| && k in active
    requires forall i :: i in active ==> 0 <= i < |quotes|
    requires fixed == Sum(FixedStakes(constraints, active))
    requires Descended(quotes, constraints, bankroll, active, previous)
    ensures previous.Some? ==> target <= previous.value
    ensures violating <= active && stillActive == active - violating
    ensures exists k :: 0 <= k < |quotes| && k in stillActive
    ensures nowFixed == Sum(FixedStakes(constraints, stillActive))
    ensures Descended(quotes, constraints, bankroll, stillActive, Some(target))
    ensures violating == {} ==>
              forall t :: Sum(StakesFor(quotes, constraints, t)) <= bankroll <==> t <= target
  {
    target := BalanceTarget(quotes, constraints, bankroll, active, fixed);
    DescendFurther(quotes, constraints, bankroll, active, previous, target);
    violating := FindViolating(quotes, constraints, active, target);
    if violating == {} {
      BalancedAffordability(quotes, constraints, bankroll, active, target);
    }
    SomeLegStaysActive(quotes, constraints, bankroll, active, violating, target);
    stillActive, nowFixed := FixViolating(constraints, active, violating, fixed);
    FixedWithinBankroll(constraints, stillActive, bankroll);
    if nowFixed > bankroll {
      assert false;
    }
  }

  /** The filling loop; it always ends by finding no violating leg. */
  method FillActiveLegs(quotes: seq<OddsQuote>, constraints: seq<EffectiveConstraint>, bankroll: real)
    returns (target: Option<real>)
    requires |quotes| == |constraints| > 0 && AllValid(constraints)
    requires Sum(Minimums(constraints)) <= bankroll
    ensures target.Some?
    ensures forall t :: Sum(StakesFor(quotes, constraints, t)) <= bankroll <==> t <= target.value
  {
    var active, fixed := AllLegs(|quotes|), 0.0;
    target := None;
    NothingFixed(constraints, active);
    assert 0 in active;
    while active != {}
      invariant exists k :: 0 <= k < |quotes| && k in active
      invariant forall i :: i in active ==> 0 <= i < |quotes|
      invariant fixed == Sum(FixedStakes(constraints, active))
      invariant Descended(quotes, constraints, bankroll, active, target)
      decreases active
    {
      var common, violating, stillActive, nowFixed :=
        FillOnce(quotes, constraints, bankroll, active, fixed, target);
      target := Some(common);
      if violating == {} {
        break;
      }
      active, fixed := stillActive, nowFixed;
    }
  }

  /** The greatest affordable common payout, or `None` when the minimums alone exceed the bankroll. */
  method ContinuousTargetPayout(quotes: seq<OddsQuote>, constraints: seq<EffectiveConstraint>, bankroll: real)
    returns (r: Option<real>)
    requires |quotes| == |constraints| > 0
    requires AllValid(constraints)
    ensures r.None? <==> Sum(Minimums(constraints)) > bankroll
    ensures r.Some? ==> Affordable(quotes, constraints, bankroll, r.value)
    ensures r.Some? ==> forall t :: Affordable(quotes, constraints, bankroll, t) ==> t <= r.value
  {
    var minimumTotal := SumOfMinimums(constraints);
    if minimumTotal > bankroll {
      return None;
    }
    var target := FillActiveLegs(quotes, constraints, bankroll);
    var capped := LeastCappedPayout(quotes, constraints, target.value);
    return Some(capped);
  }

  lemma NothingFixed(constraints: seq<EffectiveConstraint>, active: set<int>)
    requires forall i :: 0 <= i < |constraints| ==> i in active
    ensures Sum(FixedStakes(constraints, active)) == 0.0
  {
    var nothing := FixedStakes(constraints, active);
    SumLinear(nothing, 1.0, nothing, nothing);
  }

  lemma BalancedAffordability(quotes: seq<OddsQuote>, constraints: seq<EffectiveConstraint>, bankroll: real,
                              active: set<int>, target: real)
    requires |quotes| == |constraints|
    requires Balances(quotes, constraints, bankroll, active, target)
    requires exists k :: k in active && 0 <= k < |quotes|
    requires forall i :: 0 <= i < |quotes| ==> (i in active <==> !Violates(quotes, constraints, target, i))
    ensures forall t :: Sum(StakesFor(quotes, constraints, t)) <= bankroll <==> t <= target
  {
    forall t
      ensures Sum(StakesFor(quotes, constraints, t)) <= bankroll <==> t <= target
    {
      BalancedIsGreatest(quotes, constraints, bankroll, active, target, t);
      if t <= target {
        StakesForMonotone(quotes, constraints, t, target);
      }
    }
  }

  lemma FixedWithinBankroll(constraints: seq<EffectiveConstraint>, active: set<int>, bankroll: real)
    requires AllValid(constraints)
    requires Sum(Minimums(constraints)) <= bankroll
    ensures Sum(FixedStakes(constraints, active)) <= bankroll
  {
    SumMonotone(FixedStakes(constraints, active), Minimums(constraints));
  }
}
