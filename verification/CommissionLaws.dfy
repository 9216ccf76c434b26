/** The exchange evaluation by the fields of the stakes: accounts, price levels, outcomes and totals. */
module CommissionLaws {
  import opened Reals
  import opened Ordering
  import opened Collections
  import opened Grouping
  import opened Domain
  import opened ArbitrageMath
  import opened Lifecycle
  import opened Exchange
  import opened ExchangeLaws

  // ----- Accounts

  /** Commission is charged per exchange and account scope. */
  predicate SameAccount(a: MatchedStake, b: MatchedStake) {
    a.price.exchange == b.price.exchange && a.price.scope == b.price.scope
  }

  predicate Apart(xs: seq<MatchedStake>, ys: seq<MatchedStake>) {
    forall i, j :: 0 <= i < |xs| && 0 <= j < |ys| ==> !SameAccount(xs[i], ys[j])
  }

  /** Rates conflict exactly when two stakes of one account differ in rate. */
  lemma RatesConflictIff(legs: seq<MatchedStake>)
    ensures !RatesAgree(legs) <==>
            exists i, j :: 0 <= i < |legs| && 0 <= j < |legs| && SameAccount(legs[i], legs[j])
                           && legs[i].price.commissionRate != legs[j].price.commissionRate
  {
    if !RatesAgree(legs) {
      var i, j :| 0 <= i < |legs| && 0 <= j < |legs| && GroupOf(legs[i]) == GroupOf(legs[j])
                  && RateOf(legs[i]) != RateOf(legs[j]);
      assert SameAccount(legs[i], legs[j]);
    }
    if i, j :| 0 <= i < |legs| && 0 <= j < |legs| && SameAccount(legs[i], legs[j])
               && legs[i].price.commissionRate != legs[j].price.commissionRate {
      assert GroupOf(legs[i]) == GroupOf(legs[j]) && RateOf(legs[i]) != RateOf(legs[j]);
    }
  }

  lemma ApartInGroups(xs: seq<MatchedStake>, ys: seq<MatchedStake>)
    requires Apart(xs, ys)
    ensures forall i, j :: 0 <= i < |xs| && 0 <= j < |ys| ==> GroupOf(xs[i]) != GroupOf(ys[j])
  {
    forall i, j | 0 <= i < |xs| && 0 <= j < |ys|
      ensures GroupOf(xs[i]) != GroupOf(ys[j])
    {
      assert !SameAccount(xs[i], ys[j]);
    }
  }

  /** The groups of both are those of the one and then those of the other. */
  lemma {:induction false} GroupsOfBoth(xs: seq<MatchedStake>, ys: seq<MatchedStake>)
    requires forall i, j :: 0 <= i < |xs| && 0 <= j < |ys| ==> GroupOf(xs[i]) != GroupOf(ys[j])
    ensures Groups(xs + ys) == Groups(xs) + Groups(ys)
  {
    hide GroupOf, Groups;
    NoGroups();
    if |ys| == 0 {
      assert xs + ys == xs && ys == [];
    } else {
      var n := |ys| - 1;
      assert (xs + ys)[..|xs + ys| - 1] == xs + ys[..n];
      GroupsOfBoth(xs, ys[..n]);
      NextGroup(xs + ys);
      NextGroup(ys);
      NotAmongGroups(xs, GroupOf(ys[n]));
      assert Groups(xs) + Groups(ys[..n]) + [GroupOf(ys[n])] == Groups(xs) + (Groups(ys[..n]) + [GroupOf(ys[n])]);
    }
  }

  lemma NoGroups()
    ensures Groups([]) == []
  {
    assert KeysOf<MatchedStake, CommissionGroup>([], GroupOf) == [];
  }

  /** The last leg's group comes last, unless an earlier leg belongs to it. */
  lemma NextGroup(legs: seq<MatchedStake>)
    requires |legs| > 0
    ensures var n := |legs| - 1;
      Groups(legs) == Groups(legs[..n]) + if GroupOf(legs[n]) in Groups(legs[..n]) then [] else [GroupOf(legs[n])]
  {
    hide GroupOf;
    var n := |legs| - 1;
    var keys := KeysOf(legs, GroupOf);
    assert keys[..n] == KeysOf(legs[..n], GroupOf) && keys[n] == GroupOf(legs[n]);
    assert Dedupe(keys[..n]) + [] == Dedupe(keys[..n]);
  }

  lemma NotAmongGroups(legs: seq<MatchedStake>, group: CommissionGroup)
    requires forall i :: 0 <= i < |legs| ==> GroupOf(legs[i]) != group
    ensures group !in Groups(legs)
  {
    GroupMembers(legs, GroupOf);
  }

  /** A group of the first legs alone has the same result and rate among both. */
  lemma FirstGroupAlone(xs: seq<MatchedStake>, ys: seq<MatchedStake>, group: CommissionGroup, winner: Id)
    requires forall j :: 0 <= j < |ys| ==> GroupOf(ys[j]) != group
    ensures ChargeOf(xs + ys, winner)(group) == ChargeOf(xs, winner)(group)
  {
    hide GroupOf, LegProfit, Charge;
    SumByConcat(xs, ys, Only(GroupOf, ProfitIf(winner), group));
    SumByZero(ys, Only(GroupOf, ProfitIf(winner), group));
    RateOfFirst(xs, ys, group);
    assert GrossOf(xs + ys, winner)(group) == SumBy(xs + ys, Only(GroupOf, ProfitIf(winner), group));
    assert GrossOf(xs, winner)(group) == SumBy(xs, Only(GroupOf, ProfitIf(winner), group));
  }

  lemma {:induction false} RateOfFirst(xs: seq<MatchedStake>, ys: seq<MatchedStake>, group: CommissionGroup)
    requires forall j :: 0 <= j < |ys| ==> GroupOf(ys[j]) != group
    ensures GroupRate(xs + ys, group) == GroupRate(xs, group)
  {
    hide GroupOf, RateOf;
    if |ys| == 0 {
      assert xs + ys == xs;
    } else {
      var n := |ys| - 1;
      assert (xs + ys)[..|xs + ys| - 1] == xs + ys[..n];
      RateOfFirst(xs, ys[..n], group);
    }
  }

  lemma SecondGroupAlone(xs: seq<MatchedStake>, ys: seq<MatchedStake>, group: CommissionGroup, winner: Id)
    requires group in Groups(ys)
    requires forall i :: 0 <= i < |xs| ==> GroupOf(xs[i]) != group
    ensures ChargeOf(xs + ys, winner)(group) == ChargeOf(ys, winner)(group)
  {
    hide GroupOf, LegProfit, Charge;
    SumByConcat(xs, ys, Only(GroupOf, ProfitIf(winner), group));
    SumByZero(xs, Only(GroupOf, ProfitIf(winner), group));
    GroupMembers(ys, GroupOf);
    var k :| 0 <= k < |ys| && GroupOf(ys[k]) == group;
    RateOfSecond(xs, ys, group, k);
    assert GrossOf(xs + ys, winner)(group) == SumBy(xs + ys, Only(GroupOf, ProfitIf(winner), group));
    assert GrossOf(ys, winner)(group) == SumBy(ys, Only(GroupOf, ProfitIf(winner), group));
  }

  lemma {:induction false} RateOfSecond(xs: seq<MatchedStake>, ys: seq<MatchedStake>, group: CommissionGroup, k: nat)
    requires k < |ys| && GroupOf(ys[k]) == group
    ensures GroupRate(xs + ys, group) == GroupRate(ys, group)
  {
    hide GroupOf, RateOf;
    var n := |ys| - 1;
    assert (xs + ys)[..|xs + ys| - 1] == xs + ys[..n];
    if GroupOf(ys[n]) != group {
      RateOfSecond(xs, ys[..n], group, k);
    }
  }

  /** Stakes that share no account are charged apart. */
  lemma ChargedApart(backs: seq<BackStake>, xs: seq<MatchedStake>, ys: seq<MatchedStake>, winner: Id)
    requires Apart(xs, ys)
    ensures ScenarioOf(backs, xs + ys, winner).commission
            == ScenarioOf([], xs, winner).commission + ScenarioOf([], ys, winner).commission
  {
    hide GroupOf, ChargeOf, GrossOf, Apart;
    var both := ChargeOf(xs + ys, winner);
    ApartInGroups(xs, ys);
    GroupsOfBoth(xs, ys);
    SumByConcat(Groups(xs), Groups(ys), both);
    GroupMembers(xs, GroupOf);
    GroupMembers(ys, GroupOf);
    forall k | 0 <= k < |Groups(xs)|
      ensures both(Groups(xs)[k]) == ChargeOf(xs, winner)(Groups(xs)[k])
    {
      assert Groups(xs)[k] in Groups(xs);
      FirstGroupAlone(xs, ys, Groups(xs)[k], winner);
    }
    forall k | 0 <= k < |Groups(ys)|
      ensures both(Groups(ys)[k]) == ChargeOf(ys, winner)(Groups(ys)[k])
    {
      assert Groups(ys)[k] in Groups(ys);
      SecondGroupAlone(xs, ys, Groups(ys)[k], winner);
    }
    SumByAgrees(Groups(xs), both, ChargeOf(xs, winner));
    SumByAgrees(Groups(ys), both, ChargeOf(ys, winner));
  }

  // ----- Outcomes

  /** A matched back stake wins the odds less one times itself or is lost; a lay stake the other way round. */
  function ProfitFrom(leg: MatchedStake, winner: Id): real {
    var edge := leg.stake * (leg.price.odds - 1.0);
    match leg.price.side
    case Back => if leg.price.selection == winner then edge else 0.0 - leg.stake
    case Lay => if leg.price.selection == winner then 0.0 - edge else leg.stake
  }

  function BookmakerProfitFrom(leg: BackStake, winner: Id): real {
    if leg.quote.selection == winner then leg.stake * (leg.quote.price - 1.0) else 0.0 - leg.stake
  }

  function ProfitsFrom(winner: Id): MatchedStake -> real { (leg: MatchedStake) => ProfitFrom(leg, winner) }

  function BookmakerProfitsFrom(winner: Id): BackStake -> real { (leg: BackStake) => BookmakerProfitFrom(leg, winner) }

  lemma ProfitsMean(backs: seq<BackStake>, legs: seq<MatchedStake>, winner: Id)
    ensures SumBy(legs, ProfitIf(winner)) == SumBy(legs, ProfitsFrom(winner))
    ensures SumBy(backs, BackProfitIf(winner)) == SumBy(backs, BookmakerProfitsFrom(winner))
  {
    forall i | 0 <= i < |legs|
      ensures ProfitIf(winner)(legs[i]) == ProfitsFrom(winner)(legs[i])
    {
    }
    forall i | 0 <= i < |backs|
      ensures BackProfitIf(winner)(backs[i]) == BookmakerProfitsFrom(winner)(backs[i])
    {
    }
    SumByAgrees(legs, ProfitIf(winner), ProfitsFrom(winner));
    SumByAgrees(backs, BackProfitIf(winner), BookmakerProfitsFrom(winner));
  }

  /** An outcome's gross result adds up every stake's; commission comes off it. */
  lemma OutcomeMeans(backs: seq<BackStake>, legs: seq<MatchedStake>, winner: Id)
    ensures var s := ScenarioOf(backs, legs, winner);
      && s.winner == winner && s.net == s.gross - s.commission
      && s.gross == SumBy(backs, BookmakerProfitsFrom(winner)) + SumBy(legs, ProfitsFrom(winner))
  {
    hide GrossOf, ChargeOf, Groups;
    GrossIsSum(legs, winner);
    ProfitsMean(backs, legs, winner);
  }

  /** Stakes of one account at one rate pay that rate on what they win together, and nothing on a loss. */
  lemma {:induction false} OneAccountCharge(backs: seq<BackStake>, legs: seq<MatchedStake>, winner: Id, rate: Rate)
    requires |legs| > 0
    requires forall i :: 0 <= i < |legs| ==> SameAccount(legs[i], legs[0]) && legs[i].price.commissionRate == rate
    ensures var total := SumBy(legs, ProfitsFrom(winner));
      ScenarioOf(backs, legs, winner).commission == if total > 0.0 then total * rate else 0.0
  {
    hide LegProfit, Charge;
    var group := GroupOf(legs[0]);
    forall i | 0 <= i < |legs|
      ensures GroupOf(legs[i]) == group && RateOf(legs[i]) == rate
    {
      assert SameAccount(legs[i], legs[0]);
    }
    OneGroup(legs, group);
    SumBySingle(group, ChargeOf(legs, winner));
    SumByAgrees(legs, Only(GroupOf, ProfitIf(winner), group), ProfitIf(winner));
    ProfitsMean(backs, legs, winner);
    ChargeIs(SumBy(legs, ProfitsFrom(winner)), rate);
    assert GrossOf(legs, winner)(group) == SumBy(legs, ProfitsFrom(winner));
    assert GroupRate(legs, group) == rate;
  }

  lemma {:induction false} OneGroup(legs: seq<MatchedStake>, group: CommissionGroup)
    requires |legs| > 0 && forall i :: 0 <= i < |legs| ==> GroupOf(legs[i]) == group
    ensures Groups(legs) == [group]
  {
    hide GroupOf, Groups;
    var n := |legs| - 1;
    NoGroups();
    NextGroup(legs);
    if n > 0 {
      OneGroup(legs[..n], group);
    } else {
      assert legs[..0] == [];
    }
  }

  // ----- What is demanded of a portfolio, and what is reported

  /** Stakes at one price draw on the same liquidity. */
  predicate SamePriceLevel(a: MatchedStake, b: MatchedStake) {
    && a.price.exchange == b.price.exchange && a.price.transport == b.price.transport
    && a.price.event == b.price.event && a.price.market == b.price.market
    && a.price.selection == b.price.selection && a.price.side == b.price.side
    && a.price.odds == b.price.odds && a.price.scope == b.price.scope
  }

  function StakeAtPriceOf(leg: MatchedStake): MatchedStake -> real {
    (other: MatchedStake) => if SamePriceLevel(other, leg) then other.stake else 0.0
  }

  lemma StakeAtPriceMeans(other: MatchedStake, leg: MatchedStake)
    ensures StakeAtPriceOf(leg)(other) == Only(LevelOf, StakeOf, LevelOf(leg))(other)
  {
    assert LevelOf(other) == LevelOf(leg) <==> SamePriceLevel(other, leg);
    assert Only(LevelOf, StakeOf, LevelOf(leg))(other)
           == if LevelOf(other) == LevelOf(leg) then StakeOf(other) else 0.0;
    assert StakeAtPriceOf(leg)(other) == if SamePriceLevel(other, leg) then other.stake else 0.0;
  }

  lemma LiquidityMeans(legs: seq<MatchedStake>)
    ensures LiquidityHolds(legs) <==>
            forall i :: 0 <= i < |legs| ==> SumBy(legs, StakeAtPriceOf(legs[i])) <= legs[i].price.available
  {
    forall i | 0 <= i < |legs|
      ensures SumBy(legs, StakeAtPriceOf(legs[i])) == SumBy(legs, Only(LevelOf, StakeOf, LevelOf(legs[i])))
    {
      forall j | 0 <= j < |legs|
        ensures StakeAtPriceOf(legs[i])(legs[j]) == Only(LevelOf, StakeOf, LevelOf(legs[i]))(legs[j])
      {
        StakeAtPriceMeans(legs[j], legs[i]);
      }
      SumByAgrees(legs, StakeAtPriceOf(legs[i]), Only(LevelOf, StakeOf, LevelOf(legs[i])));
    }
  }

  /** All stakes are on expected selections of one event and market. */
  ghost predicate OnOneMarket(backs: seq<BackStake>, legs: seq<MatchedStake>, expected: seq<Id>) {
    && (forall i, j :: 0 <= i < |legs| && 0 <= j < |legs| ==>
          legs[i].price.event == legs[j].price.event && legs[i].price.market == legs[j].price.market)
    && (forall i, j :: 0 <= i < |backs| && 0 <= j < |legs| ==>
          backs[i].quote.event == legs[j].price.event && backs[i].quote.market == legs[j].price.market)
    && (forall i :: 0 <= i < |legs| ==> legs[i].price.selection in expected)
    && (forall i :: 0 <= i < |backs| ==> backs[i].quote.selection in expected)
  }

  /** Exactly these portfolios are evaluated. */
  lemma EvaluableMeans(backs: seq<BackStake>, legs: seq<MatchedStake>, expected: seq<Id>)
    ensures Evaluable(backs, legs, expected) <==>
      && |legs| > 0 && |expected| >= 2
      && (forall i, j :: 0 <= i < j < |expected| ==> expected[i] != expected[j])
      && OnOneMarket(backs, legs, expected)
      && (forall i :: 0 <= i < |legs| ==> SumBy(legs, StakeAtPriceOf(legs[i])) <= legs[i].price.available)
      && (forall i, j :: 0 <= i < |legs| && 0 <= j < |legs| && SameAccount(legs[i], legs[j]) ==>
            legs[i].price.commissionRate == legs[j].price.commissionRate)
  {
    hide LiquidityHolds, RatesAgree, StakeAtPriceOf, SameAccount;
    LiquidityMeans(legs);
    RatesConflictIff(legs);
  }

  /** What a lay stake may lose; a back stake risks nothing beyond itself. */
  function LiabilityFrom(leg: MatchedStake): real {
    if leg.price.side == Lay then leg.stake * (leg.price.odds - 1.0) else 0.0
  }

  /** One outcome for every expected selection in order, the least net result, and whether it is a profit. */
  lemma EvaluatedMeans(backs: seq<BackStake>, legs: seq<MatchedStake>, expected: seq<Id>)
    requires Evaluable(backs, legs, expected)
    ensures var e := Evaluated(backs, legs, expected);
      && e.event == legs[0].price.event && e.market == legs[0].price.market
      && |e.scenarios| == |expected|
      && (forall i, j :: 0 <= i < j < |e.scenarios| ==> e.scenarios[i].winner < e.scenarios[j].winner)
      && (forall i :: 0 <= i < |e.scenarios| ==>
            && e.scenarios[i].winner in expected
            && e.scenarios[i] == ScenarioOf(backs, legs, e.scenarios[i].winner)
            && e.guaranteedProfit <= e.scenarios[i].net)
      && (exists i :: 0 <= i < |e.scenarios| && e.scenarios[i].net == e.guaranteedProfit)
      && (e.isArbitrage <==> e.guaranteedProfit > 0.0)
      && e.layLiability == SumBy(legs, LiabilityFrom)
  {
    hide LiquidityHolds, RatesAgree, OneMarket, AllExpected, ScenarioOf, SumBy, SortBy, MinOf, LiabilityOf,
      LiabilityFrom;
    var winners := SortBy(expected, ByValue);
    SortByMembers(expected, ByValue);
    ValuesInOrder(expected);
    assert forall i :: 0 <= i < |winners| ==> winners[i] in winners;
    WinnersMean(backs, legs, winners);
    LeastNet(Scenarios(backs, legs, winners));
    LiabilitiesMean(legs);
  }

  lemma WinnersMean(backs: seq<BackStake>, legs: seq<MatchedStake>, winners: seq<Id>)
    ensures forall i :: 0 <= i < |winners| ==> ScenarioOf(backs, legs, winners[i]).winner == winners[i]
  {
    hide GrossOf, ChargeOf, SumBy, Groups;
  }

  lemma LeastNet(scenarios: seq<Scenario>)
    requires |scenarios| > 0
    ensures forall i :: 0 <= i < |scenarios| ==> MinOf(Nets(scenarios)) <= scenarios[i].net
    ensures exists i :: 0 <= i < |scenarios| && scenarios[i].net == MinOf(Nets(scenarios))
  {
    var nets := Nets(scenarios);
    MinOfIsLeast(nets, MinOf(nets));
    var k :| 0 <= k < |nets| && nets[k] == MinOf(nets);
    assert scenarios[k].net == MinOf(nets);
    assert forall i :: 0 <= i < |scenarios| ==> nets[i] == scenarios[i].net;
  }

  lemma LiabilitiesMean(legs: seq<MatchedStake>)
    ensures SumBy(legs, LiabilityOf) == SumBy(legs, LiabilityFrom)
  {
    SumByAgrees(legs, LiabilityOf, LiabilityFrom);
  }
}
