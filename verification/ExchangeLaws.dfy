/** Laws of the exchange evaluation: order, splitting, netting, back/lay duality, bounded loss. */
module ExchangeLaws {
  import opened Reals
  import opened Ordering
  import opened Grouping
  import opened Domain
  import opened Lifecycle
  import opened Exchange

  /** Grouping does not change the gross result. */
  lemma GrossIsSum(legs: seq<MatchedStake>, winner: Id)
    ensures SumBy(Groups(legs), GrossOf(legs, winner)) == SumBy(legs, ProfitIf(winner))
  {
    hide GroupOf, LegProfit;
    GroupMembers(legs, GroupOf);
    GroupsPartition(legs, GroupOf, ProfitIf(winner), Groups(legs));
  }

  lemma {:induction false} GroupRateIsRate(legs: seq<MatchedStake>, i: nat)
    requires RatesAgree(legs) && i < |legs|
    ensures GroupRate(legs, GroupOf(legs[i])) == RateOf(legs[i])
  {
    hide GroupOf, RateOf;
    var n := |legs| - 1;
    if GroupOf(legs[n]) != GroupOf(legs[i]) {
      GroupRateIsRate(legs[..n], i);
    }
  }

  // ----- Order does not matter

  lemma MembersPermute<T>(xs: seq<T>, ys: seq<T>)
    requires multiset(xs) == multiset(ys)
    ensures |xs| == |ys| && forall x :: x in xs <==> x in ys
  {
    assert |multiset(xs)| == |multiset(ys)|;
    forall x
      ensures x in xs <==> x in ys
    {
      assert x in multiset(xs) <==> x in multiset(ys);
    }
  }

  lemma GroupsPermute(xs: seq<MatchedStake>, ys: seq<MatchedStake>)
    requires forall x :: x in xs <==> x in ys
    ensures multiset(Groups(xs)) == multiset(Groups(ys))
  {
    hide GroupOf;
    GroupMembers(xs, GroupOf);
    GroupMembers(ys, GroupOf);
    forall g
      ensures g in Groups(xs) <==> g in Groups(ys)
    {
      if g in Groups(xs) {
        var i :| 0 <= i < |xs| && GroupOf(xs[i]) == g;
        assert xs[i] in ys;
      }
      if g in Groups(ys) {
        var i :| 0 <= i < |ys| && GroupOf(ys[i]) == g;
        assert ys[i] in xs;
      }
    }
    DistinctPermute(Groups(xs), Groups(ys));
  }

  lemma RatesAgreeOnMembers(xs: seq<MatchedStake>, ys: seq<MatchedStake>)
    requires RatesAgree(xs) && forall y :: y in ys ==> y in xs
    ensures RatesAgree(ys)
  {
    hide GroupOf, RateOf;
    forall i, j | 0 <= i < |ys| && 0 <= j < |ys| && GroupOf(ys[i]) == GroupOf(ys[j])
      ensures RateOf(ys[i]) == RateOf(ys[j])
    {
      assert ys[i] in ys && ys[j] in ys;
      var a :| 0 <= a < |xs| && xs[a] == ys[i];
      var b :| 0 <= b < |xs| && xs[b] == ys[j];
    }
  }

  lemma GroupRatePermutes(xs: seq<MatchedStake>, ys: seq<MatchedStake>, group: CommissionGroup)
    requires RatesAgree(xs) && RatesAgree(ys) && forall x :: x in xs <==> x in ys
    requires group in Groups(xs)
    ensures GroupRate(xs, group) == GroupRate(ys, group)
  {
    hide GroupOf, RateOf;
    GroupMembers(xs, GroupOf);
    var i :| 0 <= i < |xs| && GroupOf(xs[i]) == group;
    assert xs[i] in ys;
    var j :| 0 <= j < |ys| && ys[j] == xs[i];
    GroupRateIsRate(xs, i);
    GroupRateIsRate(ys, j);
  }

  lemma ScenarioPermutes(backs: seq<BackStake>, backs': seq<BackStake>, xs: seq<MatchedStake>, ys: seq<MatchedStake>,
                         winner: Id)
    requires multiset(backs) == multiset(backs') && multiset(xs) == multiset(ys)
    requires RatesAgree(xs)
    ensures ScenarioOf(backs, xs, winner) == ScenarioOf(backs', ys, winner)
  {
    hide GroupOf, LegProfit, BackProfit, RatesAgree, Charge;
    MembersPermute(xs, ys);
    RatesAgreeOnMembers(xs, ys);
    SumByPermute(backs, backs', BackProfitIf(winner));
    GrossIsSum(xs, winner);
    GrossIsSum(ys, winner);
    SumByPermute(xs, ys, ProfitIf(winner));
    GroupsPermute(xs, ys);
    var groups := Groups(xs);
    forall i | 0 <= i < |groups|
      ensures ChargeOf(xs, winner)(groups[i]) == ChargeOf(ys, winner)(groups[i])
    {
      assert groups[i] in groups;
      SumByPermute(xs, ys, Only(GroupOf, ProfitIf(winner), groups[i]));
      GroupRatePermutes(xs, ys, groups[i]);
    }
    SumByAgrees(groups, ChargeOf(xs, winner), ChargeOf(ys, winner));
    SumByPermute(groups, Groups(ys), ChargeOf(ys, winner));
  }

  lemma MarketPermutes(backs: seq<BackStake>, backs': seq<BackStake>, xs: seq<MatchedStake>, ys: seq<MatchedStake>,
                       expected: seq<Id>)
    requires |xs| > 0 && |ys| > 0
    requires (forall b :: b in backs <==> b in backs') && (forall x :: x in xs <==> x in ys)
    requires OneMarket(backs, xs) && AllExpected(backs, xs, expected)
    ensures OneMarket(backs', ys) && AllExpected(backs', ys, expected)
    ensures xs[0].price.event == ys[0].price.event && xs[0].price.market == ys[0].price.market
  {
    forall i | 0 <= i < |ys|
      ensures ys[i].price.event == xs[0].price.event && ys[i].price.market == xs[0].price.market
              && ys[i].price.selection in expected
    {
      assert ys[i] in xs;
      var j :| 0 <= j < |xs| && xs[j] == ys[i];
    }
    forall i | 0 <= i < |backs'|
      ensures backs'[i].quote.event == xs[0].price.event && backs'[i].quote.market == xs[0].price.market
              && backs'[i].quote.selection in expected
    {
      assert backs'[i] in backs;
      var j :| 0 <= j < |backs| && backs[j] == backs'[i];
    }
  }

  lemma LiquidityPermutes(xs: seq<MatchedStake>, ys: seq<MatchedStake>)
    requires multiset(xs) == multiset(ys) && LiquidityHolds(xs)
    ensures LiquidityHolds(ys)
  {
    MembersPermute(xs, ys);
    forall i | 0 <= i < |ys|
      ensures UsedAt(ys, LevelOf(ys[i])) <= ys[i].price.available
    {
      assert ys[i] in xs;
      var j :| 0 <= j < |xs| && xs[j] == ys[i];
      SumByPermute(xs, ys, Only(LevelOf, StakeOf, LevelOf(ys[i])));
    }
  }

  /** Whether a portfolio can be evaluated, and to what, does not depend on the order of its legs. */
  lemma PermutationInvariant(backs: seq<BackStake>, backs': seq<BackStake>, xs: seq<MatchedStake>,
                             ys: seq<MatchedStake>, expected: seq<Id>)
    requires multiset(backs) == multiset(backs') && multiset(xs) == multiset(ys)
    requires Evaluable(backs, xs, expected)
    ensures Evaluable(backs', ys, expected)
    ensures Evaluated(backs, xs, expected) == Evaluated(backs', ys, expected)
  {
    hide LegProfit, BackProfit, ScenarioOf, RatesAgree, LiquidityHolds, OneMarket, AllExpected;
    MembersPermute(backs, backs');
    MembersPermute(xs, ys);
    MarketPermutes(backs, backs', xs, ys, expected);
    LiquidityPermutes(xs, ys);
    RatesAgreeOnMembers(xs, ys);
    var winners := SortBy(expected, ByValue);
    forall i | 0 <= i < |winners|
      ensures ScenarioOf(backs, xs, winners[i]) == ScenarioOf(backs', ys, winners[i])
    {
      ScenarioPermutes(backs, backs', xs, ys, winners[i]);
    }
    assert Scenarios(backs, xs, winners) == Scenarios(backs', ys, winners);
    SumByPermute(xs, ys, LiabilityOf);
  }

  // ----- Splitting a leg

  /** Two parts of one matched stake. */
  predicate Splits(whole: MatchedStake, first: MatchedStake, second: MatchedStake) {
    whole.price == first.price == second.price && whole.stake == first.stake + second.stake
  }

  lemma LiabilitySplits(a: Positive, b: Positive, c: Positive, odds: Odds)
    requires c == a + b
    ensures LayLiability(c, odds) == LayLiability(a, odds) + LayLiability(b, odds)
  {
    var edge := odds - 1.0;
    assert c * edge == a * edge + b * edge;
  }

  lemma ProfitSplits(whole: MatchedStake, first: MatchedStake, second: MatchedStake, winner: Id)
    requires Splits(whole, first, second)
    ensures LegProfit(whole, winner) == LegProfit(first, winner) + LegProfit(second, winner)
    ensures LiabilityOf(whole) == LiabilityOf(first) + LiabilityOf(second)
  {
    hide LayLiability;
    LiabilitySplits(first.stake, second.stake, whole.stake, whole.price.odds);
  }

  lemma SumSplits(rest: seq<MatchedStake>, whole: MatchedStake, first: MatchedStake, second: MatchedStake,
                  f: MatchedStake -> real)
    requires f(whole) == f(first) + f(second)
    ensures SumBy(rest + [whole], f) == SumBy(rest + [first, second], f)
  {
    assert (rest + [whole])[..|rest|] == rest;
    assert (rest + [first, second])[..|rest| + 1] == rest + [first];
    assert (rest + [first])[..|rest|] == rest;
  }

  lemma GroupsSplit(rest: seq<MatchedStake>, whole: MatchedStake, first: MatchedStake, second: MatchedStake)
    requires Splits(whole, first, second)
    ensures Groups(rest + [first, second]) == Groups(rest + [whole])
    ensures forall g :: GroupRate(rest + [first, second], g) == GroupRate(rest + [whole], g)
  {
    var keys, g := KeysOf(rest, GroupOf), GroupOf(whole);
    assert GroupOf(first) == g && GroupOf(second) == g;
    assert KeysOf(rest + [whole], GroupOf) == keys + [g];
    assert KeysOf(rest + [first, second], GroupOf) == keys + [g, g];
    assert (keys + [g, g])[..|keys| + 1] == keys + [g];
    assert (keys + [g])[..|keys|] == keys;
    assert (rest + [whole])[..|rest|] == rest;
    assert (rest + [first, second])[..|rest| + 1] == rest + [first];
    assert (rest + [first])[..|rest|] == rest;
  }

  lemma SameGroup(whole: MatchedStake, first: MatchedStake, second: MatchedStake)
    requires Splits(whole, first, second)
    ensures GroupOf(whole) == GroupOf(first) == GroupOf(second)
  {
  }

  lemma ScenarioSplits(backs: seq<BackStake>, rest: seq<MatchedStake>, whole: MatchedStake, first: MatchedStake,
                       second: MatchedStake, winner: Id)
    requires Splits(whole, first, second)
    ensures ScenarioOf(backs, rest + [first, second], winner) == ScenarioOf(backs, rest + [whole], winner)
  {
    hide LegProfit, BackProfit, Charge, LiabilityOf, GroupOf, Groups, GroupRate, BackProfitIf;
    var xs, ys := rest + [whole], rest + [first, second];
    ProfitSplits(whole, first, second, winner);
    SameGroup(whole, first, second);
    GroupsSplit(rest, whole, first, second);
    GrossIsSum(xs, winner);
    GrossIsSum(ys, winner);
    SumSplits(rest, whole, first, second, ProfitIf(winner));
    var groups := Groups(xs);
    forall i | 0 <= i < |groups|
      ensures ChargeOf(xs, winner)(groups[i]) == ChargeOf(ys, winner)(groups[i])
    {
      SumSplits(rest, whole, first, second, Only(GroupOf, ProfitIf(winner), groups[i]));
    }
    SumByAgrees(groups, ChargeOf(xs, winner), ChargeOf(ys, winner));
  }

  lemma LiquiditySplits(rest: seq<MatchedStake>, whole: MatchedStake, first: MatchedStake, second: MatchedStake)
    requires Splits(whole, first, second)
    ensures LiquidityHolds(rest + [whole]) <==> LiquidityHolds(rest + [first, second])
  {
    var xs, ys, n := rest + [whole], rest + [first, second], |rest|;
    assert LevelOf(whole) == LevelOf(first) == LevelOf(second);
    assert StakeOf(whole) == StakeOf(first) + StakeOf(second);
    hide LevelOf, StakeOf;
    forall level
      ensures UsedAt(xs, level) == UsedAt(ys, level)
    {
      SumSplits(rest, whole, first, second, Only(LevelOf, StakeOf, level));
    }
    forall i | 0 <= i < |ys|
      ensures MeetsLimitOf(xs, ys[i])
    {
      var j := if i < n then i else n;
      assert LevelOf(xs[j]) == LevelOf(ys[i]) && AvailableOf(xs[j]) == AvailableOf(ys[i]);
    }
    forall i | 0 <= i < |xs|
      ensures MeetsLimitOf(ys, xs[i])
    {
      assert LevelOf(ys[i]) == LevelOf(xs[i]) && AvailableOf(ys[i]) == AvailableOf(xs[i]);
    }
    SameLimits(xs, ys);
    SameLimits(ys, xs);
  }

  predicate MeetsLimitOf(legs: seq<MatchedStake>, leg: MatchedStake) {
    exists j :: 0 <= j < |legs| && LevelOf(legs[j]) == LevelOf(leg) && AvailableOf(legs[j]) == AvailableOf(leg)
  }

  /** Liquidity carries over when usage and the limits met are the same. */
  lemma SameLimits(xs: seq<MatchedStake>, ys: seq<MatchedStake>)
    requires forall level :: UsedAt(xs, level) == UsedAt(ys, level)
    requires forall i :: 0 <= i < |ys| ==> MeetsLimitOf(xs, ys[i])
    ensures LiquidityHolds(xs) ==> LiquidityHolds(ys)
  {
    hide LevelOf, StakeOf;
    if LiquidityHolds(xs) {
      forall i | 0 <= i < |ys|
        ensures UsedAt(ys, LevelOf(ys[i])) <= AvailableOf(ys[i])
      {
        assert MeetsLimitOf(xs, ys[i]);
        var j :| 0 <= j < |xs| && LevelOf(xs[j]) == LevelOf(ys[i]) && AvailableOf(xs[j]) == AvailableOf(ys[i]);
        assert UsedAt(xs, LevelOf(xs[j])) <= AvailableOf(xs[j]);
      }
    }
  }

  lemma RatesSplit(rest: seq<MatchedStake>, whole: MatchedStake, first: MatchedStake, second: MatchedStake)
    requires Splits(whole, first, second)
    ensures RatesAgree(rest + [whole]) <==> RatesAgree(rest + [first, second])
  {
    var xs, ys, n := rest + [whole], rest + [first, second], |rest|;
    forall i | 0 <= i < |ys|
      ensures GroupOf(ys[i]) == GroupOf(xs[if i < n then i else n])
              && RateOf(ys[i]) == RateOf(xs[if i < n then i else n])
    {
    }
    forall i | 0 <= i < |xs|
      ensures GroupOf(xs[i]) == GroupOf(ys[i]) && RateOf(xs[i]) == RateOf(ys[i])
    {
    }
  }

  lemma MarketSplits(backs: seq<BackStake>, rest: seq<MatchedStake>, whole: MatchedStake, first: MatchedStake,
                     second: MatchedStake, expected: seq<Id>)
    requires Splits(whole, first, second)
    ensures OneMarket(backs, rest + [whole]) <==> OneMarket(backs, rest + [first, second])
    ensures AllExpected(backs, rest + [whole], expected) <==> AllExpected(backs, rest + [first, second], expected)
    ensures (rest + [whole])[0].price == (rest + [first, second])[0].price
  {
    var xs, ys, n := rest + [whole], rest + [first, second], |rest|;
    forall i | 0 <= i < |ys|
      ensures ys[i].price == xs[if i < n then i else n].price
    {
    }
    forall i | 0 <= i < |xs|
      ensures xs[i].price == ys[i].price
    {
    }
  }

  /** Splitting a stake at one price level changes nothing, the liquidity check included. */
  lemma SplitInvariant(backs: seq<BackStake>, rest: seq<MatchedStake>, whole: MatchedStake, first: MatchedStake,
                       second: MatchedStake, expected: seq<Id>)
    requires Splits(whole, first, second)
    ensures Evaluable(backs, rest + [whole], expected) <==> Evaluable(backs, rest + [first, second], expected)
    ensures |expected| > 0 ==> Evaluated(backs, rest + [whole], expected)
                               == Evaluated(backs, rest + [first, second], expected)
  {
    hide ScenarioOf, LiabilityOf, LiquidityHolds, RatesAgree, OneMarket, AllExpected;
    MarketSplits(backs, rest, whole, first, second, expected);
    LiquiditySplits(rest, whole, first, second);
    RatesSplit(rest, whole, first, second);
    ProfitSplits(whole, first, second, 0);
    SumSplits(rest, whole, first, second, LiabilityOf);
    var winners := SortBy(expected, ByValue);
    forall i | 0 <= i < |winners|
      ensures ScenarioOf(backs, rest + [whole], winners[i]) == ScenarioOf(backs, rest + [first, second], winners[i])
    {
      ScenarioSplits(backs, rest, whole, first, second, winners[i]);
    }
    assert Scenarios(backs, rest + [whole], winners) == Scenarios(backs, rest + [first, second], winners);
  }

  // ----- Commission

  lemma ChargeIs(gross: real, rate: Rate)
    ensures Charge(gross, rate) == if gross > 0.0 then gross * rate else 0.0
  {
  }

  lemma ProductMonotone(low: real, high: real, rate: Rate)
    requires low <= high
    ensures low * rate <= high * rate
  {
    var factor: real := rate;
    if factor > 0.0 {
      ScaleCompare(low, high, factor);
    }
  }

  lemma ChargeMonotone(low: real, high: real, rate: Rate)
    ensures low <= high ==> Charge(low, rate) <= Charge(high, rate)
  {
    hide Charge;
    if 0.0 < low <= high {
      calc {
        Charge(low, rate);
      == { ChargeIs(low, rate); }
        low * rate;
      <= { ProductMonotone(low, high, rate); }
        high * rate;
      == { ChargeIs(high, rate); }
        Charge(high, rate);
      }
    }
  }

  /** Commission on two results together is at most the commission on each. */
  lemma ChargeSubadditive(a: real, b: real, rate: Rate)
    ensures Charge(a + b, rate) <= Charge(a, rate) + Charge(b, rate)
  {
    hide Charge;
    ChargeMonotone(a + b, a, rate);
    ChargeMonotone(a + b, b, rate);
    if a > 0.0 && b > 0.0 {
      ChargeIs(a, rate);
      ChargeIs(b, rate);
      ChargeIs(a + b, rate);
      ProductOfSum(a, b, rate);
    }
  }

  lemma ProductOfSum(a: real, b: real, rate: real)
    ensures (a + b) * rate == a * rate + b * rate
  {
  }

  function ChargeAt(rate: Rate, winner: Id): MatchedStake -> real {
    (leg: MatchedStake) => Charge(LegProfit(leg, winner), rate)
  }

  /** What charging every leg on its own would cost. */
  function LegCharge(winner: Id): MatchedStake -> real {
    (leg: MatchedStake) => Charge(LegProfit(leg, winner), RateOf(leg))
  }

  lemma {:induction false} GroupChargeBounded(legs: seq<MatchedStake>, group: CommissionGroup, rate: Rate, winner: Id)
    ensures Charge(SumBy(legs, Only(GroupOf, ProfitIf(winner), group)), rate)
            <= SumBy(legs, Only(GroupOf, ChargeAt(rate, winner), group))
  {
    hide GroupOf, LegProfit;
    if |legs| > 0 {
      var n := |legs| - 1;
      GroupChargeBounded(legs[..n], group, rate, winner);
      if GroupOf(legs[n]) == group {
        hide Charge;
        ChargeSubadditive(SumBy(legs[..n], Only(GroupOf, ProfitIf(winner), group)), LegProfit(legs[n], winner), rate);
      }
    }
  }

  /** Netting winnings within a group never costs more commission than charging each leg. */
  lemma NettingNeverCostsMore(backs: seq<BackStake>, legs: seq<MatchedStake>, winner: Id)
    requires RatesAgree(legs)
    ensures ScenarioOf(backs, legs, winner).commission <= SumBy(legs, LegCharge(winner))
  {
    hide GroupOf, LegCharge, ChargeOf, GrossOf, GroupTotal, RatesAgree;
    var groups := Groups(legs);
    GroupMembers(legs, GroupOf);
    GroupsPartition(legs, GroupOf, LegCharge(winner), groups);
    forall i | 0 <= i < |groups|
      ensures ChargeOf(legs, winner)(groups[i]) <= GroupTotal(legs, GroupOf, LegCharge(winner))(groups[i])
    {
      GroupChargeAtMost(legs, groups[i], winner);
    }
    SumByMonotone(groups, ChargeOf(legs, winner), GroupTotal(legs, GroupOf, LegCharge(winner)));
  }

  lemma GroupChargeAtMost(legs: seq<MatchedStake>, group: CommissionGroup, winner: Id)
    requires RatesAgree(legs)
    ensures ChargeOf(legs, winner)(group) <= GroupTotal(legs, GroupOf, LegCharge(winner))(group)
  {
    hide GroupOf, Charge, RatesAgree, LegProfit;
    GroupChargeAtItsRate(legs, group, winner);
    GroupChargeBounded(legs, group, GroupRate(legs, group), winner);
    assert GrossOf(legs, winner)(group) == SumBy(legs, Only(GroupOf, ProfitIf(winner), group));
    assert ChargeOf(legs, winner)(group) == Charge(GrossOf(legs, winner)(group), GroupRate(legs, group));
    assert GroupTotal(legs, GroupOf, LegCharge(winner))(group) == SumBy(legs, Only(GroupOf, LegCharge(winner), group));
  }

  lemma GroupChargeAtItsRate(legs: seq<MatchedStake>, group: CommissionGroup, winner: Id)
    requires RatesAgree(legs)
    ensures SumBy(legs, Only(GroupOf, ChargeAt(GroupRate(legs, group), winner), group))
            == SumBy(legs, Only(GroupOf, LegCharge(winner), group))
  {
    hide GroupOf, LegProfit, Charge, RateOf;
    forall i | 0 <= i < |legs|
      ensures Only(GroupOf, ChargeAt(GroupRate(legs, group), winner), group)(legs[i])
              == Only(GroupOf, LegCharge(winner), group)(legs[i])
    {
      GroupRateIsRate(legs, i);
    }
    SumByAgrees(legs, Only(GroupOf, ChargeAt(GroupRate(legs, group), winner), group),
                Only(GroupOf, LegCharge(winner), group));
  }

  // ----- Back and lay in a two-selection market

  /** The back stake on `other` that mirrors a lay stake: stake s(o-1) at odds o/(o-1), in the same group. */
  ghost predicate Mirrors(back: MatchedStake, lay: MatchedStake, other: Id) {
    && lay.price.side == Lay && back.price.side == Back
    && back.price.selection == other && other != lay.price.selection
    && GroupOf(back) == GroupOf(lay) && RateOf(back) == RateOf(lay)
    && back.stake == LayLiability(lay.stake, lay.price.odds)
    && back.price.odds == lay.price.odds / (lay.price.odds - 1.0)
  }

  lemma MirrorOdds(stake: Positive, odds: Odds, mirrored: Odds)
    requires mirrored == odds / (odds - 1.0)
    ensures LayLiability(LayLiability(stake, odds), mirrored) == stake
  {
    var edge: real := odds - 1.0;
    var inverse := 1.0 / edge;
    assert edge * inverse == 1.0;
    assert mirrored - 1.0 == inverse by {
      assert (edge + 1.0) / edge == edge / edge + 1.0 / edge;
    }
    assert stake * edge * inverse == stake * (edge * inverse);
  }

  lemma MirrorProfit(back: MatchedStake, lay: MatchedStake, other: Id, winner: Id)
    requires Mirrors(back, lay, other) && (winner == other || winner == lay.price.selection)
    ensures LegProfit(back, winner) == LegProfit(lay, winner)
  {
    hide LayLiability;
    MirrorOdds(lay.stake, lay.price.odds, back.price.odds);
  }

  lemma SumReplaces(rest: seq<MatchedStake>, a: MatchedStake, b: MatchedStake, f: MatchedStake -> real)
    requires f(a) == f(b)
    ensures SumBy(rest + [a], f) == SumBy(rest + [b], f)
  {
    assert (rest + [a])[..|rest|] == rest && (rest + [b])[..|rest|] == rest;
  }

  lemma GroupsReplace(rest: seq<MatchedStake>, a: MatchedStake, b: MatchedStake)
    requires GroupOf(a) == GroupOf(b) && RateOf(a) == RateOf(b)
    ensures Groups(rest + [a]) == Groups(rest + [b])
    ensures forall g :: GroupRate(rest + [a], g) == GroupRate(rest + [b], g)
  {
    hide GroupOf, RateOf;
    assert KeysOf(rest + [a], GroupOf) == KeysOf(rest, GroupOf) + [GroupOf(a)];
    assert KeysOf(rest + [b], GroupOf) == KeysOf(rest, GroupOf) + [GroupOf(b)];
    assert (rest + [a])[..|rest|] == rest && (rest + [b])[..|rest|] == rest;
  }

  lemma MirroredScenario(backs: seq<BackStake>, rest: seq<MatchedStake>, lay: MatchedStake, back: MatchedStake,
                         other: Id, winner: Id)
    requires Mirrors(back, lay, other) && (winner == other || winner == lay.price.selection)
    ensures ScenarioOf(backs, rest + [back], winner) == ScenarioOf(backs, rest + [lay], winner)
  {
    hide LegProfit, BackProfitIf, Charge, GroupOf, RateOf, LayLiability, Groups, SumBy, GroupRate;
    GroupsReplace(rest, back, lay);
    MirrorProfit(back, lay, other, winner);
    var groups := Groups(rest + [lay]);
    forall g
      ensures GrossOf(rest + [back], winner)(g) == GrossOf(rest + [lay], winner)(g)
      ensures ChargeOf(rest + [back], winner)(g) == ChargeOf(rest + [lay], winner)(g)
    {
      SumReplaces(rest, back, lay, Only(GroupOf, ProfitIf(winner), g));
    }
    SumByAgrees(groups, GrossOf(rest + [back], winner), GrossOf(rest + [lay], winner));
    SumByAgrees(groups, ChargeOf(rest + [back], winner), ChargeOf(rest + [lay], winner));
  }

  /** What `leg` adds to a portfolio fits the liquidity observed at its level, by itself and by the others. */
  predicate RoomFor(rest: seq<MatchedStake>, leg: MatchedStake) {
    var used := UsedAt(rest, LevelOf(leg)) + leg.stake;
    && used <= leg.price.available
    && forall i :: 0 <= i < |rest| && LevelOf(rest[i]) == LevelOf(leg) ==> used <= rest[i].price.available
  }

  /** Adding a leg keeps the liquidity check exactly when there is room for it. */
  lemma LiquidityWithOneMore(rest: seq<MatchedStake>, leg: MatchedStake)
    ensures LiquidityHolds(rest + [leg]) <==> LiquidityHolds(rest) && RoomFor(rest, leg)
  {
    hide LevelOf, SumBy;
    var longer, n := rest + [leg], |rest|;
    forall level
      ensures UsedAt(longer, level) == UsedAt(rest, level) + if LevelOf(leg) == level then leg.stake else 0.0
    {
      UsedWithOneMore(rest, leg, level);
    }
    assert longer[n] == leg && forall i :: 0 <= i < n ==> longer[i] == rest[i];
    if LiquidityHolds(longer) {
      forall i | 0 <= i < n
        ensures UsedAt(rest, LevelOf(rest[i])) <= rest[i].price.available
        ensures LevelOf(rest[i]) == LevelOf(leg) ==> UsedAt(rest, LevelOf(leg)) + leg.stake <= rest[i].price.available
      {
        assert UsedAt(longer, LevelOf(longer[i])) <= longer[i].price.available;
      }
      assert UsedAt(longer, LevelOf(longer[n])) <= longer[n].price.available;
    }
    if LiquidityHolds(rest) && RoomFor(rest, leg) {
      forall i | 0 <= i < |longer|
        ensures UsedAt(longer, LevelOf(longer[i])) <= longer[i].price.available
      {
        assert i < n ==> UsedAt(rest, LevelOf(rest[i])) <= rest[i].price.available;
      }
    }
  }

  lemma UsedWithOneMore(rest: seq<MatchedStake>, leg: MatchedStake, level: PriceLevel)
    ensures UsedAt(rest + [leg], level) == UsedAt(rest, level) + if LevelOf(leg) == level then leg.stake else 0.0
  {
    var stakeAt := Only(LevelOf, StakeOf, level);
    SumByStep(rest + [leg], stakeAt, |rest|);
    assert (rest + [leg])[..|rest|] == rest && (rest + [leg])[..|rest| + 1] == rest + [leg];
    assert stakeAt(leg) == if LevelOf(leg) == level then leg.stake else 0.0;
  }

  lemma MirrorKeepsTerms(backs: seq<BackStake>, rest: seq<MatchedStake>, lay: MatchedStake, back: MatchedStake,
                         other: Id, expected: seq<Id>)
    requires Mirrors(back, lay, other) && InMarketOf(back, lay)
    requires other in expected && lay.price.selection in expected
    ensures OneMarket(backs, rest + [back]) <==> OneMarket(backs, rest + [lay])
    ensures AllExpected(backs, rest + [back], expected) <==> AllExpected(backs, rest + [lay], expected)
    ensures RatesAgree(rest + [back]) <==> RatesAgree(rest + [lay])
  {
    hide GroupOf, RateOf;
    var xs, ys, n := rest + [back], rest + [lay], |rest|;
    forall i | 0 <= i < n
      ensures xs[i] == ys[i] == rest[i]
    {
    }
    assert xs[n] == back && ys[n] == lay;
    SameTerms(backs, xs, ys, expected);
    SameTerms(backs, ys, xs, expected);
  }

  /** Legs that agree on market, commission group and rate, and whose selections are all expected. */
  lemma SameTerms(backs: seq<BackStake>, xs: seq<MatchedStake>, ys: seq<MatchedStake>, expected: seq<Id>)
    requires |xs| == |ys| > 0
    requires forall i :: 0 <= i < |xs| ==> InMarketOf(xs[i], ys[i]) && GroupOf(xs[i]) == GroupOf(ys[i])
                                           && RateOf(xs[i]) == RateOf(ys[i])
    requires forall i :: 0 <= i < |xs| ==> (xs[i].price.selection in expected <==> ys[i].price.selection in expected)
    ensures OneMarket(backs, xs) ==> OneMarket(backs, ys)
    ensures AllExpected(backs, xs, expected) ==> AllExpected(backs, ys, expected)
    ensures RatesAgree(xs) ==> RatesAgree(ys)
  {
    hide GroupOf, RateOf;
  }

  predicate InMarketOf(a: MatchedStake, b: MatchedStake) {
    a.price.event == b.price.event && a.price.market == b.price.market
  }

  /**
    In a two-selection market a lay stake can be replaced by its mirrored back stake,
    wherever both find liquidity: either portfolio can be evaluated if the other can, every
    outcome is the same, and so are the guaranteed profit and the arbitrage flag.
   */
  lemma LayEqualsMirroredBack(backs: seq<BackStake>, rest: seq<MatchedStake>, lay: MatchedStake, back: MatchedStake,
                              other: Id, expected: seq<Id>)
    requires Mirrors(back, lay, other) && InMarketOf(back, lay)
    requires forall id :: id in expected <==> id == other || id == lay.price.selection
    ensures Evaluable(backs, rest + [back], expected) && RoomFor(rest, lay)
            <==> Evaluable(backs, rest + [lay], expected) && RoomFor(rest, back)
    ensures |expected| > 0 ==>
      var withBack, withLay := Evaluated(backs, rest + [back], expected), Evaluated(backs, rest + [lay], expected);
      && withBack.scenarios == withLay.scenarios
      && withBack.guaranteedProfit == withLay.guaranteedProfit && withBack.isArbitrage == withLay.isArbitrage
  {
    hide ScenarioOf, LiquidityHolds, RatesAgree, OneMarket, AllExpected, RoomFor, Mirrors;
    MirrorKeepsTerms(backs, rest, lay, back, other, expected);
    LiquidityWithOneMore(rest, lay);
    LiquidityWithOneMore(rest, back);
    var winners := SortBy(expected, ByValue);
    SortByMembers(expected, ByValue);
    forall i | 0 <= i < |winners|
      ensures ScenarioOf(backs, rest + [back], winners[i]) == ScenarioOf(backs, rest + [lay], winners[i])
    {
      assert winners[i] in winners;
      MirroredScenario(backs, rest, lay, back, other, winners[i]);
    }
    assert Scenarios(backs, rest + [back], winners) == Scenarios(backs, rest + [lay], winners);
  }

  // ----- The worst case

  /** The most a leg can lose, negated. */
  function Floor(leg: MatchedStake): real {
    if leg.price.side == Lay then 0.0 - LayLiability(leg.stake, leg.price.odds) else 0.0 - leg.stake
  }

  function BackFloor(leg: BackStake): real { 0.0 - leg.stake }

  lemma LegAboveFloor(leg: MatchedStake, winner: Id)
    ensures Floor(leg) <= LegProfit(leg, winner) && Floor(leg) < 0.0
  {
  }

  lemma {:induction false} GroupAboveFloor(legs: seq<MatchedStake>, group: CommissionGroup, winner: Id)
    ensures SumBy(legs, Only(GroupOf, Floor, group)) <= SumBy(legs, Only(GroupOf, ProfitIf(winner), group))
    ensures SumBy(legs, Only(GroupOf, Floor, group)) <= 0.0
  {
    hide GroupOf, LegProfit, Floor;
    if |legs| > 0 {
      GroupAboveFloor(legs[..|legs| - 1], group, winner);
      LegAboveFloor(legs[|legs| - 1], winner);
    }
  }

  function NetOf(legs: seq<MatchedStake>, winner: Id): CommissionGroup -> real {
    (group: CommissionGroup) => GrossOf(legs, winner)(group) - ChargeOf(legs, winner)(group)
  }

  lemma {:induction false} NetIsDifference(groups: seq<CommissionGroup>, legs: seq<MatchedStake>, winner: Id)
    ensures SumBy(groups, NetOf(legs, winner))
            == SumBy(groups, GrossOf(legs, winner)) - SumBy(groups, ChargeOf(legs, winner))
  {
    hide GrossOf, ChargeOf;
    if |groups| > 0 {
      NetIsDifference(groups[..|groups| - 1], legs, winner);
    }
  }

  /** Commission never turns a group's result below the sum of its legs' worst cases. */
  lemma NetAboveFloor(legs: seq<MatchedStake>, group: CommissionGroup, winner: Id)
    ensures GroupTotal(legs, GroupOf, Floor)(group) <= NetOf(legs, winner)(group)
  {
    hide GroupOf, LegProfit, Floor;
    GroupAboveFloor(legs, group, winner);
    assert GroupTotal(legs, GroupOf, Floor)(group) == SumBy(legs, Only(GroupOf, Floor, group));
    assert GrossOf(legs, winner)(group) == SumBy(legs, Only(GroupOf, ProfitIf(winner), group));
    assert ChargeOf(legs, winner)(group) == Charge(GrossOf(legs, winner)(group), GroupRate(legs, group));
  }

  /** No outcome loses more than all bookmaker stakes, back stakes and lay liabilities together. */
  lemma LossBounded(backs: seq<BackStake>, legs: seq<MatchedStake>, winner: Id)
    ensures ScenarioOf(backs, legs, winner).net >= SumBy(backs, BackFloor) + SumBy(legs, Floor)
  {
    hide GroupOf, LegProfit, Floor, Charge, NetOf, GroupTotal, GrossOf, ChargeOf;
    var groups := Groups(legs);
    GroupMembers(legs, GroupOf);
    GroupsPartition(legs, GroupOf, Floor, groups);
    forall i | 0 <= i < |groups|
      ensures GroupTotal(legs, GroupOf, Floor)(groups[i]) <= NetOf(legs, winner)(groups[i])
    {
      NetAboveFloor(legs, groups[i], winner);
    }
    SumByMonotone(groups, GroupTotal(legs, GroupOf, Floor), NetOf(legs, winner));
    NetIsDifference(groups, legs, winner);
    SumByMonotone(backs, BackFloor, BackProfitIf(winner));
  }

  /** The guaranteed profit is the worst outcome, and the flag says that every outcome wins. */
  lemma ArbitrageIffEveryOutcomeWins(backs: seq<BackStake>, legs: seq<MatchedStake>, expected: seq<Id>)
    requires Evaluable(backs, legs, expected)
    ensures var e := Evaluated(backs, legs, expected);
      && (e.isArbitrage <==> forall id :: id in expected ==> ScenarioOf(backs, legs, id).net > 0.0)
      && (forall id :: id in expected ==> e.guaranteedProfit <= ScenarioOf(backs, legs, id).net)
      && e.guaranteedProfit >= SumBy(backs, BackFloor) + SumBy(legs, Floor)
  {
    hide ScenarioOf, Floor, LiquidityHolds, OneMarket, AllExpected, RatesAgree;
    var winners := SortBy(expected, ByValue);
    SortByMembers(expected, ByValue);
    var nets := Nets(Scenarios(backs, legs, winners));
    MinOfIsLeast(nets, MinOf(nets));
    var k :| 0 <= k < |nets| && nets[k] == MinOf(nets);
    assert winners[k] in winners;
    LossBounded(backs, legs, winners[k]);
    forall id | id in expected
      ensures MinOf(nets) <= ScenarioOf(backs, legs, id).net
    {
      assert id in winners;
      var i :| 0 <= i < |winners| && winners[i] == id;
      assert nets[i] == ScenarioOf(backs, legs, id).net;
    }
  }
}
