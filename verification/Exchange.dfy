/** Mixed bookmaker and exchange portfolios: liquidity, netted commission, and profit per outcome. */
module Exchange {
  import opened Wrappers
  import opened Reals
  import opened Ordering
  import opened Grouping
  import opened Domain
  import opened Lifecycle

  datatype Side = Back | Lay

  /** An observed exchange price; what the observation did not establish is absent. */
  datatype PriceObservation = PriceObservation(
    exchange: Id,
    transport: Id,
    event: Id,
    market: Id,
    selection: Id,
    odds: Odds,
    status: QuoteStatus,
    side: Option<Side>,
    available: Option<Positive>,
    commissionRate: Option<Rate>,
    scope: Option<Id>,
    rulesVerified: bool)

  /** A price whose every term is known. */
  datatype SupportedPrice = SupportedPrice(
    exchange: Id,
    transport: Id,
    event: Id,
    market: Id,
    selection: Id,
    odds: Odds,
    side: Side,
    available: Positive,
    commissionRate: Rate,
    scope: Id)

  datatype MatchedStake = MatchedStake(price: SupportedPrice, stake: Positive)

  datatype Blocker =
    | NotActive | SideMissing | LiquidityMissing | RateMissing | ScopeMissing | RulesUnverified

  /** Everything that keeps an observed price from being used. */
  function Blockers(p: PriceObservation): set<Blocker> {
    (if p.status != Active then {NotActive} else {}) + (if p.side.None? then {SideMissing} else {})
    + (if p.available.None? then {LiquidityMissing} else {}) + (if p.commissionRate.None? then {RateMissing} else {})
    + (if p.scope.None? then {ScopeMissing} else {}) + (if !p.rulesVerified then {RulesUnverified} else {})
  }

  /** The observation that establishes every term of a supported price. */
  function Observation(price: SupportedPrice): PriceObservation {
    PriceObservation(price.exchange, price.transport, price.event, price.market, price.selection, price.odds, Active,
                     Some(price.side), Some(price.available), Some(price.commissionRate), Some(price.scope), true)
  }

  /** A stake can be matched only at a price with no blocker, and within its liquidity; it keeps every term. */
  function PlaceStake(p: PriceObservation, stake: Positive): (r: Option<MatchedStake>)
    ensures r.Some? <==> Blockers(p) == {} && stake <= p.available.value
    ensures r.Some? ==> Observation(r.value.price) == p && r.value.stake == stake
  {
    if p.status == Active && p.side.Some? && p.available.Some? && p.commissionRate.Some? && p.scope.Some?
      && p.rulesVerified
       && stake <= p.available.value
    then
      Some(MatchedStake(SupportedPrice(p.exchange, p.transport, p.event, p.market, p.selection, p.odds, p.side.value,
                                       p.available.value, p.commissionRate.value, p.scope.value), stake))
    else
      assert p.status != Active ==> NotActive in Blockers(p);
      assert p.side.None? ==> SideMissing in Blockers(p);
      assert p.available.None? ==> LiquidityMissing in Blockers(p);
      assert p.commissionRate.None? ==> RateMissing in Blockers(p);
      assert p.scope.None? ==> ScopeMissing in Blockers(p);
      assert !p.rulesVerified ==> RulesUnverified in Blockers(p);
      None
  }

  datatype BackStake = BackStake(quote: OddsQuote, stake: Positive)

  datatype ExchangeError =
    | NoExchangeStake | ExpectedTooFew | MixedMarkets | OutsideMarket | LiquidityExceeded | ConflictingRates

  /** Commission is charged per exchange and account scope. */
  datatype CommissionGroup = CommissionGroup(exchange: Id, scope: Id)

  /** Stakes at one price level share its liquidity. */
  datatype PriceLevel = PriceLevel(exchange: Id, transport: Id, event: Id, market: Id, selection: Id, side: Side,
                                   odds: Odds, scope: Id)

  function GroupOf(leg: MatchedStake): CommissionGroup {
    CommissionGroup(leg.price.exchange, leg.price.scope)
  }

  function LevelOf(leg: MatchedStake): PriceLevel {
    var p := leg.price;
    PriceLevel(p.exchange, p.transport, p.event, p.market, p.selection, p.side, p.odds, p.scope)
  }

  function RateOf(leg: MatchedStake): Rate { leg.price.commissionRate }

  // ----- One leg, one outcome

  function LayLiability(stake: Positive, odds: Odds): (liability: real)
    ensures liability > 0.0
  {
    ScaleCompare(0.0, odds - 1.0, stake);
    stake * (odds - 1.0)
  }

  function LegProfit(leg: MatchedStake, winner: Id): real {
    if leg.price.side == Back then
      if leg.price.selection == winner then LayLiability(leg.stake, leg.price.odds) else 0.0 - leg.stake
    else
      if leg.price.selection == winner then 0.0 - LayLiability(leg.stake, leg.price.odds) else leg.stake
  }

  function BackProfit(leg: BackStake, winner: Id): real {
    if leg.quote.selection == winner then LayLiability(leg.stake, leg.quote.price) else 0.0 - leg.stake
  }

  function ProfitIf(winner: Id): MatchedStake -> real { (leg: MatchedStake) => LegProfit(leg, winner) }

  function BackProfitIf(winner: Id): BackStake -> real { (leg: BackStake) => BackProfit(leg, winner) }

  /** Commission on a group's net winnings; losses are not charged. */
  function Charge(gross: real, rate: Rate): (charge: real)
    ensures 0.0 <= charge && (gross <= 0.0 ==> charge == 0.0) && (gross > 0.0 ==> charge < gross)
  {
    if gross > 0.0 then
      ScaleCompare(rate, 1.0, gross);
      assert gross * rate >= 0.0;
      gross * rate
    else 0.0
  }

  // ----- The portfolio

  datatype Scenario = Scenario(winner: Id, gross: real, commission: real, net: real)

  datatype PortfolioEvaluation = PortfolioEvaluation(
    event: Id,
    market: Id,
    scenarios: seq<Scenario>,
    layLiability: real,
    guaranteedProfit: real,
    isArbitrage: bool)

  function Groups(legs: seq<MatchedStake>): seq<CommissionGroup> { GroupsOf(legs, GroupOf) }

  /** The rate last seen for a group. */
  function GroupRate(legs: seq<MatchedStake>, group: CommissionGroup): Rate {
    if |legs| == 0 then 0.0
    else if GroupOf(legs[|legs| - 1]) == group then RateOf(legs[|legs| - 1])
    else GroupRate(legs[..|legs| - 1], group)
  }

  function GrossOf(legs: seq<MatchedStake>, winner: Id): CommissionGroup -> real {
    GroupTotal(legs, GroupOf, ProfitIf(winner))
  }

  function ChargeOf(legs: seq<MatchedStake>, winner: Id): CommissionGroup -> real {
    (group: CommissionGroup) => Charge(GrossOf(legs, winner)(group), GroupRate(legs, group))
  }

  function ScenarioOf(backs: seq<BackStake>, legs: seq<MatchedStake>, winner: Id): Scenario {
    var gross := SumBy(backs, BackProfitIf(winner)) + SumBy(Groups(legs), GrossOf(legs, winner));
    var commission := SumBy(Groups(legs), ChargeOf(legs, winner));
    Scenario(winner, gross, commission, gross - commission)
  }

  function Scenarios(backs: seq<BackStake>, legs: seq<MatchedStake>, winners: seq<Id>): seq<Scenario> {
    seq(|winners|, i requires 0 <= i < |winners| => ScenarioOf(backs, legs, winners[i]))
  }

  function Nets(scenarios: seq<Scenario>): seq<real> {
    seq(|scenarios|, i requires 0 <= i < |scenarios| => scenarios[i].net)
  }

  function StakeOf(leg: MatchedStake): real { leg.stake }

  function LiabilityOf(leg: MatchedStake): real {
    if leg.price.side == Lay then LayLiability(leg.stake, leg.price.odds) else 0.0
  }

  predicate OneMarket(backs: seq<BackStake>, legs: seq<MatchedStake>)
    requires |legs| > 0
  {
    && (forall i :: 0 <= i < |legs| ==> legs[i].price.event == legs[0].price.event
                                        && legs[i].price.market == legs[0].price.market)
    && (forall i :: 0 <= i < |backs| ==>
          backs[i].quote.event == legs[0].price.event && backs[i].quote.market == legs[0].price.market)
  }

  predicate AllExpected(backs: seq<BackStake>, legs: seq<MatchedStake>, expected: seq<Id>) {
    && (forall i :: 0 <= i < |legs| ==> legs[i].price.selection in expected)
    && (forall i :: 0 <= i < |backs| ==> backs[i].quote.selection in expected)
  }

  /** The stakes at each price level fit into the least liquidity observed there. */
  ghost predicate LiquidityHolds(legs: seq<MatchedStake>) {
    forall i :: 0 <= i < |legs| ==> SumBy(legs, Only(LevelOf, StakeOf, LevelOf(legs[i]))) <= legs[i].price.available
  }

  predicate RatesAgree(legs: seq<MatchedStake>) {
    forall i, j :: 0 <= i < |legs| && 0 <= j < |legs| && GroupOf(legs[i]) == GroupOf(legs[j]) ==>
      RateOf(legs[i]) == RateOf(legs[j])
  }

  /** Everything the evaluation demands of a portfolio. */
  ghost predicate Evaluable(backs: seq<BackStake>, legs: seq<MatchedStake>, expected: seq<Id>) {
    && |legs| > 0 && |expected| >= 2 && Distinct(expected)
    && OneMarket(backs, legs) && AllExpected(backs, legs, expected)
    && LiquidityHolds(legs) && RatesAgree(legs)
  }

  function Evaluated(backs: seq<BackStake>, legs: seq<MatchedStake>, expected: seq<Id>): PortfolioEvaluation
    requires |legs| > 0 && |expected| > 0
  {
    var scenarios := Scenarios(backs, legs, SortBy(expected, ByValue));
    var guaranteed := MinOf(Nets(scenarios));
    PortfolioEvaluation(legs[0].price.event, legs[0].price.market, scenarios, SumBy(legs, LiabilityOf), guaranteed,
                        guaranteed > 0.0)
  }

  // ----- Evaluation

  method CheckMarkets(backs: seq<BackStake>, legs: seq<MatchedStake>,
                      expected: seq<Id>) returns (fault: Option<ExchangeError>)
    requires |legs| > 0
    ensures fault.None? <==> OneMarket(backs, legs) && AllExpected(backs, legs, expected)
    ensures fault == Some(MixedMarkets) ==> !OneMarket(backs, legs)
    ensures fault == Some(OutsideMarket) ==> !AllExpected(backs, legs, expected)
    ensures fault.Some? ==> fault.value == MixedMarkets || fault.value == OutsideMarket
  {
    var event, market := legs[0].price.event, legs[0].price.market;
    for i := 0 to |legs|
      invariant forall j :: 0 <= j < i ==>
        legs[j].price.event == event && legs[j].price.market == market && legs[j].price.selection in expected
    {
      if legs[i].price.event != event || legs[i].price.market != market {
        return Some(MixedMarkets);
      }
      if legs[i].price.selection !in expected {
        return Some(OutsideMarket);
      }
    }
    for i := 0 to |backs|
      invariant forall j :: 0 <= j < i ==>
        backs[j].quote.event == event && backs[j].quote.market == market && backs[j].quote.selection in expected
    {
      if backs[i].quote.event != event || backs[i].quote.market != market {
        return Some(MixedMarkets);
      }
      if backs[i].quote.selection !in expected {
        return Some(OutsideMarket);
      }
    }
    return None;
  }

  function UsedAt(legs: seq<MatchedStake>, level: PriceLevel): real {
    SumBy(legs, Only(LevelOf, StakeOf, level))
  }

  function AvailableOf(leg: MatchedStake): real { leg.price.available }

  /** The stakes per price level. */
  ghost predicate TracksUsage(usage: map<PriceLevel, real>, legs: seq<MatchedStake>) {
    && (forall i :: 0 <= i < |legs| ==> LevelOf(legs[i]) in usage)
    && (forall level :: UsedAt(legs, level) == if level in usage then usage[level] else 0.0)
  }

  /** The least liquidity observed per price level. */
  ghost predicate TracksLimits(limits: map<PriceLevel, real>, legs: seq<MatchedStake>) {
    && (forall i :: 0 <= i < |legs| ==> LevelOf(legs[i]) in limits && limits[LevelOf(legs[i])] <= AvailableOf(legs[i]))
    && (forall level :: level in limits ==>
          exists i :: 0 <= i < |legs| && LevelOf(legs[i]) == level && limits[level] == AvailableOf(legs[i]))
  }

  function Used(usage: map<PriceLevel, real>, leg: MatchedStake): map<PriceLevel, real> {
    usage[LevelOf(leg) := (if LevelOf(leg) in usage then usage[LevelOf(leg)] else 0.0) + StakeOf(leg)]
  }

  function Noted(limits: map<PriceLevel, real>, leg: MatchedStake): map<PriceLevel, real> {
    limits[LevelOf(leg) := if LevelOf(leg) in limits then Min(limits[LevelOf(leg)], AvailableOf(leg))
      else AvailableOf(leg)]
  }

  lemma UsageStep(usage: map<PriceLevel, real>, legs: seq<MatchedStake>, leg: MatchedStake)
    requires TracksUsage(usage, legs)
    ensures TracksUsage(Used(usage, leg), legs + [leg])
  {
    hide LevelOf, StakeOf, UsedAt;
    forall l
      ensures UsedAt(legs + [leg], l) == UsedAt(legs, l) + if l == LevelOf(leg) then StakeOf(leg) else 0.0
    {
      UsedByOneMore(legs, leg, l);
    }
  }

  lemma UsedByOneMore(legs: seq<MatchedStake>, leg: MatchedStake, level: PriceLevel)
    ensures UsedAt(legs + [leg], level)
            == UsedAt(legs, level) + if level == LevelOf(leg) then StakeOf(leg) else 0.0
  {
    hide LevelOf, StakeOf;
    assert (legs + [leg])[..|legs|] == legs;
  }

  lemma LimitsStep(limits: map<PriceLevel, real>, legs: seq<MatchedStake>, leg: MatchedStake)
    requires TracksLimits(limits, legs)
    ensures TracksLimits(Noted(limits, leg), legs + [leg])
  {
    hide LevelOf, AvailableOf;
    var limits', longer, n := Noted(limits, leg), legs + [leg], |legs|;
    assert longer[n] == leg && forall i :: 0 <= i < n ==> longer[i] == legs[i];
    forall l | l in limits'
      ensures exists i :: 0 <= i < n + 1 && LevelOf(longer[i]) == l && limits'[l] == AvailableOf(longer[i])
    {
      if l == LevelOf(leg) && limits'[l] == AvailableOf(leg) {
        assert LevelOf(longer[n]) == l;
      } else {
        var i :| 0 <= i < n && LevelOf(legs[i]) == l && limits[l] == AvailableOf(legs[i]);
        assert LevelOf(longer[i]) == l;
      }
    }
  }

  lemma NothingTracked()
    ensures TracksUsage(map[], []) && TracksLimits(map[], [])
  {
  }

  method CheckLiquidity(legs: seq<MatchedStake>) returns (holds: bool)
    ensures holds <==> LiquidityHolds(legs)
  {
    hide LiquidityHolds, TracksUsage, TracksLimits, Used, Noted;
    var usage: map<PriceLevel, real>, limits: map<PriceLevel, real> := map[], map[];
    NothingTracked();
    for i := 0 to |legs|
      invariant TracksUsage(usage, legs[..i]) && TracksLimits(limits, legs[..i])
    {
      assert legs[..i + 1] == legs[..i] + [legs[i]];
      UsageStep(usage, legs[..i], legs[i]);
      LimitsStep(limits, legs[..i], legs[i]);
      usage, limits := Used(usage, legs[i]), Noted(limits, legs[i]);
    }
    assert legs[..|legs|] == legs;
    LiquidityTracked(usage, limits, legs);
    holds := forall level :: level in usage ==> level !in limits || usage[level] <= limits[level];
  }

  lemma LiquidityTracked(usage: map<PriceLevel, real>, limits: map<PriceLevel, real>, legs: seq<MatchedStake>)
    requires TracksUsage(usage, legs) && TracksLimits(limits, legs)
    ensures LiquidityHolds(legs) <==> forall level :: level in usage ==>
      level !in limits || usage[level] <= limits[level]
  {
    hide LevelOf;
    forall i | 0 <= i < |legs|
      ensures UsedAt(legs, LevelOf(legs[i])) == usage[LevelOf(legs[i])]
    {
    }
    if LiquidityHolds(legs) {
      forall level | level in usage && level in limits
        ensures usage[level] <= limits[level]
      {
        var i :| 0 <= i < |legs| && LevelOf(legs[i]) == level && limits[level] == AvailableOf(legs[i]);
      }
    }
  }

  ghost predicate LegsRated(rates: map<CommissionGroup, Rate>, legs: seq<MatchedStake>) {
    forall i :: 0 <= i < |legs| ==> GroupOf(legs[i]) in rates && rates[GroupOf(legs[i])] == RateOf(legs[i])
  }

  ghost predicate RatesOfGroups(rates: map<CommissionGroup, Rate>, legs: seq<MatchedStake>) {
    forall group :: group in rates <==> group in Groups(legs)
  }

  ghost predicate LatestRates(rates: map<CommissionGroup, Rate>, legs: seq<MatchedStake>) {
    forall group :: group in rates ==> rates[group] == GroupRate(legs, group)
  }

  /** One rate per commission group. */
  ghost predicate TracksRates(rates: map<CommissionGroup, Rate>, legs: seq<MatchedStake>) {
    LegsRated(rates, legs) && RatesOfGroups(rates, legs) && LatestRates(rates, legs)
  }

  method CollectRates(legs: seq<MatchedStake>) returns (r: Option<map<CommissionGroup, Rate>>)
    ensures r.Some? <==> RatesAgree(legs)
    ensures r.Some? ==> TracksRates(r.value, legs)
  {
    hide RatesAgree, TracksRates;
    var rates: map<CommissionGroup, Rate> := map[];
    NoRates();
    for i := 0 to |legs|
      invariant TracksRates(rates, legs[..i])
    {
      var group := GroupOf(legs[i]);
      assert legs[..i + 1] == legs[..i] + [legs[i]];
      if group in rates && rates[group] != RateOf(legs[i]) {
        RatesClash(rates, legs, i);
        return None;
      }
      RatesStep(rates, legs[..i], legs[i]);
      rates := rates[group := RateOf(legs[i])];
    }
    assert legs[..|legs|] == legs;
    RatesTracked(rates, legs);
    return Some(rates);
  }

  lemma NoRates()
    ensures TracksRates(map[], [])
  {
  }

  lemma RatesTracked(rates: map<CommissionGroup, Rate>, legs: seq<MatchedStake>)
    requires TracksRates(rates, legs)
    ensures RatesAgree(legs)
  {
    hide GroupOf, RateOf, RatesOfGroups, LatestRates;
  }

  /** A rate that differs from the recorded one differs from an earlier leg's. */
  lemma RatesClash(rates: map<CommissionGroup, Rate>, legs: seq<MatchedStake>, n: nat)
    requires n < |legs| && TracksRates(rates, legs[..n])
    requires GroupOf(legs[n]) in rates && rates[GroupOf(legs[n])] != RateOf(legs[n])
    ensures !RatesAgree(legs)
  {
    hide GroupOf, RateOf, LatestRates;
    GroupMembers(legs[..n], GroupOf);
    assert GroupOf(legs[n]) in Groups(legs[..n]);
    var j :| 0 <= j < n && GroupOf(legs[..n][j]) == GroupOf(legs[n]);
    assert GroupOf(legs[j]) == GroupOf(legs[n]) && RateOf(legs[j]) != RateOf(legs[n]);
  }

  lemma RatesStep(rates: map<CommissionGroup, Rate>, legs: seq<MatchedStake>, leg: MatchedStake)
    requires TracksRates(rates, legs)
    requires GroupOf(leg) in rates ==> rates[GroupOf(leg)] == RateOf(leg)
    ensures TracksRates(rates[GroupOf(leg) := RateOf(leg)], legs + [leg])
  {
    hide GroupOf, RateOf, LegsRated, RatesOfGroups, LatestRates;
    LegsRatedStep(rates, legs, leg);
    RatesOfGroupsStep(rates, legs, leg);
    LatestRatesStep(rates, legs, leg);
  }

  lemma LegsRatedStep(rates: map<CommissionGroup, Rate>, legs: seq<MatchedStake>, leg: MatchedStake)
    requires LegsRated(rates, legs)
    requires GroupOf(leg) in rates ==> rates[GroupOf(leg)] == RateOf(leg)
    ensures LegsRated(rates[GroupOf(leg) := RateOf(leg)], legs + [leg])
  {
    hide GroupOf, RateOf;
  }

  lemma RatesOfGroupsStep(rates: map<CommissionGroup, Rate>, legs: seq<MatchedStake>, leg: MatchedStake)
    requires RatesOfGroups(rates, legs)
    ensures RatesOfGroups(rates[GroupOf(leg) := RateOf(leg)], legs + [leg])
  {
    hide GroupOf, RateOf, Groups;
    OneMoreGroup(legs, leg);
  }

  lemma LatestRatesStep(rates: map<CommissionGroup, Rate>, legs: seq<MatchedStake>, leg: MatchedStake)
    requires LatestRates(rates, legs)
    ensures LatestRates(rates[GroupOf(leg) := RateOf(leg)], legs + [leg])
  {
    hide GroupOf, RateOf;
    assert (legs + [leg])[..|legs|] == legs;
  }

  lemma OneMoreGroup(legs: seq<MatchedStake>, leg: MatchedStake)
    ensures forall g :: g in Groups(legs + [leg]) <==> g in Groups(legs) || g == GroupOf(leg)
  {
    hide GroupOf;
    assert KeysOf(legs + [leg], GroupOf)[..|legs|] == KeysOf(legs, GroupOf);
  }

  method BookmakerProfit(backs: seq<BackStake>, winner: Id) returns (profit: real)
    ensures profit == SumBy(backs, BackProfitIf(winner))
  {
    profit := 0.0;
    for i := 0 to |backs|
      invariant profit == SumBy(backs[..i], BackProfitIf(winner))
    {
      SumByStep(backs, BackProfitIf(winner), i);
      profit := profit + BackProfit(backs[i], winner);
    }
    assert backs[..|backs|] == backs;
  }

  /** The gross result of every commission group. */
  method GroupResults(legs: seq<MatchedStake>, groups: seq<CommissionGroup>, winner: Id)
    returns (gross: map<CommissionGroup, real>)
    requires forall i :: 0 <= i < |legs| ==> GroupOf(legs[i]) in groups
    ensures forall g :: g in gross <==> g in groups
    ensures forall g :: g in gross ==> gross[g] == GrossOf(legs, winner)(g)
  {
    hide GroupOf, LegProfit;
    gross := map g | g in groups :: 0.0;
    for i := 0 to |legs|
      invariant forall g :: g in gross <==> g in groups
      invariant forall g :: g in gross ==> gross[g] == SumBy(legs[..i], Only(GroupOf, ProfitIf(winner), g))
    {
      forall g
        ensures SumBy(legs[..i + 1], Only(GroupOf, ProfitIf(winner), g))
                == SumBy(legs[..i], Only(GroupOf, ProfitIf(winner), g)) + if GroupOf(legs[i]) == g
                  then LegProfit(legs[i], winner) else 0.0
      {
        SumByStep(legs, Only(GroupOf, ProfitIf(winner), g), i);
      }
      var group := GroupOf(legs[i]);
      gross := gross[group := gross[group] + LegProfit(legs[i], winner)];
    }
    assert legs[..|legs|] == legs;
  }

  /** The sum of the groups' gross results, and of the commission on the positive ones. */
  method SumGroups(groups: seq<CommissionGroup>, gross: map<CommissionGroup, real>, rates: map<CommissionGroup, Rate>,
                   ghost legs: seq<MatchedStake>, ghost winner: Id)
    returns (total: real, commission: real)
    requires forall i :: 0 <= i < |groups| ==> groups[i] in gross && groups[i] in rates
    requires forall g :: g in gross ==> gross[g] == GrossOf(legs, winner)(g)
    requires forall g :: g in rates ==> rates[g] == GroupRate(legs, g)
    ensures total == SumBy(groups, GrossOf(legs, winner))
    ensures commission == SumBy(groups, ChargeOf(legs, winner))
  {
    hide GrossOf, GroupRate, Charge;
    total, commission := 0.0, 0.0;
    for i := 0 to |groups|
      invariant total == SumBy(groups[..i], GrossOf(legs, winner))
      invariant commission == SumBy(groups[..i], ChargeOf(legs, winner))
    {
      SumByStep(groups, GrossOf(legs, winner), i);
      SumByStep(groups, ChargeOf(legs, winner), i);
      total := total + gross[groups[i]];
      commission := commission + Charge(gross[groups[i]], rates[groups[i]]);
    }
    assert groups[..|groups|] == groups;
  }

  lemma RatesCover(rates: map<CommissionGroup, Rate>, legs: seq<MatchedStake>)
    requires TracksRates(rates, legs)
    ensures forall i :: 0 <= i < |legs| ==> GroupOf(legs[i]) in Groups(legs)
    ensures forall g :: g in Groups(legs) ==> g in rates
    ensures forall g :: g in rates ==> rates[g] == GroupRate(legs, g)
  {
    GroupMembers(legs, GroupOf);
  }

  method EvaluateScenario(backs: seq<BackStake>, legs: seq<MatchedStake>, rates: map<CommissionGroup, Rate>, winner: Id)
    returns (scenario: Scenario)
    requires TracksRates(rates, legs)
    ensures scenario == ScenarioOf(backs, legs, winner)
  {
    hide GrossOf, GroupRate, ChargeOf, GroupOf, TracksRates, BackProfitIf, Groups, SumBy;
    var groups := Groups(legs);
    RatesCover(rates, legs);
    var bookmaker := BookmakerProfit(backs, winner);
    var gross := GroupResults(legs, groups, winner);
    forall i | 0 <= i < |groups|
      ensures groups[i] in gross && groups[i] in rates
    {
      assert groups[i] in groups;
    }
    var total, commission := SumGroups(groups, gross, rates, legs, winner);
    scenario := Scenario(winner, bookmaker + total, commission, bookmaker + total - commission);
  }

  method EvaluateScenarios(backs: seq<BackStake>, legs: seq<MatchedStake>, rates: map<CommissionGroup, Rate>,
                           winners: seq<Id>)
    returns (scenarios: seq<Scenario>, guaranteed: real)
    requires TracksRates(rates, legs) && |winners| > 0
    ensures scenarios == Scenarios(backs, legs, winners) && guaranteed == MinOf(Nets(scenarios))
  {
    hide ScenarioOf, TracksRates;
    scenarios, guaranteed := [], 0.0;
    for i := 0 to |winners|
      invariant scenarios == Scenarios(backs, legs, winners[..i])
      invariant i > 0 ==> guaranteed == MinOf(Nets(scenarios))
    {
      var scenario := EvaluateScenario(backs, legs, rates, winners[i]);
      assert Nets(scenarios + [scenario])[..i] == Nets(scenarios);
      guaranteed := if i == 0 then scenario.net else Min(guaranteed, scenario.net);
      scenarios := scenarios + [scenario];
    }
    assert winners[..|winners|] == winners;
  }

  method TotalLiability(legs: seq<MatchedStake>) returns (total: real)
    ensures total == SumBy(legs, LiabilityOf)
  {
    total := 0.0;
    for i := 0 to |legs|
      invariant total == SumBy(legs[..i], LiabilityOf)
    {
      SumByStep(legs, LiabilityOf, i);
      total := total + LiabilityOf(legs[i]);
    }
    assert legs[..|legs|] == legs;
  }

  /** Fails closed unless the portfolio is evaluable; otherwise reports every outcome. */
  method EvaluatePortfolio(backs: seq<BackStake>, legs: seq<MatchedStake>, expected: seq<Id>)
    returns (r: Result<PortfolioEvaluation, ExchangeError>)
    ensures r.Ok? <==> Evaluable(backs, legs, expected)
    ensures r.Ok? ==> r.value == Evaluated(backs, legs, expected)
    ensures r.Err? ==> match r.error
                       case NoExchangeStake => |legs| == 0
                       case ExpectedTooFew => |expected| < 2 || !Distinct(expected)
                       case MixedMarkets => |legs| > 0 && !OneMarket(backs, legs)
                       case OutsideMarket => !AllExpected(backs, legs, expected)
                       case LiquidityExceeded => !LiquidityHolds(legs)
                       case ConflictingRates => !RatesAgree(legs)
  {
    hide OneMarket, AllExpected, LiquidityHolds, RatesAgree, ScenarioOf, TracksRates;
    if |legs| == 0 {
      return Err(NoExchangeStake);
    }
    if |expected| < 2 || !Distinct(expected) {
      return Err(ExpectedTooFew);
    }
    var fault := CheckMarkets(backs, legs, expected);
    if fault.Some? {
      return Err(fault.value);
    }
    var liquid := CheckLiquidity(legs);
    if !liquid {
      return Err(LiquidityExceeded);
    }
    var rates := CollectRates(legs);
    if rates.None? {
      return Err(ConflictingRates);
    }
    var scenarios, guaranteed := EvaluateScenarios(backs, legs, rates.value, SortBy(expected, ByValue));
    var liability := TotalLiability(legs);
    return Ok(PortfolioEvaluation(legs[0].price.event, legs[0].price.market, scenarios, liability, guaranteed,
                                  guaranteed > 0.0));
  }
}
