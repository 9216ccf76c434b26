/** Provider-independent detection: implied probabilities and market evaluation. */
module ArbitrageMath {
  import opened Wrappers
  import opened Reals
  import opened Ordering
  import opened Domain
  import opened Grouping

  datatype MathError =
    | TooFewQuotes | TooFewSelections | ExpectedNotUnique | MixedEvents | MixedMarkets
    | InactiveQuote | QuoteIdsNotUnique | SelectionsNotUnique | IncompleteMarket | NegativeThreshold

  datatype ArbitrageEvaluation = ArbitrageEvaluation(
    event: Id,
    market: Id,
    quotes: seq<OddsQuote>,
    expected: seq<Id>,
    impliedSum: real,
    returnMultiplier: real,
    margin: real,
    threshold: real,
    isArbitrage: bool)

  function ImpliedProbability(odds: Odds): (r: real)
    ensures 0.0 < r < 1.0
  {
    var value: real := odds;
    DivideCompare(1.0, value, 1.0);
    1.0 / value
  }

  function ImpliedProbabilities(odds: seq<Odds>): seq<real> {
    seq(|odds|, i requires 0 <= i < |odds| => ImpliedProbability(odds[i]))
  }

  function ImpliedSum(odds: seq<Odds>): real {
    Sum(ImpliedProbabilities(odds))
  }

  method ExactImpliedSum(odds: seq<Odds>) returns (r: Result<real, MathError>)
    ensures r == if |odds| < 2 then Err(TooFewQuotes) else Ok(ImpliedSum(odds))
  {
    if |odds| < 2 {
      return Err(TooFewQuotes);
    }
    var total: real := 0.0;
    for i := 0 to |odds|
      invariant total == Sum(ImpliedProbabilities(odds)[..i])
    {
      SumStep(ImpliedProbabilities(odds), i);
      total := total + ImpliedProbability(odds[i]);
    }
    assert ImpliedProbabilities(odds)[..|odds|] == ImpliedProbabilities(odds);
    return Ok(total);
  }

  lemma ImpliedSumPositive(odds: seq<Odds>)
    requires |odds| > 0
    ensures ImpliedSum(odds) > 0.0
  {
    var zeros: seq<real> := seq(|odds|, i => 0.0);
    SumStrict(zeros, ImpliedProbabilities(odds), 0);
    SumNonNegative(zeros);
  }

  function BySelection(quote: OddsQuote): Key { [quote.selection] }

  function OrderedBySelection(quotes: seq<OddsQuote>): seq<OddsQuote> {
    SortBy(quotes, BySelection)
  }

  /** Why a book cannot be evaluated, in the order in which the program checks. */
  function MarketFault(quotes: seq<OddsQuote>, expected: seq<Id>): Option<MathError> {
    if |quotes| < 2 then Some(TooFewQuotes)
    else if |expected| < 2 then Some(TooFewSelections)
    else if !Distinct(expected) then Some(ExpectedNotUnique)
    else if exists q :: q in quotes && q.event != quotes[0].event then Some(MixedEvents)
    else if exists q :: q in quotes && q.market != quotes[0].market then Some(MixedMarkets)
    else if exists q :: q in quotes && q.status != Active then Some(InactiveQuote)
    else if !Distinct(Ids(quotes)) then Some(QuoteIdsNotUnique)
    else if !Distinct(Selections(quotes)) then Some(SelectionsNotUnique)
    else if Members(Selections(quotes)) != Members(expected) then Some(IncompleteMarket)
    else None
  }

  function EvaluateMarket(quotes: seq<OddsQuote>, expected: seq<Id>, threshold: real)
    : (r: Result<ArbitrageEvaluation, MathError>)
  {
    var fault := MarketFault(quotes, expected);
    if fault.Some? then Err(fault.value)
    else if threshold < 0.0 then Err(NegativeThreshold)
    else
      var ordered := OrderedBySelection(quotes);
      var impliedSum := ImpliedSum(Prices(ordered));
      ImpliedSumPositive(Prices(ordered));
      var returnMultiplier := 1.0 / impliedSum;
      var margin := returnMultiplier - 1.0;
      Ok(ArbitrageEvaluation(
           quotes[0].event, quotes[0].market, ordered, SortBy(expected, ByValue),
           impliedSum, returnMultiplier, margin, threshold,
           impliedSum < 1.0 && margin > 0.0 && margin >= threshold))
  }

  // ----- What an evaluation says, by the fields of the quotes

  /** The position of a check among those the program makes. */
  function CheckRank(check: MathError): int {
    match check
    case TooFewQuotes => 0
    case TooFewSelections => 1
    case ExpectedNotUnique => 2
    case MixedEvents => 3
    case MixedMarkets => 4
    case InactiveQuote => 5
    case QuoteIdsNotUnique => 6
    case SelectionsNotUnique => 7
    case IncompleteMarket => 8
    case NegativeThreshold => 9
  }

  /** What each check finds wrong. */
  ghost predicate FindsWrong(check: MathError, quotes: seq<OddsQuote>, expected: seq<Id>, threshold: real) {
    match check
    case TooFewQuotes => |quotes| < 2
    case TooFewSelections => |expected| < 2
    case ExpectedNotUnique => exists i, j :: 0 <= i < j < |expected| && expected[i] == expected[j]
    case MixedEvents => exists i, j :: 0 <= i < j < |quotes| && quotes[i].event != quotes[j].event
    case MixedMarkets => exists i, j :: 0 <= i < j < |quotes| && quotes[i].market != quotes[j].market
    case InactiveQuote => exists i :: 0 <= i < |quotes| && quotes[i].status != Active
    case QuoteIdsNotUnique => exists i, j :: 0 <= i < j < |quotes| && quotes[i].id == quotes[j].id
    case SelectionsNotUnique => exists i, j :: 0 <= i < j < |quotes| && quotes[i].selection == quotes[j].selection
    case IncompleteMarket =>
      || (exists i :: 0 <= i < |quotes| && quotes[i].selection !in expected)
      || exists k :: 0 <= k < |expected| && forall i :: 0 <= i < |quotes| ==> quotes[i].selection != expected[k]
    case NegativeThreshold => threshold < 0.0
  }

  function Reciprocal(quote: OddsQuote): real { 1.0 / quote.price }

  /** The sum of one over the price of every quote. */
  function ReciprocalSum(quotes: seq<OddsQuote>): real { SumBy(quotes, Reciprocal) }

  /** The same quotes, strictly in selection order. */
  ghost predicate InSelectionOrder(ordered: seq<OddsQuote>, quotes: seq<OddsQuote>) {
    && multiset(ordered) == multiset(quotes)
    && forall i, j :: 0 <= i < j < |ordered| ==> ordered[i].selection < ordered[j].selection
  }

  /** What a successful evaluation reports. */
  ghost predicate ReportsMarket(e: ArbitrageEvaluation, quotes: seq<OddsQuote>, expected: seq<Id>, threshold: real) {
    var s := ReciprocalSum(quotes);
    && |quotes| > 0 && e.event == quotes[0].event && e.market == quotes[0].market
    && InSelectionOrder(e.quotes, quotes)
    && multiset(e.expected) == multiset(expected)
    && Ascending(e.expected)
    && s > 0.0 && e.impliedSum == s && e.returnMultiplier == 1.0 / s && e.margin == 1.0 / s - 1.0
    && e.threshold == threshold
    && (e.isArbitrage <==> s < 1.0 && 1.0 / s - 1.0 >= threshold)
  }

  lemma {:induction false} ImpliedSumIs(quotes: seq<OddsQuote>)
    ensures ImpliedSum(Prices(quotes)) == ReciprocalSum(quotes)
  {
    if |quotes| > 0 {
      var n := |quotes| - 1;
      ImpliedSumIs(quotes[..n]);
      assert ImpliedProbabilities(Prices(quotes))[..n] == ImpliedProbabilities(Prices(quotes[..n]));
    }
  }

  lemma OrderedSum(quotes: seq<OddsQuote>)
    ensures ImpliedSum(Prices(OrderedBySelection(quotes))) == ReciprocalSum(quotes)
  {
    ImpliedSumIs(OrderedBySelection(quotes));
    SumByPermute(OrderedBySelection(quotes), quotes, Reciprocal);
  }

  lemma SumBelowOneIsProfit(s: real)
    requires s > 0.0
    ensures s < 1.0 <==> 1.0 / s - 1.0 > 0.0
  {
    DivideCompare(1.0, s, 1.0);
  }

  lemma StrictlyInOrder(quotes: seq<OddsQuote>)
    requires Distinct(Selections(quotes))
    ensures InSelectionOrder(OrderedBySelection(quotes), quotes)
  {
    forall i, j | 0 <= i < j < |quotes|
      ensures BySelection(quotes[i]) != BySelection(quotes[j])
    {
      assert Selections(quotes)[i] != Selections(quotes)[j];
      assert BySelection(quotes[i])[0] != BySelection(quotes[j])[0];
    }
    SortByStrict(quotes, BySelection);
    var ordered := OrderedBySelection(quotes);
    forall i, j | 0 <= i < j < |ordered|
      ensures ordered[i].selection < ordered[j].selection
    {
      KeyLessOfOne(ordered[i].selection, ordered[j].selection);
    }
  }

  lemma ValuesInOrder(values: seq<Id>)
    requires Distinct(values)
    ensures Ascending(SortBy(values, ByValue))
  {
    hide SortBy;
    forall i, j | 0 <= i < j < |values|
      ensures ByValue(values[i]) != ByValue(values[j])
    {
      assert ByValue(values[i])[0] != ByValue(values[j])[0];
    }
    SortByStrict(values, ByValue);
    var sorted := SortBy(values, ByValue);
    forall i, j | 0 <= i < j < |sorted|
      ensures sorted[i] < sorted[j]
    {
      KeyLessOfOne(sorted[i], sorted[j]);
    }
  }

  lemma MixedMeans(quotes: seq<OddsQuote>, expected: seq<Id>, threshold: real)
    requires |quotes| > 0
    ensures FindsWrong(MixedEvents, quotes, expected, threshold)
            <==> exists q :: q in quotes && q.event != quotes[0].event
    ensures FindsWrong(MixedMarkets, quotes, expected, threshold)
            <==> exists q :: q in quotes && q.market != quotes[0].market
  {
    assert quotes[0] in quotes;
    if FindsWrong(MixedEvents, quotes, expected, threshold) {
      var i, j :| 0 <= i < j < |quotes| && quotes[i].event != quotes[j].event;
      assert quotes[i] in quotes && quotes[j] in quotes;
    }
    if FindsWrong(MixedMarkets, quotes, expected, threshold) {
      var i, j :| 0 <= i < j < |quotes| && quotes[i].market != quotes[j].market;
      assert quotes[i] in quotes && quotes[j] in quotes;
    }
  }

  lemma RepeatsMean(quotes: seq<OddsQuote>, expected: seq<Id>, threshold: real)
    ensures FindsWrong(ExpectedNotUnique, quotes, expected, threshold) <==> !Distinct(expected)
    ensures FindsWrong(QuoteIdsNotUnique, quotes, expected, threshold) <==> !Distinct(Ids(quotes))
    ensures FindsWrong(SelectionsNotUnique, quotes, expected, threshold) <==> !Distinct(Selections(quotes))
  {
    assert forall i :: 0 <= i < |quotes| ==> Ids(quotes)[i] == quotes[i].id;
    assert forall i :: 0 <= i < |quotes| ==> Selections(quotes)[i] == quotes[i].selection;
  }

  /** The checks as the program makes them find what the fields show. */
  lemma ChecksMean(quotes: seq<OddsQuote>, expected: seq<Id>, threshold: real)
    ensures FindsWrong(TooFewQuotes, quotes, expected, threshold) <==> |quotes| < 2
    ensures FindsWrong(TooFewSelections, quotes, expected, threshold) <==> |expected| < 2
    ensures FindsWrong(NegativeThreshold, quotes, expected, threshold) <==> threshold < 0.0
    ensures FindsWrong(InactiveQuote, quotes, expected, threshold) <==> exists q :: q in quotes && q.status != Active
  {
  }

  lemma IncompleteMeans(quotes: seq<OddsQuote>, expected: seq<Id>, threshold: real)
    ensures FindsWrong(IncompleteMarket, quotes, expected, threshold)
            <==> Members(Selections(quotes)) != Members(expected)
  {
    var selections := Selections(quotes);
    assert forall i :: 0 <= i < |quotes| ==> selections[i] == quotes[i].selection;
    if FindsWrong(IncompleteMarket, quotes, expected, threshold) {
      if i :| 0 <= i < |quotes| && quotes[i].selection !in expected {
        assert selections[i] in Members(selections) && selections[i] !in Members(expected);
      } else {
        var k :| 0 <= k < |expected| && forall i :: 0 <= i < |quotes| ==> quotes[i].selection != expected[k];
        assert expected[k] in Members(expected) && expected[k] !in Members(selections);
      }
    } else {
      forall id
        ensures id in Members(selections) <==> id in Members(expected)
      {
        if id in expected {
          var k :| 0 <= k < |expected| && expected[k] == id;
        }
      }
    }
  }

  /** The first check that fails is the one reported. */
  lemma FaultMeans(quotes: seq<OddsQuote>, expected: seq<Id>, threshold: real)
    ensures var fault := MarketFault(quotes, expected);
      && (fault.Some? ==> FindsWrong(fault.value, quotes, expected, threshold))
      && forall c :: CheckRank(c) < (if fault.Some? then CheckRank(fault.value) else CheckRank(NegativeThreshold)) ==>
           !FindsWrong(c, quotes, expected, threshold)
  {
    hide FindsWrong, Distinct, Ids, Selections, Members;
    ChecksMean(quotes, expected, threshold);
    RepeatsMean(quotes, expected, threshold);
    if |quotes| > 0 {
      MixedMeans(quotes, expected, threshold);
    }
    IncompleteMeans(quotes, expected, threshold);
  }

  lemma SuccessReports(quotes: seq<OddsQuote>, expected: seq<Id>, threshold: real)
    requires MarketFault(quotes, expected).None? && threshold >= 0.0
    ensures ReportsMarket(EvaluateMarket(quotes, expected, threshold).value, quotes, expected, threshold)
  {
    hide ImpliedSum, ReciprocalSum, SortBy, InSelectionOrder, MarketFault, Distinct, Selections;
    EnoughQuotes(quotes, expected);
    OrderedSum(quotes);
    StrictlyInOrder(quotes);
    ValuesInOrder(expected);
    ImpliedSumPositive(Prices(OrderedBySelection(quotes)));
    SumBelowOneIsProfit(ReciprocalSum(quotes));
  }

  /** An evaluation fails at the first check that finds something wrong, and otherwise reports the market. */
  lemma EvaluationMeans(quotes: seq<OddsQuote>, expected: seq<Id>, threshold: real)
    ensures var r := EvaluateMarket(quotes, expected, threshold);
      && (r.Err? ==> && FindsWrong(r.error, quotes, expected, threshold)
                     && forall c :: CheckRank(c) < CheckRank(r.error) ==> !FindsWrong(c, quotes, expected, threshold))
      && (r.Ok? ==> && ReportsMarket(r.value, quotes, expected, threshold)
                    && forall c :: !FindsWrong(c, quotes, expected, threshold))
  {
    hide ImpliedSum, ReciprocalSum, SortBy, MarketFault, FindsWrong, ReportsMarket;
    FaultMeans(quotes, expected, threshold);
    ChecksMean(quotes, expected, threshold);
    if MarketFault(quotes, expected).None? && threshold >= 0.0 {
      SuccessReports(quotes, expected, threshold);
    }
  }

  /** Evaluates a market, summing the implied probabilities one by one. */
  method Evaluate(quotes: seq<OddsQuote>, expected: seq<Id>, threshold: real)
    returns (r: Result<ArbitrageEvaluation, MathError>)
    ensures r == EvaluateMarket(quotes, expected, threshold)
  {
    hide ImpliedSum, MarketFault, SortBy;
    var fault := MarketFault(quotes, expected);
    if fault.Some? {
      return Err(fault.value);
    }
    if threshold < 0.0 {
      return Err(NegativeThreshold);
    }
    EnoughQuotes(quotes, expected);
    var ordered := OrderedBySelection(quotes);
    var summed := ExactImpliedSum(Prices(ordered));
    ImpliedSumPositive(Prices(ordered));
    var returnMultiplier := 1.0 / summed.value;
    var margin := returnMultiplier - 1.0;
    return Ok(ArbitrageEvaluation(
                quotes[0].event, quotes[0].market, ordered, SortBy(expected, ByValue),
                summed.value, returnMultiplier, margin, threshold,
                summed.value < 1.0 && margin > 0.0 && margin >= threshold));
  }

  lemma EnoughQuotes(quotes: seq<OddsQuote>, expected: seq<Id>)
    requires MarketFault(quotes, expected).None?
    ensures |quotes| >= 2 && Distinct(expected) && Distinct(Selections(quotes))
  {
  }

  /** Without a threshold the margin tests add nothing to the implied sum being below one. */
  lemma ArbitrageIffSumBelowOne(quotes: seq<OddsQuote>, expected: seq<Id>)
    requires EvaluateMarket(quotes, expected, 0.0).Ok?
    ensures var e := EvaluateMarket(quotes, expected, 0.0).value;
      e.isArbitrage <==> ImpliedSum(Prices(OrderedBySelection(quotes))) < 1.0
  {
    var s := ImpliedSum(Prices(OrderedBySelection(quotes)));
    ImpliedSumPositive(Prices(OrderedBySelection(quotes)));
    DivideCompare(1.0, s, 1.0);
  }

  function BuildOpportunity(evaluation: ArbitrageEvaluation, id: Id, detectedAt: Instant): Option<Opportunity> {
    if !evaluation.isArbitrage then None
    else Some(Opportunity(id, evaluation.event, evaluation.market, Ids(evaluation.quotes),
                          evaluation.impliedSum, evaluation.margin, detectedAt, OpportunityActive))
  }
}
