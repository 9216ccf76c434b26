/** Best-price books lose nothing: they show an arbitrage exactly when the eligible quotes hold one. */
module MarketBookLaws {
  import opened Wrappers
  import opened Reals
  import opened Ordering
  import opened Collections
  import opened Domain
  import opened Catalog
  import opened ArbitrageMath
  import opened MarketBook

  // ----- Betting on all eligible quotes at once

  /** The part of `values` that belongs to quotes on one selection. */
  function OnLeg(quotes: seq<OddsQuote>, values: seq<real>, selection: Id): seq<real>
    requires |values| == |quotes|
  {
    seq(|quotes|, j requires 0 <= j < |quotes| => if quotes[j].selection == selection then values[j] else 0.0)
  }

  function Returns(quotes: seq<OddsQuote>, stakes: seq<real>): seq<real>
    requires |stakes| == |quotes|
  {
    seq(|quotes|, j requires 0 <= j < |quotes| => quotes[j].price * stakes[j])
  }

  /** What comes back when `selection` wins. */
  function Payout(quotes: seq<OddsQuote>, stakes: seq<real>, selection: Id): real
    requires |stakes| == |quotes|
  {
    Sum(OnLeg(quotes, Returns(quotes, stakes), selection))
  }

  predicate NonNegatives(stakes: seq<real>) {
    forall j :: 0 <= j < |stakes| ==> stakes[j] >= 0.0
  }

  /** Stakes that return more than they cost whichever selection wins. */
  ghost predicate AlwaysWins(quotes: seq<OddsQuote>, expected: seq<Id>, stakes: seq<real>) {
    && |stakes| == |quotes| && NonNegatives(stakes)
    && forall i :: 0 <= i < |expected| ==> Payout(quotes, stakes, expected[i]) > Sum(stakes)
  }

  ghost predicate Covers(quotes: seq<OddsQuote>, expected: seq<Id>) {
    && Distinct(expected)
    && forall j :: 0 <= j < |quotes| ==> quotes[j].selection in expected
  }

  function LegTotals(quotes: seq<OddsQuote>, values: seq<real>, expected: seq<Id>): seq<real>
    requires |values| == |quotes|
  {
    seq(|expected|, i requires 0 <= i < |expected| => Sum(OnLeg(quotes, values, expected[i])))
  }

  /** A value placed on one of several distinct selections, and zero on the others. */
  function PlacedOn(selection: Id, value: real, expected: seq<Id>): seq<real> {
    seq(|expected|, i requires 0 <= i < |expected| => if expected[i] == selection then value else 0.0)
  }

  lemma {:induction false} PlacedOnce(selection: Id, value: real, expected: seq<Id>)
    requires Distinct(expected)
    ensures Sum(PlacedOn(selection, value, expected)) == if selection in expected then value else 0.0
  {
    if |expected| > 0 {
      var n := |expected| - 1;
      assert expected == expected[..n] + [expected[n]];
      assert PlacedOn(selection, value, expected)[..n] == PlacedOn(selection, value, expected[..n]);
      PlacedOnce(selection, value, expected[..n]);
    }
  }

  /** Every quote is on exactly one selection, so the legs' totals add up to the whole. */
  lemma {:induction false} LegsPartition(quotes: seq<OddsQuote>, values: seq<real>, expected: seq<Id>)
    requires |values| == |quotes| && Covers(quotes, expected)
    ensures Sum(LegTotals(quotes, values, expected)) == Sum(values)
  {
    if |quotes| == 0 {
      SumOfZeros(LegTotals(quotes, values, expected));
    } else {
      var n := |quotes| - 1;
      var before := LegTotals(quotes[..n], values[..n], expected);
      var last := PlacedOn(quotes[n].selection, values[n], expected);
      LegsPartition(quotes[..n], values[..n], expected);
      PlacedOnce(quotes[n].selection, values[n], expected);
      forall i | 0 <= i < |expected|
        ensures LegTotals(quotes, values, expected)[i] == before[i] + last[i]
      {
        LegStep(quotes, values, expected[i]);
      }
      SumAdd(before, last, LegTotals(quotes, values, expected));
    }
  }

  lemma LegStep(quotes: seq<OddsQuote>, values: seq<real>, selection: Id)
    requires |values| == |quotes| > 0
    ensures var n := |quotes| - 1;
      Sum(OnLeg(quotes, values, selection))
      == Sum(OnLeg(quotes[..n], values[..n], selection)) + if quotes[n].selection == selection then values[n] else 0.0
  {
    var n := |quotes| - 1;
    assert OnLeg(quotes, values, selection)[..n] == OnLeg(quotes[..n], values[..n], selection);
  }

  lemma {:induction false} SumOfZeros(xs: seq<real>)
    requires forall i :: 0 <= i < |xs| ==> xs[i] == 0.0
    ensures Sum(xs) == 0.0
  {
    if |xs| > 0 {
      SumOfZeros(xs[..|xs| - 1]);
    }
  }

  /** Stakes of `staked` pay `payout` at a price of at most `best`. */
  predicate AtMostTimes(payout: real, best: real, staked: real) { payout <= best * staked }

  lemma NothingPaysNothing(best: real)
    ensures AtMostTimes(0.0, best, 0.0)
  {
  }

  /** No quote on a selection pays more than its best price. */
  lemma {:induction false} PayoutBounded(quotes: seq<OddsQuote>, stakes: seq<real>, selection: Id, best: real)
    requires |stakes| == |quotes| && NonNegatives(stakes)
    requires forall j :: 0 <= j < |quotes| && quotes[j].selection == selection ==> quotes[j].price <= best
    ensures AtMostTimes(Payout(quotes, stakes, selection), best, Sum(OnLeg(quotes, stakes, selection)))
  {
    hide AtMostTimes;
    NothingPaysNothing(best);
    if |quotes| > 0 {
      var n := |quotes| - 1;
      PayoutBounded(quotes[..n], stakes[..n], selection, best);
      LegStep(quotes, stakes, selection);
      LegStep(quotes, Returns(quotes, stakes), selection);
      ReturnsPrefix(quotes, stakes, n);
      var payout := Payout(quotes[..n], stakes[..n], selection);
      var staked := Sum(OnLeg(quotes[..n], stakes[..n], selection));
      if quotes[n].selection == selection {
        PriceBounds(payout, staked, quotes[n].price, best, stakes[n], Payout(quotes, stakes, selection),
                    Sum(OnLeg(quotes, stakes, selection)));
      } else {
        assert Payout(quotes, stakes, selection) == payout;
      }
    }
  }

  lemma ReturnsPrefix(quotes: seq<OddsQuote>, stakes: seq<real>, n: nat)
    requires |stakes| == |quotes| && n <= |quotes|
    ensures Returns(quotes, stakes)[..n] == Returns(quotes[..n], stakes[..n])
  {
    forall j | 0 <= j < n
      ensures Returns(quotes, stakes)[..n][j] == Returns(quotes[..n], stakes[..n])[j]
    {
      assert quotes[..n][j] == quotes[j] && stakes[..n][j] == stakes[j];
    }
  }

  /** One more leg at a price of at most `best`. */
  lemma PriceBounds(payout: real, staked: real, price: real, best: real, leg: real, newPayout: real, newStaked: real)
    requires AtMostTimes(payout, best, staked) && leg >= 0.0 && price <= best
    requires newPayout == payout + price * leg && newStaked == staked + leg
    ensures AtMostTimes(newPayout, best, newStaked)
  {
    if leg > 0.0 {
      ScaleCompare(price, best, leg);
    }
    assert best * (staked + leg) == best * staked + best * leg;
  }

  /** The best prices of the expected selections. */
  function BestPrices(eligible: seq<OddsQuote>, expected: seq<Id>): seq<Odds>
    requires Complete(eligible, expected)
  {
    Prices(Outcomes(eligible, expected))
  }

  lemma BestPriceOfLeg(eligible: seq<OddsQuote>, expected: seq<Id>, i: nat)
    requires Complete(eligible, expected) && i < |expected|
    ensures forall j :: 0 <= j < |eligible| && eligible[j].selection == expected[i] ==>
              eligible[j].price <= BestPrices(eligible, expected)[i]
    ensures Outcomes(eligible, expected)[i] in eligible
    ensures Outcomes(eligible, expected)[i].selection == expected[i]
  {
    FilterMembers(eligible, OnSelection(expected[i]));
    forall j | 0 <= j < |eligible| && eligible[j].selection == expected[i]
      ensures eligible[j].price <= BestPrices(eligible, expected)[i]
    {
      assert eligible[j] in Candidates(eligible, expected[i]);
    }
  }

  /** No quote on a selection is priced above the selection's entry in `prices`. */
  ghost predicate Bounds(quotes: seq<OddsQuote>, expected: seq<Id>, prices: seq<Odds>) {
    && |prices| == |expected|
    && forall i, j :: 0 <= i < |expected| && 0 <= j < |quotes| && quotes[j].selection == expected[i] ==>
                        quotes[j].price <= prices[i]
  }

  lemma BestPricesBound(eligible: seq<OddsQuote>, expected: seq<Id>)
    requires Complete(eligible, expected)
    ensures Bounds(eligible, expected, BestPrices(eligible, expected))
  {
    forall i | 0 <= i < |expected|
      ensures forall j :: 0 <= j < |eligible| && eligible[j].selection == expected[i] ==>
                eligible[j].price <= BestPrices(eligible, expected)[i]
    {
      BestPriceOfLeg(eligible, expected, i);
    }
  }

  /** A sure win needs bounding prices whose implied probabilities sum to less than one. */
  lemma WinNeedsLowSum(quotes: seq<OddsQuote>, expected: seq<Id>, prices: seq<Odds>, stakes: seq<real>)
    requires Bounds(quotes, expected, prices) && Covers(quotes, expected) && |expected| > 0
    requires AlwaysWins(quotes, expected, stakes)
    ensures ImpliedSum(prices) < 1.0
  {
    var total, legs := Sum(stakes), LegTotals(quotes, stakes, expected);
    LegsPartition(quotes, stakes, expected);
    SumNonNegative(stakes);
    LegsNeedStakes(quotes, expected, prices, stakes);
    SharesBelowOne(ImpliedProbabilities(prices), total, legs);
  }

  /** A leg that holds more than its share of the total. */
  predicate Outgrows(leg: real, total: real, share: real) { total * share < leg }

  lemma LegsNeedStakes(quotes: seq<OddsQuote>, expected: seq<Id>, prices: seq<Odds>, stakes: seq<real>)
    requires Bounds(quotes, expected, prices)
    requires AlwaysWins(quotes, expected, stakes)
    ensures forall i :: 0 <= i < |expected| ==>
              Outgrows(LegTotals(quotes, stakes, expected)[i], Sum(stakes), ImpliedProbabilities(prices)[i])
  {
    forall i | 0 <= i < |expected|
      ensures Outgrows(Sum(OnLeg(quotes, stakes, expected[i])), Sum(stakes), ImpliedProbability(prices[i]))
    {
      LegNeedsStake(quotes, stakes, Sum(stakes), expected[i], prices[i]);
    }
  }

  lemma LegNeedsStake(quotes: seq<OddsQuote>, stakes: seq<real>, total: real, selection: Id, price: Odds)
    requires |stakes| == |quotes| && NonNegatives(stakes)
    requires forall j :: 0 <= j < |quotes| && quotes[j].selection == selection ==> quotes[j].price <= price
    requires Payout(quotes, stakes, selection) > total
    ensures Outgrows(Sum(OnLeg(quotes, stakes, selection)), total, ImpliedProbability(price))
  {
    PayoutBounded(quotes, stakes, selection, price);
    LegNeeds(total, price, Sum(OnLeg(quotes, stakes, selection)));
  }

  /** If every leg holds more than its share of the total, the shares do not reach one. */
  lemma SharesBelowOne(shares: seq<real>, total: real, legs: seq<real>)
    requires |shares| == |legs| > 0 && total >= 0.0
    requires forall i :: 0 <= i < |shares| ==> Outgrows(legs[i], total, shares[i])
    requires Sum(legs) == total
    ensures Sum(shares) < 1.0
  {
    SharesOutgrown(shares, total, legs);
    AtLeastWhole(total, Sum(shares));
  }

  lemma {:induction false} SharesOutgrown(shares: seq<real>, total: real, legs: seq<real>)
    requires |shares| == |legs| > 0
    requires forall i :: 0 <= i < |shares| ==> Outgrows(legs[i], total, shares[i])
    ensures Outgrows(Sum(legs), total, Sum(shares))
  {
    hide Outgrows;
    var n := |shares| - 1;
    if n == 0 {
      assert Sum(shares) == shares[0] && Sum(legs) == legs[0];
    } else {
      SharesOutgrown(shares[..n], total, legs[..n]);
      OutgrowTogether(Sum(legs[..n]), legs[n], total, Sum(shares[..n]), shares[n]);
    }
  }

  lemma OutgrowTogether(a: real, b: real, total: real, x: real, y: real)
    requires Outgrows(a, total, x) && Outgrows(b, total, y)
    ensures Outgrows(a + b, total, x + y)
  {
    assert total * (x + y) == total * x + total * y;
  }

  lemma AtLeastWhole(total: real, share: real)
    requires total >= 0.0
    ensures share >= 1.0 ==> total * share >= total
  {
    if share >= 1.0 {
      assert total * (share - 1.0) >= 0.0;
    }
  }

  lemma LegNeeds(total: real, price: Odds, leg: real)
    requires total < price * leg
    ensures total * ImpliedProbability(price) < leg
  {
    var p: real := price;
    DivideCompare(total, p, leg);
    assert total * (1.0 / p) == total / p;
  }

  // ----- The stakes that realise the book's arbitrage

  lemma {:induction false} SumUpdate(xs: seq<real>, k: nat, value: real)
    requires k < |xs|
    ensures Sum(xs[k := value]) == Sum(xs) - xs[k] + value
  {
    var n := |xs| - 1;
    if k == n {
      assert xs[k := value][..n] == xs[..n];
    } else {
      assert xs[k := value][..n] == xs[..n][k := value];
      SumUpdate(xs[..n], k, value);
    }
  }

  lemma {:induction false} SumAtLeast(xs: seq<real>, k: nat)
    requires k < |xs| && NonNegatives(xs)
    ensures Sum(xs) >= xs[k]
  {
    var zero := xs[k := 0.0];
    SumUpdate(xs, k, 0.0);
    SumNonNegative(zero);
  }

  /** One unit of return on each of the first `n` best quotes, nothing elsewhere. */
  ghost predicate PaysUnits(eligible: seq<OddsQuote>, expected: seq<Id>, n: nat, stakes: seq<real>)
    requires n <= |expected|
  {
    && |stakes| == |eligible| && NonNegatives(stakes)
    && forall i :: 0 <= i < n ==> Payout(eligible, stakes, expected[i]) >= 1.0
  }

  lemma {:induction false} UnitReturns(eligible: seq<OddsQuote>, expected: seq<Id>, n: nat) returns (stakes: seq<real>)
    requires Complete(eligible, expected) && n <= |expected|
    ensures PaysUnits(eligible, expected, n, stakes)
    ensures Sum(stakes) == Sum(ImpliedProbabilities(BestPrices(eligible, expected))[..n])
  {
    if n == 0 {
      stakes := seq(|eligible|, j => 0.0);
      SumOfZeros(stakes);
    } else {
      var earlier := UnitReturns(eligible, expected, n - 1);
      BestPriceOfLeg(eligible, expected, n - 1);
      var k :| 0 <= k < |eligible| && eligible[k] == Outcomes(eligible, expected)[n - 1];
      SumStep(ImpliedProbabilities(BestPrices(eligible, expected)), n - 1);
      stakes := AddUnit(eligible, expected, n - 1, earlier, k);
    }
  }

  lemma AddUnit(eligible: seq<OddsQuote>, expected: seq<Id>, n: nat, earlier: seq<real>, k: nat)
    returns (stakes: seq<real>)
    requires n < |expected| && k < |eligible| && eligible[k].selection == expected[n]
    requires PaysUnits(eligible, expected, n, earlier)
    ensures PaysUnits(eligible, expected, n + 1, stakes)
    ensures Sum(stakes) == Sum(earlier) + ImpliedProbability(eligible[k].price)
  {
    stakes := earlier[k := earlier[k] + ImpliedProbability(eligible[k].price)];
    SumUpdate(earlier, k, stakes[k]);
    forall i | 0 <= i < n
      ensures Payout(eligible, stakes, expected[i]) >= 1.0
    {
      PayoutGrows(eligible, earlier, stakes, expected[i]);
    }
    LegPaysUnit(eligible, stakes, k);
  }

  lemma PayoutGrows(quotes: seq<OddsQuote>, low: seq<real>, high: seq<real>, selection: Id)
    requires |low| == |high| == |quotes|
    requires forall j :: 0 <= j < |quotes| ==> low[j] <= high[j]
    ensures Payout(quotes, low, selection) <= Payout(quotes, high, selection)
  {
    var a, b := OnLeg(quotes, Returns(quotes, low), selection), OnLeg(quotes, Returns(quotes, high), selection);
    forall j | 0 <= j < |quotes|
      ensures a[j] <= b[j]
    {
      ScaleCompare(low[j], high[j], quotes[j].price);
    }
    SumMonotone(a, b);
  }

  lemma LegPaysUnit(quotes: seq<OddsQuote>, stakes: seq<real>, k: nat)
    requires |stakes| == |quotes| && NonNegatives(stakes) && k < |quotes|
    requires stakes[k] >= ImpliedProbability(quotes[k].price)
    ensures Payout(quotes, stakes, quotes[k].selection) >= 1.0
  {
    var legs := OnLeg(quotes, Returns(quotes, stakes), quotes[k].selection);
    forall j | 0 <= j < |quotes|
      ensures legs[j] >= 0.0
    {
      ScaleCompare(0.0, stakes[j], quotes[j].price);
    }
    var price: real := quotes[k].price;
    DivideCompare(1.0, price, stakes[k]);
    SumAtLeast(legs, k);
  }

  /**
    Over all eligible quotes of a market some stakes win whichever selection wins
    exactly when the best prices' implied probabilities sum to less than one.
   */
  lemma WinIffLowSum(eligible: seq<OddsQuote>, expected: seq<Id>)
    requires Complete(eligible, expected) && Covers(eligible, expected) && |expected| > 0
    ensures (exists stakes :: AlwaysWins(eligible, expected, stakes))
            <==> ImpliedSum(BestPrices(eligible, expected)) < 1.0
  {
    BestPricesBound(eligible, expected);
    forall stakes | AlwaysWins(eligible, expected, stakes)
      ensures ImpliedSum(BestPrices(eligible, expected)) < 1.0
    {
      WinNeedsLowSum(eligible, expected, BestPrices(eligible, expected), stakes);
    }
    if ImpliedSum(BestPrices(eligible, expected)) < 1.0 {
      var stakes := UnitReturns(eligible, expected, |expected|);
      var probabilities := ImpliedProbabilities(BestPrices(eligible, expected));
      assert probabilities[..|expected|] == probabilities;
      assert AlwaysWins(eligible, expected, stakes);
    }
  }

  /** No way of picking one eligible quote per selection has a smaller implied sum. */
  lemma BookHasLeastSum(eligible: seq<OddsQuote>, expected: seq<Id>, choice: seq<OddsQuote>)
    requires Complete(eligible, expected)
    requires |choice| == |expected|
    requires forall i :: 0 <= i < |expected| ==> choice[i] in eligible && choice[i].selection == expected[i]
    ensures ImpliedSum(BestPrices(eligible, expected)) <= ImpliedSum(Prices(choice))
  {
    forall i | 0 <= i < |expected|
      ensures ImpliedProbabilities(BestPrices(eligible, expected))[i] <= ImpliedProbabilities(Prices(choice))[i]
    {
      BestPriceOfLeg(eligible, expected, i);
      var j :| 0 <= j < |eligible| && eligible[j] == choice[i];
      HigherPriceImpliesLess(choice[i].price, BestPrices(eligible, expected)[i]);
    }
    SumMonotone(ImpliedProbabilities(BestPrices(eligible, expected)), ImpliedProbabilities(Prices(choice)));
  }

  lemma HigherPriceImpliesLess(low: Odds, high: Odds)
    requires low <= high
    ensures ImpliedProbability(high) <= ImpliedProbability(low)
  {
    var l: real, h: real := low, high;
    var p := 1.0 / l;
    ScaleCompare(l, h, p);
    DivideCompare(1.0, h, p);
  }

  // ----- What is noted about rejected quotes

  /** The quote at `i` is rejected, and no earlier quote with the same repeated id was. */
  predicate Reported(context: Context, duplicates: set<Id>, quotes: seq<OddsQuote>, i: nat)
    requires i < |quotes|
  {
    match Admit(context, duplicates, quotes[i])
    case Excluded(code) => code == DuplicateQuoteId ==> quotes[i].id !in Ids(quotes[..i])
    case _ => false
  }

  /** The note at `k` is about the quote at `at[k]`, and names the first check that quote fails. */
  ghost predicate Explains(notes: seq<BookNote>, at: seq<nat>, context: Context, duplicates: set<Id>,
                           quotes: seq<OddsQuote>) {
    && |at| == |notes|
    && (forall k :: 0 <= k < |at| ==>
          && at[k] < |quotes| && Reported(context, duplicates, quotes, at[k])
          && notes[k] == NoteOn(Admit(context, duplicates, quotes[at[k]]).code, quotes[at[k]]))
    && (forall j, k :: 0 <= j < k < |at| ==> at[j] < at[k])
    && (forall i :: 0 <= i < |quotes| && Reported(context, duplicates, quotes, i) ==> i in at)
  }

  lemma NotesStep(context: Context, duplicates: set<Id>, quotes: seq<OddsQuote>)
    requires |quotes| > 0
    ensures var n := |quotes| - 1;
      QuoteNotes(context, duplicates, quotes)
      == QuoteNotes(context, duplicates, quotes[..n])
         + if Reported(context, duplicates, quotes, n)
           then [NoteOn(Admit(context, duplicates, quotes[n]).code, quotes[n])] else []
  {
    hide Admit;
  }

  lemma ReportedInPrefix(context: Context, duplicates: set<Id>, quotes: seq<OddsQuote>, n: nat, i: nat)
    requires i < n <= |quotes|
    ensures Reported(context, duplicates, quotes[..n], i) == Reported(context, duplicates, quotes, i)
  {
    hide Admit;
    assert quotes[..n][..i] == quotes[..i];
  }

  /**
    Every rejected quote, or the first of those that share a repeated id, has exactly one
    note, in the order of the quotes.
   */
  lemma {:induction false} NotesExplained(context: Context, duplicates: set<Id>, quotes: seq<OddsQuote>)
    returns (at: seq<nat>)
    ensures Explains(QuoteNotes(context, duplicates, quotes), at, context, duplicates, quotes)
  {
    hide Admit, Reported, Ids, Explains;
    if |quotes| == 0 {
      at := [];
      NothingToExplain(context, duplicates);
    } else {
      var n := |quotes| - 1;
      var before := NotesExplained(context, duplicates, quotes[..n]);
      NotesStep(context, duplicates, quotes);
      at := if Reported(context, duplicates, quotes, n) then before + [n] else before;
      ExplainsOneMore(QuoteNotes(context, duplicates, quotes[..n]), before, context, duplicates, quotes);
    }
  }

  lemma NothingToExplain(context: Context, duplicates: set<Id>)
    ensures Explains([], [], context, duplicates, [])
  {
  }

  lemma ExplainsOneMore(notes: seq<BookNote>, before: seq<nat>, context: Context, duplicates: set<Id>,
                        quotes: seq<OddsQuote>)
    requires |quotes| > 0 && Explains(notes, before, context, duplicates, quotes[..|quotes| - 1])
    ensures var n := |quotes| - 1;
      if Reported(context, duplicates, quotes, n)
      then Explains(notes + [NoteOn(Admit(context, duplicates, quotes[n]).code, quotes[n])], before + [n],
                    context, duplicates, quotes)
      else Explains(notes, before, context, duplicates, quotes)
  {
    hide Admit, Ids;
    var n := |quotes| - 1;
    forall i | 0 <= i < n
      ensures Reported(context, duplicates, quotes[..n], i) == Reported(context, duplicates, quotes, i)
    {
      ReportedInPrefix(context, duplicates, quotes, n, i);
    }
    assert forall i :: i in before ==> i in before + [n];
    assert (before + [n])[|before|] == n;
  }

  // ----- What an emitted book is made of

  /** A quote competes exactly when nothing speaks against it. */
  lemma EligibleIff(context: Context, duplicates: set<Id>, quote: OddsQuote)
    ensures Admit(context, duplicates, quote) == Eligible <==>
      && quote.id !in duplicates
      && quote.event in context.registry.eventsById
      && quote.market in context.registry.marketsById && context.registry.marketsById[quote.market].event == quote.event
      && quote.selection in context.registry.selectionsById
      && context.registry.selectionsById[quote.selection].market == quote.market
      && quote.market in context.scope && context.policy.Allows(quote.provider)
      && quote.status == Active && quote.ingestedAt <= context.now
      && 0 <= context.now - quote.Effective() <= context.window
  {
  }

  lemma LastIsNew(ids: seq<Id>, j: nat)
    requires j < |ids| - 1 && multiset(ids)[ids[|ids| - 1]] <= 1
    ensures ids[j] != ids[|ids| - 1]
  {
    var n := |ids| - 1;
    assert ids == ids[..n] + [ids[n]];
    assert ids[..n][j] in multiset(ids[..n]);
  }

  lemma LastIdIsNew(quotes: seq<OddsQuote>, j: nat)
    requires j < |quotes| - 1 && multiset(Ids(quotes))[quotes[|quotes| - 1].id] <= 1
    ensures quotes[j].id != quotes[|quotes| - 1].id
  {
    LastIsNew(Ids(quotes), j);
  }

  /** A kept quote's id occurs once, so the kept quotes have distinct ids. */
  lemma {:induction false} KeptIdsDistinct(quotes: seq<OddsQuote>, keep: OddsQuote -> bool)
    requires forall j :: 0 <= j < |quotes| && keep(quotes[j]) ==> multiset(Ids(quotes))[quotes[j].id] <= 1
    ensures Distinct(Ids(Filter(quotes, keep)))
  {
    if |quotes| > 0 {
      var n := |quotes| - 1;
      var init, last := quotes[..n], quotes[n];
      assert Ids(quotes) == Ids(init) + [last.id];
      forall j | 0 <= j < n && keep(init[j])
        ensures multiset(Ids(init))[init[j].id] <= 1
      {
        assert init[j] == quotes[j];
      }
      KeptIdsDistinct(init, keep);
      if keep(last) {
        KeptElsewhere(quotes, keep);
      }
      assert Ids(Filter(quotes, keep)) == Ids(Filter(init, keep)) + if keep(last) then [last.id] else [];
    }
  }

  lemma KeptElsewhere(quotes: seq<OddsQuote>, keep: OddsQuote -> bool)
    requires |quotes| > 0 && multiset(Ids(quotes))[quotes[|quotes| - 1].id] <= 1
    ensures quotes[|quotes| - 1].id !in Ids(Filter(quotes[..|quotes| - 1], keep))
  {
    var n := |quotes| - 1;
    var kept := Filter(quotes[..n], keep);
    FilterMembers(quotes[..n], keep);
    forall i | 0 <= i < |kept|
      ensures kept[i].id != quotes[n].id
    {
      assert kept[i] in kept;
      var j :| 0 <= j < n && quotes[..n][j] == kept[i];
      LastIdIsNew(quotes, j);
    }
  }

  lemma EligibleIdsDistinct(context: Context, quotes: seq<OddsQuote>, market: Id)
    ensures Distinct(Ids(EligibleQuotes(context, quotes, market)))
  {
    forall j | 0 <= j < |quotes| && IsEligible(context, RepeatedIds(quotes), market)(quotes[j])
      ensures multiset(Ids(quotes))[quotes[j].id] <= 1
    {
      assert Ids(quotes)[j] in Ids(quotes);
    }
    KeptIdsDistinct(quotes, IsEligible(context, RepeatedIds(quotes), market));
  }

  lemma EligibleMembers(context: Context, quotes: seq<OddsQuote>, market: Id)
    ensures forall q :: q in EligibleQuotes(context, quotes, market)
                        <==> q in quotes && q.market == market && Admit(context, RepeatedIds(quotes), q) == Eligible
  {
    FilterMembers(quotes, IsEligible(context, RepeatedIds(quotes), market));
  }

  /** The selections of a market are listed once each, in id order. */
  lemma MarketSelections(registry: Registry, market: Id)
    requires UniqueIds(registry.selections, SelectionId)
    requires FindsById(registry.selectionsById, registry.selections, SelectionId)
    requires ListsSelections(registry.selectionIdsByMarket, registry.selections)
    ensures Distinct(registry.SelectionIdsForMarket(market))
    ensures SortedBy(registry.SelectionIdsForMarket(market), ByValue)
    ensures forall id :: id in registry.selectionsById && registry.selectionsById[id].market == market ==>
              id in registry.SelectionIdsForMarket(market)
  {
    var ids := SelectionsOf(registry.selections, market);
    SelectionsOnce(registry.selections, market);
    SelectionsComplete(registry.selections, registry.selectionsById, market);
    SortBySorts(ids, ByValue);
    SortByMembers(ids, ByValue);
  }

  lemma SortedStaysDistinct(ids: seq<Id>)
    requires Distinct(ids)
    ensures Distinct(SortBy(ids, ByValue))
  {
    forall i, j | 0 <= i < j < |ids|
      ensures ByValue(ids[i]) != ByValue(ids[j])
    {
      assert ByValue(ids[i])[0] != ByValue(ids[j])[0];
    }
    PermutationKeepsDistinctKeys(ids, SortBy(ids, ByValue), ByValue);
  }

  lemma SelectionsOnce(selections: seq<Selection>, market: Id)
    requires UniqueIds(selections, SelectionId)
    ensures Distinct(SortBy(SelectionsOf(selections, market), ByValue))
  {
    var own, ids := Filter(selections, InMarket(market)), SelectionsOf(selections, market);
    FilterPairwise(selections, InMarket(market), (a: Selection, b: Selection) => SelectionId(a) != SelectionId(b));
    forall i, j | 0 <= i < j < |ids|
      ensures ids[i] != ids[j]
    {
      assert ids[i] == SelectionId(own[i]) && ids[j] == SelectionId(own[j]);
    }
    SortedStaysDistinct(ids);
  }

  lemma SelectionsComplete(selections: seq<Selection>, byId: map<Id, Selection>, market: Id)
    requires FindsById(byId, selections, SelectionId)
    ensures forall id :: id in byId && byId[id].market == market ==> id in SelectionsOf(selections, market)
  {
    var own := Filter(selections, InMarket(market));
    FilterMembers(selections, InMarket(market));
    forall id | id in byId && byId[id].market == market
      ensures id in SelectionsOf(selections, market)
    {
      assert byId[id] in own;
      var j :| 0 <= j < |own| && own[j] == byId[id];
      assert SelectionsOf(selections, market)[j] == SelectionId(own[j]);
    }
  }

  /** Every eligible quote is on one of the market's selections. */
  lemma EligibleCovered(context: Context, quotes: seq<OddsQuote>, market: Id)
    requires Indexed(context.registry)
    ensures Covers(EligibleQuotes(context, quotes, market), context.registry.SelectionIdsForMarket(market))
  {
    hide Admit, EligibleQuotes;
    MarketSelections(context.registry, market);
    EligibleMembers(context, quotes, market);
    var eligible := EligibleQuotes(context, quotes, market);
    forall j | 0 <= j < |eligible|
      ensures eligible[j].selection in context.registry.SelectionIdsForMarket(market)
    {
      assert eligible[j] in eligible;
      EligibleIff(context, RepeatedIds(quotes), eligible[j]);
    }
  }

  predicate IsActiveIn(quote: OddsQuote, market: Market) {
    quote.market == market.id && quote.event == market.event && quote.status == Active
  }

  /** One active quote of the market per expected selection, in selection order. */
  ghost predicate OnePerSelection(market: Market, expected: seq<Id>, outcomes: seq<OddsQuote>) {
    && |outcomes| == |expected|
    && Distinct(expected) && SortedBy(expected, ByValue)
    && Distinct(Ids(outcomes))
    && forall i :: 0 <= i < |outcomes| ==> outcomes[i].selection == expected[i] && IsActiveIn(outcomes[i], market)
  }

  lemma EligibleActive(context: Context, quotes: seq<OddsQuote>, market: Market)
    requires FindsById(context.registry.marketsById, context.registry.markets, MarketId)
    requires market in context.registry.markets
    ensures forall q :: q in EligibleQuotes(context, quotes, market.id) ==> IsActiveIn(q, market)
  {
    hide Admit, EligibleQuotes;
    EligibleMembers(context, quotes, market.id);
    assert context.registry.marketsById[MarketId(market)] == market;
    forall q | q in EligibleQuotes(context, quotes, market.id)
      ensures IsActiveIn(q, market)
    {
      EligibleIff(context, RepeatedIds(quotes), q);
    }
  }

  lemma OutcomesFit(market: Market, eligible: seq<OddsQuote>, expected: seq<Id>)
    requires Complete(eligible, expected) && Distinct(expected) && SortedBy(expected, ByValue)
    requires Distinct(Ids(eligible)) && forall q :: q in eligible ==> IsActiveIn(q, market)
    ensures OnePerSelection(market, expected, Outcomes(eligible, expected))
  {
    var outcomes := Outcomes(eligible, expected);
    forall i | 0 <= i < |outcomes|
      ensures outcomes[i] in eligible && outcomes[i].selection == expected[i]
    {
      BestPriceOfLeg(eligible, expected, i);
    }
    ChosenIdsDistinct(eligible, outcomes);
  }

  lemma ChosenIdsDistinct(eligible: seq<OddsQuote>, outcomes: seq<OddsQuote>)
    requires Distinct(Ids(eligible))
    requires forall i :: 0 <= i < |outcomes| ==> outcomes[i] in eligible
    requires forall i, j :: 0 <= i < j < |outcomes| ==> outcomes[i].selection != outcomes[j].selection
    ensures Distinct(Ids(outcomes))
  {
    forall i, j | 0 <= i < j < |outcomes|
      ensures outcomes[i].id != outcomes[j].id
    {
      var a :| 0 <= a < |eligible| && eligible[a] == outcomes[i];
      var b :| 0 <= b < |eligible| && eligible[b] == outcomes[j];
      assert a != b && Ids(eligible)[a] != Ids(eligible)[b];
    }
  }

  /** Such outcomes pass every check of the evaluator. */
  lemma FittingBookEvaluates(market: Market, expected: seq<Id>, outcomes: seq<OddsQuote>)
    requires OnePerSelection(market, expected, outcomes) && |expected| >= 2
    ensures MarketFault(outcomes, expected) == None
  {
    assert Selections(outcomes) == expected;
    forall q | q in outcomes
      ensures IsActiveIn(q, market)
    {
      var i :| 0 <= i < |outcomes| && outcomes[i] == q;
    }
    assert outcomes[0] in outcomes;
  }

  /** They are already in the evaluator's order. */
  lemma FittingBookInOrder(market: Market, expected: seq<Id>, outcomes: seq<OddsQuote>)
    requires OnePerSelection(market, expected, outcomes)
    ensures OrderedBySelection(outcomes) == outcomes
  {
    forall i, j | 0 <= i < j < |outcomes|
      ensures !KeyLess(BySelection(outcomes[j]), BySelection(outcomes[i]))
    {
      assert ByValue(expected[j]) == BySelection(outcomes[j]) && ByValue(expected[i]) == BySelection(outcomes[i]);
    }
    SortBySorted(outcomes, BySelection);
  }

  /**
    Detection is complete: a book that is emitted evaluates, and it evaluates to an
    arbitrage exactly when some stakes over all eligible quotes of its market return more
    than they cost whichever selection wins.
   */
  lemma DetectionComplete(context: Context, quotes: seq<OddsQuote>, market: Market)
    requires Indexed(context.registry) && market in context.registry.markets
    requires market.event in context.registry.eventsById
    requires BookFor(context, EligibleQuotes(context, quotes, market.id), market).Ok?
    ensures var eligible := EligibleQuotes(context, quotes, market.id);
            var book := BookFor(context, eligible, market).value;
            && EvaluateMarket(book.outcomes, book.expected, 0.0).Ok?
            && (EvaluateMarket(book.outcomes, book.expected, 0.0).value.isArbitrage
                <==> exists stakes :: AlwaysWins(eligible, book.expected, stakes))
  {
    hide BookFor, EligibleQuotes, EvaluateMarket, Complete, Covers, AlwaysWins, IsActiveIn;
    var eligible := EligibleQuotes(context, quotes, market.id);
    var expected := context.registry.SelectionIdsForMarket(market.id);
    BookHolds(context, eligible, market);
    MarketSelections(context.registry, market.id);
    EligibleIdsDistinct(context, quotes, market.id);
    EligibleActive(context, quotes, market);
    EligibleCovered(context, quotes, market.id);
    EmittedIffWin(market, eligible, expected);
  }

  lemma BookHolds(context: Context, eligible: seq<OddsQuote>, market: Market)
    requires market.event in context.registry.eventsById && BookFor(context, eligible, market).Ok?
    ensures var book, expected := BookFor(context, eligible, market).value,
                                  context.registry.SelectionIdsForMarket(market.id);
      && |expected| >= 2 && Complete(eligible, expected)
      && book.expected == expected && book.outcomes == Outcomes(eligible, expected)
  {
  }

  lemma EmittedIffWin(market: Market, eligible: seq<OddsQuote>, expected: seq<Id>)
    requires Complete(eligible, expected) && Covers(eligible, expected) && SortedBy(expected, ByValue)
    requires Distinct(Ids(eligible)) && forall q :: q in eligible ==> IsActiveIn(q, market)
    requires |expected| >= 2
    ensures EvaluateMarket(Outcomes(eligible, expected), expected, 0.0).Ok?
    ensures EvaluateMarket(Outcomes(eligible, expected), expected, 0.0).value.isArbitrage
            <==> exists stakes :: AlwaysWins(eligible, expected, stakes)
  {
    hide AlwaysWins, MarketFault, OnePerSelection, Complete;
    OutcomesFit(market, eligible, expected);
    FittingBookEvaluates(market, expected, Outcomes(eligible, expected));
    FittingBookInOrder(market, expected, Outcomes(eligible, expected));
    WinIffLowSum(eligible, expected);
    ArbitrageIffSumBelowOne(Outcomes(eligible, expected), expected);
  }

  // ----- Order of arrival, and one more quote

  lemma BestQuoteUnique(xs: seq<OddsQuote>, ys: seq<OddsQuote>)
    requires |xs| > 0 && |ys| > 0
    requires forall q :: q in xs <==> q in ys
    requires Distinct(Ids(xs))
    ensures BestQuote(xs) == BestQuote(ys)
  {
    var a, b := BestQuote(xs), BestQuote(ys);
    assert !Preferred(a, b) && !Preferred(b, a);
    KeyTrichotomy(ByProviderAndId(a), ByProviderAndId(b));
    assert ByProviderAndId(a)[1] == ByProviderAndId(b)[1];
    var i :| 0 <= i < |xs| && xs[i] == a;
    var j :| 0 <= j < |xs| && xs[j] == b;
    assert Ids(xs)[i] == Ids(xs)[j];
  }

  lemma CandidatesPermute(xs: seq<OddsQuote>, ys: seq<OddsQuote>, selection: Id)
    requires forall q :: q in xs <==> q in ys
    requires Distinct(Ids(xs))
    ensures |Candidates(xs, selection)| > 0 <==> |Candidates(ys, selection)| > 0
    ensures |Candidates(xs, selection)| > 0 ==>
      BestQuote(Candidates(xs, selection)) == BestQuote(Candidates(ys, selection))
  {
    var a, b := Candidates(xs, selection), Candidates(ys, selection);
    FilterMembers(xs, OnSelection(selection));
    FilterMembers(ys, OnSelection(selection));
    assert |a| > 0 ==> a[0] in a && a[0] in b;
    assert |b| > 0 ==> b[0] in b && b[0] in a;
    OnceInAll(xs);
    KeptIdsDistinct(xs, OnSelection(selection));
    if |a| > 0 {
      BestQuoteUnique(a, b);
    }
  }

  lemma OnceInAll(quotes: seq<OddsQuote>)
    requires Distinct(Ids(quotes))
    ensures forall j :: 0 <= j < |quotes| ==> multiset(Ids(quotes))[quotes[j].id] <= 1
  {
    var ids := Ids(quotes);
    forall a, b | 0 <= a < b < |ids|
      ensures ByValue(ids[a]) != ByValue(ids[b])
    {
      assert ByValue(ids[a])[0] != ByValue(ids[b])[0];
    }
    forall j | 0 <= j < |quotes|
      ensures multiset(ids)[quotes[j].id] <= 1
    {
      AtMostOnce(ids, quotes[j].id, ByValue);
    }
  }

  lemma RemoveAt<T>(ys: seq<T>, k: nat)
    requires k < |ys|
    ensures multiset(ys) == multiset(ys[..k] + ys[k + 1..]) + multiset{ys[k]}
  {
    assert ys == ys[..k] + [ys[k]] + ys[k + 1..];
  }

  lemma IdsRemoveAt(ys: seq<OddsQuote>, k: nat)
    requires k < |ys|
    ensures multiset(Ids(ys)) == multiset(Ids(ys[..k] + ys[k + 1..])) + multiset{ys[k].id}
  {
    RemoveAt(Ids(ys), k);
    assert Ids(ys[..k] + ys[k + 1..]) == Ids(ys)[..k] + Ids(ys)[k + 1..];
  }

  lemma {:induction false} IdsPermute(xs: seq<OddsQuote>, ys: seq<OddsQuote>)
    requires multiset(xs) == multiset(ys)
    ensures multiset(Ids(xs)) == multiset(Ids(ys))
  {
    if |xs| == 0 {
      assert xs == ys;
    } else {
      assert xs[0] in multiset(ys);
      var k :| 0 <= k < |ys| && ys[k] == xs[0];
      RemoveAt(xs, 0);
      RemoveAt(ys, k);
      SamePermuted(xs[..0] + xs[1..], ys[..k] + ys[k + 1..], xs[0]);
      assert |xs[..0] + xs[1..]| < |xs|;
      IdsPermute(xs[..0] + xs[1..], ys[..k] + ys[k + 1..]);
      IdsRemoveAt(xs, 0);
      IdsRemoveAt(ys, k);
    }
  }

  lemma SamePermuted<T>(xs: seq<T>, ys: seq<T>, x: T)
    requires multiset(xs) + multiset{x} == multiset(ys) + multiset{x}
    ensures multiset(xs) == multiset(ys)
  {
    assert multiset(xs) == multiset(xs) + multiset{x} - multiset{x};
    assert multiset(ys) == multiset(ys) + multiset{x} - multiset{x};
  }

  lemma EligiblePermute(context: Context, xs: seq<OddsQuote>, ys: seq<OddsQuote>, market: Id)
    requires multiset(xs) == multiset(ys)
    ensures forall q :: q in EligibleQuotes(context, xs, market) <==> q in EligibleQuotes(context, ys, market)
  {
    IdsPermute(xs, ys);
    EligibleMembers(context, xs, market);
    EligibleMembers(context, ys, market);
    assert RepeatedIds(xs) == RepeatedIds(ys) by {
      assert forall id :: id in Ids(xs) <==> id in multiset(Ids(xs));
      assert forall id :: id in Ids(ys) <==> id in multiset(Ids(ys));
    }
    forall q
      ensures q in xs <==> q in ys
    {
      assert q in multiset(xs) <==> q in multiset(ys);
    }
  }

  lemma OutcomesAgree(xs: seq<OddsQuote>, ys: seq<OddsQuote>, expected: seq<Id>)
    requires forall q :: q in xs <==> q in ys
    requires Distinct(Ids(xs))
    ensures Complete(xs, expected) <==> Complete(ys, expected)
    ensures Complete(xs, expected) ==> Outcomes(xs, expected) == Outcomes(ys, expected)
  {
    forall i | 0 <= i < |expected|
      ensures |Candidates(xs, expected[i])| > 0 <==> |Candidates(ys, expected[i])| > 0
      ensures |Candidates(xs, expected[i])| > 0 ==>
                BestQuote(Candidates(xs, expected[i])) == BestQuote(Candidates(ys, expected[i]))
    {
      CandidatesPermute(xs, ys, expected[i]);
    }
  }

  lemma BookPermutes(context: Context, xs: seq<OddsQuote>, ys: seq<OddsQuote>, market: Market)
    requires multiset(xs) == multiset(ys) && market.event in context.registry.eventsById
    ensures BookFor(context, EligibleQuotes(context, xs, market.id), market)
            == BookFor(context, EligibleQuotes(context, ys, market.id), market)
  {
    EligiblePermute(context, xs, ys, market.id);
    EligibleIdsDistinct(context, xs, market.id);
    OutcomesAgree(EligibleQuotes(context, xs, market.id), EligibleQuotes(context, ys, market.id),
                  context.registry.SelectionIdsForMarket(market.id));
  }

  /** The emitted books do not depend on the order of the quotes, repeated ids included. */
  lemma {:induction false} BooksPermute(context: Context, xs: seq<OddsQuote>, ys: seq<OddsQuote>, scope: seq<Id>)
    requires multiset(xs) == multiset(ys) && Resolves(context.registry, scope)
    ensures BooksFor(context, xs, scope).books == BooksFor(context, ys, scope).books
  {
    if |scope| > 0 {
      var n := |scope| - 1;
      BooksPermute(context, xs, ys, scope[..n]);
      BookPermutes(context, xs, ys, context.registry.marketsById[scope[n]]);
    }
  }

  /** A quote with a new id joins the eligible quotes or leaves them as they are. */
  lemma NewQuoteJoins(context: Context, quotes: seq<OddsQuote>, extra: OddsQuote, market: Id)
    requires extra.id !in Ids(quotes)
    ensures EligibleQuotes(context, quotes + [extra], market)
            == EligibleQuotes(context, quotes, market) + EligibleQuotes(context, [extra], market)
  {
    var all := quotes + [extra];
    assert Ids(all) == Ids(quotes) + [extra.id];
    assert RepeatedIds(all) == RepeatedIds(quotes);
    assert RepeatedIds([extra]) == {} by {
      assert Ids([extra]) == [extra.id];
    }
    assert all[..|quotes|] == quotes;
    FilterSingle(extra, IsEligible(context, RepeatedIds([extra]), market));
  }

  /** One more eligible quote keeps a book complete and never raises its implied sum. */
  lemma NewQuoteNeverRaisesSum(eligible: seq<OddsQuote>, extra: seq<OddsQuote>, expected: seq<Id>)
    requires Complete(eligible, expected)
    ensures Complete(eligible + extra, expected)
    ensures ImpliedSum(BestPrices(eligible + extra, expected)) <= ImpliedSum(BestPrices(eligible, expected))
  {
    forall i | 0 <= i < |expected|
      ensures |Candidates(eligible + extra, expected[i])| > 0
    {
      FilterConcat(eligible, extra, OnSelection(expected[i]));
    }
    var choice := Outcomes(eligible, expected);
    forall i | 0 <= i < |expected|
      ensures choice[i] in eligible + extra && choice[i].selection == expected[i]
    {
      BestPriceOfLeg(eligible, expected, i);
    }
    BookHasLeastSum(eligible + extra, expected, choice);
  }

  /** The emitted books are exactly those of the markets in scope that have one. */
  lemma {:induction false} EmittedBooks(context: Context, quotes: seq<OddsQuote>, scope: seq<Id>)
    requires Resolves(context.registry, scope)
    ensures forall b :: b in BooksFor(context, quotes, scope).books <==>
              exists i :: 0 <= i < |scope| && EmittedFor(context, quotes, scope[i], b)
  {
    if |scope| > 0 {
      var n := |scope| - 1;
      EmittedBooks(context, quotes, scope[..n]);
      var before, after := BooksFor(context, quotes, scope[..n]).books, BooksFor(context, quotes, scope).books;
      forall b
        ensures b in after <==> b in before || EmittedFor(context, quotes, scope[n], b)
      {
      }
      forall b
        ensures b in after <==> exists i :: 0 <= i < |scope| && EmittedFor(context, quotes, scope[i], b)
      {
        if i :| 0 <= i < |scope| && EmittedFor(context, quotes, scope[i], b) {
          assert i < n ==> EmittedFor(context, quotes, scope[..n][i], b);
        }
      }
    }
  }

  predicate EmittedFor(context: Context, quotes: seq<OddsQuote>, market: Id, book: Book) {
    && Listed(market, context.registry.marketsById, context.registry.eventsById)
    && BookFor(context, EligibleQuotes(context, quotes, context.registry.marketsById[market].id),
               context.registry.marketsById[market]) == Ok(book)
  }
}
