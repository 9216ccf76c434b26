/** What a replay detects, by the fields of the quotes, the registry and the configuration. */
module ReplayLaws {
  import opened Wrappers
  import opened Ordering
  import opened Domain
  import opened ArbitrageMath
  import LiveQuotes
  import opened Catalog
  import opened MarketBook
  import opened MarketBookLaws
  import opened BookLaws
  import opened Lifecycle
  import opened Intervals
  import opened Replay

  /** A book that offers a profit of at least the margin. */
  ghost predicate Profits(book: Book, margin: real) {
    var s := ReciprocalSum(book.outcomes);
    0.0 < s < 1.0 && 1.0 / s - 1.0 >= margin
  }

  /** The evaluation of a book's outcomes, in their order. */
  ghost predicate EvaluatesBook(e: ArbitrageEvaluation, book: Book, margin: real) {
    var s := ReciprocalSum(book.outcomes);
    && e.event == book.market.event && e.market == book.market.id
    && e.quotes == book.outcomes && e.expected == book.expected && e.threshold == margin && e.isArbitrage
    && s > 0.0 && e.impliedSum == s && e.returnMultiplier == 1.0 / s && e.margin == 1.0 / s - 1.0
  }

  lemma BookFits(context: Context, quotes: seq<OddsQuote>, market: Market)
    requires Indexed(context.registry) && market in context.registry.markets
    requires market.event in context.registry.eventsById
    requires BookFor(context, EligibleQuotes(context, quotes, market.id), market).Ok?
    ensures var book := BookFor(context, EligibleQuotes(context, quotes, market.id), market).value;
      && book.market == market && |book.expected| >= 2 && SortedBy(book.expected, ByValue)
      && OnePerSelection(market, book.expected, book.outcomes)
  {
    hide EligibleQuotes, Complete, IsActiveIn, OnePerSelection, SortedBy, Distinct;
    var eligible := EligibleQuotes(context, quotes, market.id);
    BookHolds(context, eligible, market);
    MarketSelections(context.registry, market.id);
    EligibleIdsDistinct(context, quotes, market.id);
    EligibleActive(context, quotes, market);
    OutcomesFit(market, eligible, context.registry.SelectionIdsForMarket(market.id));
  }

  /** Such a book evaluates, and to what its prices imply. */
  lemma FittingBookReports(book: Book, margin: real)
    requires |book.expected| >= 2 && SortedBy(book.expected, ByValue) && margin >= 0.0
    requires OnePerSelection(book.market, book.expected, book.outcomes)
    ensures ArbitrageOf(book, margin).Some? <==> Profits(book, margin)
    ensures ArbitrageOf(book, margin).Some? ==> EvaluatesBook(ArbitrageOf(book, margin).value, book, margin)
  {
    hide MarketFault, SortBy, ImpliedSum, ReciprocalSum, InSelectionOrder, SortedBy, FindsWrong;
    FittingBookEvaluates(book.market, book.expected, book.outcomes);
    FittingBookInOrder(book.market, book.expected, book.outcomes);
    SortBySorted(book.expected, ByValue);
    EvaluationMeans(book.outcomes, book.expected, margin);
    assert IsActiveIn(book.outcomes[0], book.market);
  }

  /** A market is detected exactly when it is due a book and the book's prices leave the margin. */
  lemma DetectedMeans(context: Context, quotes: seq<OddsQuote>, margin: real, market: Id)
    requires Indexed(context.registry) && margin >= 0.0
    requires Listed(market, context.registry.marketsById, context.registry.eventsById)
    ensures ArbitrageIn(context, quotes, margin, market) <==>
            exists book :: BookOf(context, quotes, market) == Ok(book) && IsDueBook(book, market, context, quotes)
                           && Profits(book, margin)
    ensures ArbitrageIn(context, quotes, margin, market) ==>
              var book := BookOf(context, quotes, market).value;
              EvaluatesBook(ArbitrageOf(book, margin).value, book, margin)
  {
    hide Indexed, BookFor, EligibleQuotes, BookIsDue, IsBookOf, ArbitrageOf, Profits, EvaluatesBook, OnePerSelection,
      SortedBy, Lacks;
    var found := context.registry.marketsById[market];
    FoundListed(context.registry, market);
    BookForMeans(context, quotes, found);
    if BookOf(context, quotes, market).Ok? {
      BookFits(context, quotes, found);
      FittingBookReports(BookOf(context, quotes, market).value, margin);
    }
  }

  lemma FoundListed(registry: Registry, market: Id)
    requires Indexed(registry) && market in registry.marketsById
    ensures registry.marketsById[market] in registry.markets && registry.marketsById[market].id == market
  {
  }

  // ----- The rows of a replay

  /** A detection of this book at this instant: what its prices imply, and the opportunity they make. */
  ghost predicate Detects(d: Detection, book: Book, margin: real, now: Instant) {
    && EvaluatesBook(d.evaluation, book, margin)
    && d.opportunity.id == book.market.id && d.opportunity.event == book.market.event
    && d.opportunity.market == book.market.id && d.opportunity.quoteIds == Ids(book.outcomes)
    && d.opportunity.impliedSum == d.evaluation.impliedSum && d.opportunity.margin == d.evaluation.margin
    && d.opportunity.detectedAt == now && d.opportunity.status == OpportunityActive
  }

  /** One detection for exactly the scoped markets whose book over the live quotes leaves the margin. */
  ghost predicate RowOf(row: Row, context: Context, quotes: seq<OddsQuote>, config: ReplayConfig) {
    && (forall m :: m in row ==> m in context.scope)
    && forall i :: 0 <= i < |context.scope| ==> var m := context.scope[i];
         && (m in row <==> exists book :: IsProfitableBook(book, m, context, quotes, config))
         && (m in row ==> DetectsMarket(row[m], m, context, quotes, config))
  }

  ghost predicate DetectsMarket(d: Detection, market: Id, context: Context, quotes: seq<OddsQuote>,
                                config: ReplayConfig) {
    exists book ::
      IsProfitableBook(book, market, context, quotes, config) && Detects(d, book, config.minimumMargin, context.now)
  }

  ghost predicate IsProfitableBook(book: Book, market: Id, context: Context, quotes: seq<OddsQuote>,
                                   config: ReplayConfig) {
    && BookLaws.IsDueBook(book, market, context, quotes) && Profits(book, config.minimumMargin)
    && Listed(market, context.registry.marketsById, context.registry.eventsById)
    && BookOf(context, quotes, market) == Ok(book)
  }

  lemma RowMeans(row: Row, context: Context, quotes: seq<OddsQuote>, config: ReplayConfig)
    requires Indexed(context.registry) && Resolves(context.registry, context.scope)
    requires DetectsAt(row, context, quotes, config)
    ensures RowOf(row, context, quotes, config)
  {
    hide Indexed, BookOf, ArbitrageIn, IsDueBook, Profits, Records, Detects;
    forall i | 0 <= i < |context.scope|
      ensures var m := context.scope[i];
        && (m in row <==> exists book :: IsProfitableBook(book, m, context, quotes, config))
        && (m in row ==> DetectsMarket(row[m], m, context, quotes, config))
    {
      DetectedMeans(context, quotes, config.minimumMargin, context.scope[i]);
      if context.scope[i] in row {
        var book := DetectedBook(context, quotes, config, context.scope[i]);
        RecordMeans(row[context.scope[i]], book, config, context.now);
      }
    }
  }

  lemma DetectedBook(context: Context, quotes: seq<OddsQuote>, config: ReplayConfig, market: Id) returns (book: Book)
    requires Indexed(context.registry)
    requires Listed(market, context.registry.marketsById, context.registry.eventsById)
    requires ArbitrageIn(context, quotes, config.minimumMargin, market)
    ensures IsProfitableBook(book, market, context, quotes, config)
    ensures ArbitrageOf(book, config.minimumMargin).Some?
    ensures EvaluatesBook(ArbitrageOf(book, config.minimumMargin).value, book, config.minimumMargin)
  {
    hide Indexed, IsDueBook, Profits, ArbitrageOf, EvaluatesBook;
    DetectedMeans(context, quotes, config.minimumMargin, market);
    book := BookOf(context, quotes, market).value;
  }

  lemma RecordMeans(d: Detection, book: Book, config: ReplayConfig, now: Instant)
    requires Records(d, book, config, now)
    requires ArbitrageOf(book, config.minimumMargin).Some?
    requires EvaluatesBook(ArbitrageOf(book, config.minimumMargin).value, book, config.minimumMargin)
    ensures Detects(d, book, config.minimumMargin, now)
  {
    hide ArbitrageOf, Revalidates, SafeToAct, Replay.Fails, ReciprocalSum;
  }

  /**
    Every row of a replay holds what the configured margin leaves among the books over the
    quotes that a live store with the configured window and tolerance would offer.
   */
  lemma ReplayRowMeans(row: Row, now: Instant, batches: seq<HistoricalBatch>, registry: Registry, config: ReplayConfig,
                       scope: seq<Id>)
    requires Indexed(registry) && RowAt(row, now, batches, registry, config, scope)
    ensures exists quotes ::
      && LiveQuotesAt(quotes, LiveQuotes.FreshnessPolicy(config.window, config.tolerance), batches, now)
      && RowOf(row, Context(registry, now, config.window, config.providers, ScopeOf(registry.markets, Some(scope))),
               quotes, config)
  {
    hide Indexed, RowOf, DetectsAt, LiveQuotesAt, ScopeOf;
    var context := Context(registry, now, config.window, config.providers, ScopeOf(registry.markets, Some(scope)));
    var quotes :| LiveQuotesAt(quotes, LiveQuotes.FreshnessPolicy(config.window, config.tolerance), batches, now)
                  && DetectsAt(row, context, quotes, config);
    RowMeans(row, context, quotes, config);
  }
}
