/**
  Offline replay: historical batches run through the live store and the production
  detector, one detection instant after the other.
 */
module Replay {
  import opened Wrappers
  import opened Reals
  import opened Ordering
  import opened Collections
  import opened Domain
  import opened ArbitrageMath
  import opened StakeConstraints
  import opened Allocation
  import opened Lifecycle
  import opened LiveQuotes
  import opened Consolidation
  import opened MultiSource
  import opened FeedRuns
  import opened FeedLaws
  import opened Catalog
  import opened MarketBook
  import opened MarketBookLaws
  import opened Intervals

  /** Quotes that became available together. */
  datatype HistoricalBatch = HistoricalBatch(observed: Instant, quotes: seq<OddsQuote>)

  /** What the corpus constructors guarantee: batches are not empty and strictly chronological. */
  ghost predicate ValidCorpus(batches: seq<HistoricalBatch>) {
    && |batches| > 0
    && (forall i, j :: 0 <= i < j < |batches| ==> batches[i].observed < batches[j].observed)
    && (forall i :: 0 <= i < |batches| ==> |batches[i].quotes| > 0)
    && (forall i, q :: 0 <= i < |batches| && q in batches[i].quotes ==> q.ingestedAt <= batches[i].observed)
  }

  datatype ReplayConfig = ReplayConfig(
    window: Duration,
    latency: Duration,
    tolerance: Duration,
    minimumMargin: NonNegative,
    providers: ProviderPolicy,
    actionability: Option<ActionabilityPolicy>)

  datatype ReplayError = BookFailed(book: BookError) | InstantOverflow | LifecycleFailed(lifecycle: LifecycleError)

  function LivePolicy(config: ReplayConfig): FreshnessPolicy {
    FreshnessPolicy(config.window, config.tolerance)
  }

  function Offers(batches: seq<HistoricalBatch>): seq<FeedOp> {
    seq(|batches|, i requires 0 <= i < |batches| => Offer(batches[i].quotes, batches[i].observed))
  }

  /** The batches available at an instant. */
  function Known(batches: seq<HistoricalBatch>, now: Instant): seq<HistoricalBatch> {
    Filter(batches, (batch: HistoricalBatch) => batch.observed <= now)
  }

  lemma {:induction false} KnownIsPrefix(batches: seq<HistoricalBatch>, now: Instant, n: nat)
    requires n <= |batches|
    requires forall i :: 0 <= i < |batches| ==> (batches[i].observed <= now <==> i < n)
    ensures Known(batches, now) == batches[..n]
  {
    if |batches| > 0 {
      var m := |batches| - 1;
      if n <= m {
        KnownIsPrefix(batches[..m], now, n);
        assert batches[..m][..n] == batches[..n];
      } else {
        KnownIsPrefix(batches[..m], now, m);
        assert batches[..n] == batches[..m] + [batches[m]];
      }
    }
  }

  // ----- The quotes a detection instant sees

  /** Exactly what a live store with this window would offer after the same batches. */
  ghost predicate LiveQuotesAt(quotes: seq<OddsQuote>, policy: FreshnessPolicy, batches: seq<HistoricalBatch>,
                               now: Instant) {
    exists live ::
      ListsFresh(live, policy, Run(policy, EMPTY_FEED, Offers(Known(batches, now))), now)
      && quotes == Consolidated(Quotes(live)).quotes
  }

  function InWindow(policy: FreshnessPolicy, now: Instant): QuoteVersion -> bool {
    (v: QuoteVersion) => now - v.quote.Effective() <= policy.window
  }

  lemma {:induction false} FilterQuotes(versions: seq<QuoteVersion>, policy: FreshnessPolicy, now: Instant)
    ensures Quotes(Filter(versions, InWindow(policy, now))) == Filter(Quotes(versions), WithinWindow(policy, now))
  {
    if |versions| > 0 {
      var n := |versions| - 1;
      FilterQuotes(versions[..n], policy, now);
      assert Quotes(versions)[..n] == Quotes(versions[..n]);
    }
  }

  /** Filtering an unbounded store's fresh versions gives the fresh versions of a windowed one. */
  lemma WindowAfterwards(policy: FreshnessPolicy, feed: FeedState, now: Instant, versions: seq<QuoteVersion>)
    requires ListsFresh(versions, Unbounded(policy), feed, now)
    ensures ListsFresh(Filter(versions, InWindow(policy, now)), policy, feed, now)
  {
    FilterMembers(versions, InWindow(policy, now));
    FilterStrict(versions, ByVersion, InWindow(policy, now));
    forall v
      ensures (v in versions && InWindow(policy, now)(v)) <==> exists t :: IsFreshVersion(v, t, policy, feed, now)
    {
      if v in versions && InWindow(policy, now)(v) {
        var t :| IsFreshVersion(v, t, Unbounded(policy), feed, now);
        assert IsFreshVersion(v, t, policy, feed, now);
      }
      if t :| IsFreshVersion(v, t, policy, feed, now) {
        assert IsFreshVersion(v, t, Unbounded(policy), feed, now);
      }
    }
  }

  /** What the replay executes is what a live store with the configured window would execute. */
  lemma StrictQuotesAreLive(policy: FreshnessPolicy, batches: seq<HistoricalBatch>, now: Instant,
                            versions: seq<QuoteVersion>)
    requires ListsFresh(versions, Unbounded(policy),
                        Run(Unbounded(policy), EMPTY_FEED, Offers(Known(batches, now))), now)
    ensures LiveQuotesAt(Consolidated(Filter(Quotes(versions), WithinWindow(policy, now))).quotes, policy, batches, now)
  {
    var offers := Offers(Known(batches, now));
    WindowIrrelevant(policy, Unbounded(policy), EMPTY_FEED, offers);
    WindowAfterwards(policy, Run(policy, EMPTY_FEED, offers), now, versions);
    FilterQuotes(versions, policy, now);
  }

  /** Two live stores given the same batches offer the same quotes. */
  lemma LiveQuotesUnique(policy: FreshnessPolicy, batches: seq<HistoricalBatch>, now: Instant, xs: seq<OddsQuote>,
                         ys: seq<OddsQuote>)
    requires LiveQuotesAt(xs, policy, batches, now) && LiveQuotesAt(ys, policy, batches, now)
    ensures xs == ys
  {
    var feed := Run(policy, EMPTY_FEED, Offers(Known(batches, now)));
    var a :| ListsFresh(a, policy, feed, now) && xs == Consolidated(Quotes(a)).quotes;
    var b :| ListsFresh(b, policy, feed, now) && ys == Consolidated(Quotes(b)).quotes;
    RunPlaced(policy, EMPTY_FEED, Offers(Known(batches, now)));
    SameViewIffSameLists(policy, feed, feed, now, a, b);
  }

  // ----- Advancing the store

  /** The state after the first `next` batches, each applied once, in order. */
  ghost predicate Reached(feed: FeedState, policy: FreshnessPolicy, batches: seq<HistoricalBatch>, next: nat) {
    next <= |batches| && feed == Run(policy, EMPTY_FEED, Offers(batches[..next]))
  }

  /** Applies every batch that has become available by `now`. */
  method AdvanceTo(store: MultiSourceLiveQuoteStore, batches: seq<HistoricalBatch>, next: nat, now: Instant)
    returns (next': nat)
    requires Reached(store.Feed(), store.policy, batches, next)
    requires next > 0 ==> batches[next - 1].observed <= now
    modifies store`transportStores, store`invalidated
    ensures Reached(store.Feed(), store.policy, batches, next')
    ensures next' > 0 ==> batches[next' - 1].observed <= now
    ensures next' < |batches| ==> batches[next'].observed > now
  {
    next' := next;
    ghost var feed := store.Feed();
    while next' < |batches| && batches[next'].observed <= now
      invariant next' <= |batches| && store.Feed() == feed && Reached(feed, store.policy, batches, next')
      invariant next' > 0 ==> batches[next' - 1].observed <= now
      decreases |batches| - next'
    {
      feed := ApplyNext(store, batches, next');
      next' := next' + 1;
    }
  }

  method ApplyNext(store: MultiSourceLiveQuoteStore, batches: seq<HistoricalBatch>,
                   next: nat) returns (ghost feed: FeedState)
    requires Reached(store.Feed(), store.policy, batches, next) && next < |batches|
    modifies store`transportStores, store`invalidated
    ensures feed == store.Feed() && Reached(feed, store.policy, batches, next + 1)
  {
    RunPlaced(store.policy, EMPTY_FEED, Offers(batches[..next]));
    var result := store.Apply(batches[next].quotes, batches[next].observed);
    feed := store.Feed();
    OneMoreBatch(store.policy, batches, next);
  }

  lemma OneMoreBatch(policy: FreshnessPolicy, batches: seq<HistoricalBatch>, next: nat)
    requires next < |batches|
    ensures Run(policy, EMPTY_FEED, Offers(batches[..next + 1]))
            == AfterBatch(FeedApply(policy, Run(policy, EMPTY_FEED, Offers(batches[..next])),
                                    batches[next].quotes, batches[next].observed))
  {
    var offers := Offers(batches[..next + 1]);
    assert offers[..next] == Offers(batches[..next]);
    assert offers[next] == Offer(batches[next].quotes, batches[next].observed);
  }

  method StrictQuotes(store: MultiSourceLiveQuoteStore, policy: FreshnessPolicy, ghost batches: seq<HistoricalBatch>,
                      ghost next: nat, now: Instant)
    returns (quotes: seq<OddsQuote>)
    requires store.policy == Unbounded(policy) && Reached(store.Feed(), store.policy, batches, next)
    requires Known(batches, now) == batches[..next]
    ensures LiveQuotesAt(quotes, policy, batches, now)
  {
    RunPlaced(store.policy, EMPTY_FEED, Offers(batches[..next]));
    var observations := store.FreshObservations(now);
    var eligible := Filter(observations, WithinWindow(policy, now));
    var consolidated := ConsolidateQuotes(eligible);
    quotes := consolidated.quotes;
    ghost var versions :| ListsFresh(versions, store.policy, store.Feed(), now) && observations == Quotes(versions);
    StrictQuotesAreLive(policy, batches, now, versions);
  }

  /** In a chronological corpus the batches available are those up to the last one in time. */
  lemma KnownSoFar(batches: seq<HistoricalBatch>, now: Instant, next: nat)
    requires ValidCorpus(batches) && next <= |batches|
    requires next > 0 ==> batches[next - 1].observed <= now
    requires next < |batches| ==> batches[next].observed > now
    ensures Known(batches, now) == batches[..next]
  {
    forall i | 0 <= i < |batches|
      ensures batches[i].observed <= now <==> i < next
    {
      assert i < next - 1 ==> batches[i].observed < batches[next - 1].observed;
      assert i > next ==> batches[next].observed < batches[i].observed;
    }
    KnownIsPrefix(batches, now, next);
  }

  // ----- Detecting at one instant

  function ContextAt(registry: Registry, config: ReplayConfig, scope: seq<Id>, now: Instant): Context {
    Context(registry, now, config.window, config.providers, ScopeOf(registry.markets, Some(scope)))
  }

  /** The book of one market, if the market has a complete one. */
  function BookOf(context: Context, quotes: seq<OddsQuote>, market: Id): Result<Book, BookCode>
    requires Listed(market, context.registry.marketsById, context.registry.eventsById)
  {
    var found := context.registry.marketsById[market];
    BookFor(context, EligibleQuotes(context, quotes, found.id), found)
  }

  /** The evaluation of a book that is an arbitrage at the configured margin. */
  function ArbitrageOf(book: Book, margin: real): Option<ArbitrageEvaluation> {
    match EvaluateMarket(book.outcomes, book.expected, margin)
    case Ok(evaluation) => if evaluation.isArbitrage then Some(evaluation) else None
    case Err(_) => None
  }

  /** Market `market` has a book at this instant and the book is an arbitrage. */
  predicate ArbitrageIn(context: Context, quotes: seq<OddsQuote>, margin: real, market: Id)
    requires Listed(market, context.registry.marketsById, context.registry.eventsById)
  {
    BookOf(context, quotes, market).Ok? && ArbitrageOf(BookOf(context, quotes, market).value, margin).Some?
  }

  /**
    `error` ends the replay at this book: the book is an arbitrage of quotes young enough to
    be revalidated, and the stake constraints of the policy cannot be used for its quotes.
   */
  ghost predicate FailsWith(error: ReplayError, book: Book, config: ReplayConfig, now: Instant) {
    && ArbitrageOf(book, config.minimumMargin).Some? && config.actionability.Some?
    && error.LifecycleFailed? && error.lifecycle.AllocationFailed? && error.lifecycle.allocation.BadConstraint?
    && var policy := config.actionability.value;
       && AllFresh(book.outcomes, now, policy.maximumAgeSeconds)
       && ConstraintsFail(OrderedBySelection(book.outcomes), policy.constraints, policy.rounding.quantum,
                          error.lifecycle.allocation.error)
  }

  ghost predicate Fails(book: Book, config: ReplayConfig, now: Instant) {
    exists error :: FailsWith(error, book, config, now)
  }

  /** `detection` records the book's arbitrage and, if the replay revalidates, what that concludes. */
  ghost predicate Records(detection: Detection, book: Book, config: ReplayConfig, now: Instant) {
    && ArbitrageOf(book, config.minimumMargin) == Some(detection.evaluation)
    && BuildOpportunity(detection.evaluation, book.market.id, now) == Some(detection.opportunity)
    && !Fails(book, config, now)
    && (detection.lifecycle.Some? <==> config.actionability.Some?)
    && (detection.lifecycle.Some? ==>
          Revalidates(detection.lifecycle.value, detection.opportunity, book.outcomes, now, config.actionability.value))
    && (detection.IsActionable() ==>
          && detection.lifecycle.value.figures.Some?
          && SafeToAct(book.outcomes, now, config.actionability.value, detection.lifecycle.value.figures.value))
  }

  /** One detection for exactly the markets whose book is an arbitrage. */
  ghost predicate DetectsAt(row: Row, context: Context, quotes: seq<OddsQuote>, config: ReplayConfig)
    requires Resolves(context.registry, context.scope)
  {
    && (forall m :: m in row ==> m in context.scope)
    && (forall i :: 0 <= i < |context.scope| ==>
          (context.scope[i] in row <==> ArbitrageIn(context, quotes, config.minimumMargin, context.scope[i])))
    && (forall i :: 0 <= i < |context.scope| && context.scope[i] in row ==>
          Records(row[context.scope[i]], BookOf(context, quotes, context.scope[i]).value, config, context.now))
  }

  /** An opportunity revalidated against the very quotes it was built from can only be stale. */
  lemma OwnQuotes(book: Book, config: ReplayConfig, now: Instant, opportunity: Opportunity, policy: ActionabilityPolicy)
    requires ArbitrageOf(book, config.minimumMargin).Some?
    requires Some(opportunity) == BuildOpportunity(ArbitrageOf(book, config.minimumMargin).value, book.market.id, now)
    ensures |book.outcomes| > 0
    ensures opportunity.event == book.outcomes[0].event && opportunity.market == book.outcomes[0].market
    ensures EarlyOutcome(opportunity, book.outcomes, now, policy)
            == if AllFresh(book.outcomes, now, policy.maximumAgeSeconds) then None
               else Some(Ok(Unactionable(Stale, StaleQuotes, 0.0)))
  {
    hide SortBy, ImpliedSum, Distinct, FreshEnough;
    SortByMembers(book.outcomes, BySelection);
    SameIds(book.outcomes, OrderedBySelection(book.outcomes));
    assert MarketFault(book.outcomes, Selections(book.outcomes)).None?;
  }

  method EvaluateBook(book: Book, margin: real) returns (r: Option<ArbitrageEvaluation>)
    ensures r == ArbitrageOf(book, margin)
  {
    hide EvaluateMarket;
    var evaluation := Evaluate(book.outcomes, book.expected, margin);
    if evaluation.Ok? && evaluation.value.isArbitrage {
      return Some(evaluation.value);
    }
    return None;
  }

  /** Evaluates one book and, if it is an arbitrage, revalidates the opportunity. */
  method DetectBook(book: Book, config: ReplayConfig, now: Instant) returns (r: Result<Option<Detection>, ReplayError>)
    ensures r.Ok? ==> (r.value.Some? <==> ArbitrageOf(book, config.minimumMargin).Some?)
    ensures r.Ok? && r.value.Some? ==> Records(r.value.value, book, config, now)
    ensures forall error :: r == Err(error) <==> FailsWith(error, book, config, now)
  {
    hide ArbitrageOf, EarlyOutcome, ConstraintsFail, Revalidates, SafeToAct, AllFresh, SortBy;
    var evaluation := EvaluateBook(book, config.minimumMargin);
    if evaluation.None? {
      return Ok(None);
    }
    ArbitrageBuilds(book, config.minimumMargin, now);
    var opportunity := BuildOpportunity(evaluation.value, book.market.id, now).value;
    if config.actionability.None? {
      return Ok(Some(Detection(opportunity, evaluation.value, None)));
    }
    OwnQuotes(book, config, now, opportunity, config.actionability.value);
    var lifecycle := RevalidateOpportunity(opportunity, book.outcomes, now, book.market.id, config.actionability.value);
    if lifecycle.Err? {
      return Err(LifecycleFailed(lifecycle.error));
    }
    return Ok(Some(Detection(opportunity, evaluation.value, Some(lifecycle.value))));
  }

  lemma ArbitrageBuilds(book: Book, margin: real, now: Instant)
    requires ArbitrageOf(book, margin).Some?
    ensures BuildOpportunity(ArbitrageOf(book, margin).value, book.market.id, now).Some?
  {
  }

  /** One detection, standing in `records` to its book, for each of the first `n` books that is wanted. */
  ghost predicate RowFrom(row: Row, books: seq<Book>, n: nat, wanted: Book -> bool, records: (Detection, Book) -> bool)
    requires n <= |books|
  {
    && (forall j :: 0 <= j < n && wanted(books[j]) ==> books[j].market.id in row)
    && (forall m :: m in row ==> exists j :: 0 <= j < n && books[j].market.id == m && wanted(books[j])
                                             && records(row[m], books[j]))
  }

  lemma RowGrows(row: Row, books: seq<Book>, n: nat, wanted: Book -> bool, records: (Detection,
                 Book) -> bool, detected: Option<Detection>)
    requires n < |books| && RowFrom(row, books, n, wanted, records)
    requires detected.Some? <==> wanted(books[n])
    requires detected.Some? ==> records(detected.value, books[n])
    ensures RowFrom(if detected.Some? then row[books[n].market.id := detected.value]
            else row, books, n + 1, wanted, records)
  {
  }

  ghost function IsArbitrage(config: ReplayConfig): Book -> bool {
    (book: Book) => ArbitrageOf(book, config.minimumMargin).Some?
  }

  ghost function RecordsBook(config: ReplayConfig, now: Instant): (Detection, Book) -> bool {
    (detection: Detection, book: Book) => Records(detection, book, config, now)
  }

  method DetectBooks(books: seq<Book>, config: ReplayConfig, now: Instant) returns (r: Result<Row, ReplayError>)
    ensures r.Ok? ==> RowFrom(r.value, books, |books|, IsArbitrage(config), RecordsBook(config, now))
    ensures r.Err? ==> exists b :: b in books && FailsWith(r.error, b, config, now)
  {
    hide FailsWith, Records, ArbitrageOf, RowFrom;
    var row: Row := map[];
    ghost var wanted, records := IsArbitrage(config), RecordsBook(config, now);
    NoRowYet(books, wanted, records);
    for i := 0 to |books|
      invariant RowFrom(row, books, i, wanted, records)
    {
      var detected := DetectBook(books[i], config, now);
      if detected.Err? {
        assert books[i] in books && FailsWith(detected.error, books[i], config, now);
        return Err(detected.error);
      }
      RowGrows(row, books, i, wanted, records, detected.value);
      if detected.value.Some? {
        row := row[books[i].market.id := detected.value.value];
      }
    }
    return Ok(row);
  }

  lemma NoRowYet(books: seq<Book>, wanted: Book -> bool, records: (Detection, Book) -> bool)
    ensures RowFrom(map[], books, 0, wanted, records)
  {
  }

  /** When each market has at most one book, the row records exactly the wanted books. */
  lemma RowOfBooks(row: Row, books: seq<Book>, scope: seq<Id>,
                   bookOf: Id -> Option<Book>, wanted: Book -> bool, records: (Detection, Book) -> bool)
    requires forall b :: b in books <==> exists i :: 0 <= i < |scope| && bookOf(scope[i]) == Some(b)
    requires forall i :: 0 <= i < |scope| && bookOf(scope[i]).Some? ==> bookOf(scope[i]).value.market.id == scope[i]
    requires RowFrom(row, books, |books|, wanted, records)
    ensures forall m :: m in row ==> m in scope && bookOf(m).Some? && wanted(bookOf(m).value)
                                     && records(row[m], bookOf(m).value)
    ensures forall i :: 0 <= i < |scope| && bookOf(scope[i]).Some? && wanted(bookOf(scope[i]).value) ==> scope[i] in row
  {
    forall m | m in row
      ensures m in scope && bookOf(m).Some? && wanted(bookOf(m).value) && records(row[m], bookOf(m).value)
    {
      var j :| 0 <= j < |books| && books[j].market.id == m && wanted(books[j]) && records(row[m], books[j]);
      assert books[j] in books;
      var i :| 0 <= i < |scope| && bookOf(scope[i]) == Some(books[j]);
      assert scope[i] == m;
    }
    forall i | 0 <= i < |scope| && bookOf(scope[i]).Some? && wanted(bookOf(scope[i]).value)
      ensures scope[i] in row
    {
      var book := bookOf(scope[i]).value;
      assert book in books;
      var j :| 0 <= j < |books| && books[j] == book;
    }
  }

  /** The book emitted for a market, if any. */
  ghost function BookIn(context: Context, quotes: seq<OddsQuote>): Id -> Option<Book> {
    (market: Id) =>
      if Listed(market, context.registry.marketsById, context.registry.eventsById)
        && BookOf(context, quotes, market).Ok?
      then Some(BookOf(context, quotes, market).value) else None
  }

  lemma EmittedIsBookIn(context: Context, quotes: seq<OddsQuote>, market: Id, book: Book)
    ensures EmittedFor(context, quotes, market, book) <==> BookIn(context, quotes)(market) == Some(book)
  {
  }

  lemma BookNamesMarket(context: Context, quotes: seq<OddsQuote>, market: Id)
    requires Listed(market, context.registry.marketsById, context.registry.eventsById)
    ensures BookOf(context, quotes, market).Ok? ==>
              BookOf(context, quotes, market).value.market == context.registry.marketsById[market]
  {
    hide EligibleQuotes;
  }

  lemma RowIsComplete(row: Row, books: seq<Book>, context: Context, quotes: seq<OddsQuote>, config: ReplayConfig)
    requires Resolves(context.registry, context.scope)
    requires forall i :: 0 <= i < |context.scope| ==>
      context.registry.marketsById[context.scope[i]].id == context.scope[i]
    requires forall b :: b in books <==> exists i :: 0 <= i < |context.scope|
                                                     && BookIn(context, quotes)(context.scope[i]) == Some(b)
    requires RowFrom(row, books, |books|, IsArbitrage(config), RecordsBook(config, context.now))
    ensures DetectsAt(row, context, quotes, config)
  {
    hide Records, ArbitrageOf, BookFor, EligibleQuotes, RowFrom;
    var scope, bookOf := context.scope, BookIn(context, quotes);
    forall i | 0 <= i < |scope|
      ensures bookOf(scope[i]).Some? ==> bookOf(scope[i]).value.market.id == scope[i]
    {
      BookNamesMarket(context, quotes, scope[i]);
    }
    RowOfBooks(row, books, scope, bookOf, IsArbitrage(config), RecordsBook(config, context.now));
    forall i | 0 <= i < |scope|
      ensures scope[i] in row <==> ArbitrageIn(context, quotes, config.minimumMargin, scope[i])
      ensures scope[i] in row ==> Records(row[scope[i]], BookOf(context, quotes, scope[i]).value, config, context.now)
    {
    }
  }

  /** `error` ends the replay at one of the markets in scope. */
  ghost predicate FailsIn(error: ReplayError, context: Context, quotes: seq<OddsQuote>, config: ReplayConfig)
    requires Resolves(context.registry, context.scope)
  {
    exists i :: 0 <= i < |context.scope| && BookOf(context, quotes, context.scope[i]).Ok?
                && FailsWith(error, BookOf(context, quotes, context.scope[i]).value, config, context.now)
  }

  lemma FailsInScope(error: ReplayError, books: seq<Book>, context: Context, quotes: seq<OddsQuote>,
                     config: ReplayConfig)
    requires Resolves(context.registry, context.scope)
    requires forall b :: b in books <==> exists i :: 0 <= i < |context.scope|
                                                     && BookIn(context, quotes)(context.scope[i]) == Some(b)
    requires exists b :: b in books && FailsWith(error, b, config, context.now)
    ensures FailsIn(error, context, quotes, config)
  {
    hide FailsWith;
    var book :| book in books && FailsWith(error, book, config, context.now);
    var i :| 0 <= i < |context.scope| && BookIn(context, quotes)(context.scope[i]) == Some(book);
    assert BookOf(context, quotes, context.scope[i]) == Ok(book);
  }

  /** The batch of books holds each market's book, and no other. */
  lemma BooksAreEmitted(context: Context, quotes: seq<OddsQuote>)
    requires Resolves(context.registry, context.scope)
    ensures forall b :: b in BooksFor(context, quotes, context.scope).books <==>
              exists i :: 0 <= i < |context.scope| && BookIn(context, quotes)(context.scope[i]) == Some(b)
  {
    hide EmittedFor, BookIn, BooksFor;
    EmittedBooks(context, quotes, context.scope);
    forall i, b | 0 <= i < |context.scope|
      ensures EmittedFor(context, quotes, context.scope[i], b) <==> BookIn(context, quotes)(context.scope[i]) == Some(b)
    {
      EmittedIsBookIn(context, quotes, context.scope[i], b);
    }
  }

  /** The row of the emitted books is complete, and a failure among them is a failure in scope. */
  lemma Concluded(r: Result<Row, ReplayError>, books: seq<Book>, context: Context, quotes: seq<OddsQuote>,
                  config: ReplayConfig)
    requires Indexed(context.registry) && Resolves(context.registry, context.scope)
    requires books == SortBy(BooksFor(context, quotes, context.scope).books, ByEventAndMarket)
    requires r.Ok? ==> RowFrom(r.value, books, |books|, IsArbitrage(config), RecordsBook(config, context.now))
    requires r.Err? ==> exists b :: b in books && FailsWith(r.error, b, config, context.now)
    ensures r.Ok? ==> DetectsAt(r.value, context, quotes, config)
    ensures r.Err? ==> FailsIn(r.error, context, quotes, config)
  {
    hide DetectsAt, RowFrom, BookIn, BooksFor, FailsWith, FailsIn, SortBy, IsArbitrage, RecordsBook, KeyLess;
    BooksAreEmitted(context, quotes);
    SortByMembers(BooksFor(context, quotes, context.scope).books, ByEventAndMarket);
    if r.Ok? {
      ScopeIds(context.registry, context.scope);
      RowIsComplete(r.value, books, context, quotes, config);
    } else {
      FailsInScope(r.error, books, context, quotes, config);
    }
  }

  lemma ScopeIds(registry: Registry, scope: seq<Id>)
    requires Indexed(registry) && Resolves(registry, scope)
    ensures forall i :: 0 <= i < |scope| ==> registry.marketsById[scope[i]].id == scope[i]
  {
  }

  /** Builds the books of the scope and records every arbitrage among them. */
  method DetectAt(quotes: seq<OddsQuote>, registry: Registry, config: ReplayConfig, scope: seq<Id>, now: Instant)
    returns (r: Result<Row, ReplayError>)
    requires Indexed(registry) && BookFault(registry, config.window, Some(scope)).None?
    ensures Resolves(registry, ContextAt(registry, config, scope, now).scope)
    ensures r.Ok? ==> DetectsAt(r.value, ContextAt(registry, config, scope, now), quotes, config)
    ensures r.Err? ==> FailsIn(r.error, ContextAt(registry, config, scope, now), quotes, config)
  {
    hide DetectsAt, RowFrom, BooksFor, BookFault, FailsWith, FailsIn, SortBy, Indexed, IsArbitrage, RecordsBook;
    var built := BuildMarketBooks(quotes, registry, now, config.window, config.providers, Some(scope));
    r := DetectBooks(built.value.books, config, now);
    Concluded(r, built.value.books, ContextAt(registry, config, scope, now), quotes, config);
  }

  // ----- The replay loop

  /** The row of an instant: detection over the quotes a live store would offer then. */
  ghost predicate RowAt(row: Row, now: Instant, batches: seq<HistoricalBatch>, registry: Registry, config: ReplayConfig,
                        scope: seq<Id>)
  {
    && Resolves(registry, ContextAt(registry, config, scope, now).scope)
    && exists quotes :: LiveQuotesAt(quotes, FreshnessPolicy(config.window, config.tolerance), batches, now)
                        && DetectsAt(row, ContextAt(registry, config, scope, now), quotes, config)
  }

  /** At this instant detection over the live quotes ends with `error`. */
  ghost predicate FailsAt(error: ReplayError, now: Instant, batches: seq<HistoricalBatch>, registry: Registry,
                          config: ReplayConfig, scope: seq<Id>)
  {
    && Resolves(registry, ContextAt(registry, config, scope, now).scope)
    && exists quotes :: LiveQuotesAt(quotes, FreshnessPolicy(config.window, config.tolerance), batches, now)
                        && FailsIn(error, ContextAt(registry, config, scope, now), quotes, config)
  }

  /** Detection at an instant either has a row or fails, never both. */
  lemma NeverBoth(row: Row, error: ReplayError, now: Instant, batches: seq<HistoricalBatch>, registry: Registry,
                  config: ReplayConfig, scope: seq<Id>)
    requires RowAt(row, now, batches, registry, config, scope)
    ensures !FailsAt(error, now, batches, registry, config, scope)
  {
    hide LiveQuotesAt, Records, BookOf, FailsWith, Listed, ScopeOf, ArbitrageOf;
    var context := ContextAt(registry, config, scope, now);
    if FailsAt(error, now, batches, registry, config, scope) {
      var xs :| LiveQuotesAt(xs, LivePolicy(config), batches, now) && DetectsAt(row, context, xs, config);
      var ys :| LiveQuotesAt(ys, LivePolicy(config), batches, now) && FailsIn(error, context, ys, config);
      LiveQuotesUnique(LivePolicy(config), batches, now, xs, ys);
      var i :| 0 <= i < |context.scope| && BookOf(context, xs, context.scope[i]).Ok?
        && FailsWith(error, BookOf(context, xs, context.scope[i]).value, config, now);
      FailingIsArbitrage(error, BookOf(context, xs, context.scope[i]).value, config, now);
      RecordedDoesNotFail(row[context.scope[i]], BookOf(context, xs, context.scope[i]).value, config, now, error);
    }
  }

  lemma FailingIsArbitrage(error: ReplayError, book: Book, config: ReplayConfig, now: Instant)
    requires FailsWith(error, book, config, now)
    ensures ArbitrageOf(book, config.minimumMargin).Some?
  {
  }

  lemma RecordedDoesNotFail(detection: Detection, book: Book, config: ReplayConfig, now: Instant, error: ReplayError)
    requires Records(detection, book, config, now)
    ensures !FailsWith(error, book, config, now)
  {
  }

  /** Instants at which detection runs: each batch's instant plus the latency, once each. */
  function DetectionTimes(batches: seq<HistoricalBatch>, latency: Duration): seq<int> {
    SortBy(Dedupe(seq(|batches|, i requires 0 <= i < |batches| => batches[i].observed + latency)), ByValue)
  }

  lemma TimesFollowBatches(batches: seq<HistoricalBatch>, latency: Duration)
    requires ValidCorpus(batches)
    ensures DetectionTimes(batches, latency)
            == seq(|batches|, i requires 0 <= i < |batches| => batches[i].observed + latency)
  {
    var times: seq<int> := seq(|batches|, i requires 0 <= i < |batches| => batches[i].observed + latency);
    DedupeDistinct(times);
    forall i, j | 0 <= i < j < |times|
      ensures !KeyLess(ByValue(times[j]), ByValue(times[i]))
    {
      assert times[i] < times[j];
    }
    SortBySorted(times, ByValue);
  }

  lemma LastTime(batches: seq<HistoricalBatch>, latency: Duration)
    requires ValidCorpus(batches)
    ensures |DetectionTimes(batches, latency)| == |batches|
    ensures forall i :: 0 <= i < |batches| ==> DetectionTimes(batches, latency)[i] == batches[i].observed + latency
  {
    TimesFollowBatches(batches, latency);
  }

  lemma {:induction false} DedupeDistinct(times: seq<int>)
    requires forall i, j :: 0 <= i < j < |times| ==> times[i] < times[j]
    ensures Dedupe(times) == times
  {
    if |times| > 0 {
      DedupeDistinct(times[..|times| - 1]);
    }
  }

  /** One detection instant: apply what has arrived, then detect. */
  method Observe(store: MultiSourceLiveQuoteStore, batches: seq<HistoricalBatch>, next: nat, now: Instant,
                 registry: Registry, config: ReplayConfig, scope: seq<Id>)
    returns (next': nat, r: Result<Row, ReplayError>)
    requires ValidCorpus(batches) && Indexed(registry)
    requires BookFault(registry, config.window, Some(scope)).None?
    requires store.policy == Unbounded(LivePolicy(config))
    requires Reached(store.Feed(), store.policy, batches, next)
    requires next > 0 ==> batches[next - 1].observed <= now
    modifies store`transportStores, store`invalidated
    ensures Reached(store.Feed(), store.policy, batches, next')
    ensures next' > 0 ==> batches[next' - 1].observed <= now
    ensures next' < |batches| ==> batches[next'].observed > now
    ensures r.Ok? ==> RowAt(r.value, now, batches, registry, config, scope)
    ensures r.Err? ==> FailsAt(r.error, now, batches, registry, config, scope)
  {
    next' := AdvanceTo(store, batches, next, now);
    KnownSoFar(batches, now, next');
    var quotes := StrictQuotes(store, LivePolicy(config), batches, next', now);
    r := DetectAt(quotes, registry, config, scope, now);
  }

  datatype Report = Report(detections: seq<Detection>, intervals: seq<Interval>)

  function ByDetection(detection: Detection): Key {
    [detection.opportunity.detectedAt, detection.evaluation.event, detection.evaluation.market]
  }

  /** The whole history: every detection instant in order, each with its row. */
  ghost predicate Replays(h: History, n: nat, batches: seq<HistoricalBatch>, registry: Registry, config: ReplayConfig,
                          scope: seq<Id>)
  {
    && n <= |batches| && |h.times| == |h.rows| == n
    && (forall k :: 0 <= k < n ==> h.times[k] == batches[k].observed + config.latency)
    && (forall k :: 0 <= k < n ==> RowAt(h.rows[k], h.times[k], batches, registry, config, scope))
  }

  /** The replay ends with `error` at the instant after those of `h`. */
  ghost predicate EndsEarly(error: ReplayError, h: History, batches: seq<HistoricalBatch>, registry: Registry,
                            config: ReplayConfig, scope: seq<Id>)
  {
    var n := |h.rows|;
    && n < |batches| && Replays(h, n, batches, registry, config, scope)
    && batches[n].observed + config.latency < INSTANT_LIMIT
    && FailsAt(error, batches[n].observed + config.latency, batches, registry, config, scope)
  }

  lemma ReplaysStep(h: History, batches: seq<HistoricalBatch>, registry: Registry, config: ReplayConfig, scope: seq<Id>,
                    row: Row, now: Instant)
    requires Replays(h, |h.rows|, batches, registry, config, scope) && |h.rows| < |batches|
    requires now == batches[|h.rows|].observed + config.latency
    requires RowAt(row, now, batches, registry, config, scope)
    ensures Replays(Appended(h, row, now), |h.rows| + 1, batches, registry, config, scope)
  {
    hide RowAt;
    var n, next := |h.rows|, Appended(h, row, now);
    forall k | 0 <= k < n + 1
      ensures RowAt(next.rows[k], next.times[k], batches, registry, config, scope)
    {
      assert k < n ==> next.rows[k] == h.rows[k] && next.times[k] == h.times[k];
    }
  }

  /** Everything known after some instants, apart from the store. */
  ghost predicate Recorded(h: History, open: map<Id, OpenInterval>, closed: seq<Interval>, detections: seq<Detection>) {
    Tracks(open, closed, h) && ListsDetections(detections, h)
  }

  /** Books one row: intervals and detections. */
  method Record(open: map<Id, OpenInterval>, closed: seq<Interval>, detections: seq<Detection>, row: Row, now: Instant,
                ghost h: History)
    returns (open': map<Id, OpenInterval>, closed': seq<Interval>, detections': seq<Detection>)
    requires Recorded(h, open, closed, detections)
    requires |h.times| > 0 ==> h.times[|h.times| - 1] < now
    ensures Recorded(Appended(h, row, now), open', closed', detections')
  {
    open', closed' := Track(open, closed, row, now, h);
    detections' := AddDetections(detections, row, now, h);
  }

  /** What a finished replay reports about its history. */
  ghost predicate Reports(report: Report, h: History) {
    && h.Valid()
    && OnlyRuns(report.intervals, h) && EveryRun(report.intervals, h)
    && StrictlySortedBy(report.intervals, ByStart)
    && CountOf(report.intervals) == |report.detections|
    && ListsDetections(report.detections, h)
    && SortedBy(report.detections, ByDetection)
    && InReportOrder(report)
  }

  /** Intervals by start, event and market; detections by instant, event and market. */
  ghost predicate InReportOrder(report: Report) {
    && (forall i, j :: 0 <= i < j < |report.intervals| ==> var a, b := report.intervals[i], report.intervals[j];
          KeyLess([a.start, a.event, a.market], [b.start, b.event, b.market]))
    && forall i, j :: 0 <= i < j < |report.detections| ==> var a, b := report.detections[i], report.detections[j];
         !KeyLess([b.opportunity.detectedAt, b.evaluation.event, b.evaluation.market],
                  [a.opportunity.detectedAt, a.evaluation.event, a.evaluation.market])
  }

  method Summarise(open: map<Id, OpenInterval>, closed: seq<Interval>, detections: seq<Detection>, ghost h: History,
                   final: Instant)
    returns (report: Report)
    requires Recorded(h, open, closed, detections) && |h.rows| > 0 && final == h.times[|h.times| - 1]
    ensures Reports(report, h)
  {
    hide KeyLess;
    var intervals := Finish(open, closed, h, final);
    SortByMembers(detections, ByDetection);
    SortBySorts(detections, ByDetection);
    report := Report(SortBy(detections, ByDetection), intervals);
  }

  /**
    A replay that succeeds reports exactly the maximal runs of a history whose every row is
    the detection over what a live store would have offered at that instant. Apart from an
    instant out of range, it fails only at the first instant whose detection meets an
    arbitrage for which the policy's stake constraints cannot be used.
   */
  method RunBacktest(batches: seq<HistoricalBatch>, registry: Registry, config: ReplayConfig, scope: seq<Id>)
    returns (r: Result<Report, ReplayError>, ghost h: History)
    requires ValidCorpus(batches) && Indexed(registry)
    ensures r.Ok? ==> Replays(h, |batches|, batches, registry, config, scope) && Reports(r.value, h)
    ensures BookFault(registry, config.window, Some(scope)).Some? ==>
              r == Err(BookFailed(BookFault(registry, config.window, Some(scope)).value))
    ensures r.Err? && BookFault(registry, config.window, Some(scope)).None? ==>
              || (r.error == InstantOverflow && batches[|batches| - 1].observed + config.latency >= INSTANT_LIMIT)
              || EndsEarly(r.error, h, batches, registry, config, scope)
  {
    hide Indexed, BookFault, Replays, Reports, DetectionTimes, EndsEarly;
    h := History([], []);
    var fault := BookFault(registry, config.window, Some(scope));
    if fault.Some? {
      return Err(BookFailed(fault.value)), h;
    }
    var times := DetectionTimes(batches, config.latency);
    LastTime(batches, config.latency);
    if times[|times| - 1] >= INSTANT_LIMIT {
      return Err(InstantOverflow), h;
    }
    r, h := ReplayAll(batches, times, registry, config, scope);
  }

  /** What the loop has gathered so far. */
  datatype Progress = Progress(next: nat, open: map<Id, OpenInterval>, closed: seq<Interval>,
                               detections: seq<Detection>)

  /** The history and the gathered state agree after `n` instants. */
  ghost predicate InStep(p: Progress, h: History, n: nat, batches: seq<HistoricalBatch>, registry: Registry,
                         config: ReplayConfig, scope: seq<Id>)
  {
    && Replays(h, n, batches, registry, config, scope)
    && Recorded(h, p.open, p.closed, p.detections)
    && p.next <= |batches|
    && (p.next > 0 ==> n > 0 && batches[p.next - 1].observed <= batches[n - 1].observed + config.latency)
  }

  method ReplayInstant(store: MultiSourceLiveQuoteStore, p: Progress, batches: seq<HistoricalBatch>, now: Instant,
                       registry: Registry, config: ReplayConfig, scope: seq<Id>, ghost h: History)
    returns (r: Result<Progress, ReplayError>, ghost h': History)
    requires ValidCorpus(batches) && Indexed(registry)
    requires BookFault(registry, config.window, Some(scope)).None?
    requires store.policy == Unbounded(LivePolicy(config))
    requires Reached(store.Feed(), store.policy, batches, p.next)
    requires |h.rows| < |batches| && now == batches[|h.rows|].observed + config.latency
    requires InStep(p, h, |h.rows|, batches, registry, config, scope)
    modifies store`transportStores, store`invalidated
    ensures r.Ok? ==> Reached(store.Feed(), store.policy, batches, r.value.next)
    ensures r.Ok? ==> |h'.rows| == |h.rows| + 1 && InStep(r.value, h', |h.rows| + 1, batches, registry, config, scope)
    ensures r.Err? ==> h' == h && FailsAt(r.error, now, batches, registry, config, scope)
  {
    hide Recorded, Reached, RowAt, FailsAt, Indexed, BookFault, Reports, Unbounded;
    ghost var n := |h.rows|;
    assert n > 0 ==> batches[n - 1].observed < batches[n].observed;
    var next, row := Observe(store, batches, p.next, now, registry, config, scope);
    h' := h;
    if row.Err? {
      return Err(row.error), h';
    }
    var open, closed, detections := Record(p.open, p.closed, p.detections, row.value, now, h);
    ReplaysStep(h, batches, registry, config, scope, row.value, now);
    h' := Appended(h, row.value, now);
    return Ok(Progress(next, open, closed, detections)), h';
  }

  lemma NothingYet(batches: seq<HistoricalBatch>, registry: Registry, config: ReplayConfig, scope: seq<Id>)
    requires |batches| > 0
    ensures InStep(Progress(0, map[], [], []), History([], []), 0, batches, registry, config, scope)
    ensures Reached(EMPTY_FEED, Unbounded(LivePolicy(config)), batches, 0)
  {
  }

  method ReplayAll(batches: seq<HistoricalBatch>, times: seq<int>, registry: Registry, config: ReplayConfig,
                   scope: seq<Id>)
    returns (r: Result<Report, ReplayError>, ghost h: History)
    requires ValidCorpus(batches) && Indexed(registry)
    requires BookFault(registry, config.window, Some(scope)).None?
    requires |times| == |batches| && times[|times| - 1] < INSTANT_LIMIT
    requires forall i :: 0 <= i < |times| ==> times[i] == batches[i].observed + config.latency
    ensures r.Ok? ==> Replays(h, |batches|, batches, registry, config, scope) && Reports(r.value, h)
    ensures r.Err? ==> EndsEarly(r.error, h, batches, registry, config, scope)
  {
    hide Recorded, Reached, RowAt, FailsAt, Indexed, BookFault, Reports, Unbounded;
    h := History([], []);
    var store := new MultiSourceLiveQuoteStore(Unbounded(LivePolicy(config)));
    var p := Progress(0, map[], [], []);
    NothingYet(batches, registry, config, scope);
    for k := 0 to |times|
      invariant |h.rows| == k && InStep(p, h, k, batches, registry, config, scope)
      invariant fresh(store) && store.policy == Unbounded(LivePolicy(config))
      invariant Reached(store.Feed(), store.policy, batches, p.next)
    {
      var step;
      step, h := ReplayInstant(store, p, batches, times[k], registry, config, scope, h);
      if step.Err? {
        return Err(step.error), h;
      }
      p := step.value;
    }
    var report := Summarise(p.open, p.closed, p.detections, h, times[|times| - 1]);
    return Ok(report), h;
  }

  /** At the last detection instant every batch of the corpus has been applied, once and in order. */
  lemma AllBatchesKnown(batches: seq<HistoricalBatch>, config: ReplayConfig, now: Instant)
    requires ValidCorpus(batches) && now == batches[|batches| - 1].observed + config.latency
    ensures Known(batches, now) == batches
  {
    KnownSoFar(batches, now, |batches|);
  }

  /**
    Without a margin threshold, a market is detected at an instant exactly when it has a
    book and some stakes over its eligible live quotes win whichever selection wins.
   */
  lemma DetectedIffWinnable(registry: Registry, config: ReplayConfig, context: Context, quotes: seq<OddsQuote>,
                            row: Row, i: nat)
    requires Indexed(registry) && context.registry == registry && config.minimumMargin == 0.0
    requires Resolves(registry, context.scope) && DetectsAt(row, context, quotes, config) && i < |context.scope|
    ensures var market := context.scope[i]; var book := BookOf(context, quotes, market);
      market in row <==>
      book.Ok? && exists stakes :: AlwaysWins(EligibleQuotes(context, quotes, market), book.value.expected, stakes)
  {
    var market := context.scope[i];
    var found := registry.marketsById[market];
    if BookOf(context, quotes, market).Ok? {
      DetectionComplete(context, quotes, found);
    }
  }
}
