/** Fail-closed construction of complete best-price books from canonical quotes. */
module MarketBook {
  import opened Wrappers
  import opened Ordering
  import opened Collections
  import opened Domain
  import opened LiveQuotes
  import opened Catalog

  datatype ProviderPolicy = ProviderPolicy(included: Option<seq<Id>>, excluded: seq<Id>) {
    predicate Allows(provider: Id) {
      provider !in excluded && (included.None? || provider in included.value)
    }
  }

  datatype BookCode =
    | DuplicateQuoteId | UnknownEvent | UnknownMarket | UnknownSelection | QuoteEventMismatch
    | QuoteSelectionMismatch | ProviderFiltered | InactiveQuote | FutureIngest | FutureQuote | StaleQuote
    | EventNotPrematch | InsufficientOutcomes | IncompleteMarket

  /** A rejected quote, or a market without a book. */
  datatype BookNote =
    | QuoteNote(code: BookCode, event: Id, market: Id, selection: Id, provider: Id, quote: Id)
    | MarketNote(code: BookCode, event: Id, market: Id)

  function NoteOn(code: BookCode, quote: OddsQuote): BookNote {
    QuoteNote(code, quote.event, quote.market, quote.selection, quote.provider, quote.id)
  }

  datatype Book = Book(event: Event, market: Market, expected: seq<Id>, outcomes: seq<OddsQuote>)

  /** Everything one construction is given besides the quotes. */
  datatype Context = Context(
    registry: Registry,
    now: Instant,
    window: Duration,
    policy: ProviderPolicy,
    scope: seq<Id>)

  // ----- Which quotes compete

  datatype Admission = Eligible | OutOfScope | Excluded(code: BookCode)

  /** The first check that speaks against a quote, in the order in which the program checks. */
  function Admit(context: Context, duplicates: set<Id>, quote: OddsQuote): Admission {
    var registry := context.registry;
    if quote.id in duplicates then Excluded(DuplicateQuoteId)
    else if quote.event !in registry.eventsById then Excluded(UnknownEvent)
    else if quote.market !in registry.marketsById then Excluded(UnknownMarket)
    else if quote.selection !in registry.selectionsById then Excluded(UnknownSelection)
    else if registry.marketsById[quote.market].event != quote.event then Excluded(QuoteEventMismatch)
    else if registry.selectionsById[quote.selection].market != quote.market then Excluded(QuoteSelectionMismatch)
    else if quote.market !in context.scope then OutOfScope
    else if !context.policy.Allows(quote.provider) then Excluded(ProviderFiltered)
    else if quote.status != Active then Excluded(InactiveQuote)
    else if quote.ingestedAt > context.now then Excluded(FutureIngest)
    else if context.now - quote.Effective() < 0 then Excluded(FutureQuote)
    else if context.now - quote.Effective() > context.window then Excluded(StaleQuote)
    else Eligible
  }

  function RepeatedIds(quotes: seq<OddsQuote>): set<Id> {
    set id | id in Ids(quotes) && multiset(Ids(quotes))[id] > 1
  }

  function IsEligible(context: Context, duplicates: set<Id>, market: Id): OddsQuote -> bool {
    (quote: OddsQuote) => quote.market == market && Admit(context, duplicates, quote) == Eligible
  }

  function OnSelection(selection: Id): OddsQuote -> bool {
    (quote: OddsQuote) => quote.selection == selection
  }

  /** All quotes that may compete in a market. */
  function EligibleQuotes(context: Context, quotes: seq<OddsQuote>, market: Id): seq<OddsQuote> {
    Filter(quotes, IsEligible(context, RepeatedIds(quotes), market))
  }

  function Candidates(eligible: seq<OddsQuote>, selection: Id): seq<OddsQuote> {
    Filter(eligible, OnSelection(selection))
  }

  /** The notes on rejected quotes; a repeated id is reported once. */
  function QuoteNotes(context: Context, duplicates: set<Id>, quotes: seq<OddsQuote>): seq<BookNote> {
    if |quotes| == 0 then []
    else
      var n := |quotes| - 1;
      var notes := QuoteNotes(context, duplicates, quotes[..n]);
      match Admit(context, duplicates, quotes[n])
      case Excluded(code) =>
        if code == DuplicateQuoteId && quotes[n].id in Ids(quotes[..n]) then notes
        else notes + [NoteOn(code, quotes[n])]
      case _ => notes
  }

  // ----- The best quote of a selection

  function ByProviderAndId(quote: OddsQuote): Key { [quote.provider, quote.id] }

  /** `a` is preferred to `b`: higher price, then fresher, then lexically smaller. */
  predicate Preferred(a: OddsQuote, b: OddsQuote) {
    || a.price > b.price
    || (a.price == b.price && a.Effective() > b.Effective())
    || (a.price == b.price && a.Effective() == b.Effective() && KeyLess(ByProviderAndId(a), ByProviderAndId(b)))
  }

  function BestPrice(candidates: seq<OddsQuote>): Odds
    requires |candidates| > 0
  {
    if |candidates| == 1 then candidates[0].price
    else
      var best := BestPrice(candidates[..|candidates| - 1]);
      if candidates[|candidates| - 1].price > best then candidates[|candidates| - 1].price else best
  }

  function Freshest(candidates: seq<OddsQuote>): Instant
    requires |candidates| > 0
  {
    if |candidates| == 1 then candidates[0].Effective()
    else
      var best := Freshest(candidates[..|candidates| - 1]);
      var last := candidates[|candidates| - 1].Effective();
      if last > best then last else best
  }

  function LeastByKey(candidates: seq<OddsQuote>): OddsQuote
    requires |candidates| > 0
  {
    if |candidates| == 1 then candidates[0]
    else
      var best := LeastByKey(candidates[..|candidates| - 1]);
      var last := candidates[|candidates| - 1];
      if KeyLess(ByProviderAndId(last), ByProviderAndId(best)) then last else best
  }

  function AtPrice(price: Odds): OddsQuote -> bool { (quote: OddsQuote) => quote.price == price }
  function AtInstant(instant: Instant): OddsQuote -> bool { (quote: OddsQuote) => quote.Effective() == instant }

  lemma {:induction false} BestPriceIsGreatest(candidates: seq<OddsQuote>)
    requires |candidates| > 0
    ensures forall c :: c in candidates ==> c.price <= BestPrice(candidates)
    ensures exists c :: c in candidates && c.price == BestPrice(candidates)
  {
    var n := |candidates| - 1;
    assert candidates == candidates[..n] + [candidates[n]];
    if n > 0 {
      BestPriceIsGreatest(candidates[..n]);
    }
    assert candidates[n] in candidates;
  }

  lemma {:induction false} FreshestIsGreatest(candidates: seq<OddsQuote>)
    requires |candidates| > 0
    ensures forall c :: c in candidates ==> c.Effective() <= Freshest(candidates)
    ensures exists c :: c in candidates && c.Effective() == Freshest(candidates)
  {
    var n := |candidates| - 1;
    assert candidates == candidates[..n] + [candidates[n]];
    if n > 0 {
      FreshestIsGreatest(candidates[..n]);
    }
    assert candidates[n] in candidates;
  }

  lemma {:induction false} LeastByKeyIsLeast(candidates: seq<OddsQuote>)
    requires |candidates| > 0
    ensures LeastByKey(candidates) in candidates
    ensures forall c :: c in candidates ==> !KeyLess(ByProviderAndId(c), ByProviderAndId(LeastByKey(candidates)))
  {
    var n := |candidates| - 1;
    assert candidates == candidates[..n] + [candidates[n]];
    KeyTrichotomy(ByProviderAndId(candidates[n]), ByProviderAndId(candidates[n]));
    if n > 0 {
      LeastByKeyIsLeast(candidates[..n]);
      var best, last := LeastByKey(candidates[..n]), candidates[n];
      KeyTrichotomy(ByProviderAndId(last), ByProviderAndId(best));
      forall c | c in candidates[..n]
        ensures !KeyLess(ByProviderAndId(c), ByProviderAndId(LeastByKey(candidates)))
      {
        assert !KeyLess(ByProviderAndId(c), ByProviderAndId(best));
        if KeyLess(ByProviderAndId(last), ByProviderAndId(best)) {
          KeyTransitive(ByProviderAndId(last), ByProviderAndId(best), ByProviderAndId(c));
        }
      }
    }
  }

  /** The selected quote is a candidate and no candidate is preferred to it. */
  function BestQuote(candidates: seq<OddsQuote>): (best: OddsQuote)
    requires |candidates| > 0
    ensures best in candidates
    ensures forall c :: c in candidates ==> !Preferred(c, best)
  {
    var price := BestPrice(candidates);
    BestPriceIsGreatest(candidates);
    FilterMembers(candidates, AtPrice(price));
    var ties := Filter(candidates, AtPrice(price));
    var freshest := Freshest(ties);
    FreshestIsGreatest(ties);
    FilterMembers(ties, AtInstant(freshest));
    var freshTies := Filter(ties, AtInstant(freshest));
    LeastByKeyIsLeast(freshTies);
    LeastByKey(freshTies)
  }

  // ----- Books

  function Outcomes(eligible: seq<OddsQuote>, expected: seq<Id>): (r: seq<OddsQuote>)
    requires forall i :: 0 <= i < |expected| ==> |Candidates(eligible, expected[i])| > 0
    ensures |r| == |expected|
  {
    seq(|expected|, i requires 0 <= i < |expected| => BestQuote(Candidates(eligible, expected[i])))
  }

  predicate Complete(eligible: seq<OddsQuote>, expected: seq<Id>) {
    forall i :: 0 <= i < |expected| ==> |Candidates(eligible, expected[i])| > 0
  }

  /** One market's book, or why there is none. */
  function BookFor(context: Context, eligible: seq<OddsQuote>, market: Market): Result<Book, BookCode>
    requires market.event in context.registry.eventsById
  {
    var event := context.registry.eventsById[market.event];
    var expected := context.registry.SelectionIdsForMarket(market.id);
    if event.status != Scheduled || event.start <= context.now then Err(EventNotPrematch)
    else if |expected| < 2 then Err(InsufficientOutcomes)
    else if !Complete(eligible, expected) then Err(IncompleteMarket)
    else Ok(Book(event, market, expected, Outcomes(eligible, expected)))
  }

  datatype BookBatch = BookBatch(books: seq<Book>, notes: seq<BookNote>)

  function AddMarket(batch: BookBatch, market: Market, made: Result<Book, BookCode>): BookBatch {
    match made
    case Ok(book) => batch.(books := batch.books + [book])
    case Err(code) => batch.(notes := batch.notes + [MarketNote(code, market.event, market.id)])
  }

  /** A market is found, and so is its event. */
  predicate Listed(id: Id, marketsById: map<Id, Market>, eventsById: map<Id, Event>) {
    id in marketsById && marketsById[id].event in eventsById
  }

  /** Every market of the scope is in the registry, and so is its event. */
  ghost predicate Resolves(registry: Registry, scope: seq<Id>) {
    forall i :: 0 <= i < |scope| ==> Listed(scope[i], registry.marketsById, registry.eventsById)
  }

  /** The batch after the markets in `scope`, before the final sorting. */
  function BooksFor(context: Context, quotes: seq<OddsQuote>, scope: seq<Id>): BookBatch
    requires Resolves(context.registry, scope)
  {
    if |scope| == 0 then BookBatch([], QuoteNotes(context, RepeatedIds(quotes), quotes))
    else
      var n := |scope| - 1;
      var market := context.registry.marketsById[scope[n]];
      AddMarket(BooksFor(context, quotes, scope[..n]), market,
                BookFor(context, EligibleQuotes(context, quotes, market.id), market))
  }

  function ByEventAndMarket(book: Book): Key { [book.event.id, book.market.id] }

  /** The place of a code's text in lexical order. */
  function Rank(code: BookCode): int {
    match code
    case DuplicateQuoteId => 0
    case EventNotPrematch => 1
    case FutureIngest => 2
    case FutureQuote => 3
    case InactiveQuote => 4
    case IncompleteMarket => 5
    case InsufficientOutcomes => 6
    case ProviderFiltered => 7
    case QuoteEventMismatch => 8
    case QuoteSelectionMismatch => 9
    case StaleQuote => 10
    case UnknownEvent => 11
    case UnknownMarket => 12
    case UnknownSelection => 13
  }

  /** What a note does not name sorts as an empty text, before any name. */
  function ByNote(note: BookNote): Key {
    match note
    case QuoteNote(code, event, market, selection, provider, quote) =>
      [event, market, Rank(code), selection, provider, quote]
    case MarketNote(code, event, market) => [event, market, Rank(code)]
  }

  datatype OutcomeKey = OutcomeKey(market: Id, selection: Id)

  /** The quotes of a market and selection among those visited so far. */
  ghost predicate GroupsEligible(index: map<OutcomeKey, seq<OddsQuote>>, context: Context, duplicates: set<Id>,
                                 visited: seq<OddsQuote>) {
    forall market, selection ::
      (if OutcomeKey(market, selection) in index then index[OutcomeKey(market, selection)] else [])
      == Candidates(Filter(visited, IsEligible(context, duplicates, market)), selection)
  }

  /** The loop over quotes: eligible quotes by outcome, and a note for each rejected one. */
  method ClassifyQuotes(context: Context, quotes: seq<OddsQuote>)
    returns (index: map<OutcomeKey, seq<OddsQuote>>, notes: seq<BookNote>)
    ensures GroupsEligible(index, context, RepeatedIds(quotes), quotes)
    ensures notes == QuoteNotes(context, RepeatedIds(quotes), quotes)
  {
    hide GroupsEligible, Admit, RepeatedIds, Push;
    var duplicates := RepeatedIds(quotes);
    var reported: set<Id> := {};
    index, notes := map[], [];
    NothingVisited(context, duplicates);
    for i := 0 to |quotes|
      invariant GroupsEligible(index, context, duplicates, quotes[..i])
      invariant notes == QuoteNotes(context, duplicates, quotes[..i])
      invariant forall id :: id in reported <==> id in duplicates && id in Ids(quotes[..i])
    {
      var quote := quotes[i];
      assert quotes[..i + 1][..i] == quotes[..i];
      assert Ids(quotes[..i + 1]) == Ids(quotes[..i]) + [quote.id];
      VisitQuote(index, context, duplicates, quotes[..i], quote);
      DuplicatesComeFirst(context, duplicates, quote);
      match Admit(context, duplicates, quote) {
        case Eligible =>
          index := Push(index, OutcomeKey(quote.market, quote.selection), quote);
        case OutOfScope =>
        case Excluded(code) =>
          if code == DuplicateQuoteId {
            if quote.id !in reported {
              notes := notes + [NoteOn(code, quote)];
              reported := reported + {quote.id};
            }
          } else {
            notes := notes + [NoteOn(code, quote)];
          }
      }
      assert quotes[..i + 1] == quotes[..i] + [quote];
    }
    assert quotes[..|quotes|] == quotes;
  }

  lemma NothingVisited(context: Context, duplicates: set<Id>)
    ensures GroupsEligible(map[], context, duplicates, [])
  {
  }

  lemma DuplicatesComeFirst(context: Context, duplicates: set<Id>, quote: OddsQuote)
    ensures Admit(context, duplicates, quote) == Excluded(DuplicateQuoteId) <==> quote.id in duplicates
  {
  }

  lemma VisitQuote(index: map<OutcomeKey, seq<OddsQuote>>, context: Context, duplicates: set<Id>,
                   visited: seq<OddsQuote>, quote: OddsQuote)
    requires GroupsEligible(index, context, duplicates, visited)
    ensures GroupsEligible(if Admit(context, duplicates, quote) == Eligible
                           then Push(index, OutcomeKey(quote.market, quote.selection), quote) else index,
                           context, duplicates, visited + [quote])
  {
    hide Admit, Candidates, Filter, IsEligible;
    forall market, selection
      ensures Candidates(Filter(visited + [quote], IsEligible(context, duplicates, market)), selection)
              == Candidates(Filter(visited, IsEligible(context, duplicates, market)), selection)
                 + if IsEligible(context, duplicates, market)(quote) && quote.selection == selection then [quote]
                   else []
    {
      OneMoreCandidate(context, duplicates, visited, quote, market, selection);
    }
    EligibleHere(context, duplicates, quote);
  }

  lemma EligibleHere(context: Context, duplicates: set<Id>, quote: OddsQuote)
    ensures forall market ::
      IsEligible(context, duplicates, market)(quote) <==>
      quote.market == market && Admit(context, duplicates, quote) == Eligible
  {
  }

  lemma OneMoreCandidate(context: Context, duplicates: set<Id>, visited: seq<OddsQuote>, quote: OddsQuote, market: Id,
                         selection: Id)
    ensures Candidates(Filter(visited + [quote], IsEligible(context, duplicates, market)), selection)
            == Candidates(Filter(visited, IsEligible(context, duplicates, market)), selection)
               + if IsEligible(context, duplicates, market)(quote) && quote.selection == selection then [quote] else []
  {
    hide Admit;
    var before := Filter(visited, IsEligible(context, duplicates, market));
    assert (visited + [quote])[..|visited|] == visited;
    assert (before + [quote])[..|before|] == before;
  }

  /** Whether every outcome has an eligible quote, and the best quote of each if so. */
  method ChooseOutcomes(index: map<OutcomeKey, seq<OddsQuote>>, market: Id, expected: seq<Id>,
                        ghost eligible: seq<OddsQuote>)
    returns (outcomes: Option<seq<OddsQuote>>)
    requires forall selection ::
               (if OutcomeKey(market, selection) in index then index[OutcomeKey(market, selection)] else [])
               == Candidates(eligible, selection)
    ensures outcomes.Some? <==> Complete(eligible, expected)
    ensures outcomes.Some? ==> outcomes.value == Outcomes(eligible, expected)
  {
    hide BestQuote, Filter;
    var chosen: seq<OddsQuote> := [];
    for i := 0 to |expected|
      invariant |chosen| == i
      invariant forall j :: 0 <= j < i ==>
        |Candidates(eligible, expected[j])| > 0 && chosen[j] == BestQuote(Candidates(eligible, expected[j]))
    {
      var key := OutcomeKey(market, expected[i]);
      assert Candidates(eligible, expected[i]) == if key in index then index[key] else [];
      if key !in index || |index[key]| == 0 {
        return None;
      }
      chosen := chosen + [BestQuote(index[key])];
    }
    return Some(chosen);
  }

  datatype BookError = WindowNotPositive | ScopeRepeats | ScopeUnknown

  function AllMarketIds(markets: seq<Market>): seq<Id> {
    seq(|markets|, i requires 0 <= i < |markets| => markets[i].id)
  }

  function ScopeOf(markets: seq<Market>, requested: Option<seq<Id>>): seq<Id> {
    SortBy(if requested.None? then AllMarketIds(markets) else requested.value, ByValue)
  }

  function BookFault(registry: Registry, window: int, markets: Option<seq<Id>>): Option<BookError> {
    if window <= 0 then Some(WindowNotPositive)
    else if markets.Some? && !Distinct(markets.value) then Some(ScopeRepeats)
    else if markets.Some? && exists id :: id in markets.value && id !in registry.marketsById then Some(ScopeUnknown)
    else None
  }

  function SortedBatch(batch: BookBatch): BookBatch {
    BookBatch(SortBy(batch.books, ByEventAndMarket), SortBy(batch.notes, ByNote))
  }

  method BuildMarketBooks(quotes: seq<OddsQuote>, registry: Registry, now: Instant, window: Duration,
                          policy: ProviderPolicy, markets: Option<seq<Id>>)
    returns (r: Result<BookBatch, BookError>)
    requires Indexed(registry)
    ensures BookFault(registry, window, markets).Some? ==> r == Err(BookFault(registry, window, markets).value)
    ensures BookFault(registry, window, markets).None? ==>
      var context := Context(registry, now, window, policy, ScopeOf(registry.markets, markets));
      Resolves(registry, context.scope) && r == Ok(SortedBatch(BooksFor(context, quotes, context.scope)))
  {
    var fault := BookFault(registry, window, markets);
    if fault.Some? {
      return Err(fault.value);
    }
    var scope := ScopeOf(registry.markets, markets);
    var context := Context(registry, now, window, policy, scope);
    ScopeKnown(registry.markets, registry.marketsById, registry.eventsById, markets);
    var batch := CollectBooks(context, quotes);
    return Ok(SortedBatch(batch));
  }

  /** Classifies the quotes once, then visits the markets of the scope. */
  method CollectBooks(context: Context, quotes: seq<OddsQuote>) returns (batch: BookBatch)
    requires Resolves(context.registry, context.scope)
    ensures batch == BooksFor(context, quotes, context.scope)
  {
    var scope := context.scope;
    var index, notes := ClassifyQuotes(context, quotes);
    batch := BookBatch([], notes);
    for k := 0 to |scope|
      invariant batch == BooksFor(context, quotes, scope[..k])
    {
      assert scope[..k + 1][..k] == scope[..k];
      var market := context.registry.marketsById[scope[k]];
      var made := MakeBook(context, quotes, index, market);
      batch := AddMarket(batch, market, made);
    }
    assert scope[..|scope|] == scope;
  }

  method MakeBook(context: Context, ghost quotes: seq<OddsQuote>, index: map<OutcomeKey, seq<OddsQuote>>,
                  market: Market)
    returns (made: Result<Book, BookCode>)
    requires market.event in context.registry.eventsById
    requires GroupsEligible(index, context, RepeatedIds(quotes), quotes)
    ensures made == BookFor(context, EligibleQuotes(context, quotes, market.id), market)
  {
    var event := context.registry.eventsById[market.event];
    if event.status != Scheduled || event.start <= context.now {
      return Err(EventNotPrematch);
    }
    var expected := context.registry.SelectionIdsForMarket(market.id);
    if |expected| < 2 {
      return Err(InsufficientOutcomes);
    }
    var outcomes := ChooseOutcomes(index, market.id, expected, EligibleQuotes(context, quotes, market.id));
    if outcomes.None? {
      return Err(IncompleteMarket);
    }
    return Ok(Book(event, market, expected, outcomes.value));
  }

  lemma ScopeKnown(markets: seq<Market>, marketsById: map<Id, Market>, eventsById: map<Id, Event>,
                   requested: Option<seq<Id>>)
    requires FindsById(marketsById, markets, MarketId)
    requires forall m :: m in markets ==> m.event in eventsById
    requires requested.Some? ==> forall id :: id in requested.value ==> id in marketsById
    ensures forall i :: 0 <= i < |ScopeOf(markets, requested)| ==>
              Listed(ScopeOf(markets, requested)[i], marketsById, eventsById)
  {
    MarketsResolve(markets, marketsById, eventsById);
    SortByMembers(if requested.None? then AllMarketIds(markets) else requested.value, ByValue);
    var scope := ScopeOf(markets, requested);
    forall i | 0 <= i < |scope|
      ensures Listed(scope[i], marketsById, eventsById)
    {
      assert scope[i] in scope;
    }
  }

  lemma MarketsResolve(markets: seq<Market>, marketsById: map<Id, Market>, eventsById: map<Id, Event>)
    requires FindsById(marketsById, markets, MarketId)
    requires forall m :: m in markets ==> m.event in eventsById
    ensures forall id :: id in marketsById ==> marketsById[id].event in eventsById
    ensures forall id :: id in AllMarketIds(markets) ==> id in marketsById
  {
    var all := AllMarketIds(markets);
    forall id | id in all
      ensures id in marketsById
    {
      var i :| 0 <= i < |markets| && all[i] == id;
      assert markets[i] in markets && MarketId(markets[i]) == id;
    }
  }
}
