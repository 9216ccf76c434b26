/** What a batch of books holds, by the fields of the quotes and of the registry. */
module BookLaws {
  import opened Wrappers
  import opened Ordering
  import opened Collections
  import opened Domain
  import LiveQuotes
  import opened Catalog
  import opened MarketBook
  import opened MarketBookLaws
  import opened BatchLaws

  // ----- Which quotes compete

  /** Two of the quotes carry this id. */
  ghost predicate Repeats(id: Id, quotes: seq<OddsQuote>) {
    exists i, j :: 0 <= i < j < |quotes| && quotes[i].id == id && quotes[j].id == id
  }

  /** The position of an objection among those the program looks for; the scope comes at position 6. */
  function ObjectionRank(code: BookCode): int {
    match code
    case DuplicateQuoteId => 0
    case UnknownEvent => 1
    case UnknownMarket => 2
    case UnknownSelection => 3
    case QuoteEventMismatch => 4
    case QuoteSelectionMismatch => 5
    case ProviderFiltered => 7
    case InactiveQuote => 8
    case FutureIngest => 9
    case FutureQuote => 10
    case StaleQuote => 11
    case _ => 12
  }

  /** What speaks against a quote. */
  ghost predicate Objects(code: BookCode, quote: OddsQuote, context: Context, quotes: seq<OddsQuote>) {
    var r := context.registry;
    match code
    case DuplicateQuoteId => Repeats(quote.id, quotes)
    case UnknownEvent => quote.event !in r.eventsById
    case UnknownMarket => quote.market !in r.marketsById
    case UnknownSelection => quote.selection !in r.selectionsById
    case QuoteEventMismatch => quote.market in r.marketsById && r.marketsById[quote.market].event != quote.event
    case QuoteSelectionMismatch =>
      quote.selection in r.selectionsById && r.selectionsById[quote.selection].market != quote.market
    case ProviderFiltered =>
      || quote.provider in context.policy.excluded
      || (context.policy.included.Some? && quote.provider !in context.policy.included.value)
    case InactiveQuote => quote.status != Active
    case FutureIngest => quote.ingestedAt > context.now
    case FutureQuote => quote.Effective() > context.now
    case StaleQuote => quote.Effective() + context.window < context.now
    case _ => false
  }

  /** No objection before this position. */
  ghost predicate ClearBefore(position: int, quote: OddsQuote, context: Context, quotes: seq<OddsQuote>) {
    forall code :: ObjectionRank(code) < position ==> !Objects(code, quote, context, quotes)
  }

  /** The quote is in scope and nothing speaks against it. */
  ghost predicate Competes(quote: OddsQuote, context: Context, quotes: seq<OddsQuote>) {
    quote in quotes && quote.market in context.scope && ClearBefore(12, quote, context, quotes)
  }

  lemma RepeatsMeans(quotes: seq<OddsQuote>)
    ensures forall id :: id in RepeatedIds(quotes) <==> Repeats(id, quotes)
  {
    forall id
      ensures id in RepeatedIds(quotes) <==> Repeats(id, quotes)
    {
      if i, j :| 0 <= i < j < |quotes| && quotes[i].id == id && quotes[j].id == id {
        TwiceIsRepeated(quotes, i, j);
      }
      if id in RepeatedIds(quotes) {
        CountedTwice(Ids(quotes), id);
        var i, j :| 0 <= i < j < |Ids(quotes)| && Ids(quotes)[i] == id && Ids(quotes)[j] == id;
        assert quotes[i].id == id && quotes[j].id == id;
      }
    }
  }

  lemma {:induction false} CountedTwice(ids: seq<Id>, id: Id)
    requires multiset(ids)[id] > 1
    ensures exists i, j :: 0 <= i < j < |ids| && ids[i] == id && ids[j] == id
  {
    var n := |ids| - 1;
    assert ids == ids[..n] + [ids[n]];
    if ids[n] == id {
      assert id in multiset(ids[..n]);
      var i :| 0 <= i < n && ids[..n][i] == id;
      assert ids[i] == id && ids[n] == id;
    } else {
      CountedTwice(ids[..n], id);
      var i, j :| 0 <= i < j < n && ids[..n][i] == id && ids[..n][j] == id;
      assert ids[i] == id && ids[j] == id;
    }
  }

  /** The first objection decides; out of scope counts only once the quote's ids are in order. */
  lemma AdmissionMeans(context: Context, quotes: seq<OddsQuote>, quote: OddsQuote)
    ensures var admission := Admit(context, RepeatedIds(quotes), quote);
      && (admission == Eligible <==> quote.market in context.scope && ClearBefore(12, quote, context, quotes))
      && (admission == OutOfScope <==> quote.market !in context.scope && ClearBefore(6, quote, context, quotes))
      && forall code :: admission == Excluded(code) <==>
           && Objects(code, quote, context, quotes) && ClearBefore(ObjectionRank(code), quote, context, quotes)
           && (ObjectionRank(code) > 6 ==> quote.market in context.scope)
  {
    hide RepeatedIds, Repeats;
    RepeatsMeans(quotes);
    EveryRank();
  }

  lemma EveryRank()
    ensures ObjectionRank(DuplicateQuoteId) == 0 && ObjectionRank(UnknownEvent) == 1
    ensures ObjectionRank(UnknownMarket) == 2 && ObjectionRank(UnknownSelection) == 3
    ensures ObjectionRank(QuoteEventMismatch) == 4 && ObjectionRank(QuoteSelectionMismatch) == 5
    ensures ObjectionRank(ProviderFiltered) == 7 && ObjectionRank(InactiveQuote) == 8
    ensures ObjectionRank(FutureIngest) == 9 && ObjectionRank(FutureQuote) == 10 && ObjectionRank(StaleQuote) == 11
  {
  }

  lemma CompetesIff(context: Context, quotes: seq<OddsQuote>, market: Id)
    ensures forall q :: q in EligibleQuotes(context, quotes, market)
                        <==> Competes(q, context, quotes) && q.market == market
  {
    hide Admit, RepeatedIds, ClearBefore, EligibleQuotes;
    EligibleMembers(context, quotes, market);
    forall q
      ensures q in EligibleQuotes(context, quotes, market) <==> Competes(q, context, quotes) && q.market == market
    {
      AdmissionMeans(context, quotes, q);
    }
  }

  // ----- Which markets have a book

  /** The event is scheduled and starts later than now. */
  ghost predicate Prematch(context: Context, market: Market)
    requires market.event in context.registry.eventsById
  {
    var event := context.registry.eventsById[market.event];
    event.status == Scheduled && event.start > context.now
  }

  predicate IsSelectionOf(id: Id, market: Id, registry: Registry) {
    exists s :: s in registry.selections && s.id == id && s.market == market
  }

  ghost predicate TwoSelections(market: Id, registry: Registry) {
    exists a, b :: a != b && IsSelectionOf(a, market, registry) && IsSelectionOf(b, market, registry)
  }

  ghost predicate EverySelectionPriced(market: Id, context: Context, quotes: seq<OddsQuote>) {
    forall id :: IsSelectionOf(id, market, context.registry) ==> IsPriced(id, market, context, quotes)
  }

  ghost predicate IsPriced(selection: Id, market: Id, context: Context, quotes: seq<OddsQuote>) {
    exists q :: Competes(q, context, quotes) && q.market == market && q.selection == selection
  }

  /** What a market lacks, checked in this order; nothing if it has a book. */
  ghost predicate Lacks(code: BookCode, market: Market, context: Context, quotes: seq<OddsQuote>)
    requires market.event in context.registry.eventsById
  {
    match code
    case EventNotPrematch => !Prematch(context, market)
    case InsufficientOutcomes => Prematch(context, market) && !TwoSelections(market.id, context.registry)
    case IncompleteMarket =>
      && Prematch(context, market) && TwoSelections(market.id, context.registry)
      && !EverySelectionPriced(market.id, context, quotes)
    case _ => false
  }

  /** The market is open, has two selections, and every one of them has a competing quote. */
  ghost predicate BookIsDue(market: Market, context: Context, quotes: seq<OddsQuote>)
    requires market.event in context.registry.eventsById
  {
    && Prematch(context, market) && TwoSelections(market.id, context.registry)
    && EverySelectionPriced(market.id, context, quotes)
  }

  /** A higher price; at the same price one seen later; then by bookmaker and id. */
  predicate Beats(a: OddsQuote, b: OddsQuote) {
    || a.price > b.price
    || (a.price == b.price
        && (|| a.Effective() > b.Effective()
            || (a.Effective() == b.Effective()
                && (a.provider < b.provider || (a.provider == b.provider && a.id < b.id)))))
  }

  /** The selections in order, each with a competing quote that no other competing quote beats. */
  ghost predicate IsBookOf(book: Book, market: Market, context: Context, quotes: seq<OddsQuote>)
    requires market.event in context.registry.eventsById
  {
    && book.market == market && book.event == context.registry.eventsById[market.event]
    && Ascending(book.expected)
    && (forall id :: id in book.expected <==> IsSelectionOf(id, market.id, context.registry))
    && |book.outcomes| == |book.expected|
    && forall i :: 0 <= i < |book.outcomes| ==> IsBest(book.outcomes[i], book.expected[i], market.id, context, quotes)
  }

  ghost predicate IsBest(best: OddsQuote, selection: Id, market: Id, context: Context, quotes: seq<OddsQuote>) {
    && Competes(best, context, quotes) && best.market == market && best.selection == selection
    && forall q :: Competes(q, context, quotes) && q.market == market && q.selection == selection ==> !Beats(q, best)
  }

  lemma BeatsMeans(a: OddsQuote, b: OddsQuote)
    ensures Preferred(a, b) <==> Beats(a, b)
  {
    assert ByProviderAndId(a)[1..] == [a.id] && ByProviderAndId(b)[1..] == [b.id];
    KeyLessOfOne(a.id, b.id);
  }

  lemma SelectionMembers(registry: Registry, market: Id)
    ensures forall id :: id in SelectionsOf(registry.selections, market) <==> IsSelectionOf(id, market, registry)
  {
    var own, ids := Filter(registry.selections, InMarket(market)), SelectionsOf(registry.selections, market);
    FilterMembers(registry.selections, InMarket(market));
    forall id
      ensures id in ids <==> IsSelectionOf(id, market, registry)
    {
      if s :| s in registry.selections && s.id == id && s.market == market {
        var i :| 0 <= i < |own| && own[i] == s;
        assert ids[i] == id;
      }
      if i :| 0 <= i < |ids| && ids[i] == id {
        assert own[i] in own;
      }
    }
  }

  lemma SelectionsMean(registry: Registry, market: Id)
    requires Indexed(registry)
    ensures var ids := registry.SelectionIdsForMarket(market);
      && Ascending(ids)
      && forall id :: id in ids <==> IsSelectionOf(id, market, registry)
  {
    hide UniqueIds, FindsById, Groups, SortBy, SortedBy, Distinct, IsSelectionOf, Ascending, SelectionsOf;
    MarketSelections(registry, market);
    SelectionMembers(registry, market);
    SortByMembers(SelectionsOf(registry.selections, market), ByValue);
    AscendingIds(registry.SelectionIdsForMarket(market));
  }

  lemma AscendingIds(ids: seq<Id>)
    requires Distinct(ids) && SortedBy(ids, ByValue)
    ensures Ascending(ids)
  {
    forall i, j | 0 <= i < j < |ids|
      ensures ids[i] < ids[j]
    {
      KeyLessOfOne(ids[j], ids[i]);
    }
  }

  lemma TwoMean(ids: seq<Id>, market: Id, registry: Registry)
    requires Ascending(ids) && forall id :: id in ids <==> IsSelectionOf(id, market, registry)
    ensures |ids| >= 2 <==> TwoSelections(market, registry)
  {
    hide IsSelectionOf;
    if |ids| >= 2 {
      assert ids[0] in ids && ids[1] in ids;
    }
    if a, b :| a != b && IsSelectionOf(a, market, registry) && IsSelectionOf(b, market, registry) {
      assert a in ids && b in ids;
    }
  }

  lemma CompleteMeans(context: Context, quotes: seq<OddsQuote>, market: Id, ids: seq<Id>)
    requires forall id :: id in ids <==> IsSelectionOf(id, market, context.registry)
    ensures Complete(EligibleQuotes(context, quotes, market), ids) <==> EverySelectionPriced(market, context, quotes)
  {
    hide Competes, EligibleQuotes, IsSelectionOf;
    var eligible := EligibleQuotes(context, quotes, market);
    CompetesIff(context, quotes, market);
    forall id
      ensures |Candidates(eligible, id)| > 0 <==> IsPriced(id, market, context, quotes)
    {
      FilterMembers(eligible, OnSelection(id));
      assert |Candidates(eligible, id)| > 0 ==> Candidates(eligible, id)[0] in Candidates(eligible, id);
    }
    if EverySelectionPriced(market, context, quotes) {
      forall i | 0 <= i < |ids|
        ensures |Candidates(eligible, ids[i])| > 0
      {
        assert ids[i] in ids;
      }
    }
    if Complete(eligible, ids) {
      forall id | IsSelectionOf(id, market, context.registry)
        ensures IsPriced(id, market, context, quotes)
      {
        var i :| 0 <= i < |ids| && ids[i] == id;
      }
    }
  }

  lemma OutcomeMeans(context: Context, quotes: seq<OddsQuote>, market: Id, selection: Id)
    requires |Candidates(EligibleQuotes(context, quotes, market), selection)| > 0
    ensures var best := BestQuote(Candidates(EligibleQuotes(context, quotes, market), selection));
      IsBest(best, selection, market, context, quotes)
  {
    hide Competes, EligibleQuotes, Beats, Preferred;
    var eligible := EligibleQuotes(context, quotes, market);
    CompetesIff(context, quotes, market);
    FilterMembers(eligible, OnSelection(selection));
    var best := BestQuote(Candidates(eligible, selection));
    forall q | Competes(q, context, quotes) && q.market == market && q.selection == selection
      ensures !Beats(q, best)
    {
      BeatsMeans(q, best);
    }
  }

  /** A market has a book exactly when one is due, and otherwise is told what it lacks. */
  lemma BookForMeans(context: Context, quotes: seq<OddsQuote>, market: Market)
    requires Indexed(context.registry) && market.event in context.registry.eventsById
    ensures var made := BookFor(context, EligibleQuotes(context, quotes, market.id), market);
      && (made.Ok? <==> BookIsDue(market, context, quotes))
      && (made.Ok? ==> IsBookOf(made.value, market, context, quotes))
      && forall code :: made == Err(code) <==> Lacks(code, market, context, quotes)
  {
    hide IsSelectionOf, TwoSelections, EverySelectionPriced, EligibleQuotes, Complete, IsBest, Indexed, BestQuote,
      Candidates, Ascending;
    var ids, eligible := context.registry.SelectionIdsForMarket(market.id), EligibleQuotes(context, quotes, market.id);
    SelectionsMean(context.registry, market.id);
    TwoMean(ids, market.id, context.registry);
    CompleteMeans(context, quotes, market.id, ids);
    if Complete(eligible, ids) {
      OutcomesMean(context, quotes, market.id, ids);
    }
  }

  lemma OutcomesMean(context: Context, quotes: seq<OddsQuote>, market: Id, ids: seq<Id>)
    requires Complete(EligibleQuotes(context, quotes, market), ids)
    ensures var outcomes := Outcomes(EligibleQuotes(context, quotes, market), ids);
      forall i :: 0 <= i < |ids| ==> IsBest(outcomes[i], ids[i], market, context, quotes)
  {
    hide EligibleQuotes, IsBest;
    forall i | 0 <= i < |ids|
      ensures IsBest(Outcomes(EligibleQuotes(context, quotes, market), ids)[i], ids[i], market, context, quotes)
    {
      OutcomeMeans(context, quotes, market, ids[i]);
    }
  }

  // ----- The whole batch

  /** A note on a quote names the first objection to it; of quotes that share an id only the first is noted. */
  ghost predicate NotesQuote(note: BookNote, context: Context, quotes: seq<OddsQuote>, k: nat)
    requires k < |quotes|
  {
    var q := quotes[k];
    && note == QuoteNote(note.code, q.event, q.market, q.selection, q.provider, q.id)
    && Objects(note.code, q, context, quotes) && ClearBefore(ObjectionRank(note.code), q, context, quotes)
    && (ObjectionRank(note.code) > 6 ==> q.market in context.scope)
    && (note.code == DuplicateQuoteId ==> forall j :: 0 <= j < k ==> quotes[j].id != q.id)
  }

  lemma ReportedMeans(context: Context, quotes: seq<OddsQuote>, k: nat)
    requires k < |quotes|
    ensures forall note :: NotesQuote(note, context, quotes, k) <==>
              && Reported(context, RepeatedIds(quotes), quotes, k)
              && Rejected(note, context, RepeatedIds(quotes), quotes[k])
  {
    hide Admit, RepeatedIds, Objects, ClearBefore;
    AdmissionMeans(context, quotes, quotes[k]);
    assert quotes[k].id in Ids(quotes[..k]) <==> exists j :: 0 <= j < k && quotes[j].id == quotes[k].id by {
      if j :| 0 <= j < k && quotes[j].id == quotes[k].id {
        assert Ids(quotes[..k])[j] == quotes[k].id;
      }
    }
  }

  lemma QuoteNotesMean(context: Context, quotes: seq<OddsQuote>)
    ensures forall note :: note in QuoteNotes(context, RepeatedIds(quotes), quotes) <==>
              exists k :: 0 <= k < |quotes| && NotesQuote(note, context, quotes, k)
  {
    hide Admit, RepeatedIds, QuoteNotes, NotesQuote;
    var notes := QuoteNotes(context, RepeatedIds(quotes), quotes);
    var at := NotesExplained(context, RepeatedIds(quotes), quotes);
    forall k | 0 <= k < |quotes|
      ensures forall note :: NotesQuote(note, context, quotes, k) <==>
                && Reported(context, RepeatedIds(quotes), quotes, k)
                && Rejected(note, context, RepeatedIds(quotes), quotes[k])
    {
      ReportedMeans(context, quotes, k);
    }
    forall note
      ensures note in notes <==> exists k :: 0 <= k < |quotes| && NotesQuote(note, context, quotes, k)
    {
      if k :| 0 <= k < |quotes| && NotesQuote(note, context, quotes, k) {
        assert k in at;
        var i :| 0 <= i < |at| && at[i] == k;
        assert notes[i] == note;
      }
      if i :| 0 <= i < |notes| && notes[i] == note {
        assert NotesQuote(note, context, quotes, at[i]);
      }
    }
  }

  lemma {:induction false} MarketNotesMean(context: Context, quotes: seq<OddsQuote>, scope: seq<Id>)
    requires Indexed(context.registry) && Resolves(context.registry, scope)
    ensures forall note :: note in MarketNotes(context, quotes, scope) <==>
              exists i :: 0 <= i < |scope| && NotesMarket(note, scope[i], context, quotes)
  {
    hide BookFor, EligibleQuotes, Lacks, Indexed;
    if |scope| > 0 {
      var n := |scope| - 1;
      MarketNotesMean(context, quotes, scope[..n]);
      BookForMeans(context, quotes, context.registry.marketsById[scope[n]]);
      var before, after := MarketNotes(context, quotes, scope[..n]), MarketNotes(context, quotes, scope);
      forall note
        ensures note in after <==> note in before || NotesMarket(note, scope[n], context, quotes)
      {
      }
      forall note
        ensures note in after <==> exists i :: 0 <= i < |scope| && NotesMarket(note, scope[i], context, quotes)
      {
        if i :| 0 <= i < |scope| && NotesMarket(note, scope[i], context, quotes) {
          assert i < n ==> NotesMarket(note, scope[..n][i], context, quotes);
        }
      }
    }
  }

  /** A note on a market of the registry names what it lacks. */
  ghost predicate NotesMarket(note: BookNote, id: Id, context: Context, quotes: seq<OddsQuote>) {
    && Listed(id, context.registry.marketsById, context.registry.eventsById)
    && var market := context.registry.marketsById[id];
       note == MarketNote(note.code, market.event, market.id) && Lacks(note.code, market, context, quotes)
  }

  lemma BooksMean(context: Context, quotes: seq<OddsQuote>, scope: seq<Id>)
    requires Indexed(context.registry) && Resolves(context.registry, scope)
    ensures var books := BooksFor(context, quotes, scope).books;
      && (forall b :: b in books ==>
            exists i :: 0 <= i < |scope| && IsDueBook(b, scope[i], context, quotes))
      && (forall i :: 0 <= i < |scope| && BookIsDue(context.registry.marketsById[scope[i]], context, quotes) ==>
            exists b :: b in books && IsDueBook(b, scope[i], context, quotes))
  {
    hide BookFor, EligibleQuotes, BookIsDue, IsBookOf, Indexed, BooksFor, Lacks;
    EmittedBooks(context, quotes, scope);
    forall i | 0 <= i < |scope|
      ensures forall b :: EmittedFor(context, quotes, scope[i], b) ==> IsDueBook(b, scope[i], context, quotes)
      ensures BookIsDue(context.registry.marketsById[scope[i]], context, quotes) ==>
        exists b :: EmittedFor(context, quotes, scope[i], b)
    {
      var market := context.registry.marketsById[scope[i]];
      BookForMeans(context, quotes, market);
      var made := BookFor(context, EligibleQuotes(context, quotes, market.id), market);
      assert made.Ok? ==> EmittedFor(context, quotes, scope[i], made.value);
    }
  }

  /** The book of a market that is due one. */
  ghost predicate IsDueBook(book: Book, id: Id, context: Context, quotes: seq<OddsQuote>) {
    && Listed(id, context.registry.marketsById, context.registry.eventsById)
    && BookIsDue(context.registry.marketsById[id], context, quotes)
    && IsBookOf(book, context.registry.marketsById[id], context, quotes)
  }

  /** One book for exactly the scoped markets that are due one, strictly by event and market. */
  ghost predicate HoldsDueBooks(books: seq<Book>, context: Context, quotes: seq<OddsQuote>) {
    && (forall b :: b in books ==>
          exists i :: 0 <= i < |context.scope| && IsDueBook(b, context.scope[i], context, quotes))
    && (forall i :: 0 <= i < |context.scope| && IsDue(context.scope[i], context, quotes) ==>
          exists b :: b in books && IsDueBook(b, context.scope[i], context, quotes))
    && forall i, j :: 0 <= i < j < |books| ==>
         KeyLess([books[i].event.id, books[i].market.id], [books[j].event.id, books[j].market.id])
  }

  ghost predicate IsDue(id: Id, context: Context, quotes: seq<OddsQuote>) {
    && Listed(id, context.registry.marketsById, context.registry.eventsById)
    && BookIsDue(context.registry.marketsById[id], context, quotes)
  }

  /** A note for every other scoped market, on what it lacks, and for every quote with an objection, on the first. */
  ghost predicate HoldsNotes(notes: seq<BookNote>, context: Context, quotes: seq<OddsQuote>) {
    forall note :: note in notes <==>
      || (exists k :: 0 <= k < |quotes| && NotesQuote(note, context, quotes, k))
      || (exists i :: 0 <= i < |context.scope| && NotesMarket(note, context.scope[i], context, quotes))
  }

  lemma NextBook(context: Context, quotes: seq<OddsQuote>, scope: seq<Id>)
    requires Indexed(context.registry) && Resolves(context.registry, scope) && |scope| > 0
    ensures var before := BooksFor(context, quotes, scope[..|scope| - 1]).books;
      var books := BooksFor(context, quotes, scope).books;
      || books == before
      || (|books| == |before| + 1 && books[..|before|] == before && books[|before|].market.id == scope[|scope| - 1])
  {
    hide EligibleQuotes, QuoteNotes, RepeatedIds, Complete, Outcomes;
    var id := scope[|scope| - 1];
    assert context.registry.marketsById[id].id == id;
  }

  lemma {:induction false} OneBookEach(context: Context, quotes: seq<OddsQuote>, scope: seq<Id>)
    requires Indexed(context.registry) && Resolves(context.registry, scope) && Distinct(scope)
    ensures var books := BooksFor(context, quotes, scope).books;
      && DistinctKeys(books, ByEventAndMarket)
      && forall i :: 0 <= i < |books| ==> books[i].market.id in scope
  {
    hide BooksFor, Indexed;
    if |scope| == 0 {
      NoBooks(context, quotes);
    } else {
      var n := |scope| - 1;
      OneBookEach(context, quotes, scope[..n]);
      NextBook(context, quotes, scope);
      var before, books := BooksFor(context, quotes, scope[..n]).books, BooksFor(context, quotes, scope).books;
      forall i, j | 0 <= i < j < |books|
        ensures ByEventAndMarket(books[i]) != ByEventAndMarket(books[j])
      {
        assert books[i] == before[i];
        assert ByEventAndMarket(books[i])[1] == books[i].market.id;
        assert ByEventAndMarket(books[j])[1] == books[j].market.id;
      }
    }
  }

  lemma NoBooks(context: Context, quotes: seq<OddsQuote>)
    ensures BooksFor(context, quotes, []).books == []
  {
  }

  lemma SortedHolds(context: Context, quotes: seq<OddsQuote>)
    requires Indexed(context.registry) && Resolves(context.registry, context.scope) && Distinct(context.scope)
    ensures var batch := SortedBatch(BooksFor(context, quotes, context.scope));
      HoldsDueBooks(batch.books, context, quotes) && HoldsNotes(batch.notes, context, quotes)
  {
    hide Indexed, BooksFor, IsDueBook, NotesQuote, NotesMarket, BookIsDue, KeyLess, SortBy, QuoteNotes, MarketNotes,
      RepeatedIds;
    var unsorted := BooksFor(context, quotes, context.scope);
    BooksMean(context, quotes, context.scope);
    NotesSplit(context, quotes, context.scope);
    QuoteNotesMean(context, quotes);
    MarketNotesMean(context, quotes, context.scope);
    SortByMembers(unsorted.books, ByEventAndMarket);
    SortByMembers(unsorted.notes, ByNote);
    OneBookEach(context, quotes, context.scope);
    SortByStrict(unsorted.books, ByEventAndMarket);
  }

  /** What the builder returns for any registry, policy, window and scope it accepts. */
  lemma BatchMeans(registry: Registry, now: Instant, window: LiveQuotes.Duration, policy: ProviderPolicy,
                   markets: Option<seq<Id>>, quotes: seq<OddsQuote>)
    requires Indexed(registry) && BookFault(registry, window, markets).None?
    ensures var context := Context(registry, now, window, policy, ScopeOf(registry.markets, markets));
      && Resolves(registry, context.scope)
      && var batch := SortedBatch(BooksFor(context, quotes, context.scope));
         HoldsDueBooks(batch.books, context, quotes) && HoldsNotes(batch.notes, context, quotes)
  {
    hide Indexed, BookFault, ScopeOf, BooksFor, HoldsDueBooks, HoldsNotes;
    ScopeDistinct(registry, window, markets);
    SortedHolds(Context(registry, now, window, policy, ScopeOf(registry.markets, markets)), quotes);
  }

  /** The scope is what was asked for, or every market, in order; bad windows and scopes are refused. */
  lemma ScopeMeans(registry: Registry, window: int, markets: Option<seq<Id>>)
    ensures BookFault(registry, window, markets) == Some(WindowNotPositive) <==> window <= 0
    ensures BookFault(registry, window, markets) == Some(ScopeRepeats) <==>
              window > 0 && markets.Some?
              && exists i, j :: 0 <= i < j < |markets.value| && markets.value[i] == markets.value[j]
    ensures BookFault(registry, window, markets) == Some(ScopeUnknown) <==>
              && window > 0 && markets.Some?
              && (forall i, j :: 0 <= i < j < |markets.value| ==> markets.value[i] != markets.value[j])
              && exists i :: 0 <= i < |markets.value| && markets.value[i] !in registry.marketsById
    ensures forall id :: id in ScopeOf(registry.markets, markets) <==>
              (if markets.Some? then id in markets.value else exists m :: m in registry.markets && m.id == id)
  {
    if markets.Some? {
      assert forall id :: id in markets.value <==> exists i :: 0 <= i < |markets.value| && markets.value[i] == id;
    }
    var all := AllMarketIds(registry.markets);
    SortByMembers(if markets.None? then all else markets.value, ByValue);
    forall id
      ensures id in all <==> exists m :: m in registry.markets && m.id == id
    {
      if i :| 0 <= i < |all| && all[i] == id {
        assert registry.markets[i] in registry.markets;
      }
      if m :| m in registry.markets && m.id == id {
        var i :| 0 <= i < |registry.markets| && registry.markets[i] == m;
        assert all[i] == id;
      }
    }
  }
}
