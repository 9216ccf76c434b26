/** What the order of the quotes can change in a whole batch: its books, and its notes in their final order. */
module BatchLaws {
  import opened Wrappers
  import opened Ordering
  import opened Domain
  import opened LiveQuotes
  import opened Catalog
  import opened MarketBook
  import opened MarketBookLaws

  // ----- The notes on markets

  function MarketNotes(context: Context, quotes: seq<OddsQuote>, scope: seq<Id>): seq<BookNote>
    requires Resolves(context.registry, scope)
  {
    if |scope| == 0 then []
    else
      var n := |scope| - 1;
      var market := context.registry.marketsById[scope[n]];
      var notes := MarketNotes(context, quotes, scope[..n]);
      match BookFor(context, EligibleQuotes(context, quotes, market.id), market)
      case Ok(_) => notes
      case Err(code) => notes + [MarketNote(code, market.event, market.id)]
  }

  lemma {:induction false} NotesSplit(context: Context, quotes: seq<OddsQuote>, scope: seq<Id>)
    requires Resolves(context.registry, scope)
    ensures BooksFor(context, quotes, scope).notes
            == QuoteNotes(context, RepeatedIds(quotes), quotes) + MarketNotes(context, quotes, scope)
  {
    hide BookFor, EligibleQuotes, QuoteNotes, RepeatedIds;
    if |scope| > 0 {
      NotesSplit(context, quotes, scope[..|scope| - 1]);
    }
  }

  lemma {:induction false} MarketNotesPermute(context: Context, xs: seq<OddsQuote>, ys: seq<OddsQuote>, scope: seq<Id>)
    requires multiset(xs) == multiset(ys) && Resolves(context.registry, scope)
    ensures MarketNotes(context, xs, scope) == MarketNotes(context, ys, scope)
  {
    hide BookFor, EligibleQuotes;
    if |scope| > 0 {
      var n := |scope| - 1;
      MarketNotesPermute(context, xs, ys, scope[..n]);
      BookPermutes(context, xs, ys, context.registry.marketsById[scope[n]]);
    }
  }

  /** Notes on different markets of the scope. */
  predicate OnMarkets(notes: seq<BookNote>, scope: seq<Id>) {
    && (forall i :: 0 <= i < |notes| ==> notes[i].MarketNote? && notes[i].market in scope)
    && (forall i, j :: 0 <= i < j < |notes| ==> notes[i].market != notes[j].market)
  }

  lemma {:induction false} MarketNotesInScope(context: Context, quotes: seq<OddsQuote>, scope: seq<Id>)
    requires Resolves(context.registry, scope) && Distinct(scope)
    requires FindsById(context.registry.marketsById, context.registry.markets, MarketId)
    ensures OnMarkets(MarketNotes(context, quotes, scope), scope)
  {
    hide BookFor, EligibleQuotes;
    if |scope| > 0 {
      var n := |scope| - 1;
      MarketNotesInScope(context, quotes, scope[..n]);
      assert MarketId(context.registry.marketsById[scope[n]]) == scope[n];
      var before := MarketNotes(context, quotes, scope[..n]);
      assert scope == scope[..n] + [scope[n]] && scope[n] !in scope[..n];
    }
  }

  // ----- The notes on quotes

  /** The first quote with this id. */
  function First(quotes: seq<OddsQuote>, id: Id): (r: OddsQuote)
    requires id in Ids(quotes)
    ensures r.id == id
  {
    var n := |quotes| - 1;
    assert Ids(quotes) == Ids(quotes[..n]) + [quotes[n].id];
    if id in Ids(quotes[..n]) then First(quotes[..n], id) else quotes[n]
  }

  /** A note is about a rejected quote with its own id, or about the first quote with a repeated id. */
  ghost predicate Noted(note: BookNote, context: Context, duplicates: set<Id>, quotes: seq<OddsQuote>) {
    || (exists q :: q in quotes && q.id !in duplicates && Rejected(note, context, duplicates, q))
    || (exists id :: id in duplicates && id in Ids(quotes) && note == NoteOn(DuplicateQuoteId, First(quotes, id)))
  }

  predicate Rejected(note: BookNote, context: Context, duplicates: set<Id>, quote: OddsQuote) {
    var admission := Admit(context, duplicates, quote);
    admission.Excluded? && note == NoteOn(admission.code, quote)
  }

  lemma FirstStep(quotes: seq<OddsQuote>, last: OddsQuote)
    ensures forall id :: id in Ids(quotes + [last]) <==> id in Ids(quotes) || id == last.id
    ensures forall id :: id in Ids(quotes) ==> First(quotes + [last], id) == First(quotes, id)
    ensures last.id !in Ids(quotes) ==> First(quotes + [last], last.id) == last
  {
    var all := quotes + [last];
    assert all[..|quotes|] == quotes && Ids(all) == Ids(quotes) + [last.id];
  }

  /** Appending a quote adds what is noted about it. */
  lemma NotedStep(note: BookNote, context: Context, duplicates: set<Id>, quotes: seq<OddsQuote>, last: OddsQuote)
    ensures Noted(note, context, duplicates, quotes + [last]) <==>
      || Noted(note, context, duplicates, quotes)
      || (Rejected(note, context, duplicates, last) && (last.id in duplicates ==> last.id !in Ids(quotes)))
  {
    hide Ids, First, Rejected;
    FirstStep(quotes, last);
    RejectedAsDuplicate(note, context, duplicates, last);
    assert forall q :: q in quotes + [last] <==> q in quotes || q == last;
  }

  lemma RejectedAsDuplicate(note: BookNote, context: Context, duplicates: set<Id>, quote: OddsQuote)
    ensures quote.id in duplicates ==>
      (Rejected(note, context, duplicates, quote) <==> note == NoteOn(DuplicateQuoteId, quote))
  {
  }

  lemma NothingNoted(context: Context, duplicates: set<Id>)
    ensures QuoteNotes(context, duplicates, []) == []
    ensures forall note :: !Noted(note, context, duplicates, [])
  {
  }

  lemma ReportedAsRejected(context: Context, duplicates: set<Id>, quotes: seq<OddsQuote>, i: nat)
    requires i < |quotes|
    ensures forall note :: Reported(context, duplicates, quotes, i)
                           && note == NoteOn(Admit(context, duplicates, quotes[i]).code, quotes[i])
              <==> Rejected(note, context, duplicates, quotes[i])
                   && (quotes[i].id in duplicates ==> quotes[i].id !in Ids(quotes[..i]))
  {
    hide Admit, Ids;
    DuplicatesComeFirst(context, duplicates, quotes[i]);
  }

  lemma {:induction false} QuoteNotesMembers(context: Context, duplicates: set<Id>, quotes: seq<OddsQuote>)
    ensures forall note :: note in QuoteNotes(context, duplicates, quotes)
                           <==> Noted(note, context, duplicates, quotes)
  {
    hide Admit, Noted, Rejected, Ids;
    if |quotes| == 0 {
      NothingNoted(context, duplicates);
    } else {
      var n := |quotes| - 1;
      QuoteNotesMembers(context, duplicates, quotes[..n]);
      assert quotes == quotes[..n] + [quotes[n]];
      NotesStep(context, duplicates, quotes);
      ReportedAsRejected(context, duplicates, quotes, n);
      forall note
        ensures note in QuoteNotes(context, duplicates, quotes) <==> Noted(note, context, duplicates, quotes)
      {
        NotedStep(note, context, duplicates, quotes[..n], quotes[n]);
      }
    }
  }

  lemma TwiceIsRepeated(quotes: seq<OddsQuote>, a: nat, b: nat)
    requires a < b < |quotes| && quotes[a].id == quotes[b].id
    ensures quotes[b].id in RepeatedIds(quotes) && quotes[b].id in Ids(quotes[..b])
  {
    var ids := Ids(quotes);
    assert ids == ids[..a] + [ids[a]] + ids[a + 1..b] + [ids[b]] + ids[b + 1..];
    assert Ids(quotes[..b])[a] == ids[a] && ids[b] in ids;
  }

  /** No two notes on quotes share an id. */
  lemma QuoteNotesDistinct(context: Context, quotes: seq<OddsQuote>)
    ensures var notes := QuoteNotes(context, RepeatedIds(quotes), quotes);
      && (forall i :: 0 <= i < |notes| ==> notes[i].QuoteNote?)
      && (forall i, j :: 0 <= i < j < |notes| ==> notes[i].quote != notes[j].quote)
  {
    hide Admit, RepeatedIds, Ids, QuoteNotes;
    var duplicates := RepeatedIds(quotes);
    var at := NotesExplained(context, duplicates, quotes);
    var notes := QuoteNotes(context, duplicates, quotes);
    forall i, j | 0 <= i < j < |notes|
      ensures notes[i].quote != notes[j].quote
    {
      if quotes[at[i]].id == quotes[at[j]].id {
        TwiceIsRepeated(quotes, at[i], at[j]);
        DuplicatesComeFirst(context, duplicates, quotes[at[j]]);
      }
    }
  }

  /** The final order of the notes is strict: neither ties nor the details that break them can occur. */
  lemma NotesDistinct(context: Context, quotes: seq<OddsQuote>, scope: seq<Id>)
    requires Resolves(context.registry, scope) && Distinct(scope)
    requires FindsById(context.registry.marketsById, context.registry.markets, MarketId)
    ensures DistinctKeys(BooksFor(context, quotes, scope).notes, ByNote)
  {
    hide QuoteNotes, MarketNotes, BooksFor, RepeatedIds;
    NotesSplit(context, quotes, scope);
    QuoteNotesDistinct(context, quotes);
    MarketNotesInScope(context, quotes, scope);
    var notes := BooksFor(context, quotes, scope).notes;
    forall i, j | 0 <= i < j < |notes|
      ensures ByNote(notes[i]) != ByNote(notes[j])
    {
      KeysTell(notes[i], notes[j]);
    }
  }

  lemma KeysTell(a: BookNote, b: BookNote)
    ensures ByNote(a) == ByNote(b) ==>
      && a.QuoteNote? == b.QuoteNote? && a.market == b.market && (a.QuoteNote? ==> a.quote == b.quote)
  {
    hide Rank;
    if ByNote(a) == ByNote(b) {
      assert |ByNote(a)| == |ByNote(b)| && ByNote(a)[1] == ByNote(b)[1];
      assert a.QuoteNote? && b.QuoteNote? ==> ByNote(a)[5] == ByNote(b)[5];
    }
  }

  // ----- The whole batch

  ghost predicate SameNotes(a: seq<BookNote>, b: seq<BookNote>) { forall note :: note in a <==> note in b }

  /** Every repeated id is first seen on quotes with the same subject. */
  ghost predicate FirstsAgree(xs: seq<OddsQuote>, ys: seq<OddsQuote>)
    requires multiset(xs) == multiset(ys)
  {
    forall id :: id in RepeatedIds(xs) ==>
      id in Ids(xs) && id in Ids(ys)
      && NoteOn(DuplicateQuoteId, First(xs, id)) == NoteOn(DuplicateQuoteId, First(ys, id))
  }

  lemma RepeatedPermute(xs: seq<OddsQuote>, ys: seq<OddsQuote>)
    requires multiset(xs) == multiset(ys)
    ensures RepeatedIds(xs) == RepeatedIds(ys)
    ensures forall id :: id in RepeatedIds(xs) ==> id in Ids(xs) && id in Ids(ys)
    ensures forall q :: q in xs <==> q in ys
  {
    IdsPermute(xs, ys);
    assert forall id :: id in Ids(xs) <==> id in multiset(Ids(xs));
    assert forall id :: id in Ids(ys) <==> id in multiset(Ids(ys));
    forall q
      ensures q in xs <==> q in ys
    {
      assert q in multiset(xs) <==> q in multiset(ys);
    }
  }

  lemma AgreeingFirstsNotedAlike(context: Context, duplicates: set<Id>, xs: seq<OddsQuote>, ys: seq<OddsQuote>)
    requires forall q :: q in xs ==> q in ys
    requires forall id :: id in duplicates ==> id in Ids(xs) && id in Ids(ys)
    requires forall id :: id in duplicates ==>
               NoteOn(DuplicateQuoteId, First(xs, id)) == NoteOn(DuplicateQuoteId, First(ys, id))
    ensures forall note :: Noted(note, context, duplicates, xs) ==> Noted(note, context, duplicates, ys)
  {
    hide Ids, First, Rejected;
    forall note | Noted(note, context, duplicates, xs)
      ensures Noted(note, context, duplicates, ys)
    {
      if q :| q in xs && q.id !in duplicates && Rejected(note, context, duplicates, q) {
        assert q in ys;
      } else {
        var id :| id in duplicates && id in Ids(xs) && note == NoteOn(DuplicateQuoteId, First(xs, id));
        assert note == NoteOn(DuplicateQuoteId, First(ys, id));
      }
    }
  }

  /** The note on a repeated id names its first quote. */
  lemma AgreeingNotesShareFirst(context: Context, duplicates: set<Id>, xs: seq<OddsQuote>, ys: seq<OddsQuote>, id: Id)
    requires id in duplicates && id in Ids(xs) && id in Ids(ys)
    requires forall note :: Noted(note, context, duplicates, xs) ==> Noted(note, context, duplicates, ys)
    ensures NoteOn(DuplicateQuoteId, First(xs, id)) == NoteOn(DuplicateQuoteId, First(ys, id))
  {
    hide Ids, First, Rejected;
    var note := NoteOn(DuplicateQuoteId, First(xs, id));
    assert Noted(note, context, duplicates, xs);
    RejectedNamesQuote(note, context, duplicates);
  }

  lemma QuoteNotesAgreeIff(context: Context, xs: seq<OddsQuote>, ys: seq<OddsQuote>)
    requires multiset(xs) == multiset(ys)
    ensures SameNotes(QuoteNotes(context, RepeatedIds(xs), xs), QuoteNotes(context, RepeatedIds(ys), ys))
            <==> FirstsAgree(xs, ys)
  {
    hide QuoteNotes, RepeatedIds, Ids, First, Noted, NoteOn;
    var duplicates := RepeatedIds(xs);
    RepeatedPermute(xs, ys);
    QuoteNotesMembers(context, duplicates, xs);
    QuoteNotesMembers(context, duplicates, ys);
    if FirstsAgree(xs, ys) {
      AgreeingFirstsNotedAlike(context, duplicates, xs, ys);
      AgreeingFirstsNotedAlike(context, duplicates, ys, xs);
    }
    if SameNotes(QuoteNotes(context, duplicates, xs), QuoteNotes(context, duplicates, ys)) {
      forall note | Noted(note, context, duplicates, xs)
        ensures Noted(note, context, duplicates, ys)
      {
        assert note in QuoteNotes(context, duplicates, xs);
      }
      forall id | id in duplicates
        ensures NoteOn(DuplicateQuoteId, First(xs, id)) == NoteOn(DuplicateQuoteId, First(ys, id))
      {
        AgreeingNotesShareFirst(context, duplicates, xs, ys, id);
      }
    }
  }

  lemma RejectedNamesQuote(note: BookNote, context: Context, duplicates: set<Id>)
    ensures forall q :: Rejected(note, context, duplicates, q) ==> note.QuoteNote? && note.quote == q.id
  {
    hide Admit;
  }

  lemma SortedPermuteIff(context: Context, xs: seq<OddsQuote>, ys: seq<OddsQuote>, scope: seq<Id>)
    requires multiset(xs) == multiset(ys) && Resolves(context.registry, scope) && Distinct(scope)
    requires FindsById(context.registry.marketsById, context.registry.markets, MarketId)
    ensures SortedBatch(BooksFor(context, xs, scope)) == SortedBatch(BooksFor(context, ys, scope))
            <==> FirstsAgree(xs, ys)
  {
    hide QuoteNotes, MarketNotes, BooksFor, RepeatedIds, FirstsAgree, ByNote, ByEventAndMarket;
    BooksPermute(context, xs, ys, scope);
    NotesSplit(context, xs, scope);
    NotesSplit(context, ys, scope);
    MarketNotesPermute(context, xs, ys, scope);
    NotesDistinct(context, xs, scope);
    NotesDistinct(context, ys, scope);
    SortedAlikeIff(BooksFor(context, xs, scope).notes, BooksFor(context, ys, scope).notes, ByNote);
    QuoteNotesDistinct(context, xs);
    QuoteNotesDistinct(context, ys);
    MarketNotesInScope(context, ys, scope);
    AppendedAlikeIff(QuoteNotes(context, RepeatedIds(xs), xs), QuoteNotes(context, RepeatedIds(ys), ys),
                     MarketNotes(context, ys, scope));
    QuoteNotesAgreeIff(context, xs, ys);
  }

  lemma AppendedAlikeIff(xs: seq<BookNote>, ys: seq<BookNote>, rest: seq<BookNote>)
    requires forall i :: 0 <= i < |xs| ==> xs[i].QuoteNote?
    requires forall i :: 0 <= i < |ys| ==> ys[i].QuoteNote?
    requires forall i :: 0 <= i < |rest| ==> rest[i].MarketNote?
    ensures SameNotes(xs + rest, ys + rest) <==> SameNotes(xs, ys)
  {
    assert forall note :: note in xs + rest <==> note in xs || note in rest;
    assert forall note :: note in ys + rest <==> note in ys || note in rest;
    assert forall note :: note in xs || note in ys ==> note !in rest;
  }

  lemma MarketIdsDistinct(markets: seq<Market>)
    requires UniqueIds(markets, MarketId)
    ensures Distinct(AllMarketIds(markets))
  {
    assert forall i :: 0 <= i < |markets| ==> MarketId(markets[i]) == AllMarketIds(markets)[i];
  }

  lemma ScopeDistinct(registry: Registry, window: int, markets: Option<seq<Id>>)
    requires Indexed(registry) && BookFault(registry, window, markets).None?
    ensures Resolves(registry, ScopeOf(registry.markets, markets)) && Distinct(ScopeOf(registry.markets, markets))
  {
    hide SortBy, ByValue, AllMarketIds, UniqueIds, FindsById, ListsSelections, Groups, Listed;
    ScopeKnown(registry.markets, registry.marketsById, registry.eventsById, markets);
    MarketIdsDistinct(registry.markets);
    SortedStaysDistinct(if markets.None? then AllMarketIds(registry.markets) else markets.value);
  }

  /**
    The whole batch ignores the order of the quotes exactly when every repeated id is first
    seen on quotes of the same event, market, selection and provider.
   */
  lemma BatchPermutesIff(registry: Registry, now: Instant, window: Duration, policy: ProviderPolicy,
                         markets: Option<seq<Id>>, xs: seq<OddsQuote>, ys: seq<OddsQuote>)
    requires Indexed(registry) && BookFault(registry, window, markets).None? && multiset(xs) == multiset(ys)
    ensures var context := Context(registry, now, window, policy, ScopeOf(registry.markets, markets));
      && Resolves(registry, context.scope)
      && (SortedBatch(BooksFor(context, xs, context.scope)) == SortedBatch(BooksFor(context, ys, context.scope))
          <==> FirstsAgree(xs, ys))
  {
    hide SortedBatch, BooksFor, BookFault, FirstsAgree, ScopeOf;
    ScopeDistinct(registry, window, markets);
    var scope := ScopeOf(registry.markets, markets);
    SortedPermuteIff(Context(registry, now, window, policy, scope), xs, ys, scope);
  }

  /** Two quotes of different providers that share an id show it: the note names whichever comes first. */
  lemma SharedIdShowsOrder(a: OddsQuote, b: OddsQuote)
    requires a.id == b.id && a.provider != b.provider
    ensures multiset([a, b]) == multiset([b, a]) && !FirstsAgree([a, b], [b, a])
  {
    hide RepeatedIds, Ids, First;
    TwiceIsRepeated([a, b], 0, 1);
    FirstOfTwo(a, b);
    FirstOfTwo(b, a);
  }

  lemma FirstOfTwo(a: OddsQuote, b: OddsQuote)
    requires a.id == b.id
    ensures a.id in Ids([a, b]) && First([a, b], a.id) == a
  {
    hide First;
    FirstStep([], a);
    FirstStep([a], b);
    assert [] + [a] == [a] && [a] + [b] == [a, b];
  }
}
