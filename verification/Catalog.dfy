/** The canonical registry: immutable objects and the indexes built over them. */
module Catalog {
  import opened Wrappers
  import opened Ordering
  import opened Collections
  import opened Domain

  datatype EventStatus = Scheduled | Live | Postponed | Cancelled | Completed | StatusUnknown

  datatype ProviderReference = ProviderReference(provider: Id, externalEvent: Id)

  datatype Event = Event(
    id: Id,
    sport: Id,
    competition: Id,
    participants: seq<Id>,
    start: Instant,
    status: EventStatus,
    references: seq<ProviderReference>)

  datatype Market = Market(id: Id, event: Id)

  datatype Selection = Selection(id: Id, market: Id)

  /** What the participant hard filter looks events up by. */
  datatype MatchKey = MatchKey(sport: Id, competition: Id, participants: set<Id>)

  function MatchKeyOf(event: Event): MatchKey {
    MatchKey(event.sport, event.competition, Members(event.participants))
  }

  datatype Registry = Registry(
    events: seq<Event>,
    markets: seq<Market>,
    selections: seq<Selection>,
    eventsById: map<Id, Event>,
    marketsById: map<Id, Market>,
    selectionsById: map<Id, Selection>,
    selectionIdsByMarket: map<Id, seq<Id>>,
    eventsBySport: map<Id, seq<Event>>,
    eventsByCompetition: map<(Id, Id), seq<Event>>,
    eventsByMatchKey: map<MatchKey, seq<Event>>)
  {
    function SelectionIdsForMarket(market: Id): seq<Id> {
      if market in selectionIdsByMarket then selectionIdsByMarket[market] else []
    }

    function EventsForSport(sport: Id): seq<Event> {
      if sport in eventsBySport then eventsBySport[sport] else []
    }

    function EventsForCompetition(sport: Id, competition: Id): seq<Event> {
      if (sport, competition) in eventsByCompetition then eventsByCompetition[(sport, competition)] else []
    }

    function EventMatchCandidates(sport: Id, competition: Id, participants: seq<Id>): seq<Event> {
      var key := MatchKey(sport, competition, Members(participants));
      if key in eventsByMatchKey then eventsByMatchKey[key] else []
    }
  }

  datatype RegistryError = IdsNotUnique | UnknownEventOfMarket | UnknownMarketOfSelection

  function EventId(event: Event): Id { event.id }
  function MarketId(market: Market): Id { market.id }
  function SelectionId(selection: Selection): Id { selection.id }

  predicate UniqueIds<T(!new)>(items: seq<T>, id: T -> Id) {
    forall i, j :: 0 <= i < j < |items| ==> id(items[i]) != id(items[j])
  }

  /** Looking an id up finds exactly the item that carries it. */
  ghost predicate FindsById<T(!new)>(byId: map<Id, T>, items: seq<T>, id: T -> Id) {
    && (forall k :: k in byId ==> byId[k] in items && id(byId[k]) == k)
    && (forall item :: item in items ==> id(item) in byId && byId[id(item)] == item)
  }

  function InMarket(market: Id): Selection -> bool { (s: Selection) => s.market == market }

  function SelectionsOf(selections: seq<Selection>, market: Id): seq<Id> {
    var own := Filter(selections, InMarket(market));
    seq(|own|, i requires 0 <= i < |own| => own[i].id)
  }

  function SportOf(event: Event): Id { event.sport }
  function CompetitionOf(event: Event): (Id, Id) { (event.sport, event.competition) }

  /** A hard filter as a plain condition on an event. */
  function Sharing<K(==)>(keyOf: Event -> K, key: K): Event -> bool { (event: Event) => keyOf(event) == key }

  /** Looking a key up lists exactly the events that share it, in registry order. */
  ghost predicate Groups<K(!new)>(index: map<K, seq<Event>>, events: seq<Event>, keyOf: Event -> K) {
    forall key :: (if key in index then index[key] else []) == Filter(events, Sharing(keyOf, key))
  }

  /** Every lookup answers what a scan of the stored objects would. */
  ghost predicate Indexed(r: Registry) {
    && UniqueIds(r.events, EventId) && UniqueIds(r.markets, MarketId) && UniqueIds(r.selections, SelectionId)
    && FindsById(r.eventsById, r.events, EventId)
    && FindsById(r.marketsById, r.markets, MarketId)
    && FindsById(r.selectionsById, r.selections, SelectionId)
    && (forall m :: m in r.markets ==> m.event in r.eventsById)
    && (forall s :: s in r.selections ==> s.market in r.marketsById)
    && ListsSelections(r.selectionIdsByMarket, r.selections)
    && Groups(r.eventsBySport, r.events, SportOf)
    && Groups(r.eventsByCompetition, r.events, CompetitionOf)
    && Groups(r.eventsByMatchKey, r.events, MatchKeyOf)
  }

  ghost predicate ListsSelections(byMarket: map<Id, seq<Id>>, selections: seq<Selection>) {
    forall market :: (if market in byMarket then byMarket[market] else [])
      == SortBy(SelectionsOf(selections, market), ByValue)
  }

  /** Appending to the list of a key, as `setdefault` does. */
  function Push<K, V>(index: map<K, seq<V>>, key: K, value: V): map<K, seq<V>> {
    index[key := (if key in index then index[key] else []) + [value]]
  }

  method IndexById<T(!new)>(items: seq<T>, id: T -> Id) returns (byId: map<Id, T>)
    requires UniqueIds(items, id)
    ensures FindsById(byId, items, id)
  {
    byId := map[];
    for i := 0 to |items|
      invariant FindsById(byId, items[..i], id)
    {
      assert forall item :: item in items[..i] ==> id(item) != id(items[i]);
      assert items[..i + 1] == items[..i] + [items[i]];
      byId := byId[id(items[i]) := items[i]];
    }
    assert items[..|items|] == items;
  }

  method IndexSelections(selections: seq<Selection>) returns (byMarket: map<Id, seq<Id>>)
    ensures ListsSelections(byMarket, selections)
  {
    var unsorted: map<Id, seq<Id>> := map[];
    for i := 0 to |selections|
      invariant forall market :: (if market in unsorted then unsorted[market] else [])
                                 == SelectionsOf(selections[..i], market)
    {
      assert selections[..i + 1][..i] == selections[..i];
      unsorted := Push(unsorted, selections[i].market, selections[i].id);
    }
    assert selections[..|selections|] == selections;
    byMarket := map k | k in unsorted :: SortBy(unsorted[k], ByValue);
    forall market
      ensures (if market in byMarket then byMarket[market] else []) == SortBy(SelectionsOf(selections, market), ByValue)
    {
      assert SelectionsOf(selections, market) == if market in unsorted then unsorted[market] else [];
    }
  }

  method GroupEvents<K(==,!new)>(events: seq<Event>, keyOf: Event -> K) returns (index: map<K, seq<Event>>)
    ensures Groups(index, events, keyOf)
  {
    index := map[];
    for i := 0 to |events|
      invariant Groups(index, events[..i], keyOf)
    {
      assert events[..i + 1][..i] == events[..i];
      index := Push(index, keyOf(events[i]), events[i]);
    }
    assert events[..|events|] == events;
  }

  predicate AllIdsUnique(events: seq<Event>, markets: seq<Market>, selections: seq<Selection>) {
    UniqueIds(events, EventId) && UniqueIds(markets, MarketId) && UniqueIds(selections, SelectionId)
  }

  predicate MarketsPlaced(events: seq<Event>, markets: seq<Market>) {
    forall m :: m in markets ==> exists e :: e in events && e.id == m.event
  }

  predicate SelectionsPlaced(markets: seq<Market>, selections: seq<Selection>) {
    forall s :: s in selections ==> exists m :: m in markets && m.id == s.market
  }

  /** What is wrong with a catalog, by the ids and references of its rows. */
  ghost predicate Faulty(error: RegistryError, events: seq<Event>, markets: seq<Market>, selections: seq<Selection>) {
    match error
    case IdsNotUnique =>
      || (exists i, j :: 0 <= i < j < |events| && events[i].id == events[j].id)
      || (exists i, j :: 0 <= i < j < |markets| && markets[i].id == markets[j].id)
      || (exists i, j :: 0 <= i < j < |selections| && selections[i].id == selections[j].id)
    case UnknownEventOfMarket =>
      exists m :: m in markets && forall e :: e in events ==> e.id != m.event
    case UnknownMarketOfSelection =>
      exists s :: s in selections && forall m :: m in markets ==> m.id != s.market
  }

  /** The first fault of the catalog, if it has any. */
  ghost predicate IsFirstFault(error: Option<RegistryError>, events: seq<Event>, markets: seq<Market>,
                               selections: seq<Selection>)
  {
    && (error.Some? ==> Faulty(error.value, events, markets, selections))
    && (error != Some(IdsNotUnique) ==> !Faulty(IdsNotUnique, events, markets, selections))
    && (error.None? || error.value.UnknownMarketOfSelection? ==>
          !Faulty(UnknownEventOfMarket, events, markets, selections))
    && (error.None? ==> !Faulty(UnknownMarketOfSelection, events, markets, selections))
  }

  lemma PlacedIff(eventsById: map<Id, Event>, marketsById: map<Id, Market>, events: seq<Event>, markets: seq<Market>,
                  selections: seq<Selection>)
    requires FindsById(eventsById, events, EventId) && FindsById(marketsById, markets, MarketId)
    ensures MarketsPlaced(events, markets) <==> forall m :: m in markets ==> m.event in eventsById
    ensures SelectionsPlaced(markets, selections) <==> forall s :: s in selections ==> s.market in marketsById
  {
    assert forall e :: e in events ==> EventId(e) in eventsById;
    assert forall m :: m in markets ==> MarketId(m) in marketsById;
  }

  lemma FaultsMean(events: seq<Event>, markets: seq<Market>, selections: seq<Selection>)
    ensures IsFirstFault(if !AllIdsUnique(events, markets, selections) then Some(IdsNotUnique)
                         else if !MarketsPlaced(events, markets) then Some(UnknownEventOfMarket)
                         else if !SelectionsPlaced(markets, selections) then Some(UnknownMarketOfSelection)
                         else None, events, markets, selections)
  {
  }

  /** Fails exactly when an id repeats or a reference dangles; otherwise every index is exact. */
  method BuildRegistry(events: seq<Event>, markets: seq<Market>, selections: seq<Selection>)
    returns (r: Result<Registry, RegistryError>)
    ensures r.Ok? ==> Indexed(r.value)
                      && r.value.events == events && r.value.markets == markets && r.value.selections == selections
    ensures r.Err? ==> r.error == (if !AllIdsUnique(events, markets, selections) then IdsNotUnique
                                   else if !MarketsPlaced(events, markets) then UnknownEventOfMarket
                                   else UnknownMarketOfSelection)
    ensures r.Ok? <==> AllIdsUnique(events, markets, selections)
                       && MarketsPlaced(events, markets) && SelectionsPlaced(markets, selections)
    ensures IsFirstFault(if r.Ok? then None else Some(r.error), events, markets, selections)
  {
    hide IsFirstFault, UniqueIds, ListsSelections, Groups, FindsById, MarketsPlaced, SelectionsPlaced;
    FaultsMean(events, markets, selections);
    if !AllIdsUnique(events, markets, selections) {
      return Err(IdsNotUnique);
    }
    var eventsById := IndexById(events, EventId);
    var marketsById := IndexById(markets, MarketId);
    var selectionsById := IndexById(selections, SelectionId);
    PlacedIff(eventsById, marketsById, events, markets, selections);
    if m :| m in markets && m.event !in eventsById {
      return Err(UnknownEventOfMarket);
    }
    if s :| s in selections && s.market !in marketsById {
      return Err(UnknownMarketOfSelection);
    }
    var byMarket := IndexSelections(selections);
    var bySport := GroupEvents(events, SportOf);
    var byCompetition := GroupEvents(events, CompetitionOf);
    var byMatchKey := GroupEvents(events, MatchKeyOf);
    return Ok(Registry(events, markets, selections, eventsById, marketsById, selectionsById,
                       byMarket, bySport, byCompetition, byMatchKey));
  }
}
