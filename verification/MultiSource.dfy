/**
  Live state over several transports: one versioned store per transport, a set of
  explicitly invalidated observations, and consolidation of what is fresh.
 */
module MultiSource {
  import opened Ordering
  import opened Collections
  import opened Domain
  import opened LiveQuotes
  import opened Consolidation

  /** Identity of one transport-specific observation stream. */
  datatype ObservationKey = ObservationKey(transport: Id, slot: QuoteKey)

  function ObservationOf(quote: OddsQuote): ObservationKey {
    ObservationKey(quote.transport, KeyOf(quote))
  }

  type Stores = map<Id, LiveState>

  datatype FeedState = FeedState(stores: Stores, invalidated: set<ObservationKey>)

  function StoreOf(stores: Stores, transport: Id): LiveState {
    if transport in stores then stores[transport] else map[]
  }

  /** Every version sits in its own transport's store under its own key. */
  ghost predicate WellPlaced(stores: Stores) {
    forall t :: t in stores ==>
      Consistent(stores[t]) && forall key :: key in stores[t] ==> stores[t][key].quote.transport == t
  }

  function ByVersion(version: QuoteVersion): Key { ByFeedOrder(version.quote) }

  function ByFeedOrder(quote: OddsQuote): Key {
    [quote.event, quote.market, quote.selection, quote.provider, quote.transport,
     quote.Effective(), quote.ingestedAt, quote.id]
  }

  function BySlotAndCode(item: Diagnostic): Key {
    [item.key.event, item.key.market, item.key.selection, item.key.provider, CodeRank(item.code)]
  }

  function OfTransport(quotes: seq<OddsQuote>, transport: Id): seq<OddsQuote> {
    Filter(quotes, (quote: OddsQuote) => quote.transport == transport)
  }

  function TransportOrder(quotes: seq<OddsQuote>): seq<Id> {
    SortBy(Dedupe(TransportsOf(quotes)), ByValue)
  }

  // ----- Applying a batch

  function ActiveKeys(accepted: seq<QuoteVersion>): set<ObservationKey> {
    set v | v in accepted && v.quote.status == Active :: ObservationOf(v.quote)
  }

  /** The combined effect of a batch on all transports, before the final sorting. */
  datatype FeedBatch = FeedBatch(stores: Stores, invalidated: set<ObservationKey>, report: ApplyResult)

  function AddReport(a: ApplyResult, b: ApplyResult): ApplyResult {
    ApplyResult(a.accepted + b.accepted, a.diagnostics + b.diagnostics, a.added + b.added,
                a.updated + b.updated, a.duplicate + b.duplicate, a.rejected + b.rejected)
  }

  const EMPTY_REPORT := ApplyResult([], [], 0, 0, 0, 0)

  function ApplyTransports(policy: FreshnessPolicy, feed: FeedState, quotes: seq<OddsQuote>, observed: Instant,
                           order: seq<Id>): FeedBatch
  {
    if |order| == 0 then FeedBatch(feed.stores, feed.invalidated, EMPTY_REPORT)
    else
      var n := |order| - 1;
      var before := ApplyTransports(policy, feed, quotes, observed, order[..n]);
      var batch := StoreApply(policy, StoreOf(before.stores, order[n]), OfTransport(quotes, order[n]), observed);
      FeedBatch(before.stores[order[n] := batch.live],
                before.invalidated - ActiveKeys(batch.accepted),
                AddReport(before.report, Report(batch)))
  }

  lemma ApplyTransportsStep(policy: FreshnessPolicy, feed: FeedState, quotes: seq<OddsQuote>, observed: Instant,
                            order: seq<Id>, k: nat, before: FeedBatch, batch: Batch)
    requires k < |order| && before == ApplyTransports(policy, feed, quotes, observed, order[..k])
    requires batch == StoreApply(policy, StoreOf(before.stores, order[k]), OfTransport(quotes, order[k]), observed)
    ensures ApplyTransports(policy, feed, quotes, observed, order[..k + 1])
            == FeedBatch(before.stores[order[k] := batch.live], before.invalidated - ActiveKeys(batch.accepted),
                         AddReport(before.report, Report(batch)))
  {
    assert order[..k + 1][..k] == order[..k];
  }

  function AfterBatch(batch: FeedBatch): FeedState {
    FeedState(batch.stores, batch.invalidated)
  }

  function FeedApply(policy: FreshnessPolicy, feed: FeedState, quotes: seq<OddsQuote>, observed: Instant): FeedBatch {
    ApplyTransports(policy, feed, quotes, observed, TransportOrder(quotes))
  }

  function FeedReport(report: ApplyResult): ApplyResult {
    report.(accepted := SortBy(report.accepted, ByVersion), diagnostics := SortBy(report.diagnostics, BySlotAndCode))
  }

  // ----- Eviction

  function FeedKept(policy: FreshnessPolicy, stores: Stores, asOf: Instant): Stores {
    map t | t in stores && Kept(policy, stores[t], asOf) != map[] :: Kept(policy, stores[t], asOf)
  }

  /** Some stored version of this observation is evicted. */
  predicate EvictsObservation(policy: FreshnessPolicy, stores: Stores, asOf: Instant, key: ObservationKey) {
    && key.transport in stores && key.slot in stores[key.transport]
    && Evictable(policy, stores[key.transport][key.slot].quote, asOf)
  }

  function FeedEvict(policy: FreshnessPolicy, feed: FeedState, asOf: Instant): FeedState {
    FeedState(FeedKept(policy, feed.stores, asOf),
              set key | key in feed.invalidated && !EvictsObservation(policy, feed.stores, asOf, key))
  }

  /** `version` is stored for `transport` and leaves the store at `asOf`. */
  ghost predicate IsEvicted(version: QuoteVersion, transport: Id, policy: FreshnessPolicy, stores: Stores,
                            asOf: Instant) {
    && transport in stores && version.key in stores[transport]
    && stores[transport][version.key] == version && Evictable(policy, version.quote, asOf)
  }

  /** `gathered` holds what leaves the stores of all transports but those in `pending`. */
  ghost predicate Gathers(gathered: seq<QuoteVersion>, policy: FreshnessPolicy, stores: Stores, asOf: Instant,
                          pending: set<Id>) {
    forall v :: v in gathered <==> exists t :: t !in pending && IsEvicted(v, t, policy, stores, asOf)
  }

  lemma NothingGathered(policy: FreshnessPolicy, feed: FeedState, asOf: Instant)
    ensures StoresMidway(policy, feed.stores, asOf, feed.stores.Keys) == feed.stores
    ensures InvalidatedMidway(policy, feed, asOf, feed.stores.Keys) == feed.invalidated
    ensures Gathers([], policy, feed.stores, asOf, feed.stores.Keys)
  {
  }

  lemma GathersMore(gathered: seq<QuoteVersion>, evicted: seq<QuoteVersion>, policy: FreshnessPolicy, stores: Stores,
                    asOf: Instant, pending: set<Id>, transport: Id)
    requires transport in pending && Gathers(gathered, policy, stores, asOf, pending)
    requires forall v :: v in evicted <==> IsEvicted(v, transport, policy, stores, asOf)
    ensures Gathers(gathered + evicted, policy, stores, asOf, pending - {transport})
  {
    hide IsEvicted;
    forall v
      ensures v in gathered + evicted <==> exists t :: t !in pending - {transport}
                                                       && IsEvicted(v, t, policy, stores, asOf)
    {
      if v in gathered {
        var t :| t !in pending && IsEvicted(v, t, policy, stores, asOf);
        assert t !in pending - {transport};
      }
      if t :| t !in pending - {transport} && IsEvicted(v, t, policy, stores, asOf) {
        assert t == transport || t !in pending;
      }
    }
  }

  function EvictedKeys(evicted: seq<QuoteVersion>): set<ObservationKey> {
    set v | v in evicted :: ObservationOf(v.quote)
  }

  /** The stores when the transports in `pending` have not been visited yet. */
  ghost function StoresMidway(policy: FreshnessPolicy, stores: Stores, asOf: Instant, pending: set<Id>): Stores {
    map t | t in stores && (t in pending || Kept(policy, stores[t], asOf) != map[])
      :: if t in pending then stores[t] else Kept(policy, stores[t], asOf)
  }

  ghost function InvalidatedMidway(policy: FreshnessPolicy, feed: FeedState, asOf: Instant, pending: set<Id>)
    : set<ObservationKey>
  {
    set key | key in feed.invalidated
              && (key.transport in pending || !EvictsObservation(policy, feed.stores, asOf, key))
  }

  lemma EvictStep(policy: FreshnessPolicy, feed: FeedState, asOf: Instant, pending: set<Id>, transport: Id,
                  evicted: seq<QuoteVersion>)
    requires WellPlaced(feed.stores) && transport in pending && pending <= feed.stores.Keys
    requires Lists(evicted, feed.stores[transport], EvictableAt(policy, asOf))
    ensures var kept := Kept(policy, feed.stores[transport], asOf);
      var midway := StoresMidway(policy, feed.stores, asOf, pending);
      StoresMidway(policy, feed.stores, asOf, pending - {transport})
      == if kept == map[] then midway - {transport} else midway[transport := kept]
    ensures InvalidatedMidway(policy, feed, asOf, pending - {transport})
            == InvalidatedMidway(policy, feed, asOf, pending) - EvictedKeys(evicted)
    ensures forall v :: v in evicted <==> IsEvicted(v, transport, policy, feed.stores, asOf)
  {
    hide Kept, EvictsObservation, EvictedKeys, IsEvicted, Lists, WellPlaced;
    EvictedVersions(policy, feed.stores, asOf, transport, evicted);
    EvictedObservations(policy, feed.stores, asOf, transport, evicted);
  }

  lemma EvictedVersions(policy: FreshnessPolicy, stores: Stores, asOf: Instant, transport: Id,
                        evicted: seq<QuoteVersion>)
    requires WellPlaced(stores) && transport in stores
    requires Lists(evicted, stores[transport], EvictableAt(policy, asOf))
    ensures forall v :: v in evicted <==> IsEvicted(v, transport, policy, stores, asOf)
  {
    forall v | IsEvicted(v, transport, policy, stores, asOf)
      ensures v in evicted
    {
      assert stores[transport][v.key] == v;
    }
  }

  lemma EvictedObservations(policy: FreshnessPolicy, stores: Stores, asOf: Instant, transport: Id,
                            evicted: seq<QuoteVersion>)
    requires WellPlaced(stores) && transport in stores
    requires Lists(evicted, stores[transport], EvictableAt(policy, asOf))
    ensures forall key :: key in EvictedKeys(evicted) <==>
                          key.transport == transport && EvictsObservation(policy, stores, asOf, key)
  {
    var live := stores[transport];
    forall key
      ensures key in EvictedKeys(evicted) <==>
              key.transport == transport && EvictsObservation(policy, stores, asOf, key)
    {
      if key.transport == transport && EvictsObservation(policy, stores, asOf, key) {
        assert live[key.slot] in evicted && ObservationOf(live[key.slot].quote) == key;
      }
    }
  }

  // ----- What may be executed

  /** `version` is stored for `transport`, fresh, and not invalidated. */
  ghost predicate IsFreshVersion(version: QuoteVersion, transport: Id, policy: FreshnessPolicy, feed: FeedState,
                                 asOf: Instant) {
    && transport in feed.stores && version.key in feed.stores[transport]
    && feed.stores[transport][version.key] == version
    && Fresh(policy, version.quote, asOf) && ObservationOf(version.quote) !in feed.invalidated
  }

  /** `versions` lists, in feed order, exactly the fresh versions that are not invalidated. */
  ghost predicate ListsFresh(versions: seq<QuoteVersion>, policy: FreshnessPolicy, feed: FeedState, asOf: Instant) {
    && StrictlySortedBy(versions, ByVersion)
    && forall v :: v in versions <==> exists t :: IsFreshVersion(v, t, policy, feed, asOf)
  }

  // ----- The same, by the fields of the quotes

  /** The observation stream a quote belongs to. */
  ghost function StreamKey(quote: OddsQuote): ObservationKey {
    ObservationKey(quote.transport, QuoteKey(quote.provider, quote.event, quote.market, quote.selection))
  }

  /** Some transport's store holds this version. */
  ghost predicate Holds(stores: Stores, version: QuoteVersion) {
    exists t :: t in stores && version in stores[t].Values
  }

  /** By event, market, selection, bookmaker, transport, instant seen, ingestion and id. */
  ghost predicate InFeedOrder(versions: seq<QuoteVersion>) {
    forall i, j :: 0 <= i < j < |versions| ==> var a, b := versions[i].quote, versions[j].quote;
      !KeyLess([b.event, b.market, b.selection, b.provider, b.transport, b.Effective(), b.ingestedAt, b.id],
               [a.event, a.market, a.selection, a.provider, a.transport, a.Effective(), a.ingestedAt, a.id])
  }

  lemma SortedInFeedOrder(versions: seq<QuoteVersion>)
    requires SortedBy(versions, ByVersion)
    ensures InFeedOrder(versions)
  {
    hide KeyLess;
  }

  lemma FreshListMeans(versions: seq<QuoteVersion>, policy: FreshnessPolicy, feed: FeedState, asOf: Instant)
    requires WellPlaced(feed.stores) && ListsFresh(versions, policy, feed, asOf)
    ensures InFeedOrder(versions)
    ensures forall v :: v in versions <==> Holds(feed.stores, v) && MayBeUsed(v.quote, policy, asOf)
                                           && StreamKey(v.quote) !in feed.invalidated
  {
    hide KeyLess;
    forall i, j | 0 <= i < j < |versions|
      ensures !KeyLess(ByVersion(versions[j]), ByVersion(versions[i]))
    {
      KeyTrichotomy(ByVersion(versions[i]), ByVersion(versions[j]));
    }
    SortedInFeedOrder(versions);
    forall v
      ensures v in versions <==> Holds(feed.stores, v) && MayBeUsed(v.quote, policy, asOf)
                                 && StreamKey(v.quote) !in feed.invalidated
    {
      if Holds(feed.stores, v) {
        var t :| t in feed.stores && v in feed.stores[t].Values;
        var key :| key in feed.stores[t] && feed.stores[t][key] == v;
        assert key == v.key;
        assert MayBeUsed(v.quote, policy, asOf) && StreamKey(v.quote) !in feed.invalidated ==>
            IsFreshVersion(v, t, policy, feed, asOf);
      }
      if t :| IsFreshVersion(v, t, policy, feed, asOf) {
        assert v in feed.stores[t].Values;
      }
    }
  }

  /** An eviction takes exactly what must go, drops emptied stores, and forgets invalidations of what goes. */
  ghost predicate Evicts(before: FeedState, after: FeedState, policy: FreshnessPolicy, asOf: Instant) {
    && (forall t :: t in after.stores ==> t in before.stores && after.stores[t] != map[])
    && (forall t, key :: Stored(after.stores, t, key)
                         <==> Stored(before.stores, t, key) && !MustGo(before.stores[t][key].quote, policy, asOf))
    && (forall t, key :: Stored(after.stores, t, key) ==> after.stores[t][key] == before.stores[t][key])
    && (forall key :: key in after.invalidated <==>
          && key in before.invalidated
          && !(Stored(before.stores, key.transport, key.slot)
               && MustGo(before.stores[key.transport][key.slot].quote, policy, asOf)))
  }

  predicate Stored(stores: Stores, transport: Id, key: QuoteKey) {
    transport in stores && key in stores[transport]
  }

  lemma EvictionMeans(policy: FreshnessPolicy, feed: FeedState, asOf: Instant)
    ensures Evicts(feed, FeedEvict(policy, feed, asOf), policy, asOf)
  {
    hide Evictable, MustGo;
    EvictableMeans(policy, asOf);
    var after := FeedEvict(policy, feed, asOf);
    forall t, key
      ensures Stored(after.stores, t, key) <==> Stored(feed.stores, t, key) && key in Kept(policy, feed.stores[t], asOf)
    {
      assert t in feed.stores && key in Kept(policy, feed.stores[t], asOf) ==> t in after.stores;
    }
  }

  lemma EvictedMean(versions: seq<QuoteVersion>, policy: FreshnessPolicy, stores: Stores, asOf: Instant)
    requires WellPlaced(stores)
    requires forall v :: v in versions <==> exists t :: IsEvicted(v, t, policy, stores, asOf)
    ensures forall v :: v in versions <==> Holds(stores, v) && MustGo(v.quote, policy, asOf)
  {
    forall v
      ensures v in versions <==> Holds(stores, v) && MustGo(v.quote, policy, asOf)
    {
      if Holds(stores, v) {
        var t :| t in stores && v in stores[t].Values;
        var key :| key in stores[t] && stores[t][key] == v;
        assert key == v.key && (MustGo(v.quote, policy, asOf) ==> IsEvicted(v, t, policy, stores, asOf));
      }
      if t :| IsEvicted(v, t, policy, stores, asOf) {
        assert v in stores[t].Values;
      }
    }
  }

  class MultiSourceLiveQuoteStore {
    const policy: FreshnessPolicy
    /** Each transport's store, held by its state. */
    var transportStores: Stores
    var invalidated: set<ObservationKey>
    var lastConsolidation: ConsolidationResult

    ghost predicate Valid()
      reads this`transportStores
    {
      WellPlaced(transportStores)
    }

    ghost function Feed(): FeedState
      reads this`transportStores, this`invalidated
    {
      FeedState(transportStores, invalidated)
    }

    constructor (policy: FreshnessPolicy)
      ensures Valid() && this.policy == policy && Feed() == FeedState(map[], {})
    {
      this.policy := policy;
      transportStores := map[];
      invalidated := {};
      lastConsolidation := NOTHING;
    }

    method InvalidateObservations(keys: set<ObservationKey>)
      requires Valid()
      modifies this`invalidated
      ensures Valid() && Feed() == old(Feed()).(invalidated := old(invalidated) + keys)
    {
      invalidated := invalidated + keys;
    }

    method Apply(quotes: seq<OddsQuote>, observed: Instant) returns (r: ApplyResult)
      requires Valid()
      modifies this`transportStores, this`invalidated
      ensures Valid()
      ensures Feed() == AfterBatch(FeedApply(policy, old(Feed()), quotes, observed))
      ensures r == FeedReport(FeedApply(policy, old(Feed()), quotes, observed).report)
      ensures InFeedOrder(r.accepted)
    {
      hide StoreApply, ActiveKeys, AddReport, OfTransport, SortBy, Dedupe, TransportsOf;
      var grouped := GroupByTransport(quotes);
      var order := TransportOrder(quotes);
      SortByMembers(Dedupe(TransportsOf(quotes)), ByValue);
      ghost var feed := Feed();
      ApplyTransportsPlaced(policy, feed, quotes, observed, order);
      var report := EMPTY_REPORT;
      for k := 0 to |order|
        invariant FeedBatch(transportStores, invalidated, report)
                  == ApplyTransports(policy, feed, quotes, observed, order[..k])
      {
        ghost var before := FeedBatch(transportStores, invalidated, report);
        assert order[k] in order;
        ApplyTransportsPlaced(policy, feed, quotes, observed, order[..k]);
        var store := new LiveQuoteStore.Resume(policy, StoreOf(transportStores, order[k]));
        var result, batch := store.Apply(grouped[order[k]], observed);
        transportStores := transportStores[order[k] := store.current];
        report := AddReport(report, result);
        invalidated := invalidated - ActiveKeys(result.accepted);
        ApplyTransportsStep(policy, feed, quotes, observed, order, k, before, batch);
      }
      assert order[..|order|] == order;
      r := FeedReport(report);
      SortBySorts(report.accepted, ByVersion);
      SortedInFeedOrder(r.accepted);
    }

    /** One transport's share of the fresh versions. */
    method FreshOfTransport(transport: Id, asOf: Instant) returns (r: seq<QuoteVersion>)
      requires Valid() && transport in transportStores
      ensures forall v :: v in r <==> IsFreshVersion(v, transport, policy, Feed(), asOf)
      ensures DistinctKeys(r, ByVersion)
    {
      var store := new LiveQuoteStore.Resume(policy, transportStores[transport]);
      var versions := store.FreshVersions(asOf);
      var suppressed := invalidated;
      r := Filter(versions, (v: QuoteVersion) => ObservationOf(v.quote) !in suppressed);
      FilterMembers(versions, (v: QuoteVersion) => ObservationOf(v.quote) !in suppressed);
      ListsDistinct(versions, store.current, (v: QuoteVersion) => ObservationOf(v.quote) !in suppressed);
    }

    method FreshVersions(asOf: Instant) returns (r: seq<QuoteVersion>)
      requires Valid()
      ensures ListsFresh(r, policy, Feed(), asOf)
      ensures InFeedOrder(r)
      ensures forall v :: v in r <==> Holds(transportStores, v) && MayBeUsed(v.quote, policy, asOf)
                                      && StreamKey(v.quote) !in invalidated
    {
      hide Holds, MayBeUsed, StreamKey, InFeedOrder, KeyLess, SortBy;
      var transports := transportStores.Keys;
      var versions: seq<QuoteVersion> := [];
      while transports != {}
        invariant transports <= transportStores.Keys
        invariant forall v :: v in versions <==>
          exists t :: t in transportStores && t !in transports && IsFreshVersion(v, t, policy, Feed(), asOf)
        invariant DistinctKeys(versions, ByVersion)
        decreases transports
      {
        NonEmpty(transports);
        var transport :| transport in transports;
        var eligible := FreshOfTransport(transport, asOf);
        TransportsDiffer(versions, eligible, transport, policy, Feed(), asOf);
        versions := versions + eligible;
        transports := transports - {transport};
      }
      r := SortBy(versions, ByVersion);
      SortByStrict(versions, ByVersion);
      SortByMembers(versions, ByVersion);
      FreshListMeans(r, policy, Feed(), asOf);
    }

    /** Evicts one transport's versions. */
    method EvictTransport(transport: Id, asOf: Instant) returns (evicted: seq<QuoteVersion>,
        diagnostics: seq<Diagnostic>)
      requires transport in transportStores && Consistent(transportStores[transport])
      modifies this`transportStores, this`invalidated
      ensures Lists(evicted, old(transportStores)[transport], EvictableAt(policy, asOf))
      ensures multiset(diagnostics) == multiset(EvictionNotes(evicted))
      ensures invalidated == old(invalidated) - EvictedKeys(evicted)
      ensures transportStores == var kept := Kept(policy, old(transportStores)[transport], asOf);
                                 if kept == map[] then old(transportStores) - {transport}
                                 else old(transportStores)[transport := kept]
    {
      var store := new LiveQuoteStore.Resume(policy, transportStores[transport]);
      evicted, diagnostics := store.EvictStale(asOf);
      invalidated := invalidated - EvictedKeys(evicted);
      transportStores := if store.current == map[] then transportStores - {transport}
                         else transportStores[transport := store.current];
    }

    /** Evicts transport by transport; a store left empty is dropped. */
    method EvictStale(asOf: Instant) returns (evicted: seq<QuoteVersion>, diagnostics: seq<Diagnostic>)
      requires Valid()
      modifies this`transportStores, this`invalidated
      ensures Valid() && Feed() == FeedEvict(policy, old(Feed()), asOf)
      ensures SortedBy(evicted, ByVersion)
      ensures forall v :: v in evicted <==> exists t :: IsEvicted(v, t, policy, old(transportStores), asOf)
      ensures SortedBy(diagnostics, BySlotAndCode)
      ensures multiset(diagnostics) == multiset(EvictionNotes(evicted))
      ensures Evicts(old(Feed()), Feed(), policy, asOf)
      ensures InFeedOrder(evicted)
      ensures forall v :: v in evicted <==> Holds(old(transportStores), v) && MustGo(v.quote, policy, asOf)
      ensures |diagnostics| == |evicted|
      ensures forall item :: item in diagnostics <==> exists v :: v in evicted && SaysWhyGone(item, v)
    {
      hide Evicts, Holds, MustGo, InFeedOrder, SaysWhyGone, EvictionNote, SortBy, Lists, IsEvicted, EvictedKeys,
        EvictsObservation, KeyLess;
      ghost var stores, suppressed := transportStores, invalidated;
      var transports := transportStores.Keys;
      var gathered: seq<QuoteVersion>, notes: seq<Diagnostic> := [], [];
      NothingGathered(policy, FeedState(stores, suppressed), asOf);
      assert EvictionNotes(gathered) == notes;
      while transports != {}
        invariant transports <= stores.Keys
        invariant transportStores == StoresMidway(policy, stores, asOf, transports)
        invariant invalidated == InvalidatedMidway(policy, FeedState(stores, suppressed), asOf, transports)
        invariant Gathers(gathered, policy, stores, asOf, transports)
        invariant multiset(notes) == multiset(EvictionNotes(gathered))
        decreases transports
      {
        NonEmpty(transports);
        var transport :| transport in transports;
        var own, ownNotes := EvictTransport(transport, asOf);
        EvictStep(policy, FeedState(stores, suppressed), asOf, transports, transport, own);
        NotesConcat(gathered, own);
        GathersMore(gathered, own, policy, stores, asOf, transports, transport);
        gathered, notes := gathered + own, notes + ownNotes;
        transports := transports - {transport};
      }
      evicted, diagnostics := SortBy(gathered, ByVersion), SortBy(notes, BySlotAndCode);
      SortBySorts(gathered, ByVersion);
      SortByMembers(gathered, ByVersion);
      SortBySorts(notes, BySlotAndCode);
      NotesPermute(gathered, evicted);
      EvictionMeans(policy, FeedState(stores, suppressed), asOf);
      SortedInFeedOrder(evicted);
      EvictedMean(evicted, policy, stores, asOf);
      EvictionNotesMean(evicted);
      SameMembers(diagnostics, EvictionNotes(evicted));
    }

    method FreshObservations(asOf: Instant) returns (r: seq<OddsQuote>)
      requires Valid()
      ensures exists versions :: ListsFresh(versions, policy, Feed(), asOf) && r == Quotes(versions)
    {
      var versions := FreshVersions(asOf);
      r := Quotes(versions);
    }

    method Consolidate(asOf: Instant) returns (r: ConsolidationResult)
      requires Valid()
      modifies this`lastConsolidation
      ensures Valid() && lastConsolidation == r
      ensures exists versions :: ListsFresh(versions, policy, Feed(), asOf) && r == Consolidated(Quotes(versions))
    {
      var observations := FreshObservations(asOf);
      r := ConsolidateQuotes(observations);
      lastConsolidation := r;
    }

    method FreshQuotes(asOf: Instant) returns (r: seq<OddsQuote>)
      requires Valid()
      modifies this`lastConsolidation
      ensures Valid()
      ensures exists versions :: ListsFresh(versions, policy, Feed(), asOf)
                                 && r == Consolidated(Quotes(versions)).quotes
    {
      var result := Consolidate(asOf);
      r := result.quotes;
    }
  }

  lemma SameMembers(xs: seq<Diagnostic>, ys: seq<Diagnostic>)
    requires multiset(xs) == multiset(ys)
    ensures |xs| == |ys| && forall x :: x in xs <==> x in ys
  {
    assert |multiset(xs)| == |xs| && |multiset(ys)| == |ys|;
    forall x
      ensures x in xs <==> x in ys
    {
      assert x in multiset(xs) <==> x in multiset(ys);
    }
  }

  lemma NotesConcat(xs: seq<QuoteVersion>, ys: seq<QuoteVersion>)
    ensures EvictionNotes(xs + ys) == EvictionNotes(xs) + EvictionNotes(ys)
  {
  }

  lemma NotesTakeOut(ys: seq<QuoteVersion>, j: nat)
    requires j < |ys|
    ensures multiset(ys) == multiset(ys[..j] + ys[j + 1..]) + multiset{ys[j]}
    ensures multiset(EvictionNotes(ys))
            == multiset(EvictionNotes(ys[..j] + ys[j + 1..])) + multiset{EvictionNote(ys[j])}
  {
    hide EvictionNote;
    assert ys == ys[..j] + [ys[j]] + ys[j + 1..];
    var before, after := EvictionNotes(ys[..j]), EvictionNotes(ys[j + 1..]);
    assert EvictionNotes(ys) == before + [EvictionNote(ys[j])] + after;
    assert EvictionNotes(ys[..j] + ys[j + 1..]) == before + after;
  }

  /** The same versions in another order cause the same diagnostics. */
  lemma {:induction false} NotesPermute(xs: seq<QuoteVersion>, ys: seq<QuoteVersion>)
    requires multiset(xs) == multiset(ys)
    ensures multiset(EvictionNotes(xs)) == multiset(EvictionNotes(ys))
  {
    hide EvictionNotes, EvictionNote;
    assert |xs| == |multiset(xs)| == |ys|;
    if |xs| == 0 {
      assert xs == ys;
    } else {
      var n := |xs| - 1;
      assert xs[n] in multiset(xs);
      var j :| 0 <= j < |ys| && ys[j] == xs[n];
      NotesTakeOut(xs, n);
      NotesTakeOut(ys, j);
      var xs', ys' := xs[..n] + xs[n + 1..], ys[..j] + ys[j + 1..];
      assert multiset(xs') == multiset(xs) - multiset{xs[n]};
      assert multiset(ys') == multiset(ys) - multiset{ys[j]};
      NotesPermute(xs', ys');
    }
  }

  method GroupByTransport(quotes: seq<OddsQuote>) returns (grouped: map<Id, seq<OddsQuote>>)
    ensures forall t :: t in grouped <==> t in TransportsOf(quotes)
    ensures forall t :: t in grouped ==> grouped[t] == OfTransport(quotes, t)
  {
    grouped := map[];
    for i := 0 to |quotes|
      invariant forall t :: t in grouped <==> t in TransportsOf(quotes)[..i]
      invariant forall t :: OfTransport(quotes[..i], t) == if t in grouped then grouped[t] else []
    {
      assert quotes[..i + 1][..i] == quotes[..i];
      assert TransportsOf(quotes)[..i + 1] == TransportsOf(quotes)[..i] + [quotes[i].transport];
      var t := quotes[i].transport;
      grouped := grouped[t := (if t in grouped then grouped[t] else []) + [quotes[i]]];
    }
    assert quotes[..|quotes|] == quotes && TransportsOf(quotes)[..|quotes|] == TransportsOf(quotes);
  }

  /** Versions of one consistent store have different feed keys. */
  lemma ListsDistinct(versions: seq<QuoteVersion>, live: LiveState, keep: QuoteVersion -> bool)
    requires Consistent(live)
    requires StrictlySortedBy(versions, BySlot)
    requires forall v :: v in versions ==> exists key :: key in live && live[key] == v
    ensures DistinctKeys(Filter(versions, keep), ByVersion)
  {
    var kept := Filter(versions, keep);
    FilterMembers(versions, keep);
    forall i, j | 0 <= i < j < |versions|
      ensures !KeyLess(BySlot(versions[j]), BySlot(versions[i]))
    {
      KeyTrichotomy(BySlot(versions[i]), BySlot(versions[j]));
    }
    FilterStrict(versions, BySlot, keep);
    forall i, j | 0 <= i < j < |kept|
      ensures ByVersion(kept[i]) != ByVersion(kept[j])
    {
      assert kept[i] in kept && kept[j] in kept;
      assert kept[i].key == KeyOf(kept[i].quote) && kept[j].key == KeyOf(kept[j].quote);
      KeyTrichotomy(BySlot(kept[i]), BySlot(kept[j]));
    }
  }

  lemma TransportsDiffer(versions: seq<QuoteVersion>, eligible: seq<QuoteVersion>, transport: Id,
                         policy: FreshnessPolicy, feed: FeedState, asOf: Instant)
    requires WellPlaced(feed.stores)
    requires forall v :: v in versions ==> exists t :: t != transport && IsFreshVersion(v, t, policy, feed, asOf)
    requires forall v :: v in eligible ==> IsFreshVersion(v, transport, policy, feed, asOf)
    ensures forall i, j :: 0 <= i < |versions| && 0 <= j < |eligible| ==>
                             ByVersion(versions[i]) != ByVersion(eligible[j])
  {
    forall i, j | 0 <= i < |versions| && 0 <= j < |eligible|
      ensures ByVersion(versions[i]) != ByVersion(eligible[j])
    {
      assert versions[i] in versions && eligible[j] in eligible;
    }
  }

  lemma {:induction false} ApplyTransportsPlaced(policy: FreshnessPolicy, feed: FeedState, quotes: seq<OddsQuote>,
                                                 observed: Instant, order: seq<Id>)
    requires WellPlaced(feed.stores)
    ensures WellPlaced(ApplyTransports(policy, feed, quotes, observed, order).stores)
  {
    if |order| > 0 {
      var n := |order| - 1;
      ApplyTransportsPlaced(policy, feed, quotes, observed, order[..n]);
      var before := ApplyTransports(policy, feed, quotes, observed, order[..n]);
      FilterMembers(quotes, (quote: OddsQuote) => quote.transport == order[n]);
      StoreApplyPlaced(policy, StoreOf(before.stores, order[n]), OfTransport(quotes, order[n]), observed, order[n]);
    }
  }

  /** Applying a transport's quotes keeps its store well placed, and only its quotes are accepted. */
  lemma StoreApplyPlaced(policy: FreshnessPolicy, live: LiveState, quotes: seq<OddsQuote>, observed: Instant,
                         transport: Id)
    requires Consistent(live)
    requires forall key :: key in live ==> live[key].quote.transport == transport
    requires forall q :: q in quotes ==> q.transport == transport
    ensures var batch := StoreApply(policy, live, quotes, observed);
      && Consistent(batch.live)
      && (forall key :: key in batch.live ==> batch.live[key].quote.transport == transport)
      && (forall v :: v in batch.accepted ==> v.quote in quotes)
  {
    SortByMembers(quotes, ByArrival);
    ApplyAllPlaced(policy, live, SortBy(quotes, ByArrival), observed, transport);
  }

  lemma {:induction false} ApplyAllPlaced(policy: FreshnessPolicy, live: LiveState, quotes: seq<OddsQuote>,
                                          observed: Instant, transport: Id)
    requires Consistent(live)
    requires forall key :: key in live ==> live[key].quote.transport == transport
    requires forall q :: q in quotes ==> q.transport == transport
    ensures var batch := ApplyAll(policy, live, quotes, observed);
      && Consistent(batch.live)
      && (forall key :: key in batch.live ==> batch.live[key].quote.transport == transport)
      && (forall v :: v in batch.accepted ==> v.quote in quotes)
  {
    if |quotes| > 0 {
      var n := |quotes| - 1;
      assert quotes == quotes[..n] + [quotes[n]] && quotes[n] in quotes;
      ApplyAllPlaced(policy, live, quotes[..n], observed, transport);
    }
  }
}
