/**
  Further laws of the live feed: it refines one flat map, it conserves revisions, a zero
  skew tolerance stores the newest instant, and an unbounded store filtered afterwards
  agrees with the live one.
 */
module FeedLaws {
  import opened Wrappers
  import opened Ordering
  import opened Collections
  import opened Domain
  import opened LiveQuotes
  import opened Consolidation
  import opened MultiSource
  import opened FeedRuns
  import opened EvictionLaws

  // ----- One flat map

  /** The flat store: one version per observation, and the invalidated observations. */
  datatype FlatState = FlatState(current: map<ObservationKey, QuoteVersion>, invalidated: set<ObservationKey>)

  ghost function Flatten(feed: FeedState): FlatState {
    var keys := set t, slot | t in feed.stores && slot in feed.stores[t] :: ObservationKey(t, slot);
    FlatState(map key | key in keys :: feed.stores[key.transport][key.slot], feed.invalidated)
  }

  function FlatLookup(flat: FlatState, key: ObservationKey): Option<QuoteVersion> {
    if key in flat.current then Some(flat.current[key]) else None
  }

  /** An accepted quote takes its observation's place; an accepted active one lifts the invalidation. */
  function FlatOffer(policy: FreshnessPolicy, flat: FlatState, quote: OddsQuote, observed: Instant): FlatState {
    var key := ObservationOf(quote);
    var current := FlatLookup(flat, key);
    if Accepts(policy, current, quote, observed) then
      FlatState(flat.current[key := NextVersion(current, quote, observed)],
                if quote.status == Active then flat.invalidated - {key} else flat.invalidated)
    else flat
  }

  function FlatOffers(policy: FreshnessPolicy, flat: FlatState, quotes: seq<OddsQuote>, observed: Instant): FlatState {
    if |quotes| == 0 then flat
    else FlatOffer(policy, FlatOffers(policy, flat, quotes[..|quotes| - 1], observed), quotes[|quotes| - 1], observed)
  }

  function FlatEvict(policy: FreshnessPolicy, flat: FlatState, asOf: Instant): FlatState {
    var gone := set key | key in flat.current && Evictable(policy, flat.current[key].quote, asOf);
    FlatState(flat.current - gone, flat.invalidated - gone)
  }

  function FlatStep(policy: FreshnessPolicy, flat: FlatState, op: FeedOp): FlatState {
    match op
    case Offer(quotes, observed) => FlatOffers(policy, flat, SortBy(quotes, ByTransportAndArrival), observed)
    case Invalidate(keys) => flat.(invalidated := flat.invalidated + keys)
    case Evict(asOf) => FlatEvict(policy, flat, asOf)
  }

  function FlatRun(policy: FreshnessPolicy, flat: FlatState, ops: seq<FeedOp>): FlatState {
    if |ops| == 0 then flat
    else FlatStep(policy, FlatRun(policy, flat, ops[..|ops| - 1]), ops[|ops| - 1])
  }

  function ByTransportAndArrival(quote: OddsQuote): Key {
    [quote.transport] + ByArrival(quote)
  }

  function FlatStreamOf(flat: FlatState, key: ObservationKey): Stream {
    Stream(FlatLookup(flat, key), key in flat.invalidated)
  }

  lemma FlatStreamOffer(policy: FreshnessPolicy, flat: FlatState, quote: OddsQuote, observed: Instant,
                        key: ObservationKey)
    ensures FlatStreamOf(FlatOffer(policy, flat, quote, observed), key)
            == if BelongsTo(key)(quote) then StreamOffer(policy, FlatStreamOf(flat, key), quote, observed)
               else FlatStreamOf(flat, key)
  {
  }

  lemma {:induction false} FlatStream(policy: FreshnessPolicy, flat: FlatState, quotes: seq<OddsQuote>,
                                      observed: Instant, key: ObservationKey)
    ensures FlatStreamOf(FlatOffers(policy, flat, quotes, observed), key)
            == StreamOffers(policy, FlatStreamOf(flat, key), Filter(quotes, BelongsTo(key)), observed)
  {
    hide FlatOffer, StreamOffer, FlatStreamOf, BelongsTo;
    if |quotes| > 0 {
      var n := |quotes| - 1;
      FlatStream(policy, flat, quotes[..n], observed, key);
      FlatStreamOffer(policy, FlatOffers(policy, flat, quotes[..n], observed), quotes[n], observed, key);
      var filtered := Filter(quotes[..n], BelongsTo(key));
      assert (filtered + [quotes[n]])[..|filtered|] == filtered;
    }
  }

  lemma FlatQuotes(quotes: seq<OddsQuote>, key: ObservationKey)
    ensures Filter(SortBy(quotes, ByTransportAndArrival), BelongsTo(key)) == StreamQuotes(quotes, key)
  {
    FilterSortBy(quotes, ByTransportAndArrival, BelongsTo(key));
    var own := Filter(quotes, BelongsTo(key));
    FilterMembers(quotes, BelongsTo(key));
    forall i | 0 <= i < |own|
      ensures BelongsTo(key)(own[i])
    {
      assert own[i] in own;
    }
    forall x, y | BelongsTo(key)(x) && BelongsTo(key)(y)
      ensures KeyLess(ByTransportAndArrival(x), ByTransportAndArrival(y)) <==> KeyLess(ByArrival(x), ByArrival(y))
    {
      assert ByTransportAndArrival(x)[1..] == ByArrival(x) && ByTransportAndArrival(y)[1..] == ByArrival(y);
    }
    SortByAgrees(own, BelongsTo(key), ByTransportAndArrival, ByArrival);
  }

  lemma FlattenStream(feed: FeedState, key: ObservationKey)
    ensures FlatStreamOf(Flatten(feed), key) == StreamOf(feed, key)
  {
  }

  lemma FlatStreamStep(policy: FreshnessPolicy, flat: FlatState, op: FeedOp, key: ObservationKey)
    ensures FlatStreamOf(FlatStep(policy, flat, op), key) == StreamStep(policy, FlatStreamOf(flat, key), op, key)
  {
    if op.Offer? {
      hide StreamOffers, FlatOffers;
      FlatStream(policy, flat, SortBy(op.quotes, ByTransportAndArrival), op.observed, key);
      FlatQuotes(op.quotes, key);
    }
  }

  /** One step of the per-transport stores, an eviction or an invalidation included, is one step of the flat map. */
  lemma FlatMapStep(policy: FreshnessPolicy, feed: FeedState, op: FeedOp)
    requires WellPlaced(feed.stores)
    ensures Flatten(Step(policy, feed, op)) == FlatStep(policy, Flatten(feed), op)
  {
    hide Flatten, FlatStep, FlatStreamOf, StreamOf, StreamStep, Step;
    forall key
      ensures FlatStreamOf(Flatten(Step(policy, feed, op)), key)
              == FlatStreamOf(FlatStep(policy, Flatten(feed), op), key)
    {
      FlattenStream(feed, key);
      FlattenStream(Step(policy, feed, op), key);
      StreamsStep(policy, feed, op, key);
      FlatStreamStep(policy, Flatten(feed), op, key);
    }
    SameStreams(Flatten(Step(policy, feed, op)), FlatStep(policy, Flatten(feed), op));
  }

  /**
    The per-transport stores refine one map keyed by observation: over any run of batches,
    invalidations and evictions both end in the same state.
   */
  lemma {:induction false} RefinesFlatMap(policy: FreshnessPolicy, feed: FeedState, ops: seq<FeedOp>)
    requires WellPlaced(feed.stores)
    ensures Flatten(Run(policy, feed, ops)) == FlatRun(policy, Flatten(feed), ops)
  {
    hide Flatten, FlatStep, Step;
    if |ops| > 0 {
      var n := |ops| - 1;
      RefinesFlatMap(policy, feed, ops[..n]);
      RunPlaced(policy, feed, ops[..n]);
      FlatMapStep(policy, Run(policy, feed, ops[..n]), ops[n]);
    }
  }

  lemma SameStreams(a: FlatState, b: FlatState)
    requires forall key :: FlatStreamOf(a, key) == FlatStreamOf(b, key)
    ensures a == b
  {
    forall key
      ensures key in a.current <==> key in b.current
      ensures key in a.current ==> a.current[key] == b.current[key]
      ensures key in a.invalidated <==> key in b.invalidated
    {
      assert FlatStreamOf(a, key) == FlatStreamOf(b, key);
    }
  }

  // ----- Transports do not affect each other

  /** What a run holds for one transport: its quotes, its invalidations, and the evictions. */
  function PartFor(op: FeedOp, transport: Id): FeedOp {
    match op
    case Offer(quotes, observed) => Offer(OfTransport(quotes, transport), observed)
    case Invalidate(keys) => Invalidate(set key | key in keys && key.transport == transport)
    case Evict(_) => op
  }

  function PartsFor(ops: seq<FeedOp>, transport: Id): seq<FeedOp> {
    if |ops| == 0 then []
    else
      var part := PartFor(ops[|ops| - 1], transport);
      PartsFor(ops[..|ops| - 1], transport) + if part.Offer? && part.quotes == [] then [] else [part]
  }

  lemma PartStep(policy: FreshnessPolicy, stream: Stream, op: FeedOp, key: ObservationKey)
    ensures StreamStep(policy, stream, PartFor(op, key.transport), key) == StreamStep(policy, stream, op, key)
    ensures var part := PartFor(op, key.transport);
      part.Offer? && part.quotes == [] ==> StreamStep(policy, stream, op, key) == stream
  {
    if op.Offer? {
      var own := OfTransport(op.quotes, key.transport);
      FilterTwice(op.quotes, (quote: OddsQuote) => quote.transport == key.transport, BelongsTo(key), BelongsTo(key));
      assert StreamQuotes(own, key) == StreamQuotes(op.quotes, key);
      assert own == [] ==> StreamQuotes(own, key) == [];
    }
  }

  /** A transport's streams become what they would become if every other transport were silent. */
  lemma {:induction false} OthersDoNotMatter(policy: FreshnessPolicy, feed: FeedState, ops: seq<FeedOp>,
                                             key: ObservationKey)
    requires WellPlaced(feed.stores)
    ensures StreamOf(Run(policy, feed, ops), key) == StreamOf(Run(policy, feed, PartsFor(ops, key.transport)), key)
  {
    hide StreamOf, Step, StreamStep, PartFor;
    if |ops| > 0 {
      var n := |ops| - 1;
      var parts, part := PartsFor(ops[..n], key.transport), PartFor(ops[n], key.transport);
      OthersDoNotMatter(policy, feed, ops[..n], key);
      RunPlaced(policy, feed, ops[..n]);
      RunPlaced(policy, feed, parts);
      StreamsStep(policy, Run(policy, feed, ops[..n]), ops[n], key);
      StreamsStep(policy, Run(policy, feed, parts), part, key);
      PartStep(policy, StreamOf(Run(policy, feed, parts), key), ops[n], key);
      assert (parts + [part])[..|parts|] == parts;
      assert parts + [] == parts;
    }
  }

  lemma {:induction false} SameStartSameEnd(policy: FreshnessPolicy, a: FeedState, b: FeedState, ops: seq<FeedOp>,
                                            key: ObservationKey)
    requires WellPlaced(a.stores) && WellPlaced(b.stores) && StreamOf(a, key) == StreamOf(b, key)
    ensures StreamOf(Run(policy, a, ops), key) == StreamOf(Run(policy, b, ops), key)
  {
    hide StreamOf, Step, StreamStep;
    if |ops| > 0 {
      var n := |ops| - 1;
      SameStartSameEnd(policy, a, b, ops[..n], key);
      RunPlaced(policy, a, ops[..n]);
      RunPlaced(policy, b, ops[..n]);
      StreamsStep(policy, Run(policy, a, ops[..n]), ops[n], key);
      StreamsStep(policy, Run(policy, b, ops[..n]), ops[n], key);
    }
  }

  /**
    Two runs that agree on one transport, from feeds that agree on it, leave that transport's
    streams alike, whatever the other transports sent.
   */
  lemma TransportsIndependent(policy: FreshnessPolicy, a: FeedState, b: FeedState, ops: seq<FeedOp>,
                              others: seq<FeedOp>, key: ObservationKey)
    requires WellPlaced(a.stores) && WellPlaced(b.stores) && StreamOf(a, key) == StreamOf(b, key)
    requires PartsFor(ops, key.transport) == PartsFor(others, key.transport)
    ensures StreamOf(Run(policy, a, ops), key) == StreamOf(Run(policy, b, others), key)
  {
    OthersDoNotMatter(policy, a, ops, key);
    OthersDoNotMatter(policy, b, others, key);
    SameStartSameEnd(policy, a, b, PartsFor(ops, key.transport), key);
  }

  // ----- Conservation

  ghost function Revisions(live: LiveState): int {
    MapSum(map key | key in live :: live[key].revision)
  }

  ghost function FeedRevisions(stores: Stores): int {
    MapSum(map t | t in stores :: Revisions(stores[t]))
  }

  function Dropped(policy: FreshnessPolicy, live: LiveState, asOf: Instant): LiveState {
    map key | key in live && Evictable(policy, live[key].quote, asOf) :: live[key]
  }

  ghost function EvictedRevisions(policy: FreshnessPolicy, stores: Stores, asOf: Instant): int {
    MapSum(map t | t in stores :: Revisions(Dropped(policy, stores[t], asOf)))
  }

  lemma RevisionsPut(live: LiveState, version: QuoteVersion, key: QuoteKey)
    ensures Revisions(live[key := version])
            == Revisions(live) + version.revision - (if key in live then live[key].revision else 0)
  {
    var m := map k | k in live :: live[k].revision;
    MapSumPut(m, key, version.revision);
    var put := live[key := version];
    assert (map k | k in put :: put[k].revision) == m[key := version.revision];
  }

  /** In one batch every quote is counted once, and every acceptance adds one revision. */
  lemma {:induction false} BatchConserves(policy: FreshnessPolicy, live: LiveState, quotes: seq<OddsQuote>,
                                          observed: Instant)
    ensures var batch := ApplyAll(policy, live, quotes, observed);
      && batch.added + batch.updated + batch.duplicate + batch.rejected == |quotes|
      && |batch.accepted| == batch.added + batch.updated
      && Revisions(batch.live) == Revisions(live) + |batch.accepted|
  {
    hide Revisions, ApplyOne;
    if |quotes| > 0 {
      var n := |quotes| - 1;
      BatchConserves(policy, live, quotes[..n], observed);
      OneConserves(policy, ApplyAll(policy, live, quotes[..n], observed), quotes[n], observed);
    }
  }

  lemma OneConserves(policy: FreshnessPolicy, before: Batch, quote: OddsQuote, observed: Instant)
    ensures var after := ApplyOne(policy, before, quote, observed);
      && after.added + after.updated + after.duplicate + after.rejected
         == before.added + before.updated + before.duplicate + before.rejected + 1
      && |after.accepted| - |before.accepted| == (after.added + after.updated) - (before.added + before.updated)
      && Revisions(after.live) - Revisions(before.live) == |after.accepted| - |before.accepted|
  {
    hide Judge, NotesFor, Revisions;
    var current := Lookup(before.live, KeyOf(quote));
    RevisionsPut(before.live, NextVersion(current, quote, observed), KeyOf(quote));
  }

  lemma EvictionConserves(policy: FreshnessPolicy, live: LiveState, asOf: Instant)
    ensures Revisions(Kept(policy, live, asOf)) + Revisions(Dropped(policy, live, asOf)) == Revisions(live)
  {
    var kept, dropped := Kept(policy, live, asOf), Dropped(policy, live, asOf);
    var whole := map key | key in live :: live[key].revision;
    var keptAll := map key | key in live :: if key in kept then kept[key].revision else 0;
    var droppedAll := map key | key in live :: if key in dropped then dropped[key].revision else 0;
    MapSumWithoutZeros(map key | key in kept :: kept[key].revision, keptAll);
    MapSumWithoutZeros(map key | key in dropped :: dropped[key].revision, droppedAll);
    MapSumAdd(keptAll, droppedAll, whole);
  }

  lemma {:induction false} CountByTransport(quotes: seq<OddsQuote>, order: seq<Id>, t: Id, n: nat)
    requires t !in order && n <= |quotes|
    ensures |Filter(quotes[..n], (q: OddsQuote) => q.transport in order + [t])|
            == |Filter(quotes[..n], (q: OddsQuote) => q.transport in order)|
               + |Filter(quotes[..n], (q: OddsQuote) => q.transport == t)|
  {
    if n > 0 {
      CountByTransport(quotes, order, t, n - 1);
      assert quotes[..n][..n - 1] == quotes[..n - 1];
    }
  }

  lemma {:induction false} FilterAll(quotes: seq<OddsQuote>, keep: OddsQuote -> bool)
    requires forall i :: 0 <= i < |quotes| ==> keep(quotes[i])
    ensures Filter(quotes, keep) == quotes
  {
    if |quotes| > 0 {
      FilterAll(quotes[..|quotes| - 1], keep);
    }
  }

  /** The same for the transports handled so far. */
  lemma {:induction false} TransportsConserve(policy: FreshnessPolicy, feed: FeedState, quotes: seq<OddsQuote>,
                                              observed: Instant, order: seq<Id>)
    requires forall i, j :: 0 <= i < j < |order| ==> order[i] != order[j]
    ensures var after := ApplyTransports(policy, feed, quotes, observed, order);
      && after.report.added + after.report.updated + after.report.duplicate + after.report.rejected
         == |Filter(quotes, (q: OddsQuote) => q.transport in order)|
      && |after.report.accepted| == after.report.added + after.report.updated
      && FeedRevisions(after.stores) == FeedRevisions(feed.stores) + |after.report.accepted|
  {
    hide Revisions, FeedRevisions, ApplyAll, SortBy, Filter;
    if |order| == 0 {
      FilterNothing(quotes, order);
    } else {
      var n := |order| - 1;
      TransportsConserve(policy, feed, quotes, observed, order[..n]);
      assert order == order[..n] + [order[n]];
      assert quotes[..|quotes|] == quotes;
      CountByTransport(quotes, order[..n], order[n], |quotes|);
      var before := ApplyTransports(policy, feed, quotes, observed, order[..n]);
      var own := SortBy(OfTransport(quotes, order[n]), ByArrival);
      var live := StoreOf(before.stores, order[n]);
      BatchConserves(policy, live, own, observed);
      FeedRevisionsPut(before.stores, order[n], ApplyAll(policy, live, own, observed).live);
    }
  }

  lemma {:induction false} FilterNothing(quotes: seq<OddsQuote>, order: seq<Id>)
    requires order == []
    ensures Filter(quotes, (q: OddsQuote) => q.transport in order) == []
  {
    if |quotes| > 0 {
      FilterNothing(quotes[..|quotes| - 1], order);
    }
  }

  lemma FeedRevisionsPut(stores: Stores, t: Id, live: LiveState)
    ensures FeedRevisions(stores[t := live]) == FeedRevisions(stores) + Revisions(live) - Revisions(StoreOf(stores, t))
  {
    hide Revisions;
    var m := map u | u in stores :: Revisions(stores[u]);
    MapSumPut(m, t, Revisions(live));
    var put := stores[t := live];
    assert (map u | u in put :: Revisions(put[u])) == m[t := Revisions(live)];
    EmptyRevisions(StoreOf(stores, t));
  }

  /** Every quote of a batch is added, updated, duplicate or rejected, and acceptances are new revisions. */
  lemma FeedBatchConserves(policy: FreshnessPolicy, feed: FeedState, quotes: seq<OddsQuote>, observed: Instant)
    ensures var batch := FeedApply(policy, feed, quotes, observed);
      && batch.report.added + batch.report.updated + batch.report.duplicate + batch.report.rejected == |quotes|
      && |batch.report.accepted| == batch.report.added + batch.report.updated
      && FeedRevisions(batch.stores) == FeedRevisions(feed.stores) + |batch.report.accepted|
  {
    var order := TransportOrder(quotes);
    OrderDistinct(quotes);
    TransportsConserve(policy, feed, quotes, observed, order);
    forall i | 0 <= i < |quotes|
      ensures quotes[i].transport in order
    {
      MemberTransport(quotes, quotes[i]);
    }
    FilterAll(quotes, (q: OddsQuote) => q.transport in order);
  }

  lemma FeedEvictionConserves(policy: FreshnessPolicy, feed: FeedState, asOf: Instant)
    ensures FeedRevisions(FeedKept(policy, feed.stores, asOf)) + EvictedRevisions(policy, feed.stores, asOf)
            == FeedRevisions(feed.stores)
  {
    var stores, kept := feed.stores, FeedKept(policy, feed.stores, asOf);
    var whole := map t | t in stores :: Revisions(stores[t]);
    var keptAll := map t | t in stores :: Revisions(Kept(policy, stores[t], asOf));
    var droppedAll := map t | t in stores :: Revisions(Dropped(policy, stores[t], asOf));
    forall t | t in stores
      ensures whole[t] == keptAll[t] + droppedAll[t]
    {
      EvictionConserves(policy, stores[t], asOf);
    }
    MapSumAdd(keptAll, droppedAll, whole);
    var keptOnly := map t | t in kept :: Revisions(kept[t]);
    forall t | t in stores
      ensures keptAll[t] == if t in keptOnly then keptOnly[t] else 0
    {
      EmptyRevisions(Kept(policy, stores[t], asOf));
    }
    MapSumWithoutZeros(keptOnly, keptAll);
  }

  lemma EmptyRevisions(live: LiveState)
    ensures live == map[] ==> Revisions(live) == 0
  {
    var revisions := map key | key in live :: live[key].revision;
    assert live == map[] ==> revisions == map[];
  }

  ghost function AcceptedInRun(policy: FreshnessPolicy, feed: FeedState, ops: seq<FeedOp>): int {
    if |ops| == 0 then 0
    else
      var n := |ops| - 1;
      AcceptedInRun(policy, feed, ops[..n]) +
      match ops[n]
      case Offer(quotes, observed) => |FeedApply(policy, Run(policy, feed, ops[..n]), quotes, observed).report.accepted|
      case _ => 0
  }

  ghost function EvictedInRun(policy: FreshnessPolicy, feed: FeedState, ops: seq<FeedOp>): int {
    if |ops| == 0 then 0
    else
      var n := |ops| - 1;
      EvictedInRun(policy, feed, ops[..n]) +
      match ops[n]
      case Evict(asOf) => EvictedRevisions(policy, Run(policy, feed, ops[..n]).stores, asOf)
      case _ => 0
  }

  /** Over any run, everything accepted is either still a live revision or was evicted. */
  lemma {:induction false} RunConserves(policy: FreshnessPolicy, feed: FeedState, ops: seq<FeedOp>)
    ensures FeedRevisions(Run(policy, feed, ops).stores) + EvictedInRun(policy, feed, ops)
            == FeedRevisions(feed.stores) + AcceptedInRun(policy, feed, ops)
  {
    if |ops| > 0 {
      var n := |ops| - 1;
      RunConserves(policy, feed, ops[..n]);
      var before := Run(policy, feed, ops[..n]);
      match ops[n] {
        case Offer(quotes, observed) => FeedBatchConserves(policy, before, quotes, observed);
        case Evict(asOf) => FeedEvictionConserves(policy, before, asOf);
        case Invalidate(_) =>
      }
    }
  }

  // ----- Zero skew tolerance

  /** The quote was offered to this stream in the run and passed the clock checks. */
  ghost predicate Considered(policy: FreshnessPolicy, ops: seq<FeedOp>, key: ObservationKey, quote: OddsQuote) {
    exists i :: 0 <= i < |ops| && ConsideredBy(policy, ops[i], key, quote)
  }

  predicate ConsideredBy(policy: FreshnessPolicy, op: FeedOp, key: ObservationKey, quote: OddsQuote) {
    op.Offer? && quote in op.quotes && ObservationOf(quote) == key && PassesClock(policy, quote, op.observed)
  }

  /** With no tolerance a batch leaves the newest instant it was offered. */
  lemma {:induction false} NewestKept(policy: FreshnessPolicy, stream: Stream, quotes: seq<OddsQuote>,
                                      observed: Instant)
    requires policy.tolerance == 0
    ensures var after := StreamOffers(policy, stream, quotes, observed).version;
      && (stream.version.Some? ==> after.Some?
                                   && stream.version.value.quote.Effective() <= after.value.quote.Effective())
      && (forall q :: q in quotes && PassesClock(policy, q, observed) ==>
        after.Some? && q.Effective() <= after.value.quote.Effective())
      && (after.Some? ==> after == stream.version
                          || (after.value.quote in quotes && PassesClock(policy, after.value.quote, observed)))
  {
    if |quotes| > 0 {
      var n := |quotes| - 1;
      NewestKept(policy, stream, quotes[..n], observed);
      assert quotes == quotes[..n] + [quotes[n]];
    }
  }

  lemma ConsideredGrows(policy: FreshnessPolicy, ops: seq<FeedOp>, key: ObservationKey)
    requires |ops| > 0
    ensures var n := |ops| - 1; forall q ::
      Considered(policy, ops, key, q) <==> Considered(policy, ops[..n], key, q) || ConsideredBy(policy, ops[n], key, q)
  {
    var n := |ops| - 1;
    forall q
      ensures Considered(policy, ops, key, q)
              <==> Considered(policy, ops[..n], key, q) || ConsideredBy(policy, ops[n], key, q)
    {
      if i :| 0 <= i < |ops| && ConsideredBy(policy, ops[i], key, q) {
        assert i == n || ops[..n][i] == ops[i];
      }
      if i :| 0 <= i < n && ConsideredBy(policy, ops[..n][i], key, q) {
        assert ops[i] == ops[..n][i];
      }
    }
  }

  /**
    With no tolerance, between evictions a stream holds what it started with or a considered
    quote, and its instant is the greatest among the start's and every considered quote's.
   */
  lemma {:induction false} HoldsGreatestInstant(policy: FreshnessPolicy, feed: FeedState, ops: seq<FeedOp>,
                                                key: ObservationKey)
    requires policy.tolerance == 0 && WellPlaced(feed.stores)
    requires forall i :: 0 <= i < |ops| ==> !ops[i].Evict?
    ensures var start, version := StreamOf(feed, key).version, StreamOf(Run(policy, feed, ops), key).version;
      && (version.Some? ==> version == start || Considered(policy, ops, key, version.value.quote))
      && (start.Some? ==> version.Some? && start.value.quote.Effective() <= version.value.quote.Effective())
      && forall q :: Considered(policy, ops, key, q) ==>
        version.Some? && q.Effective() <= version.value.quote.Effective()
  {
    hide StreamQuotes, StreamOffers, StreamOf, Step;
    if |ops| > 0 {
      var n := |ops| - 1;
      var op := ops[n];
      HoldsGreatestInstant(policy, feed, ops[..n], key);
      RunPlaced(policy, feed, ops[..n]);
      StreamsStep(policy, Run(policy, feed, ops[..n]), op, key);
      ConsideredGrows(policy, ops, key);
      if op.Offer? {
        StreamQuoteMembers(op.quotes, key);
        NewestKept(policy, StreamOf(Run(policy, feed, ops[..n]), key), StreamQuotes(op.quotes, key), op.observed);
      }
    }
  }

  lemma StreamQuoteMembers(quotes: seq<OddsQuote>, key: ObservationKey)
    ensures forall q :: q in StreamQuotes(quotes, key) <==> q in quotes && ObservationOf(q) == key
  {
    FilterMembers(quotes, BelongsTo(key));
    SortByMembers(Filter(quotes, BelongsTo(key)), ByArrival);
  }

  // ----- An unbounded store filtered afterwards

  lemma {:induction false} WindowIrrelevantToBatch(a: FreshnessPolicy, b: FreshnessPolicy, live: LiveState,
                                                   quotes: seq<OddsQuote>, observed: Instant)
    requires a.tolerance == b.tolerance
    ensures ApplyAll(a, live, quotes, observed) == ApplyAll(b, live, quotes, observed)
  {
    hide ApplyOne;
    if |quotes| > 0 {
      var n := |quotes| - 1;
      WindowIrrelevantToBatch(a, b, live, quotes[..n], observed);
      WindowIrrelevantToOne(a, b, ApplyAll(a, live, quotes[..n], observed), quotes[n], observed);
    }
  }

  lemma WindowIrrelevantToOne(a: FreshnessPolicy, b: FreshnessPolicy, before: Batch, quote: OddsQuote,
                              observed: Instant)
    requires a.tolerance == b.tolerance
    ensures ApplyOne(a, before, quote, observed) == ApplyOne(b, before, quote, observed)
  {
    assert Judge(a, Lookup(before.live, KeyOf(quote)), quote, observed)
           == Judge(b, Lookup(before.live, KeyOf(quote)), quote, observed);
    hide Judge, NotesFor, NextVersion;
  }

  lemma {:induction false} WindowIrrelevantToTransports(a: FreshnessPolicy, b: FreshnessPolicy, feed: FeedState,
                                                        quotes: seq<OddsQuote>, observed: Instant, order: seq<Id>)
    requires a.tolerance == b.tolerance
    ensures ApplyTransports(a, feed, quotes, observed, order) == ApplyTransports(b, feed, quotes, observed, order)
  {
    if |order| > 0 {
      var n := |order| - 1;
      WindowIrrelevantToTransports(a, b, feed, quotes, observed, order[..n]);
      var before := ApplyTransports(a, feed, quotes, observed, order[..n]);
      WindowIrrelevantToBatch(a, b, StoreOf(before.stores, order[n]),
                              SortBy(OfTransport(quotes, order[n]), ByArrival), observed);
    }
  }

  /** Without evictions the freshness window plays no part in what is stored. */
  lemma {:induction false} WindowIrrelevant(a: FreshnessPolicy, b: FreshnessPolicy, feed: FeedState, ops: seq<FeedOp>)
    requires a.tolerance == b.tolerance
    requires forall i :: 0 <= i < |ops| ==> !ops[i].Evict?
    ensures Run(a, feed, ops) == Run(b, feed, ops)
  {
    if |ops| > 0 {
      var n := |ops| - 1;
      WindowIrrelevant(a, b, feed, ops[..n]);
      if ops[n].Offer? {
        WindowIrrelevantToTransports(a, b, Run(a, feed, ops[..n]), ops[n].quotes, ops[n].observed,
                                     TransportOrder(ops[n].quotes));
      }
    }
  }

  function Unbounded(policy: FreshnessPolicy): FreshnessPolicy {
    policy.(window := LONGEST_DURATION)
  }

  function WithinWindow(policy: FreshnessPolicy, asOf: Instant): OddsQuote -> bool {
    (quote: OddsQuote) => asOf - quote.Effective() <= policy.window
  }

  /**
    Replay agrees with live: the observations of an unbounded store that never evicts,
    filtered by the window afterwards, are the fresh observations of a live store with that
    window, whatever it evicted in between.
   */
  lemma ReplayAgreesWithLive(policy: FreshnessPolicy, feed: FeedState, ops: seq<FeedOp>, asOf: Instant,
                             live: seq<QuoteVersion>, replay: seq<QuoteVersion>)
    requires WellPlaced(feed.stores) && EvictionsHarmless(policy, feed, ops) && EvictionsAscend(ops, asOf)
    requires ListsFresh(live, policy, Run(policy, feed, ops), asOf)
    requires ListsFresh(replay, Unbounded(policy), Run(Unbounded(policy), feed, WithoutEvictions(ops)), asOf)
    ensures Filter(Quotes(replay), WithinWindow(policy, asOf)) == Quotes(live)
    ensures Consolidated(Filter(Quotes(replay), WithinWindow(policy, asOf))) == Consolidated(Quotes(live))
  {
    var calm := WithoutEvictions(ops);
    NoEvictionsLeft(ops);
    WindowIrrelevant(policy, Unbounded(policy), feed, calm);
    RunPlaced(policy, feed, ops);
    RunPlaced(policy, feed, calm);
    EvictionsUnseen(policy, feed, ops, asOf);
    FreshMembers(policy, Run(policy, feed, ops), asOf, live);
    FreshMembers(Unbounded(policy), Run(policy, feed, calm), asOf, replay);
    var filtered := Filter(Quotes(replay), WithinWindow(policy, asOf));
    FilterMembers(Quotes(replay), WithinWindow(policy, asOf));
    FilterStrict(Quotes(replay), ByFeedOrder, WithinWindow(policy, asOf));
    forall q
      ensures q in filtered <==> q in Quotes(live)
    {
      var key := ObservationOf(q);
      assert FreshQuote(policy, StreamOf(Run(policy, feed, ops), key), asOf)
             == FreshQuote(policy, StreamOf(Run(policy, feed, calm), key), asOf);
      assert q in filtered <==> q in Quotes(replay) && WithinWindow(policy, asOf)(q);
    }
    StrictlySortedUnique(filtered, Quotes(live), ByFeedOrder);
  }

  lemma NoEvictionsLeft(ops: seq<FeedOp>)
    ensures forall i :: 0 <= i < |WithoutEvictions(ops)| ==> !WithoutEvictions(ops)[i].Evict?
  {
    FilterMembers(ops, (op: FeedOp) => !op.Evict?);
    var calm := WithoutEvictions(ops);
    forall i | 0 <= i < |calm|
      ensures !calm[i].Evict?
    {
      assert calm[i] in calm;
    }
  }
}
