/**
  Whole runs of the live feed. Each observation stream evolves on its own, so run-level
  claims are proved stream by stream and lifted to the store.
 */
module FeedRuns {
  import opened Wrappers
  import opened Ordering
  import opened Collections
  import opened Domain
  import opened LiveQuotes
  import opened Consolidation
  import opened MultiSource

  // ----- Runs

  datatype FeedOp =
    | Offer(quotes: seq<OddsQuote>, observed: Instant)
    | Invalidate(keys: set<ObservationKey>)
    | Evict(asOf: Instant)

  function Step(policy: FreshnessPolicy, feed: FeedState, op: FeedOp): FeedState {
    match op
    case Offer(quotes, observed) => AfterBatch(FeedApply(policy, feed, quotes, observed))
    case Invalidate(keys) => feed.(invalidated := feed.invalidated + keys)
    case Evict(asOf) => FeedEvict(policy, feed, asOf)
  }

  function Run(policy: FreshnessPolicy, feed: FeedState, ops: seq<FeedOp>): FeedState {
    if |ops| == 0 then feed
    else Step(policy, Run(policy, feed, ops[..|ops| - 1]), ops[|ops| - 1])
  }

  const EMPTY_FEED := FeedState(map[], {})

  lemma {:induction false} RunPlaced(policy: FreshnessPolicy, feed: FeedState, ops: seq<FeedOp>)
    requires WellPlaced(feed.stores)
    ensures WellPlaced(Run(policy, feed, ops).stores)
  {
    if |ops| > 0 {
      RunPlaced(policy, feed, ops[..|ops| - 1]);
      var before := Run(policy, feed, ops[..|ops| - 1]);
      match ops[|ops| - 1] {
        case Offer(quotes, observed) =>
          ApplyTransportsPlaced(policy, before, quotes, observed, TransportOrder(quotes));
        case _ =>
      }
    }
  }

  // ----- One observation stream

  datatype Stream = Stream(version: Option<QuoteVersion>, suppressed: bool)

  function StreamOf(feed: FeedState, key: ObservationKey): Stream {
    Stream(Lookup(StoreOf(feed.stores, key.transport), key.slot), key in feed.invalidated)
  }

  function StreamOffer(policy: FreshnessPolicy, stream: Stream, quote: OddsQuote, observed: Instant): Stream {
    if Accepts(policy, stream.version, quote, observed) then
      Stream(Some(NextVersion(stream.version, quote, observed)), stream.suppressed && quote.status != Active)
    else stream
  }

  function StreamOffers(policy: FreshnessPolicy, stream: Stream, quotes: seq<OddsQuote>, observed: Instant): Stream {
    if |quotes| == 0 then stream
    else StreamOffer(policy, StreamOffers(policy, stream, quotes[..|quotes| - 1], observed), quotes[|quotes| - 1],
                     observed)
  }

  function StreamEvict(policy: FreshnessPolicy, stream: Stream, asOf: Instant): Stream {
    if stream.version.Some? && Evictable(policy, stream.version.value.quote, asOf) then Stream(None, false) else stream
  }

  function BelongsTo(key: ObservationKey): OddsQuote -> bool {
    (quote: OddsQuote) => ObservationOf(quote) == key
  }

  function InSlot(slot: QuoteKey): OddsQuote -> bool {
    (quote: OddsQuote) => KeyOf(quote) == slot
  }

  /** The quotes of one stream in a batch, in the order they are applied. */
  function StreamQuotes(quotes: seq<OddsQuote>, key: ObservationKey): seq<OddsQuote> {
    SortBy(Filter(quotes, BelongsTo(key)), ByArrival)
  }

  function StreamStep(policy: FreshnessPolicy, stream: Stream, op: FeedOp, key: ObservationKey): Stream {
    match op
    case Offer(quotes, observed) => StreamOffers(policy, stream, StreamQuotes(quotes, key), observed)
    case Invalidate(keys) => stream.(suppressed := stream.suppressed || key in keys)
    case Evict(asOf) => StreamEvict(policy, stream, asOf)
  }

  /** Some accepted active version belongs to the slot. */
  ghost predicate Revives(accepted: seq<QuoteVersion>, slot: QuoteKey) {
    exists v :: v in accepted && v.key == slot && v.quote.status == Active
  }

  lemma AcceptedGrows(policy: FreshnessPolicy, before: Batch, quote: OddsQuote, observed: Instant, slot: QuoteKey)
    ensures var after := ApplyOne(policy, before, quote, observed);
      Revives(after.accepted, slot) <==>
      Revives(before.accepted, slot)
      || (KeyOf(quote) == slot && quote.status == Active && Accepts(policy, Lookup(before.live, slot), quote, observed))
  {
    var after := ApplyOne(policy, before, quote, observed);
    if Accepts(policy, Lookup(before.live, KeyOf(quote)), quote, observed) {
      assert after.accepted[|before.accepted|] in after.accepted;
      assert forall v :: v in after.accepted <==> v in before.accepted || v == after.accepted[|before.accepted|];
    }
  }

  /** The stream of a slot in the middle of a batch. */
  ghost function StreamIn(batch: Batch, slot: QuoteKey, suppressed: bool): Stream {
    Stream(Lookup(batch.live, slot), suppressed && !Revives(batch.accepted, slot))
  }

  lemma SlotStep(policy: FreshnessPolicy, before: Batch, quote: OddsQuote, observed: Instant, slot: QuoteKey,
                 suppressed: bool)
    ensures StreamIn(ApplyOne(policy, before, quote, observed), slot, suppressed)
            == if KeyOf(quote) == slot then StreamOffer(policy, StreamIn(before, slot, suppressed), quote, observed)
               else StreamIn(before, slot, suppressed)
  {
    hide Revives, Judge;
    AcceptedGrows(policy, before, quote, observed, slot);
  }

  /** Inside one store, a slot sees only its own quotes. */
  lemma {:induction false} SlotOnItsOwn(policy: FreshnessPolicy, live: LiveState, quotes: seq<OddsQuote>,
                                        observed: Instant, slot: QuoteKey, suppressed: bool)
    ensures StreamOffers(policy, Stream(Lookup(live, slot), suppressed), Filter(quotes, InSlot(slot)), observed)
            == StreamIn(ApplyAll(policy, live, quotes, observed), slot, suppressed)
  {
    hide ApplyOne, StreamOffer, KeyOf;
    if |quotes| > 0 {
      var n := |quotes| - 1;
      SlotOnItsOwn(policy, live, quotes[..n], observed, slot, suppressed);
      SlotStep(policy, ApplyAll(policy, live, quotes[..n], observed), quotes[n], observed, slot, suppressed);
      var filtered := Filter(quotes[..n], InSlot(slot));
      assert (filtered + [quotes[n]])[..|filtered|] == filtered;
    }
  }

  /** What happened to one transport after the transports in `order`. */
  ghost predicate TransportSettled(policy: FreshnessPolicy, feed: FeedState, quotes: seq<OddsQuote>, observed: Instant,
                                   order: seq<Id>, transport: Id)
  {
    var after := ApplyTransports(policy, feed, quotes, observed, order);
    var batch := StoreApply(policy, StoreOf(feed.stores, transport), OfTransport(quotes, transport), observed);
    && StoreOf(after.stores, transport) == (if transport in order then batch.live else StoreOf(feed.stores, transport))
    && forall slot :: var key := ObservationKey(transport, slot);
         key in after.invalidated <==> key in feed.invalidated && !(transport in order && Revives(batch.accepted, slot))
  }

  lemma {:induction false} TransportOnItsOwn(policy: FreshnessPolicy, feed: FeedState, quotes: seq<OddsQuote>,
                                             observed: Instant, order: seq<Id>, transport: Id)
    requires WellPlaced(feed.stores)
    requires forall i, j :: 0 <= i < j < |order| ==> order[i] != order[j]
    ensures TransportSettled(policy, feed, quotes, observed, order, transport)
  {
    if |order| > 0 {
      var n := |order| - 1;
      var t := order[n];
      assert order == order[..n] + [t];
      TransportOnItsOwn(policy, feed, quotes, observed, order[..n], transport);
      TransportOnItsOwn(policy, feed, quotes, observed, order[..n], t);
      var before := ApplyTransports(policy, feed, quotes, observed, order[..n]);
      var batch := StoreApply(policy, StoreOf(feed.stores, t), OfTransport(quotes, t), observed);
      AcceptedOfTransport(policy, StoreOf(feed.stores, t), quotes, observed, t);
      forall slot
        ensures ObservationKey(transport, slot) in ActiveKeys(batch.accepted)
                <==> transport == t && Revives(batch.accepted, slot)
      {
        if transport == t && Revives(batch.accepted, slot) {
          var v :| v in batch.accepted && v.key == slot && v.quote.status == Active;
          assert ObservationOf(v.quote) == ObservationKey(t, slot);
        }
      }
    }
  }

  lemma AcceptedOfTransport(policy: FreshnessPolicy, live: LiveState, quotes: seq<OddsQuote>, observed: Instant,
                            transport: Id)
    requires Consistent(live) && forall key :: key in live ==> live[key].quote.transport == transport
    ensures forall v :: v in StoreApply(policy, live, OfTransport(quotes, transport), observed).accepted ==>
                          v.quote.transport == transport && v.key == KeyOf(v.quote)
  {
    FilterMembers(quotes, (quote: OddsQuote) => quote.transport == transport);
    StoreApplyPlaced(policy, live, OfTransport(quotes, transport), observed, transport);
    AcceptedKeys(policy, live, SortBy(OfTransport(quotes, transport), ByArrival), observed);
  }

  lemma {:induction false} AcceptedKeys(policy: FreshnessPolicy, live: LiveState, quotes: seq<OddsQuote>,
                                        observed: Instant)
    ensures forall v :: v in ApplyAll(policy, live, quotes, observed).accepted ==> v.key == KeyOf(v.quote)
  {
    if |quotes| > 0 {
      AcceptedKeys(policy, live, quotes[..|quotes| - 1], observed);
    }
  }

  /** One step of the store is one step of every stream. */
  lemma StreamsStep(policy: FreshnessPolicy, feed: FeedState, op: FeedOp, key: ObservationKey)
    requires WellPlaced(feed.stores)
    ensures StreamOf(Step(policy, feed, op), key) == StreamStep(policy, StreamOf(feed, key), op, key)
  {
    if op.Offer? {
      OfferStep(policy, feed, op.quotes, op.observed, key);
    }
  }

  lemma OfferStep(policy: FreshnessPolicy, feed: FeedState, quotes: seq<OddsQuote>, observed: Instant,
                  key: ObservationKey)
    requires WellPlaced(feed.stores)
    ensures StreamOf(AfterBatch(FeedApply(policy, feed, quotes, observed)), key)
            == StreamOffers(policy, StreamOf(feed, key), StreamQuotes(quotes, key), observed)
  {
    var order := TransportOrder(quotes);
    OrderDistinct(quotes);
    TransportOnItsOwn(policy, feed, quotes, observed, order, key.transport);
    var own := OfTransport(quotes, key.transport);
    SlotOnItsOwn(policy, StoreOf(feed.stores, key.transport), SortBy(own, ByArrival), observed, key.slot,
                 key in feed.invalidated);
    StreamQuotesOfTransport(quotes, key);
    if key.transport !in order {
      NoQuotesOfTransport(quotes, key.transport);
      assert Filter(own, InSlot(key.slot)) == [];
    }
  }

  lemma OrderDistinct(quotes: seq<OddsQuote>)
    ensures var order := TransportOrder(quotes);
      && (forall i, j :: 0 <= i < j < |order| ==> order[i] != order[j])
      && forall t :: t in order <==> t in TransportsOf(quotes)
  {
    var transports := Dedupe(TransportsOf(quotes));
    SortByMembers(transports, ByValue);
    forall i, j | 0 <= i < j < |transports|
      ensures ByValue(transports[i]) != ByValue(transports[j])
    {
      assert ByValue(transports[i])[0] != ByValue(transports[j])[0];
    }
    PermutationKeepsDistinctKeys(transports, TransportOrder(quotes), ByValue);
    var order := TransportOrder(quotes);
    forall i, j | 0 <= i < j < |order|
      ensures order[i] != order[j]
    {
      assert ByValue(order[i]) != ByValue(order[j]);
    }
  }

  lemma MemberTransport(quotes: seq<OddsQuote>, quote: OddsQuote)
    requires quote in quotes
    ensures quote.transport in TransportsOf(quotes)
  {
    var i :| 0 <= i < |quotes| && quotes[i] == quote;
    assert TransportsOf(quotes)[i] == quote.transport;
  }

  lemma NoQuotesOfTransport(quotes: seq<OddsQuote>, transport: Id)
    requires transport !in TransportsOf(quotes)
    ensures OfTransport(quotes, transport) == []
  {
    FilterMembers(quotes, (quote: OddsQuote) => quote.transport == transport);
    var own := OfTransport(quotes, transport);
    assert |own| > 0 ==> own[0] in own;
    if |own| > 0 {
      MemberTransport(quotes, own[0]);
      assert false;
    }
  }

  /** A stream's quotes are the slot's quotes among its transport's quotes. */
  lemma StreamQuotesOfTransport(quotes: seq<OddsQuote>, key: ObservationKey)
    ensures Filter(SortBy(OfTransport(quotes, key.transport), ByArrival), InSlot(key.slot)) == StreamQuotes(quotes, key)
  {
    var own := OfTransport(quotes, key.transport);
    FilterSortBy(own, ByArrival, InSlot(key.slot));
    FilterTwice(quotes, (quote: OddsQuote) => quote.transport == key.transport, InSlot(key.slot), BelongsTo(key));
  }

  // ----- A whole batch, by the fields of the quotes

  /** `ordered` holds the quotes of one transport. */
  ghost predicate OwnQuotesOf(ordered: seq<OddsQuote>, quotes: seq<OddsQuote>, transport: Id) {
    forall q :: multiset(ordered)[q] == if q.transport == transport then multiset(quotes)[q] else 0
  }

  /** At some turn an active quote of this bookmaker and selection was newly held. */
  ghost predicate RevivedBy(turns: seq<Turn>, ordered: seq<OddsQuote>, slot: QuoteKey) {
    exists i :: 0 <= i < |turns| && i < |ordered| && (turns[i].verdict.Added? || turns[i].verdict.Updated?)
                && ordered[i].status == Active && ordered[i].provider == slot.provider
                && ordered[i].event == slot.event && ordered[i].market == slot.market
                && ordered[i].selection == slot.selection
  }

  lemma RevivedStep(turns: seq<Turn>, turn: Turn, ordered: seq<OddsQuote>, quote: OddsQuote, slot: QuoteKey)
    requires |turns| == |ordered|
    ensures RevivedBy(turns + [turn], ordered + [quote], slot) <==>
      || RevivedBy(turns, ordered, slot)
      || RevivedBy([turn], [quote], slot)
  {
    var longer, more := turns + [turn], ordered + [quote];
    assert longer[|turns|] == turn && more[|turns|] == quote;
    assert forall i :: 0 <= i < |turns| ==> longer[i] == turns[i] && more[i] == ordered[i];
  }

  lemma NobodyRevived(slot: QuoteKey)
    ensures !Revives(NewlyHeld([], []), slot) && !RevivedBy([], [], slot)
  {
  }

  lemma TurnsMatch(turns: seq<Turn>, policy: FreshnessPolicy, live: LiveState, ordered: seq<OddsQuote>,
                   observed: Instant)
    requires TakeTurns(turns, policy, live, ordered, observed)
    ensures |turns| == |ordered|
  {
  }

  lemma {:induction false} TurnsPrefix(turns: seq<Turn>, policy: FreshnessPolicy, live: LiveState,
                                       ordered: seq<OddsQuote>, observed: Instant)
    requires |turns| > 0 && TakeTurns(turns, policy, live, ordered, observed)
    ensures var n := |turns| - 1;
      && n < |ordered|
      && TakeTurns(turns[..n], policy, live, ordered[..n], observed)
      && IsTurn(turns[n], policy, LiveBefore(live, turns, n), ordered[n], observed)
  {
    hide IsTurn;
    var n := |turns| - 1;
    forall i | 0 <= i < n
      ensures IsTurn(turns[..n][i], policy, LiveBefore(live, turns[..n], i), ordered[..n][i], observed)
    {
      assert IsTurn(turns[i], policy, LiveBefore(live, turns, i), ordered[i], observed);
    }
  }

  lemma {:induction false} NewlyHeldRevives(turns: seq<Turn>, policy: FreshnessPolicy, live: LiveState,
                                            ordered: seq<OddsQuote>, observed: Instant, slot: QuoteKey)
    requires TakeTurns(turns, policy, live, ordered, observed)
    ensures Revives(NewlyHeld(turns, ordered), slot) <==> RevivedBy(turns, ordered, slot)
  {
    hide IsTurn, TakeTurns, NewlyHeld, RevivedBy, Revives;
    NobodyRevived(slot);
    TurnsMatch(turns, policy, live, ordered, observed);
    if |turns| == 0 {
      assert turns == [] && ordered == [];
    } else {
      var n := |turns| - 1;
      assert turns == turns[..n] + [turns[n]] && ordered == ordered[..n] + [ordered[n]];
      TurnsPrefix(turns, policy, live, ordered, observed);
      NewlyHeldRevives(turns[..n], policy, live, ordered[..n], observed, slot);
      RevivedStep(turns[..n], turns[n], ordered[..n], ordered[n], slot);
      LastHeld(turns, policy, live, ordered, observed, slot);
    }
  }

  lemma {:induction false} LastHeld(turns: seq<Turn>, policy: FreshnessPolicy, live: LiveState,
                                    ordered: seq<OddsQuote>, observed: Instant, slot: QuoteKey)
    requires |turns| == |ordered| > 0
    requires var n := |turns| - 1; IsTurn(turns[n], policy, LiveBefore(live, turns, n), ordered[n], observed)
    ensures var n := |turns| - 1;
      Revives(NewlyHeld(turns, ordered), slot) <==>
      Revives(NewlyHeld(turns[..n], ordered[..n]), slot) || RevivedBy([turns[n]], [ordered[n]], slot)
  {
    hide Decides, Notes;
    var n := |turns| - 1;
    var before, after := NewlyHeld(turns[..n], ordered[..n]), NewlyHeld(turns, ordered);
    var q := ordered[n];
    var key := QuoteKey(q.provider, q.event, q.market, q.selection);
    if turns[n].verdict.Added? || turns[n].verdict.Updated? {
      assert after == before + [turns[n].live[key]] && turns[n].live[key].quote == q;
      assert forall v :: v in after <==> v in before || v == turns[n].live[key];
    }
    assert [turns[n]][0] == turns[n] && [q][0] == q;
  }

  lemma StoreTakesTurns(policy: FreshnessPolicy, live: LiveState, quotes: seq<OddsQuote>, observed: Instant)
    returns (ordered: seq<OddsQuote>, turns: seq<Turn>)
    requires Consistent(live)
    ensures InArrivalOrder(ordered, quotes) && TakeTurns(turns, policy, live, ordered, observed)
    ensures var batch := StoreApply(policy, live, quotes, observed);
      && batch.live == LiveBefore(live, turns, |turns|)
      && forall slot :: Revives(batch.accepted, slot) <==> RevivedBy(turns, ordered, slot)
  {
    hide TakeTurns, AddsUp, InArrivalOrder, RevivedBy, Revives, ApplyAll;
    ordered := SortBy(quotes, ByArrival);
    ArrivalOrder(quotes);
    turns := BatchMeans(policy, live, ordered, observed);
    BatchEnds(StoreApply(policy, live, quotes, observed), turns, live, ordered);
    forall slot
      ensures Revives(StoreApply(policy, live, quotes, observed).accepted, slot) <==> RevivedBy(turns, ordered, slot)
    {
      NewlyHeldRevives(turns, policy, live, ordered, observed, slot);
    }
  }

  /** One transport's quotes, in arrival order. */
  lemma OwnInOrder(ordered: seq<OddsQuote>, quotes: seq<OddsQuote>, transport: Id)
    requires InArrivalOrder(ordered, OfTransport(quotes, transport))
    ensures OwnQuotesOf(ordered, quotes, transport)
  {
    FilterCounts(quotes, (quote: OddsQuote) => quote.transport == transport);
  }

  /**
    What a batch does to one transport: its own quotes take their turns in arrival order, and
    an invalidation is lifted exactly when an active quote of its stream was newly held.
   */
  lemma TransportTakesTurns(policy: FreshnessPolicy, feed: FeedState, quotes: seq<OddsQuote>, observed: Instant,
                            transport: Id)
    returns (ordered: seq<OddsQuote>, turns: seq<Turn>)
    requires WellPlaced(feed.stores)
    ensures OwnQuotesOf(ordered, quotes, transport) && InArrivalOrder(ordered, ordered)
    ensures var start := StoreOf(feed.stores, transport);
      var after := AfterBatch(FeedApply(policy, feed, quotes, observed));
      && TakeTurns(turns, policy, start, ordered, observed)
      && StoreOf(after.stores, transport) == LiveBefore(start, turns, |turns|)
      && forall slot :: var key := ObservationKey(transport, slot);
           key in after.invalidated <==> key in feed.invalidated && !RevivedBy(turns, ordered, slot)
  {
    hide TakeTurns, InArrivalOrder, RevivedBy, Revives, ApplyTransports, StoreApply, OwnQuotesOf, OfTransport,
      TransportOrder, LiveBefore;
    var own, start := OfTransport(quotes, transport), StoreOf(feed.stores, transport);
    ordered, turns := StoreTakesTurns(policy, start, own, observed);
    OrderOfPermutation(ordered, own);
    OwnInOrder(ordered, quotes, transport);
    OrderDistinct(quotes);
    TransportOnItsOwn(policy, feed, quotes, observed, TransportOrder(quotes), transport);
    if transport !in TransportOrder(quotes) {
      NoQuotesOfTransport(quotes, transport);
      NothingInOrder(ordered);
      NoTurnsTaken(policy, start, turns, observed);
    }
  }

  lemma NothingInOrder(ordered: seq<OddsQuote>)
    requires InArrivalOrder(ordered, [])
    ensures ordered == []
  {
    assert |multiset(ordered)| == 0;
  }

  lemma OrderOfPermutation(ordered: seq<OddsQuote>, quotes: seq<OddsQuote>)
    requires InArrivalOrder(ordered, quotes)
    ensures InArrivalOrder(ordered, ordered)
  {
    hide KeyLess;
  }

  lemma NoTurnsTaken(policy: FreshnessPolicy, live: LiveState, turns: seq<Turn>, observed: Instant)
    requires TakeTurns(turns, policy, live, [], observed)
    ensures LiveBefore(live, turns, |turns|) == live && forall slot :: !RevivedBy(turns, [], slot)
  {
  }

  // ----- What can be observed

  /** The fresh, uninvalidated quote of a stream. */
  function FreshQuote(policy: FreshnessPolicy, stream: Stream, asOf: Instant): Option<OddsQuote> {
    if stream.version.Some? && Fresh(policy, stream.version.value.quote, asOf) && !stream.suppressed
    then Some(stream.version.value.quote) else None
  }

  /** Every stream offers the same fresh quote on both sides. */
  ghost predicate SameView(policy: FreshnessPolicy, a: FeedState, b: FeedState, asOf: Instant) {
    forall key :: FreshQuote(policy, StreamOf(a, key), asOf) == FreshQuote(policy, StreamOf(b, key), asOf)
  }

  /** Two feeds look the same exactly when they list the same fresh observations. */
  lemma SameViewIffSameLists(policy: FreshnessPolicy, a: FeedState, b: FeedState, asOf: Instant, xs: seq<QuoteVersion>,
                             ys: seq<QuoteVersion>)
    requires WellPlaced(a.stores) && WellPlaced(b.stores)
    requires ListsFresh(xs, policy, a, asOf) && ListsFresh(ys, policy, b, asOf)
    ensures SameView(policy, a, b, asOf) <==> Quotes(xs) == Quotes(ys)
  {
    FreshMembers(policy, a, asOf, xs);
    FreshMembers(policy, b, asOf, ys);
    if SameView(policy, a, b, asOf) {
      StrictlySortedUnique(Quotes(xs), Quotes(ys), ByFeedOrder);
    }
    if Quotes(xs) == Quotes(ys) {
      forall key
        ensures FreshQuote(policy, StreamOf(a, key), asOf) == FreshQuote(policy, StreamOf(b, key), asOf)
      {
        FreshQuoteKey(policy, a, key, asOf);
        FreshQuoteKey(policy, b, key, asOf);
      }
    }
  }

  /** A stream's fresh quote is an observation of that stream. */
  lemma FreshQuoteKey(policy: FreshnessPolicy, feed: FeedState, key: ObservationKey, asOf: Instant)
    requires WellPlaced(feed.stores)
    ensures var seen := FreshQuote(policy, StreamOf(feed, key), asOf); seen.Some? ==> ObservationOf(seen.value) == key
  {
  }

  lemma FreshMembers(policy: FreshnessPolicy, feed: FeedState, asOf: Instant, versions: seq<QuoteVersion>)
    requires WellPlaced(feed.stores)
    requires ListsFresh(versions, policy, feed, asOf)
    ensures forall q :: q in Quotes(versions) <==> FreshQuote(policy, StreamOf(feed, ObservationOf(q)), asOf) == Some(q)
    ensures StrictlySortedBy(Quotes(versions), ByFeedOrder)
  {
    forall q
      ensures q in Quotes(versions) <==> FreshQuote(policy, StreamOf(feed, ObservationOf(q)), asOf) == Some(q)
    {
      if q in Quotes(versions) {
        var i :| 0 <= i < |versions| && Quotes(versions)[i] == q;
        assert versions[i] in versions;
        var t :| IsFreshVersion(versions[i], t, policy, feed, asOf);
      }
      var key := ObservationOf(q);
      if FreshQuote(policy, StreamOf(feed, key), asOf) == Some(q) {
        var v := feed.stores[key.transport][key.slot];
        assert IsFreshVersion(v, key.transport, policy, feed, asOf);
        assert v in versions;
        var i :| 0 <= i < |versions| && versions[i] == v;
        assert Quotes(versions)[i] == q;
      }
    }
    forall i, j | 0 <= i < j < |versions|
      ensures KeyLess(ByFeedOrder(Quotes(versions)[i]), ByFeedOrder(Quotes(versions)[j]))
    {
      assert KeyLess(ByVersion(versions[i]), ByVersion(versions[j]));
    }
  }
}
