/**
  When eviction can be observed. Evicting a version matters only while something it would
  have rejected could still be fresh: a version that is old enough leaves nothing behind,
  and a recent inactive one always can be told apart.
 */
module EvictionLaws {
  import opened Wrappers
  import opened Ordering
  import opened Collections
  import opened Domain
  import opened LiveQuotes
  import opened Consolidation
  import opened MultiSource
  import opened FeedRuns

  // ----- Streams that look alike

  /** The oldest effective instant that is not stale at `asOf`. */
  function Horizon(policy: FreshnessPolicy, asOf: Instant): Instant {
    if asOf < policy.window then 0 else asOf - policy.window
  }

  /** Missing, or too old to be fresh or to reject anything that is fresh. */
  predicate Faded(version: Option<QuoteVersion>, horizon: Instant) {
    version.Some? ==>
      && version.value.quote.Effective() <= horizon
      && (version.value.quote.status == Active ==> version.value.quote.Effective() < horizon)
  }

  /** The same quote on both sides, or faded on both. */
  predicate Alike(a: Stream, b: Stream, horizon: Instant) {
    || (&& a.version.Some? && b.version.Some? && a.version.value.quote == b.version.value.quote
        && (a.version.value.quote.status == Active ==> a.suppressed == b.suppressed))
    || (Faded(a.version, horizon) && Faded(b.version, horizon))
  }

  lemma OfferKeepsAlike(policy: FreshnessPolicy, a: Stream, b: Stream, horizon: Instant, quote: OddsQuote,
                        observed: Instant)
    requires Alike(a, b, horizon)
    ensures Alike(StreamOffer(policy, a, quote, observed), StreamOffer(policy, b, quote, observed), horizon)
  {
    if !Faded(a.version, horizon) || !Faded(b.version, horizon) {
      assert Accepts(policy, a.version, quote, observed) <==> Accepts(policy, b.version, quote, observed);
    }
  }

  lemma {:induction false} OffersKeepAlike(policy: FreshnessPolicy, a: Stream, b: Stream, horizon: Instant,
                                           quotes: seq<OddsQuote>, observed: Instant)
    requires Alike(a, b, horizon)
    ensures Alike(StreamOffers(policy, a, quotes, observed), StreamOffers(policy, b, quotes, observed), horizon)
  {
    hide Alike, StreamOffer;
    if |quotes| > 0 {
      var n := |quotes| - 1;
      OffersKeepAlike(policy, a, b, horizon, quotes[..n], observed);
      OfferKeepsAlike(policy, StreamOffers(policy, a, quotes[..n], observed),
                      StreamOffers(policy, b, quotes[..n], observed), horizon, quotes[n], observed);
    }
  }

  /** The same operation on both sides, an eviction included, keeps them alike. */
  lemma StepKeepsAlike(policy: FreshnessPolicy, a: Stream, b: Stream, horizon: Instant, op: FeedOp, key: ObservationKey)
    requires Alike(a, b, horizon)
    ensures Alike(StreamStep(policy, a, op, key), StreamStep(policy, b, op, key), horizon)
  {
    if op.Offer? {
      OffersKeepAlike(policy, a, b, horizon, StreamQuotes(op.quotes, key), op.observed);
    }
  }

  /** What is evicted is active and stale, or so old that nothing it would reject is fresh. */
  predicate HarmlessFor(policy: FreshnessPolicy, version: Option<QuoteVersion>, asOf: Instant) {
    version.Some? && version.value.quote.status != Active ==> version.value.quote.Effective() <= Horizon(policy, asOf)
  }

  /** Evicting on one side only keeps the sides alike from the eviction's horizon on. */
  lemma EvictOneSide(policy: FreshnessPolicy, a: Stream, b: Stream, horizon: Instant, asOf: Instant)
    requires Alike(a, b, horizon) && horizon <= Horizon(policy, asOf)
    requires HarmlessFor(policy, a.version, asOf)
    ensures Alike(StreamEvict(policy, a, asOf), b, Horizon(policy, asOf))
  {
  }

  lemma AlikeLooksSame(policy: FreshnessPolicy, a: Stream, b: Stream, horizon: Instant, moment: Instant)
    requires Alike(a, b, horizon) && horizon <= Horizon(policy, moment)
    ensures FreshQuote(policy, a, moment) == FreshQuote(policy, b, moment)
  {
  }

  // ----- One eviction

  /** No recent inactive version is stored. */
  ghost predicate Harmless(policy: FreshnessPolicy, feed: FeedState, asOf: Instant) {
    forall key :: HarmlessFor(policy, StreamOf(feed, key).version, asOf)
  }

  /** Whatever comes later, at no instant from `asOf` on can it be told whether the eviction took place. */
  ghost predicate Unobservable(policy: FreshnessPolicy, feed: FeedState, asOf: Instant) {
    forall later: seq<FeedOp>, moment: Instant :: asOf <= moment ==>
      SameView(policy, Run(policy, FeedEvict(policy, feed, asOf), later), Run(policy, feed, later), moment)
  }

  lemma {:induction false} RunsStayAlike(policy: FreshnessPolicy, a: FeedState, b: FeedState, horizon: Instant,
                                         later: seq<FeedOp>, key: ObservationKey)
    requires WellPlaced(a.stores) && WellPlaced(b.stores) && Alike(StreamOf(a, key), StreamOf(b, key), horizon)
    ensures Alike(StreamOf(Run(policy, a, later), key), StreamOf(Run(policy, b, later), key), horizon)
  {
    hide Alike, StreamOf, StreamStep, Step;
    if |later| > 0 {
      var n := |later| - 1;
      RunsStayAlike(policy, a, b, horizon, later[..n], key);
      RunPlaced(policy, a, later[..n]);
      RunPlaced(policy, b, later[..n]);
      StreamsStep(policy, Run(policy, a, later[..n]), later[n], key);
      StreamsStep(policy, Run(policy, b, later[..n]), later[n], key);
      StepKeepsAlike(policy, StreamOf(Run(policy, a, later[..n]), key), StreamOf(Run(policy, b, later[..n]), key),
                     horizon, later[n], key);
    }
  }

  /** An eviction is unobservable exactly when no inactive version above the horizon is stored. */
  lemma UnobservableIffHarmless(policy: FreshnessPolicy, feed: FeedState, asOf: Instant)
    requires WellPlaced(feed.stores)
    ensures Unobservable(policy, feed, asOf) <==> Harmless(policy, feed, asOf)
  {
    if Harmless(policy, feed, asOf) {
      forall later: seq<FeedOp>, moment: Instant | asOf <= moment
        ensures SameView(policy, Run(policy, FeedEvict(policy, feed, asOf), later), Run(policy, feed, later), moment)
      {
        HarmlessIsUnobservable(policy, feed, asOf, later, moment);
      }
    } else {
      var key :| !HarmlessFor(policy, StreamOf(feed, key).version, asOf);
      RevivalTells(policy, feed, asOf, key);
    }
  }

  lemma HorizonAscends(policy: FreshnessPolicy, asOf: Instant, moment: Instant)
    requires asOf <= moment
    ensures Horizon(policy, asOf) <= Horizon(policy, moment)
  {
  }

  lemma AlikeAfterEviction(policy: FreshnessPolicy, feed: FeedState, asOf: Instant, key: ObservationKey)
    requires WellPlaced(feed.stores) && HarmlessFor(policy, StreamOf(feed, key).version, asOf)
    ensures Alike(StreamOf(FeedEvict(policy, feed, asOf), key), StreamOf(feed, key), Horizon(policy, asOf))
  {
    hide FeedEvict, StreamOf;
    StreamsStep(policy, feed, Evict(asOf), key);
    EvictOneSide(policy, StreamOf(feed, key), StreamOf(feed, key), 0, asOf);
  }

  lemma EvictPlaced(policy: FreshnessPolicy, feed: FeedState, asOf: Instant)
    requires WellPlaced(feed.stores)
    ensures WellPlaced(FeedEvict(policy, feed, asOf).stores)
  {
  }

  lemma HarmlessIsUnobservable(policy: FreshnessPolicy, feed: FeedState, asOf: Instant, later: seq<FeedOp>,
                               moment: Instant)
    requires WellPlaced(feed.stores) && Harmless(policy, feed, asOf) && asOf <= moment
    ensures SameView(policy, Run(policy, FeedEvict(policy, feed, asOf), later), Run(policy, feed, later), moment)
  {
    hide FreshQuote, StreamOf, Alike, StreamEvict, FeedEvict, Run, HarmlessFor, Horizon;
    var evicted := FeedEvict(policy, feed, asOf);
    EvictPlaced(policy, feed, asOf);
    HorizonAscends(policy, asOf, moment);
    forall key
      ensures FreshQuote(policy, StreamOf(Run(policy, evicted, later), key), moment)
              == FreshQuote(policy, StreamOf(Run(policy, feed, later), key), moment)
    {
      AlikeAfterEviction(policy, feed, asOf, key);
      RunsStayAlike(policy, evicted, feed, Horizon(policy, asOf), later, key);
      AlikeLooksSame(policy, StreamOf(Run(policy, evicted, later), key), StreamOf(Run(policy, feed, later), key),
                     Horizon(policy, asOf), moment);
    }
  }

  /** The quote made active again as of the horizon, ingested at the first instant. */
  function Revived(quote: OddsQuote, horizon: Instant): OddsQuote {
    quote.(status := Active, ingestedAt := 0, sourceTimestamp := Some(horizon))
  }

  /** An emptied stream takes the revived quote; a stream with the inactive version rejects it. */
  lemma RevivalDiffers(policy: FreshnessPolicy, stream: Stream, asOf: Instant)
    requires !HarmlessFor(policy, stream.version, asOf)
    ensures var quote := Revived(stream.version.value.quote, Horizon(policy, asOf));
      && FreshQuote(policy, StreamOffer(policy, StreamEvict(policy, stream, asOf), quote, asOf), asOf) == Some(quote)
      && FreshQuote(policy, StreamOffer(policy, stream, quote, asOf), asOf) == None
  {
  }

  /** Offering an inactive version's quote as active at the horizon tells whether the version was evicted. */
  lemma RevivalTells(policy: FreshnessPolicy, feed: FeedState, asOf: Instant, key: ObservationKey)
    requires WellPlaced(feed.stores) && !HarmlessFor(policy, StreamOf(feed, key).version, asOf)
    ensures !Unobservable(policy, feed, asOf)
  {
    hide FreshQuote, StreamOffer, StreamEvict, Run;
    var quote := Revived(StreamOf(feed, key).version.value.quote, Horizon(policy, asOf));
    var later, evicted := [Offer([quote], asOf)], FeedEvict(policy, feed, asOf);
    assert ObservationOf(quote) == key;
    StreamsStep(policy, feed, Evict(asOf), key);
    EvictIsStep(policy, StreamOf(feed, key), Evict(asOf), key);
    OfferedAlone(policy, evicted, quote, asOf, key);
    OfferedAlone(policy, feed, quote, asOf, key);
    RevivalDiffers(policy, StreamOf(feed, key), asOf);
    assert !SameView(policy, Run(policy, evicted, later), Run(policy, feed, later), asOf);
  }

  /** A batch of one quote offers it to its stream. */
  lemma OfferedAlone(policy: FreshnessPolicy, feed: FeedState, quote: OddsQuote, now: Instant, key: ObservationKey)
    requires WellPlaced(feed.stores) && ObservationOf(quote) == key
    ensures StreamOf(Run(policy, feed, [Offer([quote], now)]), key)
            == StreamOffer(policy, StreamOf(feed, key), quote, now)
  {
    hide StreamOf, Run, StreamQuotes, StreamOffer, StreamOffers, ObservationOf;
    RunOnce(policy, feed, Offer([quote], now));
    OfferStep(policy, feed, [quote], now, key);
    SingleStreamQuotes(quote, key);
    SingleStreamOffer(policy, StreamOf(feed, key), quote, now);
  }

  lemma RunOnce(policy: FreshnessPolicy, feed: FeedState, op: FeedOp)
    ensures Run(policy, feed, [op]) == Step(policy, feed, op)
  {
    assert [op][..0] == [];
  }

  lemma SingleStreamQuotes(quote: OddsQuote, key: ObservationKey)
    requires ObservationOf(quote) == key
    ensures StreamQuotes([quote], key) == [quote]
  {
    FilterSingle(quote, BelongsTo(key));
    assert [quote][..0] == [];
  }

  lemma SingleStreamOffer(policy: FreshnessPolicy, stream: Stream, quote: OddsQuote, observed: Instant)
    ensures StreamOffers(policy, stream, [quote], observed) == StreamOffer(policy, stream, quote, observed)
  {
    assert [quote][..0] == [];
  }

  // ----- An eviction in the middle of a run

  lemma {:induction false} RunConcat(policy: FreshnessPolicy, feed: FeedState, ops: seq<FeedOp>, later: seq<FeedOp>)
    ensures Run(policy, feed, ops + later) == Run(policy, Run(policy, feed, ops), later)
  {
    hide Step;
    if |later| == 0 {
      assert ops + later == ops;
    } else {
      var n := |later| - 1;
      assert (ops + later)[..|ops + later| - 1] == ops + later[..n];
      RunConcat(policy, feed, ops, later[..n]);
    }
  }

  /** The run `ops` with an eviction at `asOf` put after it. */
  function Inserted(ops: seq<FeedOp>, asOf: Instant, later: seq<FeedOp>): seq<FeedOp> {
    ops + [Evict(asOf)] + later
  }

  lemma InsertedRun(policy: FreshnessPolicy, ops: seq<FeedOp>, asOf: Instant, later: seq<FeedOp>)
    ensures Run(policy, EMPTY_FEED, Inserted(ops, asOf, later))
            == Run(policy, FeedEvict(policy, Run(policy, EMPTY_FEED, ops), asOf), later)
    ensures Run(policy, EMPTY_FEED, ops + later) == Run(policy, Run(policy, EMPTY_FEED, ops), later)
  {
    RunConcat(policy, EMPTY_FEED, ops, later);
    RunConcat(policy, EMPTY_FEED, ops, [Evict(asOf)]);
    RunConcat(policy, EMPTY_FEED, ops + [Evict(asOf)], later);
    RunOnce(policy, Run(policy, EMPTY_FEED, ops), Evict(asOf));
  }

  /** However the run continues, an eviction put after `ops` cannot be told from its instant on. */
  ghost predicate InsertionUnseen(policy: FreshnessPolicy, ops: seq<FeedOp>, asOf: Instant) {
    forall later: seq<FeedOp>, moment: Instant :: asOf <= moment ==>
      SameView(policy, Run(policy, EMPTY_FEED, Inserted(ops, asOf, later)), Run(policy, EMPTY_FEED, ops + later),
               moment)
  }

  /**
    An eviction put into a run can never be observed from its instant on, however the run
    continues, exactly when every inactive version it finds is at or before the horizon.
   */
  lemma InsertionUnseenIff(policy: FreshnessPolicy, ops: seq<FeedOp>, asOf: Instant)
    ensures InsertionUnseen(policy, ops, asOf) <==> Harmless(policy, Run(policy, EMPTY_FEED, ops), asOf)
  {
    hide SameView, Harmless, Run;
    var feed := Run(policy, EMPTY_FEED, ops);
    RunPlaced(policy, EMPTY_FEED, ops);
    UnobservableIffHarmless(policy, feed, asOf);
    if Unobservable(policy, feed, asOf) {
      forall later: seq<FeedOp>, moment: Instant | asOf <= moment
        ensures SameView(policy, Run(policy, EMPTY_FEED, Inserted(ops, asOf, later)),
                         Run(policy, EMPTY_FEED, ops + later), moment)
      {
        InsertedRun(policy, ops, asOf, later);
      }
    } else {
      var later: seq<FeedOp>, moment: Instant :| asOf <= moment &&
        !SameView(policy, Run(policy, FeedEvict(policy, feed, asOf), later), Run(policy, feed, later), moment);
      InsertedRun(policy, ops, asOf, later);
    }
  }

  /** One such case: an older active quote, which the suspended version would have rejected, is let in. */
  lemma InactiveEvictionIsVisible(policy: FreshnessPolicy, suspended: OddsQuote, older: OddsQuote, now: Instant)
    requires ObservationOf(suspended) == ObservationOf(older)
    requires suspended.status != Active && PassesClock(policy, suspended, now)
    requires Fresh(policy, older, now) && suspended.Effective() - older.Effective() > policy.tolerance
    ensures var key, first, last := ObservationOf(older), [Offer([suspended], now)], [Offer([older], now)];
      && FreshQuote(policy, StreamOf(Run(policy, EMPTY_FEED, Inserted(first, now, last)), key), now) == Some(older)
      && FreshQuote(policy, StreamOf(Run(policy, EMPTY_FEED, first + last), key), now) == None
  {
    hide Run;
    var key, first, last := ObservationOf(older), [Offer([suspended], now)], [Offer([older], now)];
    var feed := Run(policy, EMPTY_FEED, first);
    RunPlaced(policy, EMPTY_FEED, first);
    OfferedAlone(policy, EMPTY_FEED, suspended, now, key);
    StreamsStep(policy, feed, Evict(now), key);
    InsertedRun(policy, first, now, last);
    OfferedAlone(policy, feed, older, now, key);
    OfferedAlone(policy, FeedEvict(policy, feed, now), older, now, key);
  }

  /** A concrete pair of quotes for which it is visible. */
  lemma SuspendedSample() returns (policy: FreshnessPolicy, suspended: OddsQuote, older: OddsQuote, now: Instant)
    ensures ObservationOf(suspended) == ObservationOf(older)
    ensures suspended.status == Suspended && PassesClock(policy, suspended, now)
    ensures Fresh(policy, older, now) && suspended.Effective() - older.Effective() > policy.tolerance
  {
    policy, now := FreshnessPolicy(50, 0), 100;
    suspended := OddsQuote(1, 1, 1, 1, 1, 2.0, 1, 1, 1, 100, Suspended, None, 1, 0);
    older := OddsQuote(2, 1, 1, 1, 1, 2.0, 1, 1, 1, 90, Active, None, 1, 0);
  }

  // ----- Whole runs

  /** Evictions happen at instants that never go back, none after `limit`. */
  predicate EvictionsAscend(ops: seq<FeedOp>, limit: Instant) {
    && (forall i :: 0 <= i < |ops| && ops[i].Evict? ==> ops[i].asOf <= limit)
    && forall i, j :: 0 <= i < j < |ops| && ops[i].Evict? && ops[j].Evict? ==> ops[i].asOf <= ops[j].asOf
  }

  function WithoutEvictions(ops: seq<FeedOp>): seq<FeedOp> {
    Filter(ops, (op: FeedOp) => !op.Evict?)
  }

  /** Every eviction of the run finds no recent inactive version. */
  ghost predicate EvictionsHarmless(policy: FreshnessPolicy, feed: FeedState, ops: seq<FeedOp>) {
    forall i :: 0 <= i < |ops| && ops[i].Evict? ==> Harmless(policy, Run(policy, feed, ops[..i]), ops[i].asOf)
  }

  /** That is exactly when none of its evictions, put where it is, could ever be observed. */
  lemma HarmlessIffUnseen(policy: FreshnessPolicy, ops: seq<FeedOp>)
    ensures EvictionsHarmless(policy, EMPTY_FEED, ops)
            <==> forall i :: 0 <= i < |ops| && ops[i].Evict? ==> InsertionUnseen(policy, ops[..i], ops[i].asOf)
  {
    hide InsertionUnseen, Harmless;
    forall i | 0 <= i < |ops| && ops[i].Evict?
      ensures InsertionUnseen(policy, ops[..i], ops[i].asOf)
              <==> Harmless(policy, Run(policy, EMPTY_FEED, ops[..i]), ops[i].asOf)
    {
      InsertionUnseenIff(policy, ops[..i], ops[i].asOf);
    }
  }

  /** The last instant at which a run evicted, or the first instant of all. */
  function LastEviction(ops: seq<FeedOp>): Instant {
    if |ops| == 0 then 0
    else if ops[|ops| - 1].Evict? then ops[|ops| - 1].asOf
    else LastEviction(ops[..|ops| - 1])
  }

  lemma {:induction false} LastEvictionBounds(ops: seq<FeedOp>, limit: Instant)
    requires EvictionsAscend(ops, limit)
    ensures LastEviction(ops) <= limit && EvictionsAscend(ops, LastEviction(ops))
  {
    if |ops| > 0 {
      var n := |ops| - 1;
      assert EvictionsAscend(ops[..n], limit);
      LastEvictionBounds(ops[..n], limit);
      assert forall i :: 0 <= i < n ==> ops[i] == ops[..n][i];
    }
  }

  lemma HarmlessPrefix(policy: FreshnessPolicy, feed: FeedState, ops: seq<FeedOp>)
    requires |ops| > 0 && EvictionsHarmless(policy, feed, ops)
    ensures EvictionsHarmless(policy, feed, ops[..|ops| - 1])
    ensures ops[|ops| - 1].Evict? ==> Harmless(policy, Run(policy, feed, ops[..|ops| - 1]), ops[|ops| - 1].asOf)
  {
    hide Harmless, Run;
    var init := ops[..|ops| - 1];
    forall i | 0 <= i < |init| && init[i].Evict?
      ensures Harmless(policy, Run(policy, feed, init[..i]), init[i].asOf)
    {
      assert init[..i] == ops[..i];
    }
  }

  /** After any run, every stream is alike with and without the evictions. */
  lemma {:induction false} StreamsAlike(policy: FreshnessPolicy, feed: FeedState, ops: seq<FeedOp>, key: ObservationKey,
                                        limit: Instant)
    requires WellPlaced(feed.stores) && EvictionsHarmless(policy, feed, ops) && EvictionsAscend(ops, limit)
    ensures Alike(StreamOf(Run(policy, feed, ops), key), StreamOf(Run(policy, feed, WithoutEvictions(ops)), key),
                  Horizon(policy, LastEviction(ops)))
  {
    hide Harmless, HarmlessFor, StreamOf, Step, StreamStep, Alike, EvictionsHarmless;
    if |ops| == 0 {
      SameIsAlike(StreamOf(feed, key), Horizon(policy, 0));
    } else {
      var n := |ops| - 1;
      var op, init := ops[n], ops[..n];
      LastEvictionBounds(ops, limit);
      HarmlessPrefix(policy, feed, ops);
      assert EvictionsAscend(init, limit) by {
        assert forall i :: 0 <= i < n ==> init[i] == ops[i];
      }
      StreamsAlike(policy, feed, init, key, limit);
      var before, kept := Run(policy, feed, init), Run(policy, feed, WithoutEvictions(init));
      RunPlaced(policy, feed, init);
      RunPlaced(policy, feed, WithoutEvictions(init));
      StreamsStep(policy, before, op, key);
      if op.Evict? {
        LastEvictionGrows(ops);
        HarmlessAt(policy, before, op.asOf, key);
        EvictOneSide(policy, StreamOf(before, key), StreamOf(kept, key), Horizon(policy, LastEviction(init)), op.asOf);
        EvictIsStep(policy, StreamOf(before, key), op, key);
      } else {
        var shorter := WithoutEvictions(init);
        assert (shorter + [op])[..|shorter|] == shorter;
        StreamsStep(policy, kept, op, key);
        StepKeepsAlike(policy, StreamOf(before, key), StreamOf(kept, key), Horizon(policy, LastEviction(init)), op,
                       key);
      }
    }
  }

  lemma SameIsAlike(stream: Stream, horizon: Instant)
    ensures Alike(stream, stream, horizon)
  {
  }

  lemma HarmlessAt(policy: FreshnessPolicy, feed: FeedState, asOf: Instant, key: ObservationKey)
    requires Harmless(policy, feed, asOf)
    ensures HarmlessFor(policy, StreamOf(feed, key).version, asOf)
  {
  }

  lemma EvictIsStep(policy: FreshnessPolicy, stream: Stream, op: FeedOp, key: ObservationKey)
    requires op.Evict?
    ensures StreamStep(policy, stream, op, key) == StreamEvict(policy, stream, op.asOf)
  {
  }

  lemma LastEvictionGrows(ops: seq<FeedOp>)
    requires |ops| > 0 && ops[|ops| - 1].Evict? && EvictionsAscend(ops, ops[|ops| - 1].asOf)
    ensures LastEviction(ops[..|ops| - 1]) <= ops[|ops| - 1].asOf
  {
    var init := ops[..|ops| - 1];
    assert forall i :: 0 <= i < |init| ==> init[i] == ops[i];
    LastEvictionBounds(init, ops[|ops| - 1].asOf);
  }

  /** From the last eviction on, a run with harmless evictions looks like the run without them. */
  lemma EvictionsUnseen(policy: FreshnessPolicy, feed: FeedState, ops: seq<FeedOp>, asOf: Instant)
    requires WellPlaced(feed.stores) && EvictionsHarmless(policy, feed, ops) && EvictionsAscend(ops, asOf)
    ensures SameView(policy, Run(policy, feed, ops), Run(policy, feed, WithoutEvictions(ops)), asOf)
  {
    hide Alike, EvictionsHarmless, StreamOf, Run;
    var a, b := Run(policy, feed, ops), Run(policy, feed, WithoutEvictions(ops));
    LastEvictionBounds(ops, asOf);
    forall key
      ensures FreshQuote(policy, StreamOf(a, key), asOf) == FreshQuote(policy, StreamOf(b, key), asOf)
    {
      StreamsAlike(policy, feed, ops, key, asOf);
      AlikeLooksSame(policy, StreamOf(a, key), StreamOf(b, key), Horizon(policy, LastEviction(ops)), asOf);
    }
  }

  /**
    Harmless evictions cannot be observed: after any run whose evictions ascend and each
    find no recent inactive version, the fresh observations and the executable quotes at
    any instant from the last eviction on are those of the same run without evictions.
   */
  lemma EvictionIsTransparent(policy: FreshnessPolicy, feed: FeedState, ops: seq<FeedOp>, asOf: Instant,
                              xs: seq<QuoteVersion>, ys: seq<QuoteVersion>)
    requires WellPlaced(feed.stores) && EvictionsHarmless(policy, feed, ops) && EvictionsAscend(ops, asOf)
    requires ListsFresh(xs, policy, Run(policy, feed, ops), asOf)
    requires ListsFresh(ys, policy, Run(policy, feed, WithoutEvictions(ops)), asOf)
    ensures Quotes(xs) == Quotes(ys)
    ensures Consolidated(Quotes(xs)) == Consolidated(Quotes(ys))
  {
    EvictionsUnseen(policy, feed, ops, asOf);
    RunPlaced(policy, feed, ops);
    RunPlaced(policy, feed, WithoutEvictions(ops));
    SameViewIffSameLists(policy, Run(policy, feed, ops), Run(policy, feed, WithoutEvictions(ops)), asOf, xs, ys);
  }

  // ----- Runs of active quotes

  predicate OnlyActive(ops: seq<FeedOp>) {
    forall i :: 0 <= i < |ops| && ops[i].Offer? ==>
      forall j :: 0 <= j < |ops[i].quotes| ==> ops[i].quotes[j].status == Active
  }

  predicate ActiveVersion(version: Option<QuoteVersion>) {
    version.Some? ==> version.value.quote.status == Active
  }

  lemma {:induction false} OffersStayActive(policy: FreshnessPolicy, stream: Stream, quotes: seq<OddsQuote>,
                                            observed: Instant)
    requires ActiveVersion(stream.version) && forall i :: 0 <= i < |quotes| ==> quotes[i].status == Active
    ensures ActiveVersion(StreamOffers(policy, stream, quotes, observed).version)
  {
    if |quotes| > 0 {
      OffersStayActive(policy, stream, quotes[..|quotes| - 1], observed);
    }
  }

  lemma ActiveStreamQuotes(quotes: seq<OddsQuote>, key: ObservationKey)
    requires forall j :: 0 <= j < |quotes| ==> quotes[j].status == Active
    ensures forall i :: 0 <= i < |StreamQuotes(quotes, key)| ==> StreamQuotes(quotes, key)[i].status == Active
  {
    FilterMembers(quotes, BelongsTo(key));
    SortByMembers(Filter(quotes, BelongsTo(key)), ByArrival);
    var own := StreamQuotes(quotes, key);
    forall i | 0 <= i < |own|
      ensures own[i].status == Active
    {
      assert own[i] in own;
      assert own[i] in Filter(quotes, BelongsTo(key));
      assert own[i] in quotes;
    }
  }

  lemma {:induction false} ActiveRun(policy: FreshnessPolicy, ops: seq<FeedOp>, key: ObservationKey)
    requires OnlyActive(ops)
    ensures ActiveVersion(StreamOf(Run(policy, EMPTY_FEED, ops), key).version)
  {
    if |ops| > 0 {
      var n := |ops| - 1;
      assert OnlyActive(ops[..n]);
      ActiveRun(policy, ops[..n], key);
      var before := Run(policy, EMPTY_FEED, ops[..n]);
      RunPlaced(policy, EMPTY_FEED, ops[..n]);
      StreamsStep(policy, before, ops[n], key);
      if ops[n].Offer? {
        ActiveStreamQuotes(ops[n].quotes, key);
        OffersStayActive(policy, StreamOf(before, key), StreamQuotes(ops[n].quotes, key), ops[n].observed);
      }
    }
  }

  /** In a run of active quotes every eviction is harmless, whenever it happens. */
  lemma ActiveRunsHarmless(policy: FreshnessPolicy, ops: seq<FeedOp>)
    requires OnlyActive(ops)
    ensures EvictionsHarmless(policy, EMPTY_FEED, ops)
  {
    forall i, key | 0 <= i < |ops| && ops[i].Evict?
      ensures HarmlessFor(policy, StreamOf(Run(policy, EMPTY_FEED, ops[..i]), key).version, ops[i].asOf)
    {
      assert OnlyActive(ops[..i]);
      ActiveRun(policy, ops[..i], key);
    }
  }
}
