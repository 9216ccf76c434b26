/**
  Whole runs of a single feed's store. Quotes of different transports share a slot here, so
  the laws of eviction are proved again slot by slot.
 */
module StoreLaws {
  import opened Wrappers
  import opened Ordering
  import opened Collections
  import opened Domain
  import opened LiveQuotes
  import opened Consolidation
  import opened FeedRuns
  import opened EvictionLaws

  // ----- Runs

  datatype LiveOp = Apply(quotes: seq<OddsQuote>, observed: Instant) | EvictStale(asOf: Instant)

  function LiveStep(policy: FreshnessPolicy, live: LiveState, op: LiveOp): LiveState {
    match op
    case Apply(quotes, observed) => StoreApply(policy, live, quotes, observed).live
    case EvictStale(asOf) => Kept(policy, live, asOf)
  }

  function LiveRun(policy: FreshnessPolicy, live: LiveState, ops: seq<LiveOp>): LiveState {
    if |ops| == 0 then live
    else LiveStep(policy, LiveRun(policy, live, ops[..|ops| - 1]), ops[|ops| - 1])
  }

  lemma {:induction false} LiveRunConsistent(policy: FreshnessPolicy, live: LiveState, ops: seq<LiveOp>)
    requires Consistent(live)
    ensures Consistent(LiveRun(policy, live, ops))
  {
    if |ops| > 0 {
      var n := |ops| - 1;
      LiveRunConsistent(policy, live, ops[..n]);
      if ops[n].Apply? {
        ApplyAllConsistent(policy, LiveRun(policy, live, ops[..n]), SortBy(ops[n].quotes, ByArrival), ops[n].observed);
      }
    }
  }

  // ----- One slot

  /** A slot of the store, as a stream that is never invalidated. */
  function SlotOf(live: LiveState, slot: QuoteKey): Stream {
    Stream(Lookup(live, slot), false)
  }

  function SlotQuotes(quotes: seq<OddsQuote>, slot: QuoteKey): seq<OddsQuote> {
    Filter(SortBy(quotes, ByArrival), InSlot(slot))
  }

  function SlotStepOf(policy: FreshnessPolicy, stream: Stream, op: LiveOp, slot: QuoteKey): Stream {
    match op
    case Apply(quotes, observed) => StreamOffers(policy, stream, SlotQuotes(quotes, slot), observed)
    case EvictStale(asOf) => StreamEvict(policy, stream, asOf)
  }

  /** One step of the store is one step of every slot. */
  lemma SlotsStep(policy: FreshnessPolicy, live: LiveState, op: LiveOp, slot: QuoteKey)
    ensures SlotOf(LiveStep(policy, live, op), slot) == SlotStepOf(policy, SlotOf(live, slot), op, slot)
  {
    if op.Apply? {
      SlotOnItsOwn(policy, live, SortBy(op.quotes, ByArrival), op.observed, slot, false);
    }
  }

  lemma SlotStepKeepsAlike(policy: FreshnessPolicy, a: Stream, b: Stream, horizon: Instant, op: LiveOp, slot: QuoteKey)
    requires Alike(a, b, horizon)
    ensures Alike(SlotStepOf(policy, a, op, slot), SlotStepOf(policy, b, op, slot), horizon)
  {
    if op.Apply? {
      OffersKeepAlike(policy, a, b, horizon, SlotQuotes(op.quotes, slot), op.observed);
    }
  }

  lemma {:induction false} LiveRunsStayAlike(policy: FreshnessPolicy, a: LiveState, b: LiveState, horizon: Instant,
                                             later: seq<LiveOp>, slot: QuoteKey)
    requires Alike(SlotOf(a, slot), SlotOf(b, slot), horizon)
    ensures Alike(SlotOf(LiveRun(policy, a, later), slot), SlotOf(LiveRun(policy, b, later), slot), horizon)
  {
    hide Alike, SlotOf, SlotStepOf, LiveStep;
    if |later| > 0 {
      var n := |later| - 1;
      LiveRunsStayAlike(policy, a, b, horizon, later[..n], slot);
      SlotsStep(policy, LiveRun(policy, a, later[..n]), later[n], slot);
      SlotsStep(policy, LiveRun(policy, b, later[..n]), later[n], slot);
      SlotStepKeepsAlike(policy, SlotOf(LiveRun(policy, a, later[..n]), slot),
                         SlotOf(LiveRun(policy, b, later[..n]), slot),
                         horizon, later[n], slot);
    }
  }

  // ----- What can be observed

  /** Every slot offers the same fresh quote on both sides. */
  ghost predicate SameLiveView(policy: FreshnessPolicy, a: LiveState, b: LiveState, asOf: Instant) {
    forall slot :: FreshQuote(policy, SlotOf(a, slot), asOf) == FreshQuote(policy, SlotOf(b, slot), asOf)
  }

  lemma FreshInSlots(policy: FreshnessPolicy, live: LiveState, asOf: Instant, versions: seq<QuoteVersion>)
    requires Consistent(live) && Lists(versions, live, FreshAt(policy, asOf))
    ensures forall q :: q in Quotes(versions) <==> FreshQuote(policy, SlotOf(live, KeyOf(q)), asOf) == Some(q)
    ensures StrictlySortedBy(Quotes(versions), ByQuoteSlot)
  {
    forall q
      ensures q in Quotes(versions) <==> FreshQuote(policy, SlotOf(live, KeyOf(q)), asOf) == Some(q)
    {
      if q in Quotes(versions) {
        var i :| 0 <= i < |versions| && Quotes(versions)[i] == q;
        assert versions[i] in versions;
      }
      if FreshQuote(policy, SlotOf(live, KeyOf(q)), asOf) == Some(q) {
        assert live[KeyOf(q)] in versions;
        var i :| 0 <= i < |versions| && versions[i] == live[KeyOf(q)];
        assert Quotes(versions)[i] == q;
      }
    }
    forall i, j | 0 <= i < j < |versions|
      ensures KeyLess(ByQuoteSlot(Quotes(versions)[i]), ByQuoteSlot(Quotes(versions)[j]))
    {
      assert versions[i] in versions && versions[j] in versions;
      assert KeyLess(BySlot(versions[i]), BySlot(versions[j]));
      assert BySlot(versions[i]) == ByQuoteSlot(versions[i].quote)
             && BySlot(versions[j]) == ByQuoteSlot(versions[j].quote);
    }
  }

  /** Two stores look the same exactly when they list the same fresh quotes. */
  lemma SameLiveViewIffSameLists(policy: FreshnessPolicy, a: LiveState, b: LiveState, asOf: Instant,
                                 xs: seq<QuoteVersion>, ys: seq<QuoteVersion>)
    requires Consistent(a) && Consistent(b)
    requires Lists(xs, a, FreshAt(policy, asOf)) && Lists(ys, b, FreshAt(policy, asOf))
    ensures SameLiveView(policy, a, b, asOf) <==> Quotes(xs) == Quotes(ys)
  {
    hide Lists;
    FreshInSlots(policy, a, asOf, xs);
    FreshInSlots(policy, b, asOf, ys);
    if SameLiveView(policy, a, b, asOf) {
      StrictlySortedUnique(Quotes(xs), Quotes(ys), ByQuoteSlot);
    }
    if Quotes(xs) == Quotes(ys) {
      forall slot
        ensures FreshQuote(policy, SlotOf(a, slot), asOf) == FreshQuote(policy, SlotOf(b, slot), asOf)
      {
        var inA, inB := FreshQuote(policy, SlotOf(a, slot), asOf), FreshQuote(policy, SlotOf(b, slot), asOf);
        assert inA.Some? ==> KeyOf(inA.value) == slot && inA.value in Quotes(xs);
        assert inB.Some? ==> KeyOf(inB.value) == slot && inB.value in Quotes(ys);
      }
    }
  }

  // ----- One eviction

  /** No recent inactive version is stored. */
  ghost predicate LiveHarmless(policy: FreshnessPolicy, live: LiveState, asOf: Instant) {
    forall slot :: HarmlessFor(policy, Lookup(live, slot), asOf)
  }

  /** Whatever comes later, at no instant from `asOf` on can it be told whether the eviction took place. */
  ghost predicate LiveUnobservable(policy: FreshnessPolicy, live: LiveState, asOf: Instant) {
    forall later: seq<LiveOp>, moment: Instant :: asOf <= moment ==>
      SameLiveView(policy, LiveRun(policy, Kept(policy, live, asOf), later), LiveRun(policy, live, later), moment)
  }

  /** In a single store too, only recent inactive versions make an eviction observable. */
  lemma LiveUnobservableIffHarmless(policy: FreshnessPolicy, live: LiveState, asOf: Instant)
    requires Consistent(live)
    ensures LiveUnobservable(policy, live, asOf) <==> LiveHarmless(policy, live, asOf)
  {
    if LiveHarmless(policy, live, asOf) {
      forall later: seq<LiveOp>, moment: Instant | asOf <= moment
        ensures SameLiveView(policy, LiveRun(policy, Kept(policy, live, asOf), later), LiveRun(policy, live, later),
                             moment)
      {
        LiveHarmlessIsUnobservable(policy, live, asOf, later, moment);
      }
    } else {
      var slot :| !HarmlessFor(policy, Lookup(live, slot), asOf);
      LiveRevivalTells(policy, live, asOf, slot);
    }
  }

  lemma LiveHarmlessIsUnobservable(policy: FreshnessPolicy, live: LiveState, asOf: Instant, later: seq<LiveOp>,
                                   moment: Instant)
    requires LiveHarmless(policy, live, asOf) && asOf <= moment
    ensures SameLiveView(policy, LiveRun(policy, Kept(policy, live, asOf), later), LiveRun(policy, live, later), moment)
  {
    hide Alike, LiveRun;
    var kept := Kept(policy, live, asOf);
    forall slot
      ensures FreshQuote(policy, SlotOf(LiveRun(policy, kept, later), slot), moment)
              == FreshQuote(policy, SlotOf(LiveRun(policy, live, later), slot), moment)
    {
      SlotsStep(policy, live, EvictStale(asOf), slot);
      SameIsAlike(SlotOf(live, slot), 0);
      EvictOneSide(policy, SlotOf(live, slot), SlotOf(live, slot), 0, asOf);
      LiveRunsStayAlike(policy, kept, live, Horizon(policy, asOf), later, slot);
      AlikeLooksSame(policy, SlotOf(LiveRun(policy, kept, later), slot), SlotOf(LiveRun(policy, live, later), slot),
                     Horizon(policy, asOf), moment);
    }
  }

  lemma LiveRevivalTells(policy: FreshnessPolicy, live: LiveState, asOf: Instant, slot: QuoteKey)
    requires Consistent(live) && !HarmlessFor(policy, Lookup(live, slot), asOf)
    ensures !LiveUnobservable(policy, live, asOf)
  {
    hide FreshQuote, StreamOffer, StreamEvict, LiveRun;
    var quote := Revived(live[slot].quote, Horizon(policy, asOf));
    var later, kept := [Apply([quote], asOf)], Kept(policy, live, asOf);
    assert KeyOf(quote) == slot;
    SlotsStep(policy, live, EvictStale(asOf), slot);
    AppliedAlone(policy, kept, quote, asOf);
    AppliedAlone(policy, live, quote, asOf);
    RevivalDiffers(policy, SlotOf(live, slot), asOf);
    assert !SameLiveView(policy, LiveRun(policy, kept, later), LiveRun(policy, live, later), asOf);
  }

  lemma AppliedAlone(policy: FreshnessPolicy, live: LiveState, quote: OddsQuote, now: Instant)
    ensures SlotOf(LiveRun(policy, live, [Apply([quote], now)]), KeyOf(quote))
            == StreamOffer(policy, SlotOf(live, KeyOf(quote)), quote, now)
  {
    hide StreamOffer, StreamOffers;
    var op := Apply([quote], now);
    assert [op][..0] == [];
    assert LiveRun(policy, live, [op]) == LiveStep(policy, live, op);
    SlotsStep(policy, live, op, KeyOf(quote));
    assert [quote][..0] == [];
    assert SortBy([quote], ByArrival) == [quote];
    FilterSingle(quote, InSlot(KeyOf(quote)));
    SingleStreamOffer(policy, SlotOf(live, KeyOf(quote)), quote, now);
  }

  // ----- Whole runs

  /** Evictions happen at instants that never go back, none after `limit`. */
  predicate LiveEvictionsAscend(ops: seq<LiveOp>, limit: Instant) {
    && (forall i :: 0 <= i < |ops| && ops[i].EvictStale? ==> ops[i].asOf <= limit)
    && forall i, j :: 0 <= i < j < |ops| && ops[i].EvictStale? && ops[j].EvictStale? ==> ops[i].asOf <= ops[j].asOf
  }

  function LiveWithoutEvictions(ops: seq<LiveOp>): seq<LiveOp> {
    Filter(ops, (op: LiveOp) => !op.EvictStale?)
  }

  /** Every eviction of the run finds no recent inactive version. */
  ghost predicate LiveEvictionsHarmless(policy: FreshnessPolicy, live: LiveState, ops: seq<LiveOp>) {
    forall i :: 0 <= i < |ops| && ops[i].EvictStale? ==>
      LiveHarmless(policy, LiveRun(policy, live, ops[..i]), ops[i].asOf)
  }

  function LastLiveEviction(ops: seq<LiveOp>): Instant {
    if |ops| == 0 then 0
    else if ops[|ops| - 1].EvictStale? then ops[|ops| - 1].asOf
    else LastLiveEviction(ops[..|ops| - 1])
  }

  lemma {:induction false} LastLiveEvictionBounds(ops: seq<LiveOp>, limit: Instant)
    requires LiveEvictionsAscend(ops, limit)
    ensures LastLiveEviction(ops) <= limit
    ensures |ops| > 0 && ops[|ops| - 1].EvictStale? ==> LastLiveEviction(ops[..|ops| - 1]) <= ops[|ops| - 1].asOf
  {
    if |ops| > 0 {
      var n := |ops| - 1;
      assert forall i :: 0 <= i < n ==> ops[i] == ops[..n][i];
      assert LiveEvictionsAscend(ops[..n], limit);
      LastLiveEvictionBounds(ops[..n], limit);
      if ops[n].EvictStale? {
        assert LiveEvictionsAscend(ops[..n], ops[n].asOf);
        LastLiveEvictionBounds(ops[..n], ops[n].asOf);
      }
    }
  }

  lemma {:induction false} SlotsAlike(policy: FreshnessPolicy, live: LiveState, ops: seq<LiveOp>, slot: QuoteKey,
                                      limit: Instant)
    requires LiveEvictionsHarmless(policy, live, ops) && LiveEvictionsAscend(ops, limit)
    ensures Alike(SlotOf(LiveRun(policy, live, ops), slot),
                  SlotOf(LiveRun(policy, live, LiveWithoutEvictions(ops)), slot),
                  Horizon(policy, LastLiveEviction(ops)))
  {
    hide Alike, SlotOf, SlotStepOf, LiveStep, HarmlessFor;
    if |ops| == 0 {
      SameIsAlike(SlotOf(live, slot), Horizon(policy, 0));
    } else {
      var n := |ops| - 1;
      var op, init := ops[n], ops[..n];
      assert forall i :: 0 <= i < n ==> init[i] == ops[i] && init[..i] == ops[..i];
      LastLiveEvictionBounds(ops, limit);
      SlotsAlike(policy, live, init, slot, limit);
      var before, kept := LiveRun(policy, live, init), LiveRun(policy, live, LiveWithoutEvictions(init));
      SlotsStep(policy, before, op, slot);
      if op.EvictStale? {
        EvictSlot(policy, before, op, slot);
        EvictOneSide(policy, SlotOf(before, slot), SlotOf(kept, slot), Horizon(policy, LastLiveEviction(init)),
                     op.asOf);
      } else {
        var shorter := LiveWithoutEvictions(init);
        assert (shorter + [op])[..|shorter|] == shorter;
        SlotsStep(policy, kept, op, slot);
        SlotStepKeepsAlike(policy, SlotOf(before, slot), SlotOf(kept, slot), Horizon(policy, LastLiveEviction(init)),
                           op, slot);
      }
    }
  }

  lemma EvictSlot(policy: FreshnessPolicy, live: LiveState, op: LiveOp, slot: QuoteKey)
    requires op.EvictStale? && LiveHarmless(policy, live, op.asOf)
    ensures SlotStepOf(policy, SlotOf(live, slot), op, slot) == StreamEvict(policy, SlotOf(live, slot), op.asOf)
    ensures HarmlessFor(policy, SlotOf(live, slot).version, op.asOf)
  {
  }

  /**
    In a single store, after any run whose evictions ascend and each find no recent inactive
    version, the fresh quotes at any instant from the last eviction on are those of the same
    run without evictions.
   */
  lemma LiveEvictionIsTransparent(policy: FreshnessPolicy, live: LiveState, ops: seq<LiveOp>, asOf: Instant,
                                  xs: seq<QuoteVersion>, ys: seq<QuoteVersion>)
    requires Consistent(live) && LiveEvictionsHarmless(policy, live, ops) && LiveEvictionsAscend(ops, asOf)
    requires Lists(xs, LiveRun(policy, live, ops), FreshAt(policy, asOf))
    requires Lists(ys, LiveRun(policy, live, LiveWithoutEvictions(ops)), FreshAt(policy, asOf))
    ensures Quotes(xs) == Quotes(ys)
  {
    hide Alike, LiveEvictionsHarmless, SlotOf, LiveRun, Lists;
    var a, b := LiveRun(policy, live, ops), LiveRun(policy, live, LiveWithoutEvictions(ops));
    LiveRunConsistent(policy, live, ops);
    LiveRunConsistent(policy, live, LiveWithoutEvictions(ops));
    LastLiveEvictionBounds(ops, asOf);
    forall slot
      ensures FreshQuote(policy, SlotOf(a, slot), asOf) == FreshQuote(policy, SlotOf(b, slot), asOf)
    {
      SlotsAlike(policy, live, ops, slot, asOf);
      AlikeLooksSame(policy, SlotOf(a, slot), SlotOf(b, slot), Horizon(policy, LastLiveEviction(ops)), asOf);
    }
    SameLiveViewIffSameLists(policy, a, b, asOf, xs, ys);
  }

  // ----- Runs of active quotes

  predicate OnlyActiveApplied(ops: seq<LiveOp>) {
    forall i, q :: 0 <= i < |ops| && ops[i].Apply? && q in ops[i].quotes ==> q.status == Active
  }

  lemma ActiveSlotQuotes(quotes: seq<OddsQuote>, slot: QuoteKey)
    requires forall q :: q in quotes ==> q.status == Active
    ensures forall i :: 0 <= i < |SlotQuotes(quotes, slot)| ==> SlotQuotes(quotes, slot)[i].status == Active
  {
    SortByMembers(quotes, ByArrival);
    FilterMembers(SortBy(quotes, ByArrival), InSlot(slot));
    var own := SlotQuotes(quotes, slot);
    forall i | 0 <= i < |own|
      ensures own[i].status == Active
    {
      assert own[i] in own;
      assert own[i] in SortBy(quotes, ByArrival);
    }
  }

  lemma {:induction false} LiveRunActive(policy: FreshnessPolicy, ops: seq<LiveOp>, slot: QuoteKey)
    requires OnlyActiveApplied(ops)
    ensures ActiveVersion(SlotOf(LiveRun(policy, map[], ops), slot).version)
  {
    hide LiveStep, SlotQuotes, StreamOffers;
    if |ops| > 0 {
      var n := |ops| - 1;
      assert forall i :: 0 <= i < n ==> ops[..n][i] == ops[i];
      LiveRunActive(policy, ops[..n], slot);
      var before := LiveRun(policy, map[], ops[..n]);
      SlotsStep(policy, before, ops[n], slot);
      if ops[n].Apply? {
        ActiveSlotQuotes(ops[n].quotes, slot);
        OffersStayActive(policy, SlotOf(before, slot), SlotQuotes(ops[n].quotes, slot), ops[n].observed);
      }
    }
  }

  /** In a run of active quotes every eviction is harmless, whenever it happens. */
  lemma ActiveLiveRunsHarmless(policy: FreshnessPolicy, ops: seq<LiveOp>)
    requires OnlyActiveApplied(ops)
    ensures LiveEvictionsHarmless(policy, map[], ops)
  {
    forall i, slot | 0 <= i < |ops| && ops[i].EvictStale?
      ensures HarmlessFor(policy, Lookup(LiveRun(policy, map[], ops[..i]), slot), ops[i].asOf)
    {
      assert forall j :: 0 <= j < i ==> ops[..i][j] == ops[j];
      LiveRunActive(policy, ops[..i], slot);
    }
  }
}
