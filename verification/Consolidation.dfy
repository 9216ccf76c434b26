/**
  Collapsing overlapping transport observations to one executable quote per price
  slot, or to none when equally new observations disagree.
 */
module Consolidation {
  import opened Ordering
  import opened Collections
  import opened Domain
  import opened LiveQuotes

  datatype OverlapKind = EquivalentOverlap | MaterialConflict

  datatype Overlap = Overlap(kind: OverlapKind, slot: QuoteKey, effective: Instant, transports: seq<Id>,
                             quoteIds: seq<Id>)

  datatype ConsolidationResult = ConsolidationResult(
    quotes: seq<OddsQuote>,
    overlaps: seq<Overlap>,
    equivalents: nat,
    conflicts: nat)

  function BySlotKey(slot: QuoteKey): Key { [slot.event, slot.market, slot.selection, slot.provider] }

  function ByQuoteSlot(quote: OddsQuote): Key { BySlotKey(KeyOf(quote)) }

  function ByObservation(quote: OddsQuote): Key {
    [quote.transport, quote.Effective(), quote.ingestedAt, quote.id]
  }

  predicate HasSlot(quotes: seq<OddsQuote>, slot: QuoteKey) {
    exists i :: 0 <= i < |quotes| && KeyOf(quotes[i]) == slot
  }

  // ----- One slot

  function Observations(quotes: seq<OddsQuote>, slot: QuoteKey): seq<OddsQuote> {
    Filter(quotes, (quote: OddsQuote) => KeyOf(quote) == slot)
  }

  /** No observation of the same slot is newer. */
  predicate IsNewest(quote: OddsQuote, observations: seq<OddsQuote>) {
    forall i :: 0 <= i < |observations| ==> observations[i].Effective() <= quote.Effective()
  }

  /** The newest observations of a slot in observation order. */
  function NewestAmong(observations: seq<OddsQuote>): seq<OddsQuote> {
    SortBy(Filter(observations, (quote: OddsQuote) => IsNewest(quote, observations)), ByObservation)
  }

  function Newest(quotes: seq<OddsQuote>, slot: QuoteKey): seq<OddsQuote> {
    NewestAmong(Observations(quotes, slot))
  }

  predicate SameState(a: OddsQuote, b: OddsQuote) {
    a.price == b.price && a.status == b.status
  }

  predicate Disagree(newest: seq<OddsQuote>) {
    exists i :: 0 < i < |newest| && !SameState(newest[i], newest[0])
  }

  function TransportsOf(quotes: seq<OddsQuote>): seq<Id> {
    seq(|quotes|, i requires 0 <= i < |quotes| => quotes[i].transport)
  }

  function OverlapOf(kind: OverlapKind, slot: QuoteKey, newest: seq<OddsQuote>): Overlap
    requires |newest| > 0
  {
    Overlap(kind, slot, newest[0].Effective(), SortBy(Dedupe(TransportsOf(newest)), ByValue), Ids(newest))
  }

  const NOTHING := ConsolidationResult([], [], 0, 0)

  /** What one slot contributes. */
  function Settle(slot: QuoteKey, newest: seq<OddsQuote>): ConsolidationResult {
    if |newest| == 0 then NOTHING
    else if Disagree(newest) then ConsolidationResult([], [OverlapOf(MaterialConflict, slot, newest)], 0, 1)
    else if |newest| == 1 then ConsolidationResult([newest[0]], [], 0, 0)
    else ConsolidationResult([newest[0]], [OverlapOf(EquivalentOverlap, slot, newest)], 1, 0)
  }

  function Combine(a: ConsolidationResult, b: ConsolidationResult): ConsolidationResult {
    ConsolidationResult(a.quotes + b.quotes, a.overlaps + b.overlaps,
                        a.equivalents + b.equivalents, a.conflicts + b.conflicts)
  }

  function Slots(quotes: seq<OddsQuote>): seq<QuoteKey> {
    Dedupe(seq(|quotes|, i requires 0 <= i < |quotes| => KeyOf(quotes[i])))
  }

  function SlotOrder(quotes: seq<OddsQuote>): seq<QuoteKey> {
    SortBy(Slots(quotes), BySlotKey)
  }

  function SettleAll(quotes: seq<OddsQuote>, slots: seq<QuoteKey>): ConsolidationResult {
    if |slots| == 0 then NOTHING
    else
      var n := |slots| - 1;
      Combine(SettleAll(quotes, slots[..n]), Settle(slots[n], Newest(quotes, slots[n])))
  }

  function Consolidated(quotes: seq<OddsQuote>): ConsolidationResult {
    SettleAll(quotes, SlotOrder(quotes))
  }

  // ----- The algorithm

  method ConsolidateQuotes(quotes: seq<OddsQuote>) returns (r: ConsolidationResult)
    ensures r == Consolidated(quotes)
  {
    hide SlotOrder, Settle, NewestAmong, Observations, HasSlot, Combine;
    var grouped := GroupBySlot(quotes);
    var slots := SlotOrder(quotes);
    SlotOrderMembers(quotes);
    r := NOTHING;
    for k := 0 to |slots|
      invariant r == SettleAll(quotes, slots[..k])
    {
      assert slots[..k + 1][..k] == slots[..k];
      var slot := slots[k];
      assert slot in slots;
      SlotHasNewest(quotes, slot);
      var settled := SettleSlot(slot, grouped[slot]);
      r := Combine(r, settled);
    }
    assert slots[..|slots|] == slots;
  }

  method GroupBySlot(quotes: seq<OddsQuote>) returns (grouped: map<QuoteKey, seq<OddsQuote>>)
    ensures forall slot :: slot in grouped <==> HasSlot(quotes, slot)
    ensures forall slot :: slot in grouped ==> grouped[slot] == Observations(quotes, slot)
  {
    grouped := map[];
    for i := 0 to |quotes|
      invariant forall slot :: slot in grouped <==> exists j :: 0 <= j < i && KeyOf(quotes[j]) == slot
      invariant forall slot :: Observations(quotes[..i], slot) == if slot in grouped then grouped[slot] else []
    {
      assert quotes[..i + 1][..i] == quotes[..i];
      var slot := KeyOf(quotes[i]);
      grouped := grouped[slot := (if slot in grouped then grouped[slot] else []) + [quotes[i]]];
    }
    assert quotes[..|quotes|] == quotes;
  }

  /** The newest observations, found by their timestamp. */
  method NewestOf(observations: seq<OddsQuote>) returns (newest: seq<OddsQuote>)
    requires |observations| > 0
    ensures newest == Filter(observations, (quote: OddsQuote) => IsNewest(quote, observations))
    ensures |newest| > 0
  {
    var newestTimestamp := LatestEffective(observations);
    newest := Filter(observations, (quote: OddsQuote) => quote.Effective() == newestTimestamp);
    FilterAlike(observations, (quote: OddsQuote) => quote.Effective() == newestTimestamp,
                (quote: OddsQuote) => IsNewest(quote, observations));
    LatestIsKept(observations, newestTimestamp);
  }

  method FindConflict(newest: seq<OddsQuote>) returns (conflict: bool)
    requires |newest| > 0
    ensures conflict <==> Disagree(newest)
  {
    conflict := false;
    for i := 1 to |newest|
      invariant conflict <==> exists j :: 0 < j < i && !SameState(newest[j], newest[0])
    {
      if newest[i].price != newest[0].price || newest[i].status != newest[0].status {
        conflict := true;
      }
    }
  }

  /** The decision on one slot; a single observation is taken as it is. */
  method SettleSlot(slot: QuoteKey, observations: seq<OddsQuote>) returns (r: ConsolidationResult)
    requires |observations| > 0
    ensures r == Settle(slot, NewestAmong(observations))
  {
    if |observations| == 1 {
      assert observations == [observations[0]];
      FilterSingle(observations[0], quote => IsNewest(quote, observations));
      return ConsolidationResult([observations[0]], [], 0, 0);
    }
    var newest := NewestOf(observations);
    if |newest| == 1 {
      assert newest == [newest[0]];
      return ConsolidationResult([newest[0]], [], 0, 0);
    }
    newest := SortBy(newest, ByObservation);
    var conflict := FindConflict(newest);
    if conflict {
      return ConsolidationResult([], [OverlapOf(MaterialConflict, slot, newest)], 0, 1);
    }
    return ConsolidationResult([newest[0]], [OverlapOf(EquivalentOverlap, slot, newest)], 1, 0);
  }

  method LatestEffective(observations: seq<OddsQuote>) returns (latest: Instant)
    requires |observations| > 0
    ensures exists i :: 0 <= i < |observations| && observations[i].Effective() == latest
    ensures forall i :: 0 <= i < |observations| ==> observations[i].Effective() <= latest
  {
    latest := observations[0].Effective();
    for i := 1 to |observations|
      invariant exists j :: 0 <= j < i && observations[j].Effective() == latest
      invariant forall j :: 0 <= j < i ==> observations[j].Effective() <= latest
    {
      if observations[i].Effective() > latest {
        latest := observations[i].Effective();
      }
    }
  }

  lemma {:induction false} FilterAlike(quotes: seq<OddsQuote>, a: OddsQuote -> bool, b: OddsQuote -> bool)
    requires forall i :: 0 <= i < |quotes| ==> a(quotes[i]) == b(quotes[i])
    ensures Filter(quotes, a) == Filter(quotes, b)
  {
    if |quotes| > 0 {
      FilterAlike(quotes[..|quotes| - 1], a, b);
    }
  }

  lemma LatestIsKept(observations: seq<OddsQuote>, latest: Instant)
    requires exists i :: 0 <= i < |observations| && observations[i].Effective() == latest
    ensures |Filter(observations, (quote: OddsQuote) => quote.Effective() == latest)| > 0
  {
    var i :| 0 <= i < |observations| && observations[i].Effective() == latest;
    var kept := Filter(observations, (quote: OddsQuote) => quote.Effective() == latest);
    FilterMembers(observations, (quote: OddsQuote) => quote.Effective() == latest);
    assert observations[i] in kept;
  }

  lemma SlotOrderMembers(quotes: seq<OddsQuote>)
    ensures forall slot :: slot in SlotOrder(quotes) <==> HasSlot(quotes, slot)
    ensures StrictlySortedBy(SlotOrder(quotes), BySlotKey)
  {
    var keys := seq(|quotes|, i requires 0 <= i < |quotes| => KeyOf(quotes[i]));
    forall slot
      ensures slot in keys <==> HasSlot(quotes, slot)
    {
      if i :| 0 <= i < |quotes| && KeyOf(quotes[i]) == slot {
        assert keys[i] == slot;
      }
    }
    SortByMembers(Slots(quotes), BySlotKey);
    forall i, j | 0 <= i < j < |Slots(quotes)|
      ensures BySlotKey(Slots(quotes)[i]) != BySlotKey(Slots(quotes)[j])
    {
      assert Slots(quotes)[i] != Slots(quotes)[j];
      if BySlotKey(Slots(quotes)[i]) == BySlotKey(Slots(quotes)[j]) {
        assert false;
      }
    }
    SortByStrict(Slots(quotes), BySlotKey);
  }

  /** Membership in `Newest`, without the sorting. */
  lemma NewestMembers(quotes: seq<OddsQuote>, slot: QuoteKey)
    ensures forall q :: q in Newest(quotes, slot) <==>
                        && q in quotes && KeyOf(q) == slot
                        && forall o :: o in quotes && KeyOf(o) == slot ==> o.Effective() <= q.Effective()
    ensures SortedBy(Newest(quotes, slot), ByObservation)
  {
    var observations := Observations(quotes, slot);
    var kept := Filter(observations, (quote: OddsQuote) => IsNewest(quote, observations));
    FilterMembers(quotes, (quote: OddsQuote) => KeyOf(quote) == slot);
    FilterMembers(observations, (quote: OddsQuote) => IsNewest(quote, observations));
    SortByMembers(kept, ByObservation);
    SortBySorts(kept, ByObservation);
    forall q | q in observations
      ensures IsNewest(q, observations) <==>
              forall o :: o in quotes && KeyOf(o) == slot ==> o.Effective() <= q.Effective()
    {
      if IsNewest(q, observations) {
        forall o | o in quotes && KeyOf(o) == slot
          ensures o.Effective() <= q.Effective()
        {
          assert o in observations;
        }
      } else {
        var i :| 0 <= i < |observations| && observations[i].Effective() > q.Effective();
        assert observations[i] in observations;
      }
    }
  }

  lemma SlotHasNewest(quotes: seq<OddsQuote>, slot: QuoteKey)
    requires HasSlot(quotes, slot)
    ensures |Observations(quotes, slot)| > 0
    ensures |Newest(quotes, slot)| > 0
  {
    var i :| 0 <= i < |quotes| && KeyOf(quotes[i]) == slot;
    FilterMembers(quotes, (quote: OddsQuote) => KeyOf(quote) == slot);
    var observations := Observations(quotes, slot);
    assert quotes[i] in quotes && quotes[i] in observations;
    var k := LatestIndex(observations);
    FilterMembers(observations, (quote: OddsQuote) => IsNewest(quote, observations));
    var kept := Filter(observations, (quote: OddsQuote) => IsNewest(quote, observations));
    assert observations[k] in observations && observations[k] in kept;
  }

  lemma {:induction false} LatestIndex(observations: seq<OddsQuote>) returns (k: nat)
    requires |observations| > 0
    ensures k < |observations| && IsNewest(observations[k], observations)
  {
    if |observations| == 1 {
      k := 0;
    } else {
      var n := |observations| - 1;
      k := LatestIndex(observations[..n]);
      assert forall i :: 0 <= i < n ==> observations[..n][i] == observations[i];
      if observations[n].Effective() > observations[k].Effective() {
        k := n;
      }
    }
  }
}
