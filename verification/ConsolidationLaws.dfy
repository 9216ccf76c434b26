/** What consolidation means: who wins a slot, and how one more observation changes that. */
module ConsolidationLaws {
  import opened Ordering
  import opened Collections
  import opened Domain
  import opened LiveQuotes
  import opened Consolidation

  /** `q` is as new as any observation of its slot. */
  ghost predicate TopOfSlot(q: OddsQuote, quotes: seq<OddsQuote>) {
    q in quotes && forall o :: o in quotes && KeyOf(o) == KeyOf(q) ==> o.Effective() <= q.Effective()
  }

  /** Two equally new observations of the slot differ in price or status. */
  ghost predicate Suppressed(slot: QuoteKey, quotes: seq<OddsQuote>) {
    exists a, b :: TopOfSlot(a, quotes) && TopOfSlot(b, quotes) && KeyOf(a) == KeyOf(b) == slot && !SameState(a, b)
  }

  /** `q` is executable: newest, undisputed, and first in observation order. */
  ghost predicate Executable(q: OddsQuote, quotes: seq<OddsQuote>) {
    && TopOfSlot(q, quotes)
    && !Suppressed(KeyOf(q), quotes)
    && forall o :: TopOfSlot(o, quotes) && KeyOf(o) == KeyOf(q) ==> !KeyLess(ByObservation(o), ByObservation(q))
  }

  ghost predicate DistinctIds(quotes: seq<OddsQuote>) {
    forall i, j :: 0 <= i < j < |quotes| ==> quotes[i].id != quotes[j].id
  }

  lemma NewestIsTop(quotes: seq<OddsQuote>, slot: QuoteKey)
    ensures forall q :: q in Newest(quotes, slot) <==> TopOfSlot(q, quotes) && KeyOf(q) == slot
  {
    NewestMembers(quotes, slot);
  }

  lemma DisagreeIffSuppressed(quotes: seq<OddsQuote>, slot: QuoteKey)
    ensures Disagree(Newest(quotes, slot)) <==> Suppressed(slot, quotes)
  {
    var newest := Newest(quotes, slot);
    NewestIsTop(quotes, slot);
    if Disagree(newest) {
      var i :| 0 < i < |newest| && !SameState(newest[i], newest[0]);
      assert newest[i] in newest && newest[0] in newest;
    }
    if Suppressed(slot, quotes) {
      var a, b :| TopOfSlot(a, quotes) && TopOfSlot(b, quotes) && KeyOf(a) == KeyOf(b) == slot && !SameState(a, b);
      assert a in newest && b in newest;
      var i :| 0 <= i < |newest| && newest[i] == a;
      var j :| 0 <= j < |newest| && newest[j] == b;
      assert !SameState(newest[i], newest[0]) || !SameState(newest[j], newest[0]);
    }
  }

  /** The head of the newest observations is the executable one. */
  lemma HeadIsExecutable(quotes: seq<OddsQuote>, slot: QuoteKey)
    requires HasSlot(quotes, slot) && !Suppressed(slot, quotes)
    ensures |Newest(quotes, slot)| > 0
    ensures Executable(Newest(quotes, slot)[0], quotes) && KeyOf(Newest(quotes, slot)[0]) == slot
  {
    SlotHasNewest(quotes, slot);
    NewestIsTop(quotes, slot);
    NewestMembers(quotes, slot);
    var newest := Newest(quotes, slot);
    assert newest[0] in newest;
    forall o | TopOfSlot(o, quotes) && KeyOf(o) == slot
      ensures !KeyLess(ByObservation(o), ByObservation(newest[0]))
    {
      assert o in newest;
      var i :| 0 <= i < |newest| && newest[i] == o;
      KeyTrichotomy(ByObservation(o), ByObservation(o));
    }
  }

  /** One executable quote for every undisputed slot, strictly in slot order. */
  ghost predicate Selects(quotes: seq<OddsQuote>, slots: seq<QuoteKey>, selected: seq<OddsQuote>) {
    && StrictlySortedBy(selected, ByQuoteSlot)
    && (forall q :: q in selected ==> KeyOf(q) in slots && Executable(q, quotes))
    && (forall slot :: slot in slots && !Suppressed(slot, quotes) ==> exists q :: q in selected && KeyOf(q) == slot)
  }

  /** Exactly the suppressed slots are reported as conflicts. */
  ghost predicate ReportsConflicts(quotes: seq<OddsQuote>, slots: seq<QuoteKey>, overlaps: seq<Overlap>) {
    forall slot :: (slot in slots && Suppressed(slot, quotes))
                   <==> exists i :: 0 <= i < |overlaps| && overlaps[i].kind == MaterialConflict
                                    && overlaps[i].slot == slot
  }

  /** What the slots settled so far contributed. */
  ghost predicate Contributes(quotes: seq<OddsQuote>, slots: seq<QuoteKey>, r: ConsolidationResult) {
    && |r.quotes| + r.conflicts == |slots|
    && r.equivalents + r.conflicts == |r.overlaps|
    && Selects(quotes, slots, r.quotes)
    && ReportsConflicts(quotes, slots, r.overlaps)
  }

  lemma {:induction false} SettledSoFar(quotes: seq<OddsQuote>, slots: seq<QuoteKey>)
    requires StrictlySortedBy(slots, BySlotKey)
    requires forall slot :: slot in slots ==> HasSlot(quotes, slot)
    ensures Contributes(quotes, slots, SettleAll(quotes, slots))
  {
    hide Selects, ReportsConflicts, Newest, Suppressed, BySlotKey, KeyLess, HasSlot, Disagree, OverlapOf;
    NothingSettled(quotes);
    if |slots| > 0 {
      var n := |slots| - 1;
      var earlier, slot := slots[..n], slots[n];
      assert slots == earlier + [slot] && slot in slots;
      SettledSoFar(quotes, earlier);
      SlotHasNewest(quotes, slot);
      DisagreeIffSuppressed(quotes, slot);
      SelectOne(quotes, earlier, slot, SettleAll(quotes, earlier).quotes);
      ReportOne(quotes, earlier, slot, SettleAll(quotes, earlier).overlaps);
    }
  }

  lemma NothingSettled(quotes: seq<OddsQuote>)
    ensures Selects(quotes, [], []) && ReportsConflicts(quotes, [], [])
  {
  }

  lemma SelectOne(quotes: seq<OddsQuote>, earlier: seq<QuoteKey>, slot: QuoteKey, selected: seq<OddsQuote>)
    requires HasSlot(quotes, slot)
    requires forall i :: 0 <= i < |earlier| ==> KeyLess(BySlotKey(earlier[i]), BySlotKey(slot))
    requires Selects(quotes, earlier, selected)
    ensures Selects(quotes, earlier + [slot], selected + Settle(slot, Newest(quotes, slot)).quotes)
  {
    hide Newest, Executable, TopOfSlot, Suppressed, Disagree, BySlotKey, KeyLess, Selects, OverlapOf, HasSlot;
    DisagreeIffSuppressed(quotes, slot);
    var newest := Newest(quotes, slot);
    if Suppressed(slot, quotes) {
      assert selected + Settle(slot, newest).quotes == selected;
      SelectNone(quotes, earlier, slot, selected);
    } else {
      HeadIsExecutable(quotes, slot);
      assert Settle(slot, newest).quotes == [newest[0]];
      SelectMore(quotes, earlier, slot, newest[0], selected);
    }
  }

  lemma SelectNone(quotes: seq<OddsQuote>, earlier: seq<QuoteKey>, slot: QuoteKey, selected: seq<OddsQuote>)
    requires Selects(quotes, earlier, selected) && Suppressed(slot, quotes)
    ensures Selects(quotes, earlier + [slot], selected)
  {
    hide Executable, TopOfSlot, Suppressed, StrictlySortedBy;
  }

  lemma SelectMore(quotes: seq<OddsQuote>, earlier: seq<QuoteKey>, slot: QuoteKey, q: OddsQuote,
                   selected: seq<OddsQuote>)
    requires forall i :: 0 <= i < |earlier| ==> KeyLess(BySlotKey(earlier[i]), BySlotKey(slot))
    requires Selects(quotes, earlier, selected) && Executable(q, quotes) && KeyOf(q) == slot
    ensures Selects(quotes, earlier + [slot], selected + [q])
  {
    hide Executable, TopOfSlot, Suppressed, BySlotKey, KeyLess;
    var longer := selected + [q];
    assert longer[|selected|] == q;
    forall i | 0 <= i < |selected|
      ensures KeyLess(ByQuoteSlot(selected[i]), ByQuoteSlot(q))
    {
      assert selected[i] in selected;
    }
    assert forall o :: o in longer <==> o in selected || o == q;
  }

  lemma ReportOne(quotes: seq<OddsQuote>, earlier: seq<QuoteKey>, slot: QuoteKey, overlaps: seq<Overlap>)
    requires HasSlot(quotes, slot)
    requires ReportsConflicts(quotes, earlier, overlaps)
    ensures ReportsConflicts(quotes, earlier + [slot], overlaps + Settle(slot, Newest(quotes, slot)).overlaps)
  {
    hide Newest, TopOfSlot, Suppressed, Settle, Disagree, ReportsConflicts;
    DisagreeIffSuppressed(quotes, slot);
    SlotHasNewest(quotes, slot);
    var extra := Settle(slot, Newest(quotes, slot)).overlaps;
    SettledOverlap(slot, Newest(quotes, slot));
    ReportsMore(quotes, earlier, slot, overlaps, extra);
  }

  /** A slot reports at most one overlap, about itself; it is a conflict exactly when the newest disagree. */
  lemma SettledOverlap(slot: QuoteKey, newest: seq<OddsQuote>)
    ensures var extra := Settle(slot, newest).overlaps;
      |extra| <= 1 && forall i :: 0 <= i < |extra| ==> extra[i].slot == slot
    ensures |newest| > 0 ==>
      (Disagree(newest) <==> |Settle(slot, newest).overlaps| == 1
                             && Settle(slot, newest).overlaps[0].kind == MaterialConflict)
  {
    hide Disagree;
  }

  lemma ReportsMore(quotes: seq<OddsQuote>, earlier: seq<QuoteKey>, slot: QuoteKey, overlaps: seq<Overlap>,
                    extra: seq<Overlap>)
    requires ReportsConflicts(quotes, earlier, overlaps)
    requires |extra| <= 1 && forall i :: 0 <= i < |extra| ==> extra[i].slot == slot
    requires Suppressed(slot, quotes) <==> |extra| == 1 && extra[0].kind == MaterialConflict
    ensures ReportsConflicts(quotes, earlier + [slot], overlaps + extra)
  {
    hide Suppressed;
    var longer := overlaps + extra;
    assert forall i :: 0 <= i < |overlaps| ==> longer[i] == overlaps[i];
    assert |extra| > 0 ==> longer[|overlaps|] == extra[0];
  }

  /**
    The result lists, strictly in slot order, one executable observation for every
    slot that is not suppressed; every slot is either selected or in conflict.
   */
  lemma Characterisation(quotes: seq<OddsQuote>)
    ensures Contributes(quotes, SlotOrder(quotes), Consolidated(quotes))
    ensures forall slot :: slot in SlotOrder(quotes) <==> HasSlot(quotes, slot)
  {
    SlotOrderMembers(quotes);
    SettledSoFar(quotes, SlotOrder(quotes));
  }

  // ----- The same, by the fields of the quotes

  /** Quotes of one bookmaker on one selection. */
  predicate SamePrice(a: OddsQuote, b: OddsQuote) {
    a.provider == b.provider && a.event == b.event && a.market == b.market && a.selection == b.selection
  }

  /** No quote of the bookmaker on the selection was seen later. */
  ghost predicate LastSeen(q: OddsQuote, quotes: seq<OddsQuote>) {
    q in quotes && forall o :: o in quotes && SamePrice(o, q) ==> o.Effective() <= q.Effective()
  }

  /** Last seen, not contradicted in price or status, and first by transport, instant, ingestion and id. */
  ghost predicate Chosen(q: OddsQuote, quotes: seq<OddsQuote>) {
    && LastSeen(q, quotes)
    && forall o :: LastSeen(o, quotes) && SamePrice(o, q) ==>
         && o.price == q.price && o.status == q.status
         && !KeyLess([o.transport, o.Effective(), o.ingestedAt, o.id],
                     [q.transport, q.Effective(), q.ingestedAt, q.id])
  }

  /** What an overlap reports about the observations last seen of its slot. */
  ghost predicate TellsOf(overlap: Overlap, newest: seq<OddsQuote>, quotes: seq<OddsQuote>) {
    && |newest| >= 2
    && (forall q :: q in newest <==> && LastSeen(q, quotes) && q.provider == overlap.slot.provider
                                     && q.event == overlap.slot.event && q.market == overlap.slot.market
                                     && q.selection == overlap.slot.selection)
    && overlap.effective == newest[0].Effective()
    && overlap.quoteIds == Ids(newest)
    && (forall t :: t in overlap.transports <==> exists i :: 0 <= i < |newest| && newest[i].transport == t)
    && (overlap.kind == MaterialConflict
        <==> exists i :: 0 <= i < |newest|
               && (newest[i].price != newest[0].price || newest[i].status != newest[0].status))
  }

  lemma ExecutableIsChosen(q: OddsQuote, quotes: seq<OddsQuote>)
    requires Executable(q, quotes)
    ensures Chosen(q, quotes)
  {
    hide KeyLess;
    forall o | LastSeen(o, quotes) && SamePrice(o, q)
      ensures TopOfSlot(o, quotes) && SameState(o, q)
      ensures !KeyLess([o.transport, o.Effective(), o.ingestedAt, o.id],
                       [q.transport, q.Effective(), q.ingestedAt, q.id])
    {
      TopIsLastSeen(o, quotes);
    }
    TopIsLastSeen(q, quotes);
  }

  lemma TopIsLastSeen(q: OddsQuote, quotes: seq<OddsQuote>)
    ensures TopOfSlot(q, quotes) <==> LastSeen(q, quotes)
  {
  }

  lemma SettledTells(quotes: seq<OddsQuote>, slot: QuoteKey)
    ensures forall o :: o in Settle(slot, Newest(quotes, slot)).overlaps ==> TellsOf(o, Newest(quotes, slot), quotes)
  {
    hide TellsOf, OverlapOf, Newest, LastSeen, TopOfSlot, KeyOf;
    var newest := Newest(quotes, slot);
    NewestIsTop(quotes, slot);
    forall q
      ensures q in newest <==> LastSeen(q, quotes) && KeyOf(q) == slot
    {
      TopIsLastSeen(q, quotes);
    }
    if |newest| >= 2 {
      OverlapTells(if Disagree(newest) then MaterialConflict else EquivalentOverlap, slot, newest, quotes);
    }
  }

  lemma OverlapTells(kind: OverlapKind, slot: QuoteKey, newest: seq<OddsQuote>, quotes: seq<OddsQuote>)
    requires |newest| >= 2 && (kind == MaterialConflict <==> Disagree(newest))
    requires forall q :: q in newest <==> LastSeen(q, quotes) && KeyOf(q) == slot
    ensures TellsOf(OverlapOf(kind, slot, newest), newest, quotes)
  {
    hide SortBy, Dedupe, TransportsOf, LastSeen, Ids;
    TransportsListed(newest);
  }

  lemma TransportsListed(newest: seq<OddsQuote>)
    ensures forall t :: t in SortBy(Dedupe(TransportsOf(newest)), ByValue)
                        <==> exists i :: 0 <= i < |newest| && newest[i].transport == t
  {
    hide SortBy, Dedupe, ByValue;
    SortByMembers(Dedupe(TransportsOf(newest)), ByValue);
    forall t
      ensures t in TransportsOf(newest) <==> exists i :: 0 <= i < |newest| && newest[i].transport == t
    {
      if i :| 0 <= i < |newest| && newest[i].transport == t {
        assert TransportsOf(newest)[i] == t;
      }
    }
  }

  ghost predicate AllTell(overlaps: seq<Overlap>, quotes: seq<OddsQuote>) {
    forall o :: o in overlaps ==> Told(o, quotes)
  }

  ghost predicate Told(overlap: Overlap, quotes: seq<OddsQuote>) {
    exists newest :: TellsOf(overlap, newest, quotes)
  }

  lemma {:induction false} OverlapsTell(quotes: seq<OddsQuote>, slots: seq<QuoteKey>)
    ensures AllTell(SettleAll(quotes, slots).overlaps, quotes)
  {
    hide TellsOf, Settle, Newest;
    if |slots| > 0 {
      var n := |slots| - 1;
      OverlapsTell(quotes, slots[..n]);
      SettledTells(quotes, slots[n]);
      MoreTell(SettleAll(quotes, slots[..n]).overlaps, Settle(slots[n], Newest(quotes, slots[n])).overlaps,
               Newest(quotes, slots[n]), quotes);
    }
  }

  lemma MoreTell(overlaps: seq<Overlap>, extra: seq<Overlap>, newest: seq<OddsQuote>, quotes: seq<OddsQuote>)
    requires AllTell(overlaps, quotes)
    requires forall o :: o in extra ==> TellsOf(o, newest, quotes)
    ensures AllTell(overlaps + extra, quotes)
  {
    hide TellsOf;
    forall o | o in overlaps + extra
      ensures Told(o, quotes)
    {
      assert o in extra ==> TellsOf(o, newest, quotes);
    }
  }

  /**
    The result lists, by event, market, selection and bookmaker, the chosen quotes: one for
    every bookmaker and selection unless its last seen quotes differ in price or status.
    Every overlap reports what was last seen.
   */
  lemma ConsolidationMeans(quotes: seq<OddsQuote>)
    ensures var r := Consolidated(quotes);
      && (forall q :: q in r.quotes ==> Chosen(q, quotes))
      && (forall q :: Chosen(q, quotes) ==> exists p :: p in r.quotes && SamePrice(p, q))
      && (forall i, j :: 0 <= i < j < |r.quotes| ==> var a, b := r.quotes[i], r.quotes[j];
            KeyLess([a.event, a.market, a.selection, a.provider], [b.event, b.market, b.selection, b.provider]))
      && AllTell(r.overlaps, quotes)
  {
    hide KeyLess, SettleAll, Chosen, Executable, Suppressed, AllTell;
    Characterisation(quotes);
    OverlapsTell(quotes, SlotOrder(quotes));
    forall q | q in Consolidated(quotes).quotes
      ensures Chosen(q, quotes)
    {
      ExecutableIsChosen(q, quotes);
    }
    forall q | Chosen(q, quotes)
      ensures q in quotes && !Suppressed(KeyOf(q), quotes)
    {
      ChosenUndisputed(q, quotes);
    }
    forall q | Chosen(q, quotes)
      ensures exists p :: p in Consolidated(quotes).quotes && SamePrice(p, q)
    {
      SlotByMember(quotes, KeyOf(q));
      assert KeyOf(q) in SlotOrder(quotes);
      var p :| p in Consolidated(quotes).quotes && KeyOf(p) == KeyOf(q);
      assert SamePrice(p, q);
    }
  }

  lemma ChosenUndisputed(q: OddsQuote, quotes: seq<OddsQuote>)
    requires Chosen(q, quotes)
    ensures q in quotes && !Suppressed(KeyOf(q), quotes)
  {
    hide KeyLess;
    forall o | TopOfSlot(o, quotes) && KeyOf(o) == KeyOf(q)
      ensures SameState(o, q)
    {
      TopIsLastSeen(o, quotes);
    }
  }

  // ----- Order of arrival does not matter

  lemma DistinctIdsPermute(xs: seq<OddsQuote>, ys: seq<OddsQuote>)
    requires DistinctIds(xs) && multiset(xs) == multiset(ys)
    ensures DistinctIds(ys)
    ensures forall q :: q in xs <==> q in ys
  {
    forall i, j | 0 <= i < j < |xs|
      ensures [xs[i].id] != [xs[j].id]
    {
      assert [xs[i].id][0] != [xs[j].id][0];
    }
    PermutationKeepsDistinctKeys(xs, ys, (q: OddsQuote) => [q.id]);
    forall i, j | 0 <= i < j < |ys|
      ensures ys[i].id != ys[j].id
    {
      assert [ys[i].id] != [ys[j].id];
    }
    forall q
      ensures q in xs <==> q in ys
    {
      assert q in multiset(xs) <==> q in multiset(ys);
    }
  }

  lemma FilterDistinctIds(quotes: seq<OddsQuote>, keep: OddsQuote -> bool)
    requires DistinctIds(quotes)
    ensures DistinctIds(Filter(quotes, keep))
  {
    FilterPairwise(quotes, keep, (a: OddsQuote, b: OddsQuote) => a.id != b.id);
  }

  lemma NewestStrict(quotes: seq<OddsQuote>, slot: QuoteKey)
    requires DistinctIds(quotes)
    ensures StrictlySortedBy(Newest(quotes, slot), ByObservation)
  {
    var observations := Observations(quotes, slot);
    var kept := Filter(observations, (quote: OddsQuote) => IsNewest(quote, observations));
    FilterDistinctIds(quotes, (quote: OddsQuote) => KeyOf(quote) == slot);
    FilterDistinctIds(observations, (quote: OddsQuote) => IsNewest(quote, observations));
    forall i, j | 0 <= i < j < |kept|
      ensures ByObservation(kept[i]) != ByObservation(kept[j])
    {
      assert ByObservation(kept[i])[3] != ByObservation(kept[j])[3];
    }
    SortByStrict(kept, ByObservation);
  }

  lemma NewestDependsOnMembers(xs: seq<OddsQuote>, ys: seq<OddsQuote>, slot: QuoteKey)
    requires DistinctIds(xs) && DistinctIds(ys)
    requires forall q :: q in xs && KeyOf(q) == slot <==> q in ys && KeyOf(q) == slot
    ensures Newest(xs, slot) == Newest(ys, slot)
  {
    NewestStrict(xs, slot);
    NewestStrict(ys, slot);
    NewestMembers(xs, slot);
    NewestMembers(ys, slot);
    StrictlySortedUnique(Newest(xs, slot), Newest(ys, slot), ByObservation);
  }

  lemma {:induction false} SettleAllAgrees(xs: seq<OddsQuote>, ys: seq<OddsQuote>, slots: seq<QuoteKey>)
    requires forall i :: 0 <= i < |slots| ==> Newest(xs, slots[i]) == Newest(ys, slots[i])
    ensures SettleAll(xs, slots) == SettleAll(ys, slots)
  {
    if |slots| > 0 {
      SettleAllAgrees(xs, ys, slots[..|slots| - 1]);
    }
  }

  lemma SlotOrderAgrees(xs: seq<OddsQuote>, ys: seq<OddsQuote>)
    requires forall q :: q in xs <==> q in ys
    ensures SlotOrder(xs) == SlotOrder(ys)
  {
    SlotOrderMembers(xs);
    SlotOrderMembers(ys);
    forall slot
      ensures HasSlot(xs, slot) <==> HasSlot(ys, slot)
    {
      SlotByMember(xs, slot);
      SlotByMember(ys, slot);
    }
    StrictlySortedUnique(SlotOrder(xs), SlotOrder(ys), BySlotKey);
  }

  /** The whole result, diagnostics included, ignores the order of the observations. */
  lemma PermutationInvariant(xs: seq<OddsQuote>, ys: seq<OddsQuote>)
    requires DistinctIds(xs) && multiset(xs) == multiset(ys)
    ensures Consolidated(xs) == Consolidated(ys)
  {
    DistinctIdsPermute(xs, ys);
    SlotOrderAgrees(xs, ys);
    var slots := SlotOrder(xs);
    forall i | 0 <= i < |slots|
      ensures Newest(xs, slots[i]) == Newest(ys, slots[i])
    {
      NewestDependsOnMembers(xs, ys, slots[i]);
    }
    SettleAllAgrees(xs, ys, slots);
  }

  lemma SlotByMember(quotes: seq<OddsQuote>, slot: QuoteKey)
    ensures HasSlot(quotes, slot) <==> exists q :: q in quotes && KeyOf(q) == slot
  {
    if i :| 0 <= i < |quotes| && KeyOf(quotes[i]) == slot {
      assert quotes[i] in quotes;
    }
  }

  // ----- Consolidating twice

  /** Consolidating the executable quotes again returns exactly them, with nothing to report. */
  lemma Idempotent(quotes: seq<OddsQuote>)
    ensures Consolidated(Consolidated(quotes).quotes) == ConsolidationResult(Consolidated(quotes).quotes, [], 0, 0)
  {
    Characterisation(quotes);
    OneQuotePerSlot(Consolidated(quotes).quotes);
  }

  lemma OneQuotePerSlot(quotes: seq<OddsQuote>)
    requires StrictlySortedBy(quotes, ByQuoteSlot)
    ensures Consolidated(quotes) == ConsolidationResult(quotes, [], 0, 0)
  {
    hide SettleAll, SlotOrder, KeyOf, StrictlySortedBy;
    OneSlotPerQuote(quotes);
    var slots := SlotOrder(quotes);
    assert quotes[..|quotes|] == quotes && slots[..|quotes|] == slots;
    SettleSingles(quotes, slots, |quotes|);
  }

  lemma OneSlotPerQuote(quotes: seq<OddsQuote>)
    requires StrictlySortedBy(quotes, ByQuoteSlot)
    ensures |SlotOrder(quotes)| == |quotes|
    ensures forall i :: 0 <= i < |quotes| ==> SlotOrder(quotes)[i] == KeyOf(quotes[i])
  {
    hide SlotOrder, KeyOf, BySlotKey, KeyLess;
    var slots := seq(|quotes|, i requires 0 <= i < |quotes| => KeyOf(quotes[i]));
    SlotOrderMembers(quotes);
    forall slot
      ensures slot in slots <==> HasSlot(quotes, slot)
    {
      if i :| 0 <= i < |quotes| && KeyOf(quotes[i]) == slot {
        assert slots[i] == slot;
      }
    }
    StrictlySortedUnique(slots, SlotOrder(quotes), BySlotKey);
  }

  lemma {:induction false} SettleSingles(quotes: seq<OddsQuote>, slots: seq<QuoteKey>, n: nat)
    requires StrictlySortedBy(quotes, ByQuoteSlot)
    requires |slots| == |quotes| && forall i :: 0 <= i < |quotes| ==> slots[i] == KeyOf(quotes[i])
    requires n <= |quotes|
    ensures SettleAll(quotes, slots[..n]) == ConsolidationResult(quotes[..n], [], 0, 0)
  {
    hide Newest, KeyOf;
    if n > 0 {
      assert slots[..n][..n - 1] == slots[..n - 1];
      SettleSingles(quotes, slots, n - 1);
      SingleNewest(quotes, n - 1);
      assert quotes[..n] == quotes[..n - 1] + [quotes[n - 1]];
    }
  }

  lemma SingleNewest(quotes: seq<OddsQuote>, k: nat)
    requires StrictlySortedBy(quotes, ByQuoteSlot) && k < |quotes|
    ensures Newest(quotes, KeyOf(quotes[k])) == [quotes[k]]
  {
    var slot := KeyOf(quotes[k]);
    SingleObservation(quotes, k, |quotes|);
    assert quotes[..|quotes|] == quotes;
    var observations := Observations(quotes, slot);
    FilterSingle(quotes[k], (quote: OddsQuote) => IsNewest(quote, observations));
    assert Insert([], quotes[k], ByObservation) == [quotes[k]];
  }

  lemma {:induction false} SingleObservation(quotes: seq<OddsQuote>, k: nat, n: nat)
    requires StrictlySortedBy(quotes, ByQuoteSlot) && k < |quotes| && n <= |quotes|
    ensures Observations(quotes[..n], KeyOf(quotes[k])) == if k < n then [quotes[k]] else []
  {
    if n > 0 {
      assert quotes[..n][..n - 1] == quotes[..n - 1];
      SingleObservation(quotes, k, n - 1);
      KeyTrichotomy(ByQuoteSlot(quotes[k]), ByQuoteSlot(quotes[k]));
      assert k != n - 1 ==> KeyOf(quotes[n - 1]) != KeyOf(quotes[k]);
    }
  }

  // ----- One more observation

  /** Another slot's newest observations are untouched. */
  lemma OtherSlotsUntouched(quotes: seq<OddsQuote>, extra: OddsQuote, slot: QuoteKey)
    requires slot != KeyOf(extra)
    ensures Newest(quotes + [extra], slot) == Newest(quotes, slot)
  {
    assert (quotes + [extra])[..|quotes|] == quotes;
    assert Observations(quotes + [extra], slot) == Observations(quotes, slot);
  }

  /** Nothing in the result is about the slot. */
  ghost predicate Avoids(r: ConsolidationResult, slot: QuoteKey) {
    && (forall i :: 0 <= i < |r.quotes| ==> KeyOf(r.quotes[i]) != slot)
    && (forall i :: 0 <= i < |r.overlaps| ==> r.overlaps[i].slot != slot)
  }

  /** The whole result, counts included, changes only by how the observation's own slot is settled. */
  lemma OnlyItsSlotChanges(quotes: seq<OddsQuote>, extra: OddsQuote)
    returns (before: ConsolidationResult, after: ConsolidationResult)
    ensures Avoids(before, KeyOf(extra)) && Avoids(after, KeyOf(extra))
    ensures Consolidated(quotes)
            == Combine(Combine(before, Settle(KeyOf(extra), Newest(quotes, KeyOf(extra)))), after)
    ensures Consolidated(quotes + [extra])
            == Combine(Combine(before, Settle(KeyOf(extra), Newest(quotes + [extra], KeyOf(extra)))), after)
  {
    hide KeyOf, Settle, Newest, SettleAll, SlotOrder, Avoids, Combine;
    var slot, more := KeyOf(extra), quotes + [extra];
    var k := SlotJoins(quotes, extra);
    var slots := SlotOrder(more);
    var lower, upper := slots[..k], slots[k + 1..];
    before, after := SettleAll(quotes, lower), SettleAll(quotes, upper);
    SettledElsewhere(quotes, lower, slot);
    SettledElsewhere(quotes, upper, slot);
    SettleAround(quotes, lower, slot, upper);
    SettleAround(more, lower, slot, upper);
    OthersSettleAlike(quotes, extra, lower);
    OthersSettleAlike(quotes, extra, upper);
    assert slots == lower + [slot] + upper;
  }

  /** The slot's place in the order; a slot without observations adds nothing there. */
  lemma SlotJoins(quotes: seq<OddsQuote>, extra: OddsQuote) returns (k: nat)
    ensures k < |SlotOrder(quotes + [extra])| && SlotOrder(quotes + [extra])[k] == KeyOf(extra)
    ensures KeyOf(extra) !in SlotOrder(quotes + [extra])[..k]
    ensures KeyOf(extra) !in SlotOrder(quotes + [extra])[k + 1..]
    ensures Consolidated(quotes) == SettleAll(quotes, SlotOrder(quotes + [extra]))
  {
    hide KeyOf, KeyLess, BySlotKey, Newest, SettleAll, SlotOrder, Combine, Settle;
    var slot, slots := KeyOf(extra), SlotOrder(quotes + [extra]);
    SlotOrderMembers(quotes);
    SlotOrderMembers(quotes + [extra]);
    OneMoreSlot(quotes, extra);
    assert slot in slots;
    k :| 0 <= k < |slots| && slots[k] == slot;
    StrictlySortedDistinct(slots, k);
    if HasSlot(quotes, slot) {
      StrictlySortedUnique(slots, SlotOrder(quotes), BySlotKey);
    } else {
      var lower, upper := slots[..k], slots[k + 1..];
      assert slots == lower + [slot] + upper;
      StrictlySortedUnique(lower + upper, SlotOrder(quotes), BySlotKey);
      SettleAround(quotes, lower, slot, upper);
      SettleConcat(quotes, lower, upper);
      EmptySlotAddsNothing(quotes, slot);
      CombineUnit(SettleAll(quotes, lower));
    }
  }

  lemma OneMoreSlot(quotes: seq<OddsQuote>, extra: OddsQuote)
    ensures forall slot :: HasSlot(quotes + [extra], slot) <==> HasSlot(quotes, slot) || slot == KeyOf(extra)
  {
    hide KeyOf;
    var more := quotes + [extra];
    assert more[|quotes|] == extra && forall i :: 0 <= i < |quotes| ==> more[i] == quotes[i];
  }

  lemma StrictlySortedDistinct(slots: seq<QuoteKey>, k: nat)
    requires StrictlySortedBy(slots, BySlotKey) && k < |slots|
    ensures slots[k] !in slots[..k] && slots[k] !in slots[k + 1..]
  {
    hide BySlotKey, KeyLess;
    KeyTrichotomy(BySlotKey(slots[k]), BySlotKey(slots[k]));
  }

  lemma EmptySlotAddsNothing(quotes: seq<OddsQuote>, slot: QuoteKey)
    requires !HasSlot(quotes, slot)
    ensures Settle(slot, Newest(quotes, slot)) == NOTHING
  {
    hide KeyOf, Newest;
    var newest := Newest(quotes, slot);
    assert |newest| > 0 ==> newest[0] in newest;
    NewestMembers(quotes, slot);
  }

  lemma OthersSettleAlike(quotes: seq<OddsQuote>, extra: OddsQuote, slots: seq<QuoteKey>)
    requires KeyOf(extra) !in slots
    ensures SettleAll(quotes + [extra], slots) == SettleAll(quotes, slots)
  {
    hide KeyOf, Newest, SettleAll;
    forall i | 0 <= i < |slots|
      ensures Newest(quotes + [extra], slots[i]) == Newest(quotes, slots[i])
    {
      OtherSlotsUntouched(quotes, extra, slots[i]);
    }
    SettleAllAgrees(quotes + [extra], quotes, slots);
  }

  lemma {:induction false} SettledElsewhere(quotes: seq<OddsQuote>, slots: seq<QuoteKey>, slot: QuoteKey)
    requires slot !in slots
    ensures Avoids(SettleAll(quotes, slots), slot)
  {
    hide Settle, Newest, Combine, Avoids;
    NothingAvoids(slot);
    if |slots| > 0 {
      var n := |slots| - 1;
      SettledElsewhere(quotes, slots[..n], slot);
      OtherSlotAvoids(quotes, slots[n], slot);
      BothAvoid(SettleAll(quotes, slots[..n]), Settle(slots[n], Newest(quotes, slots[n])), slot);
    }
  }

  lemma NothingAvoids(slot: QuoteKey)
    ensures Avoids(NOTHING, slot)
  {
  }

  lemma BothAvoid(a: ConsolidationResult, b: ConsolidationResult, slot: QuoteKey)
    requires Avoids(a, slot) && Avoids(b, slot)
    ensures Avoids(Combine(a, b), slot)
  {
    hide KeyOf;
  }

  lemma OtherSlotAvoids(quotes: seq<OddsQuote>, other: QuoteKey, slot: QuoteKey)
    requires other != slot
    ensures Avoids(Settle(other, Newest(quotes, other)), slot)
  {
    hide KeyOf, Newest, Disagree;
    NewestMembers(quotes, other);
  }

  lemma {:induction false} SettleConcat(quotes: seq<OddsQuote>, xs: seq<QuoteKey>, ys: seq<QuoteKey>)
    ensures SettleAll(quotes, xs + ys) == Combine(SettleAll(quotes, xs), SettleAll(quotes, ys))
  {
    hide Settle, Newest, Combine;
    CombineUnit(SettleAll(quotes, xs));
    if |ys| == 0 {
      assert xs + ys == xs;
    } else {
      var n := |ys| - 1;
      assert (xs + ys)[..|xs + ys| - 1] == xs + ys[..n];
      SettleConcat(quotes, xs, ys[..n]);
      CombineAssociates(SettleAll(quotes, xs), SettleAll(quotes, ys[..n]), Settle(ys[n], Newest(quotes, ys[n])));
    }
  }

  lemma CombineAssociates(a: ConsolidationResult, b: ConsolidationResult, c: ConsolidationResult)
    ensures Combine(Combine(a, b), c) == Combine(a, Combine(b, c))
  {
    assert a.quotes + b.quotes + c.quotes == a.quotes + (b.quotes + c.quotes);
    assert a.overlaps + b.overlaps + c.overlaps == a.overlaps + (b.overlaps + c.overlaps);
  }

  lemma CombineUnit(a: ConsolidationResult)
    ensures Combine(a, NOTHING) == a
  {
    assert a.quotes + [] == a.quotes && a.overlaps + [] == a.overlaps;
  }

  lemma SettleAround(quotes: seq<OddsQuote>, lower: seq<QuoteKey>, slot: QuoteKey, upper: seq<QuoteKey>)
    ensures SettleAll(quotes, lower + [slot] + upper)
            == Combine(Combine(SettleAll(quotes, lower), Settle(slot, Newest(quotes, slot))), SettleAll(quotes, upper))
  {
    hide Settle, Newest, Combine;
    assert (lower + [slot])[..|lower|] == lower;
    SettleConcat(quotes, lower + [slot], upper);
  }

  /**
    The observation's own slot: a strictly older one changes nothing; a strictly newer
    one takes the slot and lifts any conflict; an equally new one that differs in price or
    status suppresses it; an equally new one that agrees leaves the slot as disputed as it was.
   */
  lemma OneMoreObservation(quotes: seq<OddsQuote>, extra: OddsQuote, top: OddsQuote)
    requires TopOfSlot(top, quotes) && KeyOf(top) == KeyOf(extra)
    ensures extra.Effective() < top.Effective() ==>
              Newest(quotes + [extra], KeyOf(extra)) == Newest(quotes, KeyOf(extra))
    ensures extra.Effective() > top.Effective() ==>
              Settle(KeyOf(extra), Newest(quotes + [extra], KeyOf(extra))) == ConsolidationResult([extra], [], 0, 0)
    ensures extra.Effective() == top.Effective() && !SameState(extra, top) ==>
              Suppressed(KeyOf(extra), quotes + [extra])
    ensures extra.Effective() == top.Effective() && SameState(extra, top) ==>
              (Suppressed(KeyOf(extra), quotes + [extra]) <==> Suppressed(KeyOf(extra), quotes))
  {
    hide Newest, Settle, Suppressed;
    if extra.Effective() < top.Effective() {
      OlderChangesNothing(quotes, extra, top);
    } else if extra.Effective() > top.Effective() {
      NewerTakesSlot(quotes, extra, top);
    } else {
      EquallyNewJoins(quotes, extra, top);
    }
  }

  lemma OneMoreInSlot(quotes: seq<OddsQuote>, extra: OddsQuote)
    ensures Observations(quotes + [extra], KeyOf(extra)) == Observations(quotes, KeyOf(extra)) + [extra]
    ensures forall q :: q in Observations(quotes, KeyOf(extra)) <==> q in quotes && KeyOf(q) == KeyOf(extra)
  {
    assert (quotes + [extra])[..|quotes|] == quotes;
    FilterMembers(quotes, (quote: OddsQuote) => KeyOf(quote) == KeyOf(extra));
  }

  lemma OlderChangesNothing(quotes: seq<OddsQuote>, extra: OddsQuote, top: OddsQuote)
    requires TopOfSlot(top, quotes) && KeyOf(top) == KeyOf(extra) && extra.Effective() < top.Effective()
    ensures Newest(quotes + [extra], KeyOf(extra)) == Newest(quotes, KeyOf(extra))
  {
    OneMoreInSlot(quotes, extra);
    OlderIsDropped(Observations(quotes, KeyOf(extra)), extra, top);
  }

  lemma NewerTakesSlot(quotes: seq<OddsQuote>, extra: OddsQuote, top: OddsQuote)
    requires TopOfSlot(top, quotes) && KeyOf(top) == KeyOf(extra) && extra.Effective() > top.Effective()
    ensures Settle(KeyOf(extra), Newest(quotes + [extra], KeyOf(extra))) == ConsolidationResult([extra], [], 0, 0)
  {
    hide Observations, KeyOf, Filter, SortBy;
    OneMoreInSlot(quotes, extra);
    NewerIsAlone(Observations(quotes, KeyOf(extra)), extra, top);
    SortByOne(extra);
  }

  lemma SortByOne(quote: OddsQuote)
    ensures SortBy([quote], ByObservation) == [quote]
  {
    assert Insert([], quote, ByObservation) == [quote];
  }

  lemma EquallyNewJoins(quotes: seq<OddsQuote>, extra: OddsQuote, top: OddsQuote)
    requires TopOfSlot(top, quotes) && KeyOf(top) == KeyOf(extra) && extra.Effective() == top.Effective()
    ensures !SameState(extra, top) ==> Suppressed(KeyOf(extra), quotes + [extra])
    ensures SameState(extra, top) ==> (Suppressed(KeyOf(extra), quotes + [extra]) <==> Suppressed(KeyOf(extra), quotes))
  {
    var slot, more := KeyOf(extra), quotes + [extra];
    assert TopOfSlot(extra, more) && TopOfSlot(top, more);
    forall q
      ensures TopOfSlot(q, more) && KeyOf(q) == slot <==> q == extra || (TopOfSlot(q, quotes) && KeyOf(q) == slot)
    {
      assert q in more <==> q in quotes || q == extra;
    }
  }

  lemma OlderIsDropped(observations: seq<OddsQuote>, extra: OddsQuote, top: OddsQuote)
    requires top in observations && extra.Effective() < top.Effective()
    ensures Filter(observations + [extra], (q: OddsQuote) => IsNewest(q, observations + [extra]))
            == Filter(observations, (q: OddsQuote) => IsNewest(q, observations))
  {
    var longer := observations + [extra];
    var k :| 0 <= k < |observations| && observations[k] == top;
    assert longer[k] == top && longer[..|observations|] == observations;
    forall i | 0 <= i < |observations|
      ensures IsNewest(observations[i], longer) == IsNewest(observations[i], observations)
    {
      assert forall j :: 0 <= j < |observations| ==> longer[j] == observations[j];
    }
    FilterAlike(observations, (q: OddsQuote) => IsNewest(q, longer), (q: OddsQuote) => IsNewest(q, observations));
    assert !IsNewest(extra, longer);
  }

  lemma NewerIsAlone(observations: seq<OddsQuote>, extra: OddsQuote, top: OddsQuote)
    requires forall o :: o in observations ==> o.Effective() <= top.Effective()
    requires extra.Effective() > top.Effective()
    ensures Filter(observations + [extra], (q: OddsQuote) => IsNewest(q, observations + [extra])) == [extra]
  {
    var longer := observations + [extra];
    assert longer[|observations|] == extra && longer[..|observations|] == observations;
    forall i | 0 <= i < |observations|
      ensures !IsNewest(observations[i], longer)
    {
      assert observations[i] in observations;
    }
    FilterAlike(observations, (q: OddsQuote) => IsNewest(q, longer), (q: OddsQuote) => false);
    FilterNone(observations);
  }

  lemma {:induction false} FilterNone(quotes: seq<OddsQuote>)
    ensures Filter(quotes, (q: OddsQuote) => false) == []
  {
    if |quotes| > 0 {
      FilterNone(quotes[..|quotes| - 1]);
    }
  }
}
