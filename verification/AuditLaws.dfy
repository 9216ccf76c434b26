/** What each transaction of the evidence store does, by the contents of its rows. */
module AuditLaws {
  import opened Wrappers
  import opened Domain
  import opened AuditStore
  import opened EvidenceLaws

  predicate HoldsQuote(t: Tables, quote: OddsQuote) {
    var key := EntityKey(QuoteKind, quote.id);
    key in t.snapshots && t.snapshots[key].payload == QuotePayload(quote)
  }

  /** Some opportunity's evidence names the quote. */
  predicate IsEvidence(t: Tables, id: Id) {
    exists link :: link in t.links && link.quote == id
  }

  // ----- Purging

  /** Of any reachable store a purge keeps all but the quotes ingested before the cutoff that are no evidence. */
  lemma PurgeMeans(ops: seq<StoreOp>, cutoff: Instant)
    ensures var t := StoreRun(EMPTY_TABLES, ops);
      var after := Purged(t, cutoff);
      && (forall q :: HoldsQuote(after, q) <==> HoldsQuote(t, q) && (q.ingestedAt >= cutoff || IsEvidence(t, q.id)))
      && (forall key: EntityKey :: key.kind != QuoteKind ==> (key in after.snapshots <==> key in t.snapshots))
      && (forall key :: key in after.snapshots ==> key in t.snapshots && after.snapshots[key] == t.snapshots[key])
      && after.links == t.links && after.plans == t.plans && after.audit == t.audit
  {
    hide StoreRun;
    var t := StoreRun(EMPTY_TABLES, ops);
    ReachableSound(ops);
    forall q: OddsQuote
      ensures HoldsQuote(Purged(t, cutoff), q)
              <==> HoldsQuote(t, q) && (q.ingestedAt >= cutoff || IsEvidence(t, q.id))
    {
      QuotePurged(t, cutoff, q);
    }
  }

  lemma QuotePurged(t: Tables, cutoff: Instant, quote: OddsQuote)
    requires QuoteSound(t, quote.id)
    ensures HoldsQuote(Purged(t, cutoff), quote)
            <==> HoldsQuote(t, quote) && (quote.ingestedAt >= cutoff || IsEvidence(t, quote.id))
  {
    assert Referenced(t, quote.id) <==> IsEvidence(t, quote.id) by {
      if link :| link in t.links && link.quote == quote.id {
        var i :| 0 <= i < |t.links| && t.links[i] == link;
      }
    }
    assert QuoteKey(quote.id) == EntityKey(QuoteKind, quote.id);
  }

  // ----- Quotes

  /** Every quote is new or already stored with this content, and none is given twice with different content. */
  ghost predicate NoCollision(t: Tables, quotes: seq<OddsQuote>) {
    && (forall i :: 0 <= i < |quotes| && EntityKey(QuoteKind, quotes[i].id) in t.snapshots ==> HoldsQuote(t, quotes[i]))
    && forall i, j :: 0 <= i < j < |quotes| && quotes[i].id == quotes[j].id ==> quotes[i] == quotes[j]
  }

  /** The quotes are stored, nothing else changes, and each new row is audited once. */
  ghost predicate StoresQuotes(before: Tables, after: Tables, quotes: seq<OddsQuote>) {
    && (forall i :: 0 <= i < |quotes| ==> HoldsQuote(after, quotes[i]))
    && (forall key :: key in after.snapshots <==> key in before.snapshots || IsKeyOf(key, quotes))
    && (forall key :: key in before.snapshots ==>
          key in after.snapshots && after.snapshots[key] == before.snapshots[key])
    && after.links == before.links && after.plans == before.plans
    && Audits(before, after)
  }

  predicate IsKeyOf(key: EntityKey, quotes: seq<OddsQuote>) {
    exists i :: 0 <= i < |quotes| && key == EntityKey(QuoteKind, quotes[i].id)
  }

  /** The trail grows by one entry for every new row, with its content. */
  ghost predicate Audits(before: Tables, after: Tables) {
    && before.audit <= after.audit
    && |after.audit| == |before.audit| + |after.snapshots| - |before.snapshots|
    && forall i :: |before.audit| <= i < |after.audit| ==> IsNewEntry(after.audit[i], before, after)
  }

  predicate IsNewEntry(entry: AuditEvent, before: Tables, after: Tables) {
    && entry.key !in before.snapshots && entry.key in after.snapshots
    && entry.payload == after.snapshots[entry.key].payload
  }

  lemma {:induction false} NothingStored(t: Tables)
    ensures StoresQuotes(t, t, []) && NoCollision(t, [])
  {
  }

  lemma UpsertStores(before: Tables, middle: Tables, quotes: seq<OddsQuote>, quote: OddsQuote)
    requires StoresQuotes(before, middle, quotes)
    requires Upserted(middle, EntityKey(QuoteKind, quote.id), QuoteSnapshot(quote)).Some?
    ensures StoresQuotes(before, Upserted(middle, EntityKey(QuoteKind, quote.id), QuoteSnapshot(quote)).value,
                         quotes + [quote])
  {
    var key := EntityKey(QuoteKind, quote.id);
    var after := Upserted(middle, key, QuoteSnapshot(quote)).value;
    KeysOfMore(quotes, quote);
    AuditsMore(before, middle, after, key, QuoteSnapshot(quote));
    forall i | 0 <= i <= |quotes|
      ensures HoldsQuote(after, (quotes + [quote])[i])
    {
      assert i < |quotes| ==> HoldsQuote(middle, quotes[i]);
    }
  }

  lemma KeysOfMore(quotes: seq<OddsQuote>, quote: OddsQuote)
    ensures forall key :: IsKeyOf(key, quotes + [quote]) <==>
              IsKeyOf(key, quotes) || key == EntityKey(QuoteKind, quote.id)
  {
    var more := quotes + [quote];
    assert more[|quotes|] == quote && forall i :: 0 <= i < |quotes| ==> more[i] == quotes[i];
  }

  lemma AuditsMore(before: Tables, middle: Tables, after: Tables, key: EntityKey, snapshot: Snapshot)
    requires Audits(before, middle) && Upserted(middle, key, snapshot) == Some(after)
    requires forall k :: k in before.snapshots ==> k in middle.snapshots
    ensures Audits(before, after)
  {
    if key !in middle.snapshots {
      OneMoreRow(middle.snapshots, key, snapshot);
      assert after.audit == middle.audit + [Created(key, snapshot.payload)];
      forall i | |before.audit| <= i < |after.audit|
        ensures IsNewEntry(after.audit[i], before, after)
      {
        assert i < |middle.audit| ==> IsNewEntry(middle.audit[i], before, middle);
      }
    }
  }

  lemma OneMoreRow(rows: map<EntityKey, Snapshot>, key: EntityKey, snapshot: Snapshot)
    requires key !in rows
    ensures |rows[key := snapshot]| == |rows| + 1
  {
    assert rows[key := snapshot].Keys == rows.Keys + {key};
  }

  lemma CollisionStep(t: Tables, middle: Tables, quotes: seq<OddsQuote>, quote: OddsQuote)
    requires NoCollision(t, quotes) && StoresQuotes(t, middle, quotes)
    ensures NoCollision(t, quotes + [quote]) <==>
            Upserted(middle, EntityKey(QuoteKind, quote.id), QuoteSnapshot(quote)).Some?
  {
    var more, key := quotes + [quote], EntityKey(QuoteKind, quote.id);
    assert more[|quotes|] == quote && forall i :: 0 <= i < |quotes| ==> more[i] == quotes[i];
    if key in middle.snapshots && middle.snapshots[key].payload != QuotePayload(quote) {
      if key in t.snapshots {
        assert !HoldsQuote(t, more[|quotes|]);
      } else {
        var i :| 0 <= i < |quotes| && key == EntityKey(QuoteKind, quotes[i].id);
        assert HoldsQuote(middle, quotes[i]);
        assert more[i].id == more[|quotes|].id && more[i] != more[|quotes|];
      }
    } else {
      forall i | 0 <= i < |quotes| && quotes[i].id == quote.id
        ensures quotes[i] == quote
      {
        assert HoldsQuote(middle, quotes[i]);
      }
    }
  }

  lemma CollisionInPrefix(t: Tables, quotes: seq<OddsQuote>, n: nat)
    requires n <= |quotes| && NoCollision(t, quotes)
    ensures NoCollision(t, quotes[..n])
  {
  }

  lemma {:induction false} UpsertsMean(t: Tables, quotes: seq<OddsQuote>)
    ensures UpsertedQuotes(t, quotes).Some? <==> NoCollision(t, quotes)
    ensures UpsertedQuotes(t, quotes).Some? ==> StoresQuotes(t, UpsertedQuotes(t, quotes).value, quotes)
  {
    hide NoCollision, StoresQuotes, Upserted, QuoteSnapshot;
    if |quotes| == 0 {
      NothingStored(t);
      assert quotes == [];
    } else {
      var n := |quotes| - 1;
      assert quotes == quotes[..n] + [quotes[n]];
      UpsertsMean(t, quotes[..n]);
      if NoCollision(t, quotes) {
        CollisionInPrefix(t, quotes, n);
      }
      if UpsertedQuotes(t, quotes[..n]).Some? {
        var middle := UpsertedQuotes(t, quotes[..n]).value;
        CollisionStep(t, middle, quotes[..n], quotes[n]);
        if Upserted(middle, QuoteKey(quotes[n].id), QuoteSnapshot(quotes[n])).Some? {
          UpsertStores(t, middle, quotes[..n], quotes[n]);
        }
      }
    }
  }

  /** A batch of quotes is stored exactly when nothing collides, and then with nothing else changed. */
  lemma PersistQuotesMeans(t: Tables, quotes: seq<OddsQuote>)
    ensures var r := PersistedQuotes(t, quotes);
      && (r.Ok? <==> NoCollision(t, quotes)) && (r.Ok? ==> StoresQuotes(t, r.value, quotes))
      && (r.Err? ==> r.error == ContentCollision)
  {
    hide NoCollision, StoresQuotes;
    UpsertsMean(t, quotes);
  }

  // ----- Opportunities

  /** The last quote given with this id. */
  ghost predicate LastGiven(quote: OddsQuote, quotes: seq<OddsQuote>) {
    exists k :: 0 <= k < |quotes| && quotes[k] == quote && forall j :: k < j < |quotes| ==> quotes[j].id != quote.id
  }

  lemma LastGivenMore(quotes: seq<OddsQuote>, last: OddsQuote)
    ensures LastGiven(last, quotes + [last])
    ensures forall q :: LastGiven(q, quotes) && q.id != last.id ==> LastGiven(q, quotes + [last])
  {
    var more := quotes + [last];
    assert more[|quotes|] == last;
    forall q | LastGiven(q, quotes) && q.id != last.id
      ensures LastGiven(q, more)
    {
      var k :| 0 <= k < |quotes| && quotes[k] == q && forall j :: k < j < |quotes| ==> quotes[j].id != q.id;
      assert more[k] == q && forall j :: k < j < |more| ==> more[j].id != q.id;
    }
  }

  lemma {:induction false} QuotesByIdMeans(quotes: seq<OddsQuote>)
    ensures forall id :: id in QuotesById(quotes) ==>
              QuotesById(quotes)[id].id == id && LastGiven(QuotesById(quotes)[id], quotes)
    ensures forall i :: 0 <= i < |quotes| ==> quotes[i].id in QuotesById(quotes)
  {
    hide LastGiven;
    if |quotes| > 0 {
      var n := |quotes| - 1;
      QuotesByIdMeans(quotes[..n]);
      LastGivenMore(quotes[..n], quotes[n]);
      assert quotes == quotes[..n] + [quotes[n]];
      forall i | 0 <= i < |quotes|
        ensures quotes[i].id in QuotesById(quotes)
      {
        assert i < n ==> quotes[..n][i].id in QuotesById(quotes[..n]);
      }
    }
  }

  lemma LastGivenIsGiven(q: OddsQuote, opportunity: Opportunity, quotes: seq<OddsQuote>)
    requires LastGiven(q, quotes) && GivesItsQuotes(opportunity, quotes)
    ensures q.id in opportunity.quoteIds
  {
  }

  /** The opportunity names each of its quotes once, and the quotes given are exactly those. */
  ghost predicate GivesItsQuotes(opportunity: Opportunity, quotes: seq<OddsQuote>) {
    && (forall i, j :: 0 <= i < j < |opportunity.quoteIds| ==> opportunity.quoteIds[i] != opportunity.quoteIds[j])
    && (forall i :: 0 <= i < |quotes| ==> quotes[i].id in opportunity.quoteIds)
    && (forall i :: 0 <= i < |opportunity.quoteIds| ==>
          exists k :: 0 <= k < |quotes| && quotes[k].id == opportunity.quoteIds[i])
  }

  lemma ExactlyReferencedMeans(opportunity: Opportunity, quotes: seq<OddsQuote>)
    ensures ExactlyReferenced(opportunity, quotes) <==> GivesItsQuotes(opportunity, quotes)
  {
    var ids, keys := opportunity.quoteIds, QuotesById(quotes).Keys;
    QuotesByIdMeans(quotes);
    MembersCount(ids);
    assert |QuotesById(quotes)| == |keys|;
    forall id
      ensures id in keys <==> exists k :: 0 <= k < |quotes| && quotes[k].id == id
    {
    }
    if ExactlyReferenced(opportunity, quotes) {
      forall i | 0 <= i < |quotes|
        ensures quotes[i].id in ids
      {
        assert quotes[i].id in keys && quotes[i].id in Members(ids);
      }
      forall i | 0 <= i < |ids|
        ensures ids[i] in keys
      {
        assert ids[i] in Members(ids);
      }
    }
    if GivesItsQuotes(opportunity, quotes) {
      DistinctMembersCount(ids);
      assert keys == Members(ids);
    }
  }

  lemma {:induction false} DistinctMembersCount(xs: seq<Id>)
    requires forall i, j :: 0 <= i < j < |xs| ==> xs[i] != xs[j]
    ensures |Members(xs)| == |xs|
  {
    if |xs| == 0 {
      assert Members(xs) == {};
    } else {
      var n := |xs| - 1;
      DistinctMembersCount(xs[..n]);
      assert xs == xs[..n] + [xs[n]];
      assert Members(xs) == Members(xs[..n]) + {xs[n]};
      assert xs[n] !in Members(xs[..n]);
    }
  }

  /** Stored content differs from what is to be written. */
  predicate Differs(t: Tables, key: EntityKey, payload: Payload) {
    key in t.snapshots && t.snapshots[key].payload != payload
  }

  /** Why a write of an opportunity is refused, in the order checked. */
  ghost predicate RefusedFor(fault: StoreError, t: Tables, opportunity: Opportunity, quotes: seq<OddsQuote>,
                             plan: Option<StakePlan>)
  {
    var collides :=
      || Differs(t, EntityKey(OpportunityKind, opportunity.id), OpportunityPayload(opportunity))
      || exists q :: LastGiven(q, quotes) && Differs(t, EntityKey(QuoteKind, q.id), QuotePayload(q));
    var otherPlan := plan.Some? && opportunity.id in t.plans && t.plans[opportunity.id] != plan.value.id;
    match fault
    case WrongQuotes => !GivesItsQuotes(opportunity, quotes)
    case PlanOfOtherOpportunity =>
      GivesItsQuotes(opportunity, quotes) && plan.Some? && plan.value.opportunityId != opportunity.id
    case DifferentPlan =>
      && GivesItsQuotes(opportunity, quotes) && !collides && otherPlan && plan.value.opportunityId == opportunity.id
    case ContentCollision =>
      && GivesItsQuotes(opportunity, quotes) && (plan.Some? ==> plan.value.opportunityId == opportunity.id)
      && (collides
          || (!otherPlan && plan.Some? && Differs(t, EntityKey(PlanKind, plan.value.id), PlanPayload(plan.value))))
    case _ => false
  }

  /** The quotes to be stored collide exactly when the last one given for some id differs from what is stored. */
  lemma OrderedCollision(t: Tables, opportunity: Opportunity, quotes: seq<OddsQuote>)
    requires ExactlyReferenced(opportunity, quotes)
    requires forall i :: 0 <= i < |opportunity.quoteIds| ==> opportunity.quoteIds[i] in QuotesById(quotes)
    ensures NoCollision(t, InOrder(QuotesById(quotes), opportunity.quoteIds)) <==>
            !exists q :: LastGiven(q, quotes) && Differs(t, EntityKey(QuoteKind, q.id), QuotePayload(q))
  {
    hide LastGiven, ExactlyReferenced, GivesItsQuotes, QuotesById;
    var ordered, ids := InOrder(QuotesById(quotes), opportunity.quoteIds), opportunity.quoteIds;
    ExactlyReferencedMeans(opportunity, quotes);
    QuotesByIdMeans(quotes);
    forall i | 0 <= i < |ordered|
      ensures ordered[i].id == ids[i] && LastGiven(ordered[i], quotes)
    {
    }
    if q :| LastGiven(q, quotes) && Differs(t, EntityKey(QuoteKind, q.id), QuotePayload(q)) {
      LastGivenIsGiven(q, opportunity, quotes);
      var i :| 0 <= i < |ids| && ids[i] == q.id;
      LastGivenUnique(ordered[i], q, quotes);
      assert !HoldsQuote(t, ordered[i]);
    }
  }

  lemma LastGivenUnique(a: OddsQuote, b: OddsQuote, quotes: seq<OddsQuote>)
    requires LastGiven(a, quotes) && LastGiven(b, quotes) && a.id == b.id
    ensures a == b
  {
  }

  /** A write is refused exactly for these reasons; otherwise it is committed. */
  lemma PersistOpportunityMeans(t: Tables, opportunity: Opportunity, quotes: seq<OddsQuote>, plan: Option<StakePlan>)
    ensures forall fault :: PersistedOpportunity(t, opportunity, quotes, plan) == Err(fault)
                            <==> RefusedFor(fault, t, opportunity, quotes, plan)
  {
    ExactlyReferencedMeans(opportunity, quotes);
    if ExactlyReferenced(opportunity, quotes) {
      WritesMean(t, opportunity, quotes, plan);
    }
  }

  lemma WritesMean(t: Tables, opportunity: Opportunity, quotes: seq<OddsQuote>, plan: Option<StakePlan>)
    requires ExactlyReferenced(opportunity, quotes) && GivesItsQuotes(opportunity, quotes)
    ensures forall fault :: PersistedOpportunity(t, opportunity, quotes, plan) == Err(fault)
                            <==> RefusedFor(fault, t, opportunity, quotes, plan)
  {
    hide UpsertedQuotes, NoCollision, ExactlyReferenced, GivesItsQuotes, LastGiven, StoresQuotes, Linked;
    assert forall i :: 0 <= i < |opportunity.quoteIds| ==> opportunity.quoteIds[i] in QuotesById(quotes) by {
      ReferencedOnce(opportunity, quotes);
    }
    var ordered := InOrder(QuotesById(quotes), opportunity.quoteIds);
    OrderedCollision(t, opportunity, quotes);
    UpsertsMean(t, ordered);
    if NoCollision(t, ordered) {
      OtherRowsStay(t, UpsertedQuotes(t, ordered).value, ordered);
    }
  }

  /** The content is stored; a row that was not there before has these columns. */
  predicate StoresRow(before: Tables, after: Tables, key: EntityKey, row: Snapshot) {
    && key in after.snapshots && after.snapshots[key].payload == row.payload
    && (key !in before.snapshots ==> after.snapshots[key] == row)
  }

  /** The rows a committed write leaves: the last quote given for each id, the opportunity and the plan. */
  lemma CommittedRows(t: Tables, opportunity: Opportunity, quotes: seq<OddsQuote>, plan: Option<StakePlan>)
    requires PersistedOpportunity(t, opportunity, quotes, plan).Ok?
    ensures var after := PersistedOpportunity(t, opportunity, quotes, plan).value;
      && (forall q :: LastGiven(q, quotes) ==> HoldsQuote(after, q))
      && StoresRow(t, after, EntityKey(OpportunityKind, opportunity.id),
                   Snapshot(opportunity.event, None, opportunity.detectedAt, OpportunityPayload(opportunity)))
      && (plan.Some? ==>
            StoresRow(t, after, EntityKey(PlanKind, plan.value.id),
                      Snapshot(opportunity.event, None, plan.value.createdAt, PlanPayload(plan.value))))
  {
    hide UpsertedQuotes, NoCollision, ExactlyReferenced, GivesItsQuotes, LastGiven, StoresQuotes, Linked, QuotesById,
      InOrder, Members;
    ExactlyReferencedMeans(opportunity, quotes);
    assert forall i :: 0 <= i < |opportunity.quoteIds| ==> opportunity.quoteIds[i] in QuotesById(quotes) by {
      ReferencedOnce(opportunity, quotes);
    }
    var ordered := InOrder(QuotesById(quotes), opportunity.quoteIds);
    UpsertsMean(t, ordered);
    var stored := UpsertedQuotes(t, ordered).value;
    OtherRowsStay(t, stored, ordered);
    OrderedHeld(t, stored, opportunity, quotes);
  }

  lemma OrderedHeld(before: Tables, after: Tables, opportunity: Opportunity, quotes: seq<OddsQuote>)
    requires ExactlyReferenced(opportunity, quotes)
    requires forall i :: 0 <= i < |opportunity.quoteIds| ==> opportunity.quoteIds[i] in QuotesById(quotes)
    requires StoresQuotes(before, after, InOrder(QuotesById(quotes), opportunity.quoteIds))
    ensures forall q :: LastGiven(q, quotes) ==> HoldsQuote(after, q)
  {
    hide LastGiven, ExactlyReferenced, GivesItsQuotes, QuotesById;
    var ordered, ids := InOrder(QuotesById(quotes), opportunity.quoteIds), opportunity.quoteIds;
    ExactlyReferencedMeans(opportunity, quotes);
    QuotesByIdMeans(quotes);
    forall q | LastGiven(q, quotes)
      ensures HoldsQuote(after, q)
    {
      LastGivenIsGiven(q, opportunity, quotes);
      var i :| 0 <= i < |ids| && ids[i] == q.id;
      LastGivenUnique(ordered[i], q, quotes);
    }
  }

  lemma OtherRowsStay(before: Tables, after: Tables, quotes: seq<OddsQuote>)
    requires StoresQuotes(before, after, quotes)
    ensures after.plans == before.plans
    ensures forall key: EntityKey :: key.kind != QuoteKind ==>
              && (key in after.snapshots <==> key in before.snapshots)
              && (key in before.snapshots ==> after.snapshots[key] == before.snapshots[key])
  {
  }
}
