/** What is committed stays reconstructable: laws of whole runs of the evidence store. */
module EvidenceLaws {
  import opened Wrappers
  import opened Ordering
  import opened Collections
  import opened Domain
  import opened AuditStore

  // ----- What every reachable state satisfies

  function LinksFor(opportunity: Id, quoteIds: seq<Id>): seq<Link> {
    seq(|quoteIds|, i requires 0 <= i < |quoteIds| => Link(opportunity, quoteIds[i], i))
  }

  ghost predicate QuoteSound(t: Tables, id: Id) {
    QuoteKey(id) in t.snapshots ==>
      var s := t.snapshots[QuoteKey(id)];
      && s.payload.QuotePayload? && s.payload.quote.id == id
      && s.event == s.payload.quote.event && s.provider == Some(s.payload.quote.provider)
      && s.occurredAt == s.payload.quote.ingestedAt
  }

  /** An opportunity is stored with all its quotes and links; one that is not stored has neither links nor a plan. */
  ghost predicate OpportunitySound(t: Tables, id: Id) {
    if OpportunityKey(id) in t.snapshots then
      var p := t.snapshots[OpportunityKey(id)].payload;
      && p.OpportunityPayload? && p.opportunity.id == id && Distinct(p.opportunity.quoteIds)
      && Filter(t.links, OfOpportunity(id)) == LinksFor(id, p.opportunity.quoteIds)
      && forall i :: 0 <= i < |p.opportunity.quoteIds| ==> QuoteKey(p.opportunity.quoteIds[i]) in t.snapshots
    else
      Filter(t.links, OfOpportunity(id)) == [] && id !in t.plans
  }

  ghost predicate PlanRowSound(t: Tables, id: Id) {
    id in t.plans ==>
      && PlanKey(t.plans[id]) in t.snapshots
      && var p := t.snapshots[PlanKey(t.plans[id])].payload; p.PlanPayload? && p.plan.opportunityId == id
  }

  ghost predicate PlanSound(t: Tables, id: Id) {
    PlanKey(id) in t.snapshots ==>
      var p := t.snapshots[PlanKey(id)].payload;
      p.PlanPayload? && p.plan.id == id && p.plan.opportunityId in t.plans && t.plans[p.plan.opportunityId] == id
  }

  ghost predicate Sound(t: Tables) {
    && (forall id :: QuoteSound(t, id))
    && (forall id :: OpportunitySound(t, id))
    && (forall id :: PlanRowSound(t, id))
    && (forall id :: PlanSound(t, id))
  }

  // ----- Reading a sound store

  lemma {:induction false} LoadsLinked(t: Tables, opportunity: Id, quoteIds: seq<Id>)
    requires forall id :: QuoteSound(t, id)
    requires forall i :: 0 <= i < |quoteIds| ==> QuoteKey(quoteIds[i]) in t.snapshots
    ensures LoadLinked(t, LinksFor(opportunity, quoteIds)).Some?
    ensures Ids(LoadLinked(t, LinksFor(opportunity, quoteIds)).value) == quoteIds
  {
    if |quoteIds| > 0 {
      var n := |quoteIds| - 1;
      LoadsLinked(t, opportunity, quoteIds[..n]);
      assert LinksFor(opportunity, quoteIds)[..n] == LinksFor(opportunity, quoteIds[..n]);
      assert QuoteSound(t, quoteIds[n]);
      var init := LoadLinked(t, LinksFor(opportunity, quoteIds[..n])).value;
      var q := t.snapshots[QuoteKey(quoteIds[n])].payload.quote;
      assert Ids(init + [q]) == Ids(init) + [q.id];
    }
  }

  lemma LinksInOrder(t: Tables, id: Id)
    requires OpportunitySound(t, id) && OpportunityKey(id) in t.snapshots
    ensures LinksOf(t, id) == LinksFor(id, t.snapshots[OpportunityKey(id)].payload.opportunity.quoteIds)
  {
    var links := LinksFor(id, t.snapshots[OpportunityKey(id)].payload.opportunity.quoteIds);
    forall i, j | 0 <= i < j < |links|
      ensures !KeyLess(ByOrdinal(links[j]), ByOrdinal(links[i]))
    {
      assert links[i].ordinal < links[j].ordinal;
    }
    SortBySorted(links, ByOrdinal);
  }

  function StoredOpportunity(t: Tables, id: Id): Opportunity
    requires OpportunityKey(id) in t.snapshots && t.snapshots[OpportunityKey(id)].payload.OpportunityPayload?
  {
    t.snapshots[OpportunityKey(id)].payload.opportunity
  }

  lemma LoadsPlan(t: Tables, id: Id)
    requires PlanRowSound(t, id) && forall plan :: PlanSound(t, plan)
    ensures LoadPlan(t, id).Ok?
    ensures LoadPlan(t, id).value.Some? <==> id in t.plans
    ensures id in t.plans ==> LoadPlan(t, id).value.value.id == t.plans[id]
  {
    if id in t.plans {
      assert PlanSound(t, t.plans[id]);
    }
  }

  /** A stored opportunity can always be read back, with its quotes in order and its recorded plan. */
  lemma StoredReadsBack(t: Tables, id: Id)
    requires Sound(t) && OpportunityKey(id) in t.snapshots
    ensures t.snapshots[OpportunityKey(id)].payload.OpportunityPayload?
    ensures var opportunity := StoredOpportunity(t, id);
      && opportunity.id == id
      && LoadLinked(t, LinksFor(id, opportunity.quoteIds)).Some? && LoadPlan(t, id).Ok?
      && Ids(LoadLinked(t, LinksFor(id, opportunity.quoteIds)).value) == opportunity.quoteIds
      && Reconstructed(t, id) == Ok(Evidence(opportunity, LoadLinked(t, LinksFor(id, opportunity.quoteIds)).value,
                                             LoadPlan(t, id).value))
  {
    hide LoadLinked, LinksOf, LoadPlan;
    assert OpportunitySound(t, id) && PlanRowSound(t, id);
    LinksInOrder(t, id);
    LoadsLinked(t, id, StoredOpportunity(t, id).quoteIds);
    LoadsPlan(t, id);
  }

  // ----- What one write leaves alone

  /** Stored content is not overwritten, and evidence that is referenced stays. */
  ghost predicate Keeps(before: Tables, after: Tables) {
    && (forall key :: key in before.snapshots && key in after.snapshots ==>
      after.snapshots[key] == before.snapshots[key])
    && (forall key :: key in before.snapshots && key.kind != QuoteKind ==> key in after.snapshots)
    && (forall key :: key in before.snapshots && key.kind == QuoteKind && Referenced(before, key.id) ==>
      key in after.snapshots)
    && (forall id :: id in before.plans ==> id in after.plans && after.plans[id] == before.plans[id])
    && (forall id :: OpportunityKey(id) in before.snapshots ==>
          Filter(after.links, OfOpportunity(id)) == Filter(before.links, OfOpportunity(id)))
    && before.audit <= after.audit
  }

  lemma ReferencedByLinks(t: Tables, id: Id, i: nat)
    requires OpportunitySound(t, id) && OpportunityKey(id) in t.snapshots
    requires i < |t.snapshots[OpportunityKey(id)].payload.opportunity.quoteIds|
    ensures Referenced(t, t.snapshots[OpportunityKey(id)].payload.opportunity.quoteIds[i])
  {
    var quoteIds := t.snapshots[OpportunityKey(id)].payload.opportunity.quoteIds;
    var own := Filter(t.links, OfOpportunity(id));
    FilterMembers(t.links, OfOpportunity(id));
    assert own[i] == Link(id, quoteIds[i], i) && own[i] in own;
    var k :| 0 <= k < |t.links| && t.links[k] == own[i];
  }

  lemma {:induction false} SameLinkedQuotes(before: Tables, after: Tables, links: seq<Link>)
    requires forall i :: 0 <= i < |links| ==> QuoteKey(links[i].quote) in before.snapshots
                                              && QuoteKey(links[i].quote) in after.snapshots
    requires forall key :: key in before.snapshots && key in after.snapshots ==>
      after.snapshots[key] == before.snapshots[key]
    ensures LoadLinked(after, links) == LoadLinked(before, links)
  {
    if |links| > 0 {
      SameLinkedQuotes(before, after, links[..|links| - 1]);
    }
  }

  /** What could be reconstructed still is: the opportunity, its quotes in order, and a recorded plan. */
  ghost predicate SameEvidence(before: Tables, after: Tables, id: Id) {
    && Reconstructed(before, id).Ok? && Reconstructed(after, id).Ok?
    && Reconstructed(after, id).value.opportunity == Reconstructed(before, id).value.opportunity
    && Reconstructed(after, id).value.quotes == Reconstructed(before, id).value.quotes
    && (Reconstructed(before, id).value.plan.Some? ==>
      Reconstructed(after, id).value.plan == Reconstructed(before, id).value.plan)
  }

  lemma KeptEvidence(before: Tables, after: Tables, id: Id)
    requires Sound(before) && Sound(after) && Keeps(before, after) && OpportunityKey(id) in before.snapshots
    ensures SameEvidence(before, after, id)
  {
    hide Reconstructed, LoadLinked, LinksOf, LoadPlan;
    StoredReadsBack(before, id);
    StoredReadsBack(after, id);
    assert OpportunitySound(before, id);
    var quoteIds := StoredOpportunity(before, id).quoteIds;
    forall i | 0 <= i < |quoteIds|
      ensures QuoteKey(quoteIds[i]) in after.snapshots
    {
      ReferencedByLinks(before, id, i);
    }
    SameLinkedQuotes(before, after, LinksFor(id, quoteIds));
    SamePlan(before, after, id);
  }

  lemma SamePlan(before: Tables, after: Tables, id: Id)
    requires PlanRowSound(before, id) && Keeps(before, after)
    ensures id in before.plans ==> LoadPlan(after, id) == LoadPlan(before, id)
    ensures id !in before.plans ==> LoadPlan(before, id) == Ok(None)
  {
  }

  // ----- Writes only add

  /** Everything stored before is stored after, with the same content. */
  ghost predicate Grows(before: Tables, after: Tables) {
    && (forall key :: key in before.snapshots ==>
      key in after.snapshots && after.snapshots[key] == before.snapshots[key])
    && (forall id :: id in before.plans ==> id in after.plans && after.plans[id] == before.plans[id])
    && (forall id :: OpportunityKey(id) in before.snapshots ==>
          Filter(after.links, OfOpportunity(id)) == Filter(before.links, OfOpportunity(id)))
    && before.audit <= after.audit
  }

  lemma GrowsOn(a: Tables, b: Tables, c: Tables)
    requires Grows(a, b) && Grows(b, c)
    ensures Grows(a, c)
  {
  }

  /** Only quotes were added. */
  ghost predicate AddsQuotes(before: Tables, after: Tables) {
    && Grows(before, after) && after.links == before.links && after.plans == before.plans
    && (forall key :: key in after.snapshots && key.kind != QuoteKind ==> key in before.snapshots)
    && (forall id :: QuoteSound(before, id) ==> QuoteSound(after, id))
  }

  lemma {:induction false} UpsertsAddQuotes(t: Tables, quotes: seq<OddsQuote>)
    requires UpsertedQuotes(t, quotes).Some?
    ensures AddsQuotes(t, UpsertedQuotes(t, quotes).value)
    ensures forall i :: 0 <= i < |quotes| ==>
      && QuoteKey(quotes[i].id) in UpsertedQuotes(t, quotes).value.snapshots
      && UpsertedQuotes(t, quotes).value.snapshots[QuoteKey(quotes[i].id)].payload == QuotePayload(quotes[i])
  {
    if |quotes| > 0 {
      var n := |quotes| - 1;
      UpsertsAddQuotes(t, quotes[..n]);
      var before := UpsertedQuotes(t, quotes[..n]).value;
      var after := UpsertedQuotes(t, quotes).value;
      assert Upserted(before, QuoteKey(quotes[n].id), QuoteSnapshot(quotes[n])) == Some(after);
      GrowsOn(t, before, after);
      forall i | 0 <= i < |quotes|
        ensures QuoteKey(quotes[i].id) in after.snapshots
        ensures after.snapshots[QuoteKey(quotes[i].id)].payload == QuotePayload(quotes[i])
      {
        assert i < n ==> quotes[..n][i] == quotes[i];
      }
    }
  }

  lemma SoundWithMoreQuotes(before: Tables, after: Tables)
    requires Sound(before) && AddsQuotes(before, after)
    ensures Sound(after)
  {
    forall id
      ensures QuoteSound(after, id) && OpportunitySound(after, id) && PlanRowSound(after, id) && PlanSound(after, id)
    {
      assert QuoteSound(before, id) && OpportunitySound(before, id) && PlanRowSound(before, id)
             && PlanSound(before, id);
      assert OpportunityKey(id) in after.snapshots <==> OpportunityKey(id) in before.snapshots;
      assert PlanKey(id) in after.snapshots <==> PlanKey(id) in before.snapshots;
    }
  }

  // ----- Linking

  lemma {:induction false} LinkedElsewhere(links: seq<Link>, opportunity: Id, quoteIds: seq<Id>, other: Id)
    requires other != opportunity
    ensures Filter(Linked(links, opportunity, quoteIds), OfOpportunity(other)) == Filter(links, OfOpportunity(other))
  {
    if |quoteIds| > 0 {
      var n := |quoteIds| - 1;
      LinkedElsewhere(links, opportunity, quoteIds[..n], other);
      var before := Linked(links, opportunity, quoteIds[..n]);
      FilterConcat(before, [Link(opportunity, quoteIds[n], n)], OfOpportunity(other));
      FilterSingle(Link(opportunity, quoteIds[n], n), OfOpportunity(other));
    }
  }

  /** A row clashes only with rows of its own opportunity. */
  lemma InsertableAmongOwn(links: seq<Link>, link: Link)
    ensures Insertable(links, link) <==> Insertable(Filter(links, OfOpportunity(link.opportunity)), link)
  {
    var own := Filter(links, OfOpportunity(link.opportunity));
    FilterMembers(links, OfOpportunity(link.opportunity));
    if Insertable(links, link) {
      forall i | 0 <= i < |own|
        ensures own[i].quote != link.quote && own[i].ordinal != link.ordinal
      {
        assert own[i] in own;
        var k :| 0 <= k < |links| && links[k] == own[i];
      }
    }
    if Insertable(own, link) {
      forall i | 0 <= i < |links| && links[i].opportunity == link.opportunity
        ensures links[i].quote != link.quote && links[i].ordinal != link.ordinal
      {
        assert links[i] in own;
        var k :| 0 <= k < |own| && own[k] == links[i];
      }
    }
  }

  lemma NextLinkInsertable(opportunity: Id, quoteIds: seq<Id>, n: nat)
    requires Distinct(quoteIds) && n < |quoteIds|
    ensures Insertable(LinksFor(opportunity, quoteIds[..n]), Link(opportunity, quoteIds[n], n))
  {
  }

  lemma {:induction false} LinkedFresh(links: seq<Link>, opportunity: Id, quoteIds: seq<Id>)
    requires Filter(links, OfOpportunity(opportunity)) == [] && Distinct(quoteIds)
    ensures Filter(Linked(links, opportunity, quoteIds), OfOpportunity(opportunity)) == LinksFor(opportunity, quoteIds)
  {
    hide Filter, Insertable;
    assert LinksFor(opportunity, []) == [];
    if |quoteIds| > 0 {
      var n := |quoteIds| - 1;
      LinkedFresh(links, opportunity, quoteIds[..n]);
      var before, link := Linked(links, opportunity, quoteIds[..n]), Link(opportunity, quoteIds[n], n);
      InsertableAmongOwn(before, link);
      NextLinkInsertable(opportunity, quoteIds, n);
      FilterConcat(before, [link], OfOpportunity(opportunity));
      FilterSingle(link, OfOpportunity(opportunity));
      assert LinksFor(opportunity, quoteIds) == LinksFor(opportunity, quoteIds[..n]) + [link];
    }
  }

  lemma {:induction false} LinkedAgain(links: seq<Link>, opportunity: Id, quoteIds: seq<Id>, n: nat)
    requires Filter(links, OfOpportunity(opportunity)) == LinksFor(opportunity, quoteIds) && n <= |quoteIds|
    ensures Linked(links, opportunity, quoteIds[..n]) == links
  {
    if n > 0 {
      LinkedAgain(links, opportunity, quoteIds, n - 1);
      assert quoteIds[..n][..n - 1] == quoteIds[..n - 1];
      InsertableAmongOwn(links, Link(opportunity, quoteIds[n - 1], n - 1));
      assert LinksFor(opportunity, quoteIds)[n - 1].quote == quoteIds[n - 1];
    }
  }

  // ----- Each transaction

  function StoredWithLinks(t: Tables, opportunity: Opportunity): Tables
    requires Upserted(t, OpportunityKey(opportunity.id), OpportunitySnapshot(opportunity)).Some?
  {
    var stored := Upserted(t, OpportunityKey(opportunity.id), OpportunitySnapshot(opportunity)).value;
    stored.(links := Linked(stored.links, opportunity.id, opportunity.quoteIds))
  }

  /** Storing an opportunity whose quotes are stored, together with its links. */
  lemma OpportunityStored(t: Tables, opportunity: Opportunity)
    requires Sound(t) && Distinct(opportunity.quoteIds)
    requires forall i :: 0 <= i < |opportunity.quoteIds| ==> QuoteKey(opportunity.quoteIds[i]) in t.snapshots
    requires Upserted(t, OpportunityKey(opportunity.id), OpportunitySnapshot(opportunity)).Some?
    ensures var after := StoredWithLinks(t, opportunity);
      && Sound(after) && Grows(t, after)
      && OpportunityKey(opportunity.id) in after.snapshots
      && after.snapshots[OpportunityKey(opportunity.id)].payload == OpportunityPayload(opportunity)
  {
    var after := StoredWithLinks(t, opportunity);
    assert OpportunitySound(t, opportunity.id);
    if OpportunityKey(opportunity.id) in t.snapshots {
      LinkedAgain(t.links, opportunity.id, opportunity.quoteIds, |opportunity.quoteIds|);
      assert opportunity.quoteIds[..|opportunity.quoteIds|] == opportunity.quoteIds;
    } else {
      LinkedFresh(t.links, opportunity.id, opportunity.quoteIds);
      forall id
        ensures id != opportunity.id ==> Filter(after.links, OfOpportunity(id)) == Filter(t.links, OfOpportunity(id))
      {
        if id != opportunity.id {
          LinkedElsewhere(t.links, opportunity.id, opportunity.quoteIds, id);
        }
      }
      NewOpportunitySound(t, after, opportunity);
    }
  }

  lemma NewOpportunitySound(t: Tables, after: Tables, opportunity: Opportunity)
    requires Sound(t) && Distinct(opportunity.quoteIds)
    requires forall i :: 0 <= i < |opportunity.quoteIds| ==> QuoteKey(opportunity.quoteIds[i]) in t.snapshots
    requires OpportunityKey(opportunity.id) !in t.snapshots
    requires after.snapshots == t.snapshots[OpportunityKey(opportunity.id) := OpportunitySnapshot(opportunity)]
    requires after.plans == t.plans
    requires Filter(after.links, OfOpportunity(opportunity.id)) == LinksFor(opportunity.id, opportunity.quoteIds)
    requires forall id :: id != opportunity.id ==>
      Filter(after.links, OfOpportunity(id)) == Filter(t.links, OfOpportunity(id))
    ensures Sound(after)
  {
    hide Filter;
    forall id
      ensures QuoteSound(after, id) && PlanRowSound(after, id) && PlanSound(after, id)
    {
      assert QuoteSound(t, id) && PlanRowSound(t, id) && PlanSound(t, id);
    }
    forall id
      ensures OpportunitySound(after, id)
    {
      assert OpportunitySound(t, id);
    }
  }

  /** Recording a plan: an id is never reused for another opportunity, so the row is always there. */
  lemma PlanStored(t: Tables, opportunity: Opportunity, plan: StakePlan)
    requires Sound(t) && OpportunityKey(opportunity.id) in t.snapshots && plan.opportunityId == opportunity.id
    requires WithPlan(t, opportunity, plan).Ok?
    ensures var after := WithPlan(t, opportunity, plan).value;
      && Sound(after) && Grows(t, after) && after.links == t.links
      && (forall key: EntityKey :: key.kind != PlanKind ==> (key in after.snapshots <==> key in t.snapshots))
      && opportunity.id in after.plans && after.plans[opportunity.id] == plan.id
      && PlanKey(plan.id) in after.snapshots && after.snapshots[PlanKey(plan.id)].payload == PlanPayload(plan)
  {
    var after := WithPlan(t, opportunity, plan).value;
    assert PlanSound(t, plan.id) && PlanRowSound(t, opportunity.id);
    if PlanKey(plan.id) !in t.snapshots {
      forall id | id in t.plans
        ensures t.plans[id] != plan.id
      {
        assert PlanRowSound(t, id);
      }
      NewPlanSound(t, after, opportunity, plan);
    }
  }

  lemma NewPlanSound(t: Tables, after: Tables, opportunity: Opportunity, plan: StakePlan)
    requires Sound(t) && OpportunityKey(opportunity.id) in t.snapshots && plan.opportunityId == opportunity.id
    requires PlanKey(plan.id) !in t.snapshots && opportunity.id !in t.plans
    requires after.snapshots == t.snapshots[PlanKey(plan.id) := PlanSnapshot(plan, opportunity.event)]
    requires after.plans == t.plans[opportunity.id := plan.id] && after.links == t.links
    ensures Sound(after)
  {
    hide Filter;
    forall id
      ensures QuoteSound(after, id) && OpportunitySound(after, id)
    {
      assert QuoteSound(t, id) && OpportunitySound(t, id);
    }
    forall id
      ensures PlanRowSound(after, id) && PlanSound(after, id)
    {
      assert PlanRowSound(t, id) && PlanSound(t, id);
    }
  }

  lemma {:induction false} LastQuoteById(quotes: seq<OddsQuote>)
    ensures forall id :: id in QuotesById(quotes) ==>
      QuotesById(quotes)[id].id == id && QuotesById(quotes)[id] in quotes
  {
    if |quotes| > 0 {
      LastQuoteById(quotes[..|quotes| - 1]);
    }
  }

  lemma {:induction false} MembersCount(xs: seq<Id>)
    ensures |Members(xs)| <= |xs|
    ensures |Members(xs)| == |xs| ==> Distinct(xs)
  {
    if |xs| > 0 {
      var n := |xs| - 1;
      MembersCount(xs[..n]);
      assert xs == xs[..n] + [xs[n]];
      assert Members(xs) == Members(xs[..n]) + {xs[n]};
      if xs[n] in Members(xs[..n]) {
        assert Members(xs) == Members(xs[..n]);
      }
    } else {
      assert Members(xs) == {};
    }
  }

  lemma ReferencedOnce(opportunity: Opportunity, quotes: seq<OddsQuote>)
    requires ExactlyReferenced(opportunity, quotes)
    ensures Distinct(opportunity.quoteIds)
    ensures forall i :: 0 <= i < |opportunity.quoteIds| ==>
      opportunity.quoteIds[i] in QuotesById(quotes)
        && QuotesById(quotes)[opportunity.quoteIds[i]].id == opportunity.quoteIds[i]
  {
    MembersCount(opportunity.quoteIds);
    LastQuoteById(quotes);
    assert |QuotesById(quotes)| == |QuotesById(quotes).Keys|;
    forall i | 0 <= i < |opportunity.quoteIds|
      ensures opportunity.quoteIds[i] in QuotesById(quotes)
    {
      assert opportunity.quoteIds[i] in Members(opportunity.quoteIds);
    }
  }

  /** The opportunity and its quotes are stored with exactly this content. */
  ghost predicate HoldsEvidence(t: Tables, opportunity: Opportunity, byId: map<Id, OddsQuote>) {
    && OpportunityKey(opportunity.id) in t.snapshots
    && t.snapshots[OpportunityKey(opportunity.id)].payload == OpportunityPayload(opportunity)
    && (forall i :: 0 <= i < |opportunity.quoteIds| ==>
          && opportunity.quoteIds[i] in byId && QuoteKey(opportunity.quoteIds[i]) in t.snapshots
          && t.snapshots[QuoteKey(opportunity.quoteIds[i])].payload == QuotePayload(byId[opportunity.quoteIds[i]]))
  }

  ghost predicate HoldsPlan(t: Tables, opportunity: Id, plan: StakePlan) {
    && opportunity in t.plans && t.plans[opportunity] == plan.id
    && PlanKey(plan.id) in t.snapshots && t.snapshots[PlanKey(plan.id)].payload == PlanPayload(plan)
  }

  lemma EvidenceStored(t: Tables, opportunity: Opportunity, byId: map<Id, OddsQuote>)
    requires Sound(t) && Distinct(opportunity.quoteIds)
    requires forall i :: 0 <= i < |opportunity.quoteIds| ==>
               opportunity.quoteIds[i] in byId && byId[opportunity.quoteIds[i]].id == opportunity.quoteIds[i]
    requires UpsertedQuotes(t, InOrder(byId, opportunity.quoteIds)).Some?
    requires Upserted(UpsertedQuotes(t, InOrder(byId, opportunity.quoteIds)).value,
                      OpportunityKey(opportunity.id), OpportunitySnapshot(opportunity)).Some?
    ensures var after := StoredWithLinks(UpsertedQuotes(t, InOrder(byId, opportunity.quoteIds)).value, opportunity);
      Sound(after) && Grows(t, after) && HoldsEvidence(after, opportunity, byId)
  {
    hide Sound, Upserted, UpsertedQuotes, StoredWithLinks, Filter;
    var ordered := InOrder(byId, opportunity.quoteIds);
    UpsertsAddQuotes(t, ordered);
    var withQuotes := UpsertedQuotes(t, ordered).value;
    SoundWithMoreQuotes(t, withQuotes);
    forall i | 0 <= i < |opportunity.quoteIds|
      ensures QuoteKey(opportunity.quoteIds[i]) in withQuotes.snapshots
      ensures withQuotes.snapshots[QuoteKey(opportunity.quoteIds[i])].payload
              == QuotePayload(byId[opportunity.quoteIds[i]])
    {
      assert ordered[i].id == opportunity.quoteIds[i];
    }
    OpportunityStored(withQuotes, opportunity);
    GrowsOn(t, withQuotes, StoredWithLinks(withQuotes, opportunity));
  }

  /** What a committed opportunity write leaves behind. */
  lemma OpportunityPersisted(t: Tables, opportunity: Opportunity, quotes: seq<OddsQuote>, plan: Option<StakePlan>)
    requires Sound(t) && PersistedOpportunity(t, opportunity, quotes, plan).Ok?
    ensures var after := PersistedOpportunity(t, opportunity, quotes, plan).value;
      && Sound(after) && Grows(t, after) && HoldsEvidence(after, opportunity, QuotesById(quotes))
      && (plan.Some? ==> HoldsPlan(after, opportunity.id, plan.value))
  {
    hide Sound, Upserted, UpsertedQuotes, Linked, WithPlan, Grows, QuotesById;
    ReferencedOnce(opportunity, quotes);
    EvidenceStored(t, opportunity, QuotesById(quotes));
    var linked := StoredWithLinks(UpsertedQuotes(t, InOrder(QuotesById(quotes), opportunity.quoteIds)).value,
                                  opportunity);
    if plan.Some? {
      var after := WithPlan(linked, opportunity, plan.value).value;
      PlanStored(linked, opportunity, plan.value);
      GrowsOn(t, linked, after);
    }
  }

  lemma PurgeKeeps(t: Tables, cutoff: Instant)
    requires Sound(t)
    ensures Sound(Purged(t, cutoff)) && Keeps(t, Purged(t, cutoff))
  {
    var after := Purged(t, cutoff);
    forall id
      ensures QuoteSound(after, id) && PlanRowSound(after, id) && PlanSound(after, id)
    {
      assert QuoteSound(t, id) && PlanRowSound(t, id) && PlanSound(t, id);
    }
    forall id
      ensures OpportunitySound(after, id)
    {
      assert OpportunitySound(t, id);
      if OpportunityKey(id) in t.snapshots {
        var quoteIds := StoredOpportunity(t, id).quoteIds;
        forall i | 0 <= i < |quoteIds|
          ensures QuoteKey(quoteIds[i]) in after.snapshots
        {
          ReferencedByLinks(t, id, i);
        }
      }
    }
  }

  // ----- Runs

  datatype StoreOp =
    | PutQuotes(quotes: seq<OddsQuote>)
    | PutOpportunity(opportunity: Opportunity, evidence: seq<OddsQuote>, plan: Option<StakePlan>)
    | Purge(cutoff: Instant)

  /** One transaction; a failed one is rolled back. */
  function StoreStep(t: Tables, op: StoreOp): Tables {
    match op
    case PutQuotes(quotes) => After(t, PersistedQuotes(t, quotes))
    case PutOpportunity(opportunity, evidence, plan) => After(t, PersistedOpportunity(t, opportunity, evidence, plan))
    case Purge(cutoff) => Purged(t, cutoff)
  }

  function StoreRun(t: Tables, ops: seq<StoreOp>): Tables {
    if |ops| == 0 then t else StoreStep(StoreRun(t, ops[..|ops| - 1]), ops[|ops| - 1])
  }

  /** Every transaction keeps the store sound and leaves stored evidence alone. */
  lemma StepKeeps(t: Tables, op: StoreOp)
    requires Sound(t)
    ensures Sound(StoreStep(t, op)) && Keeps(t, StoreStep(t, op))
  {
    hide Sound;
    match op {
      case PutQuotes(quotes) =>
        if UpsertedQuotes(t, quotes).Some? {
          UpsertsAddQuotes(t, quotes);
          SoundWithMoreQuotes(t, UpsertedQuotes(t, quotes).value);
        }
      case PutOpportunity(opportunity, evidence, plan) =>
        if PersistedOpportunity(t, opportunity, evidence, plan).Ok? {
          OpportunityPersisted(t, opportunity, evidence, plan);
        }
      case Purge(cutoff) => PurgeKeeps(t, cutoff);
    }
  }

  lemma {:induction false} RunSound(t: Tables, ops: seq<StoreOp>)
    requires Sound(t)
    ensures Sound(StoreRun(t, ops))
  {
    hide Sound;
    if |ops| > 0 {
      RunSound(t, ops[..|ops| - 1]);
      StepKeeps(StoreRun(t, ops[..|ops| - 1]), ops[|ops| - 1]);
    }
  }

  /**
    Evidence survives every run: once an opportunity is stored, every later sequence of
    quote writes, opportunity writes (failed ones included) and purges still reconstructs
    exactly that opportunity and its quotes in order, and a recorded plan never changes.
   */
  lemma {:induction false} EvidenceSurvives(t: Tables, ops: seq<StoreOp>, id: Id)
    requires Sound(t) && OpportunityKey(id) in t.snapshots
    ensures OpportunityKey(id) in StoreRun(t, ops).snapshots
    ensures SameEvidence(t, StoreRun(t, ops), id)
  {
    hide Sound, Reconstructed;
    if |ops| == 0 {
      StoredReadsBack(t, id);
    } else {
      var before := StoreRun(t, ops[..|ops| - 1]);
      EvidenceSurvives(t, ops[..|ops| - 1], id);
      RunSound(t, ops[..|ops| - 1]);
      StepKeeps(before, ops[|ops| - 1]);
      KeptEvidence(before, StoreStep(before, ops[|ops| - 1]), id);
    }
  }

  /** A committed opportunity write reads back as exactly what was written. */
  lemma CommittedReadsBack(t: Tables, opportunity: Opportunity, quotes: seq<OddsQuote>, plan: Option<StakePlan>)
    requires Sound(t) && PersistedOpportunity(t, opportunity, quotes, plan).Ok?
    ensures var r := Reconstructed(PersistedOpportunity(t, opportunity, quotes, plan).value, opportunity.id);
      && r.Ok? && r.value.opportunity == opportunity
      && (forall i :: 0 <= i < |opportunity.quoteIds| ==> opportunity.quoteIds[i] in QuotesById(quotes))
      && r.value.quotes == InOrder(QuotesById(quotes), opportunity.quoteIds)
      && (plan.Some? ==> r.value.plan == plan)
  {
    hide Sound, PersistedOpportunity, Grows, Reconstructed;
    OpportunityPersisted(t, opportunity, quotes, plan);
    var after := PersistedOpportunity(t, opportunity, quotes, plan).value;
    StoredReadsBack(after, opportunity.id);
    LoadsExactly(after, opportunity.id, opportunity.quoteIds, QuotesById(quotes));
  }

  // ----- From the empty store

  lemma EmptySound()
    ensures Sound(EMPTY_TABLES)
  {
  }

  lemma {:induction false} StoreRunConcat(t: Tables, ops: seq<StoreOp>, later: seq<StoreOp>)
    ensures StoreRun(t, ops + later) == StoreRun(StoreRun(t, ops), later)
  {
    hide StoreStep;
    if |later| == 0 {
      assert ops + later == ops;
    } else {
      var n := |later| - 1;
      assert (ops + later)[..|ops + later| - 1] == ops + later[..n];
      StoreRunConcat(t, ops, later[..n]);
    }
  }

  lemma ReachableSound(ops: seq<StoreOp>)
    ensures Sound(StoreRun(EMPTY_TABLES, ops))
  {
    EmptySound();
    RunSound(EMPTY_TABLES, ops);
  }

  /** In every store a run reaches, each stored opportunity reads back, and does so ever after. */
  lemma ReachableReadsBack(ops: seq<StoreOp>, later: seq<StoreOp>, id: Id)
    requires OpportunityKey(id) in StoreRun(EMPTY_TABLES, ops).snapshots
    ensures Reconstructed(StoreRun(EMPTY_TABLES, ops), id).Ok?
    ensures SameEvidence(StoreRun(EMPTY_TABLES, ops), StoreRun(EMPTY_TABLES, ops + later), id)
  {
    hide Sound, Reconstructed;
    ReachableSound(ops);
    StoredReadsBack(StoreRun(EMPTY_TABLES, ops), id);
    EvidenceSurvives(StoreRun(EMPTY_TABLES, ops), later, id);
    StoreRunConcat(EMPTY_TABLES, ops, later);
  }

  /** `r` reads back as what was written. */
  ghost predicate ReadsBackAs(r: Result<Evidence, StoreError>, opportunity: Opportunity, quotes: seq<OddsQuote>,
                              plan: Option<StakePlan>)
  {
    && r.Ok? && r.value.opportunity == opportunity
    && (forall i :: 0 <= i < |opportunity.quoteIds| ==> opportunity.quoteIds[i] in QuotesById(quotes))
    && r.value.quotes == InOrder(QuotesById(quotes), opportunity.quoteIds)
    && (plan.Some? ==> r.value.plan == plan)
  }

  /**
    Once an opportunity commits after any run from the empty store, every later run of
    writes, failed writes and purges still reads back exactly that opportunity, its quotes
    in order, and its plan.
   */
  lemma CommittedSurvives(ops: seq<StoreOp>, opportunity: Opportunity, quotes: seq<OddsQuote>, plan: Option<StakePlan>,
                          later: seq<StoreOp>)
    requires PersistedOpportunity(StoreRun(EMPTY_TABLES, ops), opportunity, quotes, plan).Ok?
    ensures ReadsBackAs(Reconstructed(StoreRun(EMPTY_TABLES, ops + [PutOpportunity(opportunity, quotes, plan)] + later),
                                      opportunity.id), opportunity, quotes, plan)
  {
    hide Sound, PersistedOpportunity, Reconstructed;
    var before, write := StoreRun(EMPTY_TABLES, ops), PutOpportunity(opportunity, quotes, plan);
    ReachableSound(ops);
    CommittedReadsBack(before, opportunity, quotes, plan);
    var after := PersistedOpportunity(before, opportunity, quotes, plan).value;
    assert (ops + [write])[..|ops|] == ops;
    assert StoreRun(EMPTY_TABLES, ops + [write]) == after;
    ReconstructedIsStored(after, opportunity.id);
    ReachableReadsBack(ops + [write], later, opportunity.id);
  }

  lemma ReconstructedIsStored(t: Tables, id: Id)
    requires Reconstructed(t, id).Ok?
    ensures OpportunityKey(id) in t.snapshots
  {
  }

  lemma {:induction false} LoadsExactly(t: Tables, opportunity: Id, quoteIds: seq<Id>, byId: map<Id, OddsQuote>)
    requires forall i :: 0 <= i < |quoteIds| ==>
      && quoteIds[i] in byId && QuoteKey(quoteIds[i]) in t.snapshots
      && t.snapshots[QuoteKey(quoteIds[i])].payload == QuotePayload(byId[quoteIds[i]])
    ensures LoadLinked(t, LinksFor(opportunity, quoteIds)) == Some(InOrder(byId, quoteIds))
  {
    if |quoteIds| > 0 {
      var n := |quoteIds| - 1;
      LoadsExactly(t, opportunity, quoteIds[..n], byId);
      assert LinksFor(opportunity, quoteIds)[..n] == LinksFor(opportunity, quoteIds[..n]);
      assert InOrder(byId, quoteIds) == InOrder(byId, quoteIds[..n]) + [byId[quoteIds[n]]];
    }
  }
}
