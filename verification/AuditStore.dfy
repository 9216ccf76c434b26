/**
  Durable evidence: snapshots that are written once, the quotes each opportunity refers
  to, its stake plan, and an audit trail. Every write is one transaction.
 */
module AuditStore {
  import opened Wrappers
  import opened Ordering
  import opened Collections
  import opened Domain

  datatype Kind = QuoteKind | OpportunityKind | PlanKind

  datatype EntityKey = EntityKey(kind: Kind, id: Id)

  /** A serialized entity; serialization loses nothing. */
  datatype Payload =
    | QuotePayload(quote: OddsQuote)
    | OpportunityPayload(opportunity: Opportunity)
    | PlanPayload(plan: StakePlan)

  datatype Snapshot = Snapshot(event: Id, provider: Option<Id>, occurredAt: Instant, payload: Payload)

  /** A row that places a quote in an opportunity's evidence. */
  datatype Link = Link(opportunity: Id, quote: Id, ordinal: nat)

  datatype AuditEvent = Created(key: EntityKey, payload: Payload)

  datatype Tables = Tables(
    snapshots: map<EntityKey, Snapshot>,
    links: seq<Link>,
    plans: map<Id, Id>,
    audit: seq<AuditEvent>)

  const EMPTY_TABLES := Tables(map[], [], map[], [])

  datatype StoreError =
    | WrongQuotes | PlanOfOtherOpportunity | ContentCollision | DifferentPlan
    | MissingEntity | InconsistentEvidence

  datatype Evidence = Evidence(opportunity: Opportunity, quotes: seq<OddsQuote>, plan: Option<StakePlan>)

  function QuoteKey(id: Id): EntityKey { EntityKey(QuoteKind, id) }
  function OpportunityKey(id: Id): EntityKey { EntityKey(OpportunityKind, id) }
  function PlanKey(id: Id): EntityKey { EntityKey(PlanKind, id) }

  function QuoteSnapshot(quote: OddsQuote): Snapshot {
    Snapshot(quote.event, Some(quote.provider), quote.ingestedAt, QuotePayload(quote))
  }

  function OpportunitySnapshot(opportunity: Opportunity): Snapshot {
    Snapshot(opportunity.event, None, opportunity.detectedAt, OpportunityPayload(opportunity))
  }

  function PlanSnapshot(plan: StakePlan, event: Id): Snapshot {
    Snapshot(event, None, plan.createdAt, PlanPayload(plan))
  }

  // ----- What single statements do

  /** Inserts a snapshot; the same content again is fine, different content is a collision. */
  function Upserted(t: Tables, key: EntityKey, snapshot: Snapshot): Option<Tables> {
    if key in t.snapshots then
      if t.snapshots[key].payload == snapshot.payload then Some(t) else None
    else Some(t.(snapshots := t.snapshots[key := snapshot], audit := t.audit + [Created(key, snapshot.payload)]))
  }

  function UpsertedQuotes(t: Tables, quotes: seq<OddsQuote>): Option<Tables> {
    if |quotes| == 0 then Some(t)
    else
      var n := |quotes| - 1;
      match UpsertedQuotes(t, quotes[..n])
      case None => None
      case Some(before) => Upserted(before, QuoteKey(quotes[n].id), QuoteSnapshot(quotes[n]))
  }

  /** The row violates neither uniqueness rule of the link table. */
  predicate Insertable(links: seq<Link>, link: Link) {
    forall i :: 0 <= i < |links| && links[i].opportunity == link.opportunity ==>
      links[i].quote != link.quote && links[i].ordinal != link.ordinal
  }

  function Linked(links: seq<Link>, opportunity: Id, quoteIds: seq<Id>): seq<Link> {
    if |quoteIds| == 0 then links
    else
      var n := |quoteIds| - 1;
      var before := Linked(links, opportunity, quoteIds[..n]);
      var link := Link(opportunity, quoteIds[n], n);
      if Insertable(before, link) then before + [link] else before
  }

  function OfOpportunity(opportunity: Id): Link -> bool { (link: Link) => link.opportunity == opportunity }

  function ByOrdinal(link: Link): Key { [link.ordinal] }

  /** The links of an opportunity in ordinal order. */
  function LinksOf(t: Tables, opportunity: Id): seq<Link> {
    SortBy(Filter(t.links, OfOpportunity(opportunity)), ByOrdinal)
  }

  /** The last quote given for each id. */
  function QuotesById(quotes: seq<OddsQuote>): map<Id, OddsQuote> {
    if |quotes| == 0 then map[] else QuotesById(quotes[..|quotes| - 1])[quotes[|quotes| - 1].id := quotes[|quotes| - 1]]
  }

  function InOrder(byId: map<Id, OddsQuote>, ids: seq<Id>): seq<OddsQuote>
    requires forall i :: 0 <= i < |ids| ==> ids[i] in byId
  {
    seq(|ids|, i requires 0 <= i < |ids| => byId[ids[i]])
  }

  // ----- Transactions

  function PersistedQuotes(t: Tables, quotes: seq<OddsQuote>): Result<Tables, StoreError> {
    match UpsertedQuotes(t, quotes)
    case Some(after) => Ok(after)
    case None => Err(ContentCollision)
  }

  /** The quotes given are exactly the ones referenced, each referenced once. */
  predicate ExactlyReferenced(opportunity: Opportunity, quotes: seq<OddsQuote>) {
    QuotesById(quotes).Keys == Members(opportunity.quoteIds) && |QuotesById(quotes)| == |opportunity.quoteIds|
  }

  function WithPlan(t: Tables, opportunity: Opportunity, plan: StakePlan): Result<Tables, StoreError> {
    if opportunity.id in t.plans && t.plans[opportunity.id] != plan.id then Err(DifferentPlan)
    else match Upserted(t, PlanKey(plan.id), PlanSnapshot(plan, opportunity.event))
      case None => Err(ContentCollision)
      case Some(after) =>
        if opportunity.id in after.plans || plan.id in after.plans.Values then Ok(after)
        else Ok(after.(plans := after.plans[opportunity.id := plan.id]))
  }

  function PersistedOpportunity(t: Tables, opportunity: Opportunity, quotes: seq<OddsQuote>, plan: Option<StakePlan>)
    : Result<Tables, StoreError>
  {
    if !ExactlyReferenced(opportunity, quotes) then Err(WrongQuotes)
    else if plan.Some? && plan.value.opportunityId != opportunity.id then Err(PlanOfOtherOpportunity)
    else
      assert forall i :: 0 <= i < |opportunity.quoteIds| ==> opportunity.quoteIds[i] in Members(opportunity.quoteIds);
      match UpsertedQuotes(t, InOrder(QuotesById(quotes), opportunity.quoteIds))
      case None => Err(ContentCollision)
      case Some(withQuotes) =>
        match Upserted(withQuotes, OpportunityKey(opportunity.id), OpportunitySnapshot(opportunity))
        case None => Err(ContentCollision)
        case Some(stored) =>
          var linked := stored.(links := Linked(stored.links, opportunity.id, opportunity.quoteIds));
          if plan.None? then Ok(linked) else WithPlan(linked, opportunity, plan.value)
  }

  predicate Referenced(t: Tables, quote: Id) {
    exists i :: 0 <= i < |t.links| && t.links[i].quote == quote
  }

  predicate Purgeable(t: Tables, key: EntityKey, cutoff: Instant)
    requires key in t.snapshots
  {
    key.kind == QuoteKind && t.snapshots[key].occurredAt < cutoff && !Referenced(t, key.id)
  }

  function Purged(t: Tables, cutoff: Instant): Tables {
    t.(snapshots := map key | key in t.snapshots && !Purgeable(t, key, cutoff) :: t.snapshots[key])
  }

  // ----- Reading back

  function LoadQuote(t: Tables, id: Id): Option<OddsQuote> {
    if QuoteKey(id) in t.snapshots && t.snapshots[QuoteKey(id)].payload.QuotePayload?
    then Some(t.snapshots[QuoteKey(id)].payload.quote) else None
  }

  function LoadLinked(t: Tables, links: seq<Link>): Option<seq<OddsQuote>> {
    if |links| == 0 then Some([])
    else
      match LoadLinked(t, links[..|links| - 1])
      case None => None
      case Some(init) =>
        match LoadQuote(t, links[|links| - 1].quote)
        case None => None
        case Some(quote) => Some(init + [quote])
  }

  function LoadPlan(t: Tables, opportunity: Id): Result<Option<StakePlan>, StoreError> {
    if opportunity !in t.plans then Ok(None)
    else
      var key := PlanKey(t.plans[opportunity]);
      if key in t.snapshots && t.snapshots[key].payload.PlanPayload? then Ok(Some(t.snapshots[key].payload.plan))
      else Err(MissingEntity)
  }

  function Reconstructed(t: Tables, id: Id): Result<Evidence, StoreError> {
    var key := OpportunityKey(id);
    if key !in t.snapshots || !t.snapshots[key].payload.OpportunityPayload? then Err(MissingEntity)
    else
      var opportunity := t.snapshots[key].payload.opportunity;
      match LoadLinked(t, LinksOf(t, id))
      case None => Err(MissingEntity)
      case Some(quotes) =>
        match LoadPlan(t, id)
        case Err(e) => Err(e)
        case Ok(plan) =>
          if Ids(quotes) != opportunity.quoteIds then Err(InconsistentEvidence)
          else Ok(Evidence(opportunity, quotes, plan))
  }

  function Fault(r: Result<Tables, StoreError>): Option<StoreError> {
    match r
    case Ok(_) => None
    case Err(e) => Some(e)
  }

  function After(before: Tables, r: Result<Tables, StoreError>): Tables {
    match r
    case Ok(t) => t
    case Err(_) => before
  }

  class Store {
    var tables: Tables

    constructor ()
      ensures tables == EMPTY_TABLES
    {
      tables := EMPTY_TABLES;
    }

    method Upsert(key: EntityKey, snapshot: Snapshot) returns (ok: bool)
      modifies this
      ensures ok <==> Upserted(old(tables), key, snapshot).Some?
      ensures tables == if ok then Upserted(old(tables), key, snapshot).value else old(tables)
    {
      if key in tables.snapshots {
        return tables.snapshots[key].payload == snapshot.payload;
      }
      tables := tables.(snapshots := tables.snapshots[key := snapshot],
                        audit := tables.audit + [Created(key, snapshot.payload)]);
      return true;
    }

    /** Upserts until the first collision; what was written before it is not undone here. */
    method UpsertQuotes(quotes: seq<OddsQuote>) returns (ok: bool)
      modifies this
      ensures ok <==> UpsertedQuotes(old(tables), quotes).Some?
      ensures ok ==> tables == UpsertedQuotes(old(tables), quotes).value
    {
      for i := 0 to |quotes|
        invariant UpsertedQuotes(old(tables), quotes[..i]) == Some(tables)
      {
        assert quotes[..i + 1][..i] == quotes[..i];
        ok := Upsert(QuoteKey(quotes[i].id), QuoteSnapshot(quotes[i]));
        if !ok {
          FirstCollision(old(tables), quotes, i + 1);
          return;
        }
      }
      assert quotes[..|quotes|] == quotes;
      ok := true;
    }

    /** All quotes are stored, or none. */
    method PersistQuotes(quotes: seq<OddsQuote>) returns (fault: Option<StoreError>)
      modifies this
      ensures fault == Fault(PersistedQuotes(old(tables), quotes))
      ensures tables == After(old(tables), PersistedQuotes(old(tables), quotes))
    {
      var before := tables;
      var ok := UpsertQuotes(quotes);
      if !ok {
        tables := before;
        return Some(ContentCollision);
      }
      return None;
    }

    method LinkQuotes(opportunity: Id, quoteIds: seq<Id>)
      modifies this
      ensures tables == old(tables).(links := Linked(old(tables).links, opportunity, quoteIds))
    {
      for i := 0 to |quoteIds|
        invariant tables == old(tables).(links := Linked(old(tables).links, opportunity, quoteIds[..i]))
      {
        assert quoteIds[..i + 1][..i] == quoteIds[..i];
        var link := Link(opportunity, quoteIds[i], i);
        if Insertable(tables.links, link) {
          tables := tables.(links := tables.links + [link]);
        }
      }
      assert quoteIds[..|quoteIds|] == quoteIds;
    }

    method PersistPlan(opportunity: Opportunity, plan: StakePlan) returns (fault: Option<StoreError>)
      modifies this
      ensures fault == Fault(WithPlan(old(tables), opportunity, plan))
      ensures fault.None? ==> tables == After(old(tables), WithPlan(old(tables), opportunity, plan))
    {
      if opportunity.id in tables.plans && tables.plans[opportunity.id] != plan.id {
        return Some(DifferentPlan);
      }
      var ok := Upsert(PlanKey(plan.id), PlanSnapshot(plan, opportunity.event));
      if !ok {
        return Some(ContentCollision);
      }
      if opportunity.id !in tables.plans && plan.id !in tables.plans.Values {
        tables := tables.(plans := tables.plans[opportunity.id := plan.id]);
      }
      return None;
    }

    /** The opportunity and all its evidence are stored, or nothing is. */
    method PersistOpportunity(opportunity: Opportunity, quotes: seq<OddsQuote>, plan: Option<StakePlan>)
      returns (fault: Option<StoreError>)
      modifies this
      ensures fault == Fault(PersistedOpportunity(old(tables), opportunity, quotes, plan))
      ensures tables == After(old(tables), PersistedOpportunity(old(tables), opportunity, quotes, plan))
    {
      if !ExactlyReferenced(opportunity, quotes) {
        return Some(WrongQuotes);
      }
      if plan.Some? && plan.value.opportunityId != opportunity.id {
        return Some(PlanOfOtherOpportunity);
      }
      var before := tables;
      assert forall i :: 0 <= i < |opportunity.quoteIds| ==> opportunity.quoteIds[i] in Members(opportunity.quoteIds);
      var ok := UpsertQuotes(InOrder(QuotesById(quotes), opportunity.quoteIds));
      if ok {
        ok := Upsert(OpportunityKey(opportunity.id), OpportunitySnapshot(opportunity));
      }
      if !ok {
        tables := before;
        return Some(ContentCollision);
      }
      LinkQuotes(opportunity.id, opportunity.quoteIds);
      if plan.Some? {
        fault := PersistPlan(opportunity, plan.value);
        if fault.Some? {
          tables := before;
          return;
        }
      }
      return None;
    }

    /** Deletes old quotes that no opportunity refers to. */
    method PurgeQuotesBefore(cutoff: Instant) returns (deleted: nat)
      modifies this
      ensures tables == Purged(old(tables), cutoff)
      ensures deleted == |old(tables).snapshots| - |tables.snapshots|
    {
      ghost var before := tables;
      var keys := tables.snapshots.Keys;
      deleted := 0;
      while keys != {}
        invariant keys <= before.snapshots.Keys
        invariant tables == before.(snapshots := tables.snapshots)
        invariant tables.snapshots == map key | key in before.snapshots
            && (key in keys || !Purgeable(before, key, cutoff))
                                        :: before.snapshots[key]
        invariant deleted == |before.snapshots| - |tables.snapshots|
        decreases keys
      {
        var key :| key in keys;
        if Purgeable(tables, key, cutoff) {
          deleted := deleted + 1;
          assert key in tables.snapshots.Keys;
          tables := tables.(snapshots := tables.snapshots - {key});
        }
        keys := keys - {key};
      }
    }

    /** Loads the opportunity, its quotes link by link, and its plan, and checks that they fit together. */
    method Reconstruct(id: Id) returns (r: Result<Evidence, StoreError>)
      ensures r == Reconstructed(tables, id)
    {
      hide LinksOf;
      var key := OpportunityKey(id);
      if key !in tables.snapshots || !tables.snapshots[key].payload.OpportunityPayload? {
        return Err(MissingEntity);
      }
      var opportunity := tables.snapshots[key].payload.opportunity;
      var loaded := LoadQuotes(LinksOf(tables, id));
      if loaded.None? {
        return Err(MissingEntity);
      }
      var plan: Option<StakePlan> := None;
      if id in tables.plans {
        var planKey := PlanKey(tables.plans[id]);
        if planKey !in tables.snapshots || !tables.snapshots[planKey].payload.PlanPayload? {
          return Err(MissingEntity);
        }
        plan := Some(tables.snapshots[planKey].payload.plan);
      }
      if Ids(loaded.value) != opportunity.quoteIds {
        return Err(InconsistentEvidence);
      }
      return Ok(Evidence(opportunity, loaded.value, plan));
    }

    /** Loads the linked quotes one after the other, up to the first that is missing. */
    method LoadQuotes(links: seq<Link>) returns (r: Option<seq<OddsQuote>>)
      ensures r == LoadLinked(tables, links)
    {
      var quotes: seq<OddsQuote> := [];
      for k := 0 to |links|
        invariant LoadLinked(tables, links[..k]) == Some(quotes)
      {
        assert links[..k + 1][..k] == links[..k];
        var key := QuoteKey(links[k].quote);
        if key !in tables.snapshots || !tables.snapshots[key].payload.QuotePayload? {
          MissingLink(tables, links, k + 1);
          return None;
        }
        quotes := quotes + [tables.snapshots[key].payload.quote];
      }
      assert links[..|links|] == links;
      return Some(quotes);
    }
  }

  /** A missing quote among the first links is missing from the whole. */
  lemma {:induction false} MissingLink(t: Tables, links: seq<Link>, n: nat)
    requires n <= |links| && LoadLinked(t, links[..n]).None?
    ensures LoadLinked(t, links).None?
    decreases |links| - n
  {
    if n == |links| {
      assert links[..n] == links;
    } else {
      assert links[..n + 1][..n] == links[..n];
      MissingLink(t, links, n + 1);
    }
  }

  /** A collision in a prefix is a collision of the whole batch. */
  lemma {:induction false} FirstCollision(t: Tables, quotes: seq<OddsQuote>, n: nat)
    requires n <= |quotes| && UpsertedQuotes(t, quotes[..n]).None?
    ensures UpsertedQuotes(t, quotes).None?
    decreases |quotes| - n
  {
    if n == |quotes| {
      assert quotes[..n] == quotes;
    } else {
      assert quotes[..n + 1][..n] == quotes[..n];
      FirstCollision(t, quotes, n + 1);
    }
  }
}
