/**
  Canonical values shared by every component.

  Identifiers are opaque texts whose order alone matters to the program, so they
  are integers here. Instants are microseconds from the first to the last
  representable `datetime`; durations are microseconds.
 */
module Domain {
  import opened Wrappers

  type Id = int

  const INSTANT_LIMIT: int := 315_537_897_600_000_000
  const LONGEST_DURATION: int := 86_399_999_999_999_999_999

  type Instant = t: int | 0 <= t < INSTANT_LIMIT witness 0
  type Odds = x: real | x > 1.0 witness 2.0

  datatype QuoteStatus = Active | Suspended | Closed | Unknown

  /**
    One price observation. `provider` is the bookmaker whose price it is and
    `transport` the feed that carried it. `provenance` stands for the trace id and
    the raw source reference.
   */
  datatype OddsQuote = OddsQuote(
    id: Id,
    provider: Id,
    event: Id,
    market: Id,
    selection: Id,
    price: Odds,
    sourceEvent: Id,
    sourceMarket: Id,
    sourceSelection: Id,
    ingestedAt: Instant,
    status: QuoteStatus,
    sourceTimestamp: Option<Instant>,
    transport: Id,
    provenance: Id)
  {
    /** The instant that freshness and ordering decisions look at. */
    function Effective(): Instant {
      sourceTimestamp.GetOr(ingestedAt)
    }
  }

  datatype OpportunityStatus = OpportunityActive | OpportunityExpired | OpportunityInvalidated

  datatype Opportunity = Opportunity(
    id: Id,
    event: Id,
    market: Id,
    quoteIds: seq<Id>,
    impliedSum: real,
    margin: real,
    detectedAt: Instant,
    status: OpportunityStatus)

  datatype StakeAllocation = StakeAllocation(
    quoteId: Id,
    selection: Id,
    provider: Id,
    amount: real,
    expectedPayout: real)

  datatype StakePlan = StakePlan(
    id: Id,
    opportunityId: Id,
    currency: Id,
    bankroll: real,
    allocations: seq<StakeAllocation>,
    guaranteedPayout: real,
    guaranteedProfit: real,
    createdAt: Instant)

  /** No value occurs at two positions. */
  predicate Distinct<T(==)>(xs: seq<T>) {
    forall i, j :: 0 <= i < j < |xs| ==> xs[i] != xs[j]
  }

  predicate Ascending(values: seq<Id>) {
    forall i, j :: 0 <= i < j < |values| ==> values[i] < values[j]
  }

  lemma NonEmpty(ids: set<Id>)
    requires ids != {}
    ensures exists id :: id in ids
  {
    assert (forall id :: id !in ids) ==> ids == {};
  }

  function Ids(quotes: seq<OddsQuote>): seq<Id> {
    seq(|quotes|, i requires 0 <= i < |quotes| => quotes[i].id)
  }

  function Selections(quotes: seq<OddsQuote>): seq<Id> {
    seq(|quotes|, i requires 0 <= i < |quotes| => quotes[i].selection)
  }

  function Prices(quotes: seq<OddsQuote>): seq<Odds> {
    seq(|quotes|, i requires 0 <= i < |quotes| => quotes[i].price)
  }

  /** The values of a sequence. */
  function Members<T(==)>(xs: seq<T>): set<T> {
    set x | x in xs
  }
}
