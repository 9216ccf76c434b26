/** Cross-provider event matching: hard filters, scoring, ranking, and a bounded decision cache. */
module EventMatching {
  import opened Wrappers
  import opened Ordering
  import opened Collections
  import opened Domain
  import opened Catalog

  /** A text and its comparison form (whitespace and case folded). */
  datatype Text = Text(raw: Id, folded: Id)

  type Tolerance = d: int | 0 < d <= LONGEST_DURATION witness 1
  type BasisPoints = b: int | 0 <= b <= 10_000

  datatype MatchConfig = MatchConfig(
    startTolerance: Tolerance,
    referencedTolerance: Tolerance,
    minimumConfidence: BasisPoints,
    ambiguityMargin: BasisPoints)

  datatype OrderPolicy = Ordered | Unordered

  datatype Evidence = Evidence(
    provider: Id,
    externalEvent: Id,
    sport: Id,
    competition: Id,
    participants: seq<Id>,
    start: Instant,
    order: OrderPolicy,
    stage: Option<Text>,
    venue: Option<Text>)

  datatype Metadata = Metadata(event: Id, stage: Option<Text>, venue: Option<Text>)

  datatype Reason =
    | SportMismatch | CompetitionMismatch | ParticipantMismatch | ParticipantOrderMismatch
    | StartTimeOutsideTolerance | StageMismatch | VenueMismatch | ProviderReferenceConflict
    | BelowConfidenceThreshold | AmbiguousCandidates | MatchFound

  datatype MatchDiagnostic = MatchDiagnostic(reason: Reason, event: Option<Id>)

  datatype Candidate = Candidate(event: Id, confidence: int, delta: nat, exactReference: bool)

  // ----- One candidate

  function Abs(x: int): nat { if x < 0 then -x else x }

  /** Up to 2000 points, falling linearly to zero at the tolerance. */
  function TimeScore(delta: nat, tolerance: Tolerance): (score: int)
    ensures 0 <= score <= 2_000
    ensures score == 2_000 <==> delta == 0
    ensures delta >= tolerance ==> score == 0
  {
    var elapsed := if delta < tolerance then delta else tolerance;
    2_000 * (tolerance - elapsed) / tolerance
  }

  lemma QuotientAtLeast(n: int, d: int, k: int)
    requires d > 0
    ensures k <= n / d <==> k * d <= n
  {
    var q := n / d;
    assert q * d <= n < q * d + d;
    if k <= q {
      assert (q - k) * d >= 0;
    } else {
      assert (k - q - 1) * d >= 0;
    }
  }

  datatype Evaluation = Survives(candidate: Candidate) | Fails(reason: Reason)

  predicate Conflicting(a: Option<Text>, b: Option<Text>) {
    a.Some? && b.Some? && a.value.folded != b.value.folded
  }

  predicate Agreeing(a: Option<Text>, b: Option<Text>) {
    a.Some? && b.Some? && a.value.folded == b.value.folded
  }

  predicate References(event: Event, provider: Id) {
    exists r :: r in event.references && r.provider == provider
  }

  predicate ReferencesExactly(event: Event, provider: Id, externalEvent: Id) {
    ProviderReference(provider, externalEvent) in event.references
  }

  function EvaluateCandidate(config: MatchConfig, evidence: Evidence, event: Event,
                             metadata: Option<Metadata>): Evaluation {
    var exact := ReferencesExactly(event, evidence.provider, evidence.externalEvent);
    var delta := Abs(event.start - evidence.start);
    var tolerance := if exact then config.referencedTolerance else config.startTolerance;
    var stage := if metadata.Some? then metadata.value.stage else None;
    var venue := if metadata.Some? then metadata.value.venue else None;
    if event.sport != evidence.sport then Fails(SportMismatch)
    else if event.competition != evidence.competition then Fails(CompetitionMismatch)
    else if Members(event.participants) != Members(evidence.participants) then Fails(ParticipantMismatch)
    else if evidence.order == Ordered && event.participants != evidence.participants
      then Fails(ParticipantOrderMismatch)
    else if References(event, evidence.provider) && !exact then Fails(ProviderReferenceConflict)
    else if delta > tolerance then Fails(StartTimeOutsideTolerance)
    else if Conflicting(evidence.stage, stage) then Fails(StageMismatch)
    else if Conflicting(evidence.venue, venue) then Fails(VenueMismatch)
    else
      var score := 7_000 + TimeScore(delta, tolerance)
                   + (if Agreeing(evidence.stage, stage) then 400 else 0)
                   + (if Agreeing(evidence.venue, venue) then 300 else 0)
                   + (if exact then 1_000 else 0);
      Survives(Candidate(event.id, if score < 10_000 then score else 10_000, delta, exact))
  }

  // ----- Ranking and deciding

  datatype Status = Matched | Ambiguous | Rejected

  datatype Decision = Decision(
    status: Status,
    event: Option<Id>,
    confidence: Option<int>,
    candidates: seq<Candidate>,
    diagnostics: seq<MatchDiagnostic>)
  {
    /** Everything but the diagnostics. */
    function Verdict(): Decision { this.(diagnostics := []) }
  }

  /** What a matcher knows besides the events it looks at. */
  datatype Setting = Setting(config: MatchConfig, metadata: map<Id, Metadata>) {
    function Evaluate(evidence: Evidence, event: Event): Evaluation {
      EvaluateCandidate(config, evidence, event, if event.id in metadata then Some(metadata[event.id]) else None)
    }
  }

  function Survivors(setting: Setting, evidence: Evidence, events: seq<Event>): seq<Candidate> {
    if |events| == 0 then []
    else
      var n := |events| - 1;
      var init := Survivors(setting, evidence, events[..n]);
      match setting.Evaluate(evidence, events[n])
      case Survives(candidate) => init + [candidate]
      case Fails(_) => init
  }

  function Failures(setting: Setting, evidence: Evidence, events: seq<Event>): seq<MatchDiagnostic> {
    if |events| == 0 then []
    else
      var n := |events| - 1;
      var init := Failures(setting, evidence, events[..n]);
      match setting.Evaluate(evidence, events[n])
      case Survives(_) => init
      case Fails(reason) => init + [MatchDiagnostic(reason, Some(events[n].id))]
  }

  function ByRank(candidate: Candidate): Key { [0 - candidate.confidence, candidate.delta, candidate.event] }

  function AtLeast(minimum: int): Candidate -> bool { (c: Candidate) => c.confidence >= minimum }

  function CloseTo(confidence: int, margin: int): Candidate -> bool {
    (c: Candidate) => confidence - c.confidence <= margin
  }

  function Weak(candidates: seq<Candidate>): seq<MatchDiagnostic> {
    seq(|candidates|, i requires 0 <= i < |candidates| => MatchDiagnostic(BelowConfidenceThreshold,
        Some(candidates[i].event)))
  }

  /** The decision over ranked candidates. */
  function Decide(config: MatchConfig, ranked: seq<Candidate>, notes: seq<MatchDiagnostic>): Decision {
    var eligible := Filter(ranked, AtLeast(config.minimumConfidence));
    if |eligible| == 0 then Decision(Rejected, None, None, ranked, notes + Weak(ranked))
    else
      var best := eligible[0];
      var close := Filter(eligible[1..], CloseTo(best.confidence, config.ambiguityMargin));
      if |close| > 0 then
        Decision(Ambiguous, None, None, [best] + close, notes + [MatchDiagnostic(AmbiguousCandidates, None)])
      else
        Decision(Matched, Some(best.event), Some(best.confidence), eligible,
                 notes + [MatchDiagnostic(MatchFound, Some(best.event))])
  }

  /** The decision over a list of events. */
  function MatchOver(setting: Setting, evidence: Evidence, events: seq<Event>, notes: seq<MatchDiagnostic>): Decision {
    Decide(setting.config, SortBy(Survivors(setting, evidence, events), ByRank),
           notes + Failures(setting, evidence, events))
  }

  function HardFilterNote(registry: Registry, evidence: Evidence): MatchDiagnostic {
    MatchDiagnostic(if |registry.EventsForSport(evidence.sport)| == 0 then SportMismatch
                    else if |registry.EventsForCompetition(evidence.sport, evidence.competition)| == 0
                      then CompetitionMismatch
                    else ParticipantMismatch, None)
  }

  function Looked(registry: Registry, evidence: Evidence, exhaustive: bool): seq<Event> {
    if exhaustive then registry.events
    else registry.EventMatchCandidates(evidence.sport, evidence.competition, evidence.participants)
  }

  /** What a matcher decides without its cache. */
  function Uncached(setting: Setting, registry: Registry, exhaustive: bool, evidence: Evidence): Decision {
    var events := Looked(registry, evidence, exhaustive);
    MatchOver(setting, evidence, events, if !exhaustive && |events| == 0 then [HardFilterNote(registry, evidence)]
      else [])
  }

  // ----- The cache

  datatype Entry = Entry(evidence: Evidence, decision: Decision)

  function Without(entries: seq<Entry>, evidence: Evidence): seq<Entry> {
    Filter(entries, (e: Entry) => e.evidence != evidence)
  }

  predicate Holds(entries: seq<Entry>, evidence: Evidence) {
    exists e :: e in entries && e.evidence == evidence
  }

  function Newest<T>(xs: seq<T>, capacity: nat): seq<T> {
    if |xs| <= capacity then xs else xs[|xs| - capacity..]
  }

  function OtherThan<T(==)>(x: T): T -> bool { (y: T) => y != x }

  /** Moves an element to the end. */
  function Used<T(==)>(xs: seq<T>, x: T): seq<T> {
    Filter(xs, OtherThan(x)) + [x]
  }

  /** The distinct evidences of a history in order of last use. */
  function Recent(history: seq<Evidence>): seq<Evidence> {
    if |history| == 0 then []
    else
      var last := history[|history| - 1];
      Used(Recent(history[..|history| - 1]), last)
  }

  function EntriesFor(evidences: seq<Evidence>, setting: Setting, registry: Registry, exhaustive: bool): seq<Entry> {
    seq(|evidences|, i requires 0 <= i < |evidences| => Entry(evidences[i],
                                                              Uncached(setting, registry, exhaustive, evidences[i])))
  }

  // ----- The cache holds the most recently used evidences

  lemma {:induction false} RecentMembers(history: seq<Evidence>)
    ensures forall e :: e in Recent(history) <==> e in history
    ensures Distinct(Recent(history))
  {
    if |history| > 0 {
      var n := |history| - 1;
      RecentMembers(history[..n]);
      UsedMembers(Recent(history[..n]), history[n]);
      assert history == history[..n] + [history[n]];
    }
  }

  lemma UsedMembers<T(!new)>(xs: seq<T>, x: T)
    requires Distinct(xs)
    ensures forall y :: y in Used(xs, x) <==> y in xs || y == x
    ensures Distinct(Used(xs, x))
  {
    var others := Filter(xs, OtherThan(x));
    FilterMembers(xs, OtherThan(x));
    FilterPairwise(xs, OtherThan(x), (a: T, b: T) => a != b);
    forall i | 0 <= i < |others|
      ensures others[i] != x
    {
      assert others[i] in others;
    }
  }

  lemma {:induction false} FilterAbsent<T(!new)>(xs: seq<T>, x: T)
    requires x !in xs
    ensures Filter(xs, OtherThan(x)) == xs
  {
    if |xs| > 0 {
      assert xs == xs[..|xs| - 1] + [xs[|xs| - 1]];
      FilterAbsent(xs[..|xs| - 1], x);
    }
  }

  lemma {:induction false} FilterOneOut<T(!new)>(xs: seq<T>, x: T)
    requires Distinct(xs) && x in xs
    ensures |Filter(xs, OtherThan(x))| == |xs| - 1
  {
    var n := |xs| - 1;
    assert xs == xs[..n] + [xs[n]];
    if xs[n] == x {
      FilterAbsent(xs[..n], x);
    } else {
      FilterOneOut(xs[..n], x);
    }
  }

  /** The elements beyond the capacity, and the ones within it. */
  lemma NewestSplit<T>(xs: seq<T>, capacity: nat) returns (older: seq<T>)
    ensures var held := Newest(xs, capacity);
      xs == older + held && |held| <= capacity && (|held| < capacity ==> older == [])
  {
    older := xs[..|xs| - |Newest(xs, capacity)|];
  }

  /** Using an element of the newest `capacity` moves it to the end of them. */
  lemma NewestHit<T(!new)>(xs: seq<T>, x: T, capacity: nat)
    requires Distinct(xs) && x in Newest(xs, capacity)
    ensures Newest(Used(xs, x), capacity) == Used(Newest(xs, capacity), x)
  {
    hide Filter;
    var held := Newest(xs, capacity);
    var older := NewestSplit(xs, capacity);
    DistinctParts(older, held);
    FilterConcat(older, held, OtherThan(x));
    FilterAbsent(older, x);
    FilterOneOut(held, x);
    assert Used(xs, x) == older + Used(held, x);
  }

  lemma DistinctParts<T>(xs: seq<T>, ys: seq<T>)
    requires Distinct(xs + ys)
    ensures Distinct(ys) && forall y :: y in ys ==> y !in xs
  {
    var all := xs + ys;
    assert forall i :: 0 <= i < |xs| ==> xs[i] == all[i];
    assert forall j :: 0 <= j < |ys| ==> ys[j] == all[|xs| + j];
  }

  /** Using any other element appends it and drops what no longer fits. */
  lemma NewestMiss<T(!new)>(xs: seq<T>, x: T, capacity: nat)
    requires capacity > 0 && x !in Newest(xs, capacity)
    ensures Newest(Used(xs, x), capacity) == Newest(Newest(xs, capacity) + [x], capacity)
  {
    var held := Newest(xs, capacity);
    var older := NewestSplit(xs, capacity);
    FilterConcat(older, held, OtherThan(x));
    FilterAbsent(held, x);
    assert Used(xs, x) == Filter(older, OtherThan(x)) + (held + [x]);
    if |held| == capacity {
    }
  }

  /** Every element of a history was last used before the ones after it. */
  ghost predicate LastUsedBefore(history: seq<Evidence>, a: Evidence, b: Evidence) {
    exists k :: 0 <= k < |history| && history[k] == b && a !in history[k..] && a in history[..k]
  }

  lemma {:induction false} RecentInOrder(history: seq<Evidence>)
    ensures forall i, j :: 0 <= i < j < |Recent(history)| ==>
      LastUsedBefore(history, Recent(history)[i], Recent(history)[j])
  {
    hide LastUsedBefore;
    if |history| > 0 {
      var n := |history| - 1;
      var before, last := Recent(history[..n]), history[n];
      RecentInOrder(history[..n]);
      RecentMembers(history[..n]);
      var others := Filter(before, OtherThan(last));
      FilterMembers(before, OtherThan(last));
      FilterKeepsOrder(history[..n], before, last, others);
      forall i | 0 <= i < |others|
        ensures LastUsedBefore(history, others[i], last)
      {
        assert others[i] in others && others[i] in history[..n];
        LastUse(history, others[i]);
      }
      forall i, j | 0 <= i < j < |others|
        ensures LastUsedBefore(history, others[i], others[j])
      {
        assert others[i] in others;
        LastUsedEarlier(history, others[i], others[j]);
      }
    }
  }

  lemma FilterKeepsOrder(history: seq<Evidence>, xs: seq<Evidence>, x: Evidence, kept: seq<Evidence>)
    requires kept == Filter(xs, OtherThan(x))
    requires forall i, j :: 0 <= i < j < |xs| ==> LastUsedBefore(history, xs[i], xs[j])
    ensures forall i, j :: 0 <= i < j < |kept| ==> LastUsedBefore(history, kept[i], kept[j])
  {
    hide LastUsedBefore;
    FilterPairwise(xs, OtherThan(x), (a: Evidence, b: Evidence) => LastUsedBefore(history, a, b));
  }

  lemma LastUse(history: seq<Evidence>, a: Evidence)
    requires |history| > 0 && a in history && a != history[|history| - 1]
    ensures LastUsedBefore(history, a, history[|history| - 1])
  {
    var n := |history| - 1;
    assert history == history[..n] + [history[n]];
    assert history[n..] == [history[n]];
  }

  lemma LastUsedEarlier(history: seq<Evidence>, a: Evidence, b: Evidence)
    requires |history| > 0 && a != history[|history| - 1]
    requires LastUsedBefore(history[..|history| - 1], a, b)
    ensures LastUsedBefore(history, a, b)
  {
    var n := |history| - 1;
    var k :| 0 <= k < n && history[..n][k] == b && a !in history[..n][k..] && a in history[..n][..k];
    assert history[k..] == history[..n][k..] + [history[n]];
    assert history[..n][..k] == history[..k];
  }

  // ----- The matcher

  datatype MatcherError = MetadataNotUnique | MetadataUnknownEvent

  function MetadataEvent(m: Metadata): Id { m.event }

  class EventMatcher {
    const registry: Registry
    const setting: Setting
    const capacity: nat
    const exhaustive: bool
    /** Least recently used first. */
    var cache: seq<Entry>
    /** Every evidence matched so far. */
    ghost var history: seq<Evidence>

    /** The cache holds exactly the most recently used distinct evidences, each with its uncached decision. */
    ghost predicate Valid()
      reads this`cache, this`history
    {
      cache == EntriesFor(Newest(Recent(history), capacity), setting, registry, exhaustive)
    }

    constructor (registry: Registry, setting: Setting, capacity: nat, exhaustive: bool)
      ensures Valid() && history == []
      ensures this.registry == registry && this.setting == setting
      ensures this.capacity == capacity && this.exhaustive == exhaustive
    {
      this.registry := registry;
      this.setting := setting;
      this.capacity := capacity;
      this.exhaustive := exhaustive;
      cache := [];
      history := [];
    }

    method Match(evidence: Evidence) returns (decision: Decision)
      requires Valid()
      modifies this`cache, this`history
      ensures decision == Uncached(setting, registry, exhaustive, evidence)
      ensures history == old(history) + [evidence] && Valid()
    {
      hide Uncached;
      ghost var held := Newest(Recent(history), capacity);
      if capacity > 0 {
        NewestRecent(history, evidence, capacity);
        var cached := FindEntry(cache, evidence);
        EntryFound(held, setting, registry, exhaustive, evidence);
        if cached.Some? {
          EntriesUsed(held, setting, registry, exhaustive, evidence);
          cache := Without(cache, evidence) + [Entry(evidence, cached.value)];
          history := history + [evidence];
          return cached.value;
        }
      }
      decision := MatchUncached(evidence);
      if capacity > 0 {
        EntriesAppended(held, setting, registry, exhaustive, evidence, capacity);
        cache := Newest(cache + [Entry(evidence, decision)], capacity);
      }
      history := history + [evidence];
    }

    method MatchUncached(evidence: Evidence) returns (decision: Decision)
      ensures decision == Uncached(setting, registry, exhaustive, evidence)
    {
      var events := Looked(registry, evidence, exhaustive);
      var notes := if !exhaustive && |events| == 0 then [HardFilterNote(registry, evidence)] else [];
      var diagnostics, candidates := notes, [];
      for i := 0 to |events|
        invariant candidates == Survivors(setting, evidence, events[..i])
        invariant diagnostics == notes + Failures(setting, evidence, events[..i])
      {
        assert events[..i + 1][..i] == events[..i];
        match setting.Evaluate(evidence, events[i]) {
          case Survives(candidate) => candidates := candidates + [candidate];
          case Fails(reason) => diagnostics := diagnostics + [MatchDiagnostic(reason, Some(events[i].id))];
        }
      }
      assert events[..|events|] == events;
      decision := Decide(setting.config, SortBy(candidates, ByRank), diagnostics);
    }
  }

  method FindEntry(entries: seq<Entry>, evidence: Evidence) returns (r: Option<Decision>)
    ensures r.Some? ==> Entry(evidence, r.value) in entries
    ensures r.None? ==> !Holds(entries, evidence)
  {
    for i := 0 to |entries|
      invariant forall j :: 0 <= j < i ==> entries[j].evidence != evidence
    {
      if entries[i].evidence == evidence {
        return Some(entries[i].decision);
      }
    }
    return None;
  }

  /** Using one more evidence moves it to the end, or drops the oldest beyond the capacity. */
  lemma NewestRecent(history: seq<Evidence>, evidence: Evidence, capacity: nat)
    requires capacity > 0
    ensures var held := Newest(Recent(history), capacity);
      Newest(Recent(history + [evidence]), capacity)
      == if evidence in held then Used(held, evidence) else Newest(held + [evidence], capacity)
  {
    RecentMembers(history);
    if evidence in Newest(Recent(history), capacity) {
      NewestHit(Recent(history), evidence, capacity);
    } else {
      NewestMiss(Recent(history), evidence, capacity);
    }
  }

  lemma EntryFound(held: seq<Evidence>, setting: Setting, registry: Registry, exhaustive: bool, evidence: Evidence)
    ensures var entries := EntriesFor(held, setting, registry, exhaustive);
      && (Holds(entries, evidence) <==> evidence in held)
      && (forall decision :: Entry(evidence, decision) in entries ==>
        decision == Uncached(setting, registry, exhaustive, evidence))
      && (forall decision :: Entry(evidence, decision) in entries ==> evidence in held)
  {
    hide Uncached;
    var entries := EntriesFor(held, setting, registry, exhaustive);
    if evidence in held {
      var i :| 0 <= i < |held| && held[i] == evidence;
      assert entries[i] in entries;
    }
  }

  lemma EntriesUsed(held: seq<Evidence>, setting: Setting, registry: Registry, exhaustive: bool, evidence: Evidence)
    ensures Without(EntriesFor(held, setting, registry, exhaustive), evidence)
            + [Entry(evidence, Uncached(setting, registry, exhaustive, evidence))]
            == EntriesFor(Used(held, evidence), setting, registry, exhaustive)
  {
    EntriesWithout(held, setting, registry, exhaustive, evidence);
  }

  lemma {:induction false} EntriesWithout(held: seq<Evidence>, setting: Setting, registry: Registry, exhaustive: bool,
                                          evidence: Evidence)
    ensures Without(EntriesFor(held, setting, registry, exhaustive), evidence)
            == EntriesFor(Filter(held, OtherThan(evidence)), setting, registry, exhaustive)
  {
    hide Uncached;
    if |held| > 0 {
      var n := |held| - 1;
      EntriesWithout(held[..n], setting, registry, exhaustive, evidence);
      assert EntriesFor(held, setting, registry, exhaustive)[..n]
             == EntriesFor(held[..n], setting, registry, exhaustive);
    }
  }

  lemma EntriesAppended(held: seq<Evidence>, setting: Setting, registry: Registry, exhaustive: bool, evidence: Evidence,
                        capacity: nat)
    ensures Newest(EntriesFor(held, setting, registry, exhaustive)
                   + [Entry(evidence, Uncached(setting, registry, exhaustive, evidence))], capacity)
            == EntriesFor(Newest(held + [evidence], capacity), setting, registry, exhaustive)
  {
    hide Uncached;
    var all := EntriesFor(held + [evidence], setting, registry, exhaustive);
    assert all == EntriesFor(held, setting, registry, exhaustive)
                  + [Entry(evidence, Uncached(setting, registry, exhaustive, evidence))];
  }

  method CreateMatcher(registry: Registry, config: MatchConfig, metadata: seq<Metadata>, capacity: nat,
                       exhaustive: bool)
    returns (r: Result<EventMatcher, MatcherError>)
    ensures r.Ok? <==> UniqueIds(metadata, MetadataEvent) && forall m :: m in metadata ==>
      m.event in registry.eventsById
    ensures r.Err? ==> r.error == if UniqueIds(metadata, MetadataEvent) then MetadataUnknownEvent else MetadataNotUnique
    ensures r.Ok? ==>
      && fresh(r.value) && r.value.Valid() && r.value.history == []
      && r.value.registry == registry && r.value.capacity == capacity && r.value.exhaustive == exhaustive
      && r.value.setting.config == config && FindsById(r.value.setting.metadata, metadata, MetadataEvent)
    ensures r.Err? && r.error == MetadataNotUnique <==>
            exists i, j :: 0 <= i < j < |metadata| && metadata[i].event == metadata[j].event
    ensures r.Err? && r.error == MetadataUnknownEvent ==>
            exists m :: m in metadata && m.event !in registry.eventsById
    ensures r.Ok? ==>
      && (forall m :: m in metadata ==>
            m.event in r.value.setting.metadata && r.value.setting.metadata[m.event] == m)
      && forall id :: id in r.value.setting.metadata ==> r.value.setting.metadata[id] in metadata
  {
    if !UniqueIds(metadata, MetadataEvent) {
      return Err(MetadataNotUnique);
    }
    if m :| m in metadata && m.event !in registry.eventsById {
      return Err(MetadataUnknownEvent);
    }
    var byId := IndexById(metadata, MetadataEvent);
    var matcher := new EventMatcher(registry, Setting(config, byId), capacity, exhaustive);
    return Ok(matcher);
  }
}
