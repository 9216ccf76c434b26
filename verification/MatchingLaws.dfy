/** Indexed and cached matching decides what an exhaustive scan decides, and only for a clear winner. */
module MatchingLaws {
  import opened Wrappers
  import opened Ordering
  import opened Collections
  import opened Domain
  import opened Catalog
  import opened EventMatching

  function KeyOfEvidence(evidence: Evidence): MatchKey {
    MatchKey(evidence.sport, evidence.competition, Members(evidence.participants))
  }

  /** Events outside the hard filter never survive, so filtering first loses no candidate. */
  lemma {:induction false} HardFilterLosesNothing(setting: Setting, evidence: Evidence, events: seq<Event>)
    ensures Survivors(setting, evidence, Filter(events, Sharing(MatchKeyOf, KeyOfEvidence(evidence))))
            == Survivors(setting, evidence, events)
  {
    if |events| > 0 {
      var n := |events| - 1;
      HardFilterLosesNothing(setting, evidence, events[..n]);
      var wanted := Sharing(MatchKeyOf, KeyOfEvidence(evidence));
      var init := Filter(events[..n], wanted);
      if wanted(events[n]) {
        assert Filter(events, wanted) == init + [events[n]];
        assert (init + [events[n]])[..|init|] == init;
      } else {
        SurvivesIff(setting, evidence, events[n]);
        assert !setting.Evaluate(evidence, events[n]).Survives?;
      }
    }
  }

  /** A candidate of `events`: some event survives as it. */
  ghost predicate IsSurvivor(c: Candidate, setting: Setting, evidence: Evidence, events: seq<Event>) {
    exists e :: e in events && setting.Evaluate(evidence, e) == Survives(c)
  }

  lemma {:induction false} SurvivorMembers(setting: Setting, evidence: Evidence, events: seq<Event>)
    ensures forall c :: c in Survivors(setting, evidence, events) <==> IsSurvivor(c, setting, evidence, events)
  {
    if |events| > 0 {
      var n := |events| - 1;
      SurvivorMembers(setting, evidence, events[..n]);
      forall c
        ensures IsSurvivor(c, setting, evidence, events) <==>
                IsSurvivor(c, setting, evidence, events[..n]) || setting.Evaluate(evidence, events[n]) == Survives(c)
      {
        assert events == events[..n] + [events[n]];
      }
    }
  }

  lemma {:induction false} SurvivorsDistinct(setting: Setting, evidence: Evidence, events: seq<Event>)
    requires UniqueIds(events, EventId)
    ensures DistinctKeys(Survivors(setting, evidence, events), ByRank)
  {
    if |events| > 0 {
      var n := |events| - 1;
      SurvivorsDistinct(setting, evidence, events[..n]);
      SurvivorMembers(setting, evidence, events[..n]);
      var init := Survivors(setting, evidence, events[..n]);
      forall i | 0 <= i < |init| && setting.Evaluate(evidence, events[n]).Survives?
        ensures ByRank(init[i]) != ByRank(setting.Evaluate(evidence, events[n]).candidate)
      {
        assert init[i] in init;
        assert ByRank(init[i])[2] == init[i].event;
      }
    }
  }

  /** The ranking depends only on which events there are. */
  lemma RankingIgnoresOrder(setting: Setting, evidence: Evidence, xs: seq<Event>, ys: seq<Event>)
    requires UniqueIds(xs, EventId) && UniqueIds(ys, EventId)
    requires forall e :: e in xs <==> e in ys
    ensures SortBy(Survivors(setting, evidence, xs), ByRank) == SortBy(Survivors(setting, evidence, ys), ByRank)
  {
    var a, b := Survivors(setting, evidence, xs), Survivors(setting, evidence, ys);
    SurvivorsDistinct(setting, evidence, xs);
    SurvivorsDistinct(setting, evidence, ys);
    SurvivorMembers(setting, evidence, xs);
    SurvivorMembers(setting, evidence, ys);
    SortByStrict(a, ByRank);
    SortByStrict(b, ByRank);
    SortByMembers(a, ByRank);
    SortByMembers(b, ByRank);
    StrictlySortedUnique(SortBy(a, ByRank), SortBy(b, ByRank), ByRank);
  }

  lemma NotesDoNotDecide(config: MatchConfig, ranked: seq<Candidate>, xs: seq<MatchDiagnostic>,
                         ys: seq<MatchDiagnostic>)
    ensures Decide(config, ranked, xs).Verdict() == Decide(config, ranked, ys).Verdict()
  {
  }

  /** The ranked candidates are the same with and without the index. */
  lemma IndexLosesNothing(setting: Setting, registry: Registry, exhaustive: bool, evidence: Evidence)
    requires Indexed(registry)
    ensures Survivors(setting, evidence, Looked(registry, evidence, exhaustive))
            == Survivors(setting, evidence, registry.events)
  {
    if !exhaustive {
      HardFilterLosesNothing(setting, evidence, registry.events);
    }
  }

  /**
    Status, matched event, confidence and candidates do not depend on whether the matcher
    uses the index or scans every event, nor on the order in which the registry lists events.
   */
  lemma MatchingRefinesExhaustive(setting: Setting, registry: Registry, other: Registry, exhaustive: bool, scan: bool,
                                  evidence: Evidence)
    requires Indexed(registry) && Indexed(other)
    requires forall e :: e in registry.events <==> e in other.events
    ensures Uncached(setting, registry, exhaustive, evidence).Verdict()
            == Uncached(setting, other, scan, evidence).Verdict()
  {
    hide Decide;
    IndexLosesNothing(setting, registry, exhaustive, evidence);
    IndexLosesNothing(setting, other, scan, evidence);
    RankingIgnoresOrder(setting, evidence, registry.events, other.events);
    var ranked := SortBy(Survivors(setting, evidence, registry.events), ByRank);
    VerdictOfRanking(setting, registry, exhaustive, evidence, ranked);
    VerdictOfRanking(setting, other, scan, evidence, ranked);
  }

  lemma VerdictOfRanking(setting: Setting, registry: Registry, exhaustive: bool, evidence: Evidence,
                         ranked: seq<Candidate>)
    requires ranked == SortBy(Survivors(setting, evidence, Looked(registry, evidence, exhaustive)), ByRank)
    ensures Uncached(setting, registry, exhaustive, evidence).Verdict() == Decide(setting.config, ranked, []).Verdict()
  {
    var events := Looked(registry, evidence, exhaustive);
    var notes := if !exhaustive && |events| == 0 then [HardFilterNote(registry, evidence)] else [];
    NotesDoNotDecide(setting.config, ranked, notes + Failures(setting, evidence, events), []);
  }

  // ----- What a match means

  /** A candidate survives exactly when every hard filter passes. */
  lemma SurvivesIff(setting: Setting, evidence: Evidence, event: Event)
    ensures var exact := ReferencesExactly(event, evidence.provider, evidence.externalEvent);
            var known := event.id in setting.metadata;
      setting.Evaluate(evidence, event).Survives? <==>
      && event.sport == evidence.sport && event.competition == evidence.competition
      && (forall p :: p in event.participants <==> p in evidence.participants)
      && (evidence.order == Ordered ==> event.participants == evidence.participants)
      && (exact || forall r :: r in event.references ==> r.provider != evidence.provider)
      && Abs(event.start - evidence.start) <= (if exact then setting.config.referencedTolerance
        else setting.config.startTolerance)
      && (known ==> !Conflicting(evidence.stage, setting.metadata[event.id].stage))
      && (known ==> !Conflicting(evidence.venue, setting.metadata[event.id].venue))
  {
    if forall p :: p in event.participants <==> p in evidence.participants {
      assert Members(event.participants) == Members(evidence.participants);
    }
    if Members(event.participants) == Members(evidence.participants) {
      forall p
        ensures p in event.participants <==> p in evidence.participants
      {
        assert p in Members(event.participants) <==> p in Members(evidence.participants);
      }
    }
  }

  /** Starting closer to the evidence never lowers a candidate's confidence, all else being equal. */
  lemma CloserIsNoLessConfident(setting: Setting, evidence: Evidence, event: Event, start: Instant)
    requires Abs(start - evidence.start) <= Abs(event.start - evidence.start)
    requires setting.Evaluate(evidence, event).Survives?
    ensures var moved := setting.Evaluate(evidence, event.(start := start));
      moved.Survives? && moved.candidate.confidence >= setting.Evaluate(evidence, event).candidate.confidence
  {
    var exact := ReferencesExactly(event, evidence.provider, evidence.externalEvent);
    var tolerance := if exact then setting.config.referencedTolerance else setting.config.startTolerance;
    TimeScoreFalls(Abs(start - evidence.start), Abs(event.start - evidence.start), tolerance);
  }

  lemma TimeScoreFalls(near: nat, far: nat, tolerance: Tolerance)
    requires near <= far <= tolerance
    ensures TimeScore(near, tolerance) >= TimeScore(far, tolerance)
  {
    QuotientAtLeast(2_000 * (tolerance - near), tolerance, TimeScore(far, tolerance));
    QuotientAtLeast(2_000 * (tolerance - far), tolerance, TimeScore(far, tolerance));
  }

  /** The candidate survives with enough confidence. */
  ghost predicate IsEligible(c: Candidate, setting: Setting, evidence: Evidence, events: seq<Event>) {
    IsSurvivor(c, setting, evidence, events) && c.confidence >= setting.config.minimumConfidence
  }

  /** `c` leads every other eligible candidate by more than the ambiguity margin. */
  ghost predicate ClearWinner(c: Candidate, setting: Setting, evidence: Evidence, events: seq<Event>) {
    && IsEligible(c, setting, evidence, events)
    && forall o :: IsEligible(o, setting, evidence, events) && o != c ==>
                     c.confidence - o.confidence > setting.config.ambiguityMargin
  }

  lemma RankedFirst(setting: Setting, evidence: Evidence, events: seq<Event>)
    requires UniqueIds(events, EventId)
    ensures var eligible := Filter(SortBy(Survivors(setting, evidence, events), ByRank),
                                   AtLeast(setting.config.minimumConfidence));
      && (forall c :: c in eligible <==> IsEligible(c, setting, evidence, events))
      && (forall i, j :: 0 <= i < j < |eligible| ==>
        eligible[j].confidence <= eligible[i].confidence && eligible[i] != eligible[j])
  {
    var survivors := Survivors(setting, evidence, events);
    var ranked := SortBy(survivors, ByRank);
    SurvivorMembers(setting, evidence, events);
    SurvivorsDistinct(setting, evidence, events);
    SortByStrict(survivors, ByRank);
    SortByMembers(survivors, ByRank);
    FilterMembers(ranked, AtLeast(setting.config.minimumConfidence));
    forall i, j | 0 <= i < j < |ranked|
      ensures Ahead(ranked[i], ranked[j])
    {
      RankAhead(ranked[i], ranked[j]);
    }
    AllAhead(ranked, AtLeast(setting.config.minimumConfidence));
  }

  predicate Ahead(a: Candidate, b: Candidate) { b.confidence <= a.confidence && a != b }

  lemma RankAhead(a: Candidate, b: Candidate)
    requires KeyLess(ByRank(a), ByRank(b))
    ensures Ahead(a, b)
  {
    KeyTrichotomy(ByRank(a), ByRank(a));
    assert ByRank(a)[0] == -a.confidence && ByRank(b)[0] == -b.confidence;
  }

  lemma AllAhead(ranked: seq<Candidate>, keep: Candidate -> bool)
    requires forall i, j :: 0 <= i < j < |ranked| ==> Ahead(ranked[i], ranked[j])
    ensures var kept := Filter(ranked, keep); forall i, j :: 0 <= i < j < |kept| ==> Ahead(kept[i], kept[j])
  {
    FilterPairwise(ranked, keep, Ahead);
  }

  /**
    A decision is a match exactly when some candidate is a clear winner, and then that
    candidate's event and confidence are reported. It is ambiguous exactly when there are
    eligible candidates but no clear winner, and rejected exactly when there are none.
   */
  lemma MatchedIffClearWinner(setting: Setting, evidence: Evidence, events: seq<Event>, notes: seq<MatchDiagnostic>)
    requires UniqueIds(events, EventId)
    ensures var d := MatchOver(setting, evidence, events, notes);
      && (d.status == Matched <==> exists c :: ClearWinner(c, setting, evidence, events))
      && (d.status == Rejected <==> !exists c :: IsEligible(c, setting, evidence, events))
      && (d.status == Matched ==> exists c :: ClearWinner(c, setting, evidence, events)
                                              && d.event == Some(c.event) && d.confidence == Some(c.confidence))
      && (d.status != Matched ==> d.event == None && d.confidence == None)
  {
    hide SortBy, Survivors, Failures, IsEligible, KeyLess, UniqueIds, Weak;
    RankedFirst(setting, evidence, events);
    var config := setting.config;
    var eligible := Filter(SortBy(Survivors(setting, evidence, events), ByRank), AtLeast(config.minimumConfidence));
    if |eligible| > 0 {
      assert eligible[0] in eligible;
      FirstWinsIfAlone(setting, evidence, events, eligible);
    }
  }

  lemma FirstWinsIfAlone(setting: Setting, evidence: Evidence, events: seq<Event>, eligible: seq<Candidate>)
    requires |eligible| > 0 && forall c :: c in eligible <==> IsEligible(c, setting, evidence, events)
    requires forall i, j :: 0 <= i < j < |eligible| ==>
      eligible[j].confidence <= eligible[i].confidence && eligible[i] != eligible[j]
    ensures ClearWinner(eligible[0], setting, evidence, events)
            <==> |Filter(eligible[1..], CloseTo(eligible[0].confidence, setting.config.ambiguityMargin))| == 0
  {
    var best, rest := eligible[0], eligible[1..];
    var close := Filter(rest, CloseTo(best.confidence, setting.config.ambiguityMargin));
    FilterMembers(rest, CloseTo(best.confidence, setting.config.ambiguityMargin));
    assert eligible == [best] + rest;
    if |close| > 0 {
      assert close[0] in close && close[0] in rest;
      var k :| 0 <= k < |rest| && rest[k] == close[0];
      assert eligible[k + 1] == close[0] && close[0] in eligible;
    } else {
      assert best in eligible;
      forall o | IsEligible(o, setting, evidence, events) && o != best
        ensures best.confidence - o.confidence > setting.config.ambiguityMargin
      {
        assert o in eligible && o in rest;
        assert o !in close;
      }
    }
  }

  // ----- The same, by the fields of the event and the evidence

  /** Both sides state it, and say the same. */
  predicate Agree(a: Option<Text>, b: Option<Text>) { a.Some? && b.Some? && a.value.folded == b.value.folded }

  /** Both sides state it, and say different things. */
  predicate Differ(a: Option<Text>, b: Option<Text>) { a.Some? && b.Some? && a.value.folded != b.value.folded }

  function StageOf(setting: Setting, event: Event): Option<Text> {
    if event.id in setting.metadata then setting.metadata[event.id].stage else None
  }

  function VenueOf(setting: Setting, event: Event): Option<Text> {
    if event.id in setting.metadata then setting.metadata[event.id].venue else None
  }

  /** The event carries exactly this reference of the provider. */
  ghost predicate IsReferenced(event: Event, evidence: Evidence) {
    exists r :: r in event.references && r.provider == evidence.provider && r.externalEvent == evidence.externalEvent
  }

  ghost function ToleranceFor(setting: Setting, evidence: Evidence, event: Event): Tolerance {
    if IsReferenced(event, evidence) then setting.config.referencedTolerance else setting.config.startTolerance
  }

  /** The position of a reason among the filters. */
  function FilterRank(reason: Reason): int {
    match reason
    case SportMismatch => 0
    case CompetitionMismatch => 1
    case ParticipantMismatch => 2
    case ParticipantOrderMismatch => 3
    case ProviderReferenceConflict => 4
    case StartTimeOutsideTolerance => 5
    case StageMismatch => 6
    case VenueMismatch => 7
    case _ => 8
  }

  /** What each filter finds against the event. */
  ghost predicate Against(reason: Reason, setting: Setting, evidence: Evidence, event: Event) {
    match reason
    case SportMismatch => event.sport != evidence.sport
    case CompetitionMismatch => event.competition != evidence.competition
    case ParticipantMismatch => exists p :: (p in event.participants) != (p in evidence.participants)
    case ParticipantOrderMismatch => evidence.order == Ordered && event.participants != evidence.participants
    case ProviderReferenceConflict =>
      (exists r :: r in event.references && r.provider == evidence.provider) && !IsReferenced(event, evidence)
    case StartTimeOutsideTolerance =>
      var tolerance := ToleranceFor(setting, evidence, event);
      event.start > evidence.start + tolerance || event.start < evidence.start - tolerance
    case StageMismatch => Differ(evidence.stage, StageOf(setting, event))
    case VenueMismatch => Differ(evidence.venue, VenueOf(setting, event))
    case _ => false
  }

  /** `points` is the whole part of 2000 times the share of the tolerance that is left. */
  ghost predicate IsTimeScore(points: int, delta: int, tolerance: int) {
    0 <= points <= 2_000 && points * tolerance <= 2_000 * (tolerance - delta) < (points + 1) * tolerance
  }

  /** 7000 points for passing the filters, up to 2000 for time, 400 for stage, 300 for venue, 1000 for the reference. */
  ghost predicate Scores(c: Candidate, setting: Setting, evidence: Evidence, event: Event) {
    && c.event == event.id
    && (c.delta == event.start - evidence.start || c.delta == evidence.start - event.start)
    && (c.exactReference <==> IsReferenced(event, evidence))
    && exists points :: IsTimeScore(points, c.delta, ToleranceFor(setting, evidence, event))
         && c.confidence == Capped(7_000 + points
                                   + (if Agree(evidence.stage, StageOf(setting, event)) then 400 else 0)
                                   + (if Agree(evidence.venue, VenueOf(setting, event)) then 300 else 0)
                                   + (if IsReferenced(event, evidence) then 1_000 else 0))
  }

  function Capped(score: int): int { if score < 10_000 then score else 10_000 }

  lemma ReferencesMean(event: Event, evidence: Evidence)
    ensures ReferencesExactly(event, evidence.provider, evidence.externalEvent) <==> IsReferenced(event, evidence)
    ensures References(event, evidence.provider) <==>
            exists r :: r in event.references && r.provider == evidence.provider
  {
    assert ProviderReference(evidence.provider, evidence.externalEvent).provider == evidence.provider;
  }

  lemma ParticipantsMean(event: Event, evidence: Evidence)
    ensures Members(event.participants) != Members(evidence.participants) <==>
            exists p :: (p in event.participants) != (p in evidence.participants)
  {
    if Members(event.participants) == Members(evidence.participants) {
      forall p
        ensures p in event.participants <==> p in evidence.participants
      {
        assert p in Members(event.participants) <==> p in Members(evidence.participants);
      }
    }
    if forall p :: p in event.participants <==> p in evidence.participants {
      assert Members(event.participants) == Members(evidence.participants);
    }
  }

  lemma TimeScoreMeans(delta: nat, tolerance: Tolerance)
    requires delta <= tolerance
    ensures IsTimeScore(TimeScore(delta, tolerance), delta, tolerance)
  {
    var n, points := 2_000 * (tolerance - delta), TimeScore(delta, tolerance);
    QuotientAtLeast(n, tolerance, points);
    QuotientAtLeast(n, tolerance, points + 1);
  }

  /** An event fails at the first filter that finds something against it, and otherwise scores. */
  lemma EvaluationMeans(setting: Setting, evidence: Evidence, event: Event)
    ensures match setting.Evaluate(evidence, event)
            case Fails(reason) =>
              && Against(reason, setting, evidence, event)
              && forall r :: FilterRank(r) < FilterRank(reason) ==> !Against(r, setting, evidence, event)
            case Survives(candidate) =>
              && Scores(candidate, setting, evidence, event)
              && forall r :: !Against(r, setting, evidence, event)
  {
    hide TimeScore, IsTimeScore, IsReferenced, Members, References, ReferencesExactly;
    ReferencesMean(event, evidence);
    ParticipantsMean(event, evidence);
    var tolerance := ToleranceFor(setting, evidence, event);
    var delta := Abs(event.start - evidence.start);
    if delta <= tolerance {
      TimeScoreMeans(delta, tolerance);
    }
  }

  // ----- What a decision reports

  /** By confidence from the highest, then by the difference in start, then by event. */
  ghost predicate InRankOrder(candidates: seq<Candidate>) {
    forall i, j :: 0 <= i < j < |candidates| ==> var a, b := candidates[i], candidates[j];
      KeyLess([0 - a.confidence, a.delta, a.event], [0 - b.confidence, b.delta, b.event])
  }

  /** Eligible, and within the ambiguity margin of every eligible candidate. */
  ghost predicate Contends(c: Candidate, setting: Setting, evidence: Evidence, events: seq<Event>) {
    && IsEligible(c, setting, evidence, events)
    && forall o :: IsEligible(o, setting, evidence, events) ==>
         o.confidence - c.confidence <= setting.config.ambiguityMargin
  }

  /** Everyone if nobody is eligible, the eligible ones for a match, and those that contend otherwise. */
  ghost predicate Listed(c: Candidate, status: Status, setting: Setting, evidence: Evidence, events: seq<Event>) {
    match status
    case Rejected => IsSurvivor(c, setting, evidence, events)
    case Matched => IsEligible(c, setting, evidence, events)
    case Ambiguous => Contends(c, setting, evidence, events)
  }

  /** Why each event failed, and what was decided. */
  ghost predicate Explains(item: MatchDiagnostic, d: Decision, setting: Setting, evidence: Evidence,
                           events: seq<Event>)
  {
    || (exists e :: e in events && setting.Evaluate(evidence, e) == Fails(item.reason) && item.event == Some(e.id))
    || match d.status
       case Rejected => item.reason == BelowConfidenceThreshold
                        && exists c :: IsSurvivor(c, setting, evidence, events) && item.event == Some(c.event)
       case Matched => item.reason == MatchFound && item.event == d.event
       case Ambiguous => item.reason == AmbiguousCandidates && item.event == None
  }

  lemma {:induction false} FailureMembers(setting: Setting, evidence: Evidence, events: seq<Event>)
    ensures forall item :: item in Failures(setting, evidence, events) <==>
              exists e :: e in events && setting.Evaluate(evidence, e) == Fails(item.reason) && item.event == Some(e.id)
  {
    hide EvaluateCandidate;
    if |events| > 0 {
      var n := |events| - 1;
      FailureMembers(setting, evidence, events[..n]);
      assert events == events[..n] + [events[n]];
      forall item
        ensures item in Failures(setting, evidence, events) <==>
                  || item in Failures(setting, evidence, events[..n])
                  || (setting.Evaluate(evidence, events[n]) == Fails(item.reason) && item.event == Some(events[n].id))
      {
      }
    }
  }

  lemma WeakMembers(candidates: seq<Candidate>)
    ensures forall item :: item in Weak(candidates) <==>
              item.reason == BelowConfidenceThreshold && exists c :: c in candidates && item.event == Some(c.event)
  {
    forall item
      ensures item in Weak(candidates) <==>
              item.reason == BelowConfidenceThreshold && exists c :: c in candidates && item.event == Some(c.event)
    {
      if c :| c in candidates && item.event == Some(c.event) {
        var i :| 0 <= i < |candidates| && candidates[i] == c;
        assert Weak(candidates)[i].event == item.event;
      }
    }
  }

  lemma RankedInOrder(setting: Setting, evidence: Evidence, events: seq<Event>)
    requires UniqueIds(events, EventId)
    ensures StrictlySortedBy(SortBy(Survivors(setting, evidence, events), ByRank), ByRank)
    ensures forall c :: c in SortBy(Survivors(setting, evidence, events), ByRank)
                        <==> IsSurvivor(c, setting, evidence, events)
  {
    hide KeyLess;
    SurvivorMembers(setting, evidence, events);
    SurvivorsDistinct(setting, evidence, events);
    SortByStrict(Survivors(setting, evidence, events), ByRank);
    SortByMembers(Survivors(setting, evidence, events), ByRank);
  }

  lemma StrictInRankOrder(candidates: seq<Candidate>)
    requires StrictlySortedBy(candidates, ByRank)
    ensures InRankOrder(candidates)
  {
    hide KeyLess;
  }

  /** The candidates that remain close to the first of a ranking. */
  lemma CloseOnes(eligible: seq<Candidate>, margin: nat)
    requires |eligible| > 0 && StrictlySortedBy(eligible, ByRank)
    ensures var best := eligible[0];
      var close := Filter(eligible[1..], CloseTo(best.confidence, margin));
      && StrictlySortedBy([best] + close, ByRank)
      && (forall c :: c in [best] + close <==> c in eligible && best.confidence - c.confidence <= margin)
      && forall c :: c in eligible ==> c.confidence <= best.confidence
  {
    hide KeyLess;
    var best, rest := eligible[0], eligible[1..];
    var close := Filter(rest, CloseTo(best.confidence, margin));
    assert eligible == [best] + rest;
    forall i | 0 <= i < |rest|
      ensures KeyLess(ByRank(best), ByRank(rest[i])) && rest[i].confidence <= best.confidence
    {
      assert rest[i] == eligible[i + 1];
      RankAhead(best, rest[i]);
    }
    FilterMembers(rest, CloseTo(best.confidence, margin));
    FilterStrict(rest, ByRank, CloseTo(best.confidence, margin));
    forall i | 0 <= i < |close|
      ensures KeyLess(ByRank(best), ByRank(close[i]))
    {
      assert close[i] in close;
    }
  }

  lemma CandidatesMean(setting: Setting, evidence: Evidence, events: seq<Event>, notes: seq<MatchDiagnostic>)
    requires UniqueIds(events, EventId)
    ensures var d := MatchOver(setting, evidence, events, notes);
      InRankOrder(d.candidates) && forall c :: c in d.candidates <==> Listed(c, d.status, setting, evidence, events)
  {
    hide KeyLess, Survivors, Failures, IsSurvivor, Weak, UniqueIds, InRankOrder, StrictlySortedBy, SortBy, Filter;
    var ranked := SortBy(Survivors(setting, evidence, events), ByRank);
    var eligible := Filter(ranked, AtLeast(setting.config.minimumConfidence));
    RankedInOrder(setting, evidence, events);
    FilterMembers(ranked, AtLeast(setting.config.minimumConfidence));
    FilterStrict(ranked, ByRank, AtLeast(setting.config.minimumConfidence));
    StrictInRankOrder(ranked);
    StrictInRankOrder(eligible);
    if |eligible| > 0 {
      CloseOnes(eligible, setting.config.ambiguityMargin);
      var best := eligible[0];
      StrictInRankOrder([best] + Filter(eligible[1..], CloseTo(best.confidence, setting.config.ambiguityMargin)));
      assert best in eligible;
    }
  }

  lemma DiagnosticsMean(setting: Setting, evidence: Evidence, events: seq<Event>, notes: seq<MatchDiagnostic>)
    requires UniqueIds(events, EventId)
    ensures var d := MatchOver(setting, evidence, events, notes);
      forall item :: item in d.diagnostics <==> item in notes || Explains(item, d, setting, evidence, events)
  {
    hide KeyLess, Survivors, Failures, IsSurvivor, Weak, UniqueIds, SortBy, Filter, StrictlySortedBy;
    RankedInOrder(setting, evidence, events);
    FailureMembers(setting, evidence, events);
    WeakMembers(SortBy(Survivors(setting, evidence, events), ByRank));
  }

  /** The candidates and diagnostics of a decision. */
  lemma DecisionMeans(setting: Setting, evidence: Evidence, events: seq<Event>, notes: seq<MatchDiagnostic>)
    requires UniqueIds(events, EventId)
    ensures var d := MatchOver(setting, evidence, events, notes);
      && InRankOrder(d.candidates)
      && (forall c :: c in d.candidates <==> Listed(c, d.status, setting, evidence, events))
      && forall item :: item in d.diagnostics <==> item in notes || Explains(item, d, setting, evidence, events)
  {
    hide MatchOver, InRankOrder, Listed, Explains;
    CandidatesMean(setting, evidence, events, notes);
    DiagnosticsMean(setting, evidence, events, notes);
  }

  /** Without any event of the same sport, competition and participants, the first of these that nobody shares. */
  lemma HardFilterNoteMeans(registry: Registry, evidence: Evidence)
    requires Indexed(registry)
    ensures var note := HardFilterNote(registry, evidence);
      && note.event == None
      && (note.reason == SportMismatch <==> forall e :: e in registry.events ==> e.sport != evidence.sport)
      && (note.reason == CompetitionMismatch <==>
            && (exists e :: e in registry.events && e.sport == evidence.sport)
            && forall e :: e in registry.events && e.sport == evidence.sport ==> e.competition != evidence.competition)
  {
    var sport, competition := evidence.sport, (evidence.sport, evidence.competition);
    LookupMeans(registry.eventsBySport, registry.events, SportOf, sport);
    LookupMeans(registry.eventsByCompetition, registry.events, CompetitionOf, competition);
    assert |registry.EventsForSport(sport)| == 0 <==> forall e :: e in registry.events ==> e.sport != sport;
    assert |registry.EventsForCompetition(sport, evidence.competition)| == 0 <==>
        forall e :: e in registry.events ==> CompetitionOf(e) != competition;
  }

  /** The events looked at: all of them, or those of the evidence's sport, competition and participants. */
  lemma LookedMeans(registry: Registry, evidence: Evidence, exhaustive: bool)
    requires Indexed(registry)
    ensures forall e :: e in Looked(registry, evidence, exhaustive) <==>
              e in registry.events
              && (exhaustive || (&& e.sport == evidence.sport && e.competition == evidence.competition
                                 && forall p :: p in e.participants <==> p in evidence.participants))
  {
    hide MatchKeyOf, KeyOfEvidence;
    var key := KeyOfEvidence(evidence);
    FilterMembers(registry.events, Sharing(MatchKeyOf, key));
    KeyOfEvidenceIs(evidence);
    forall e
      ensures MatchKeyOf(e) == key <==>
              && e.sport == evidence.sport && e.competition == evidence.competition
              && forall p :: p in e.participants <==> p in evidence.participants
    {
      SameKeyMeans(e, evidence);
    }
  }

  lemma KeyOfEvidenceIs(evidence: Evidence)
    ensures KeyOfEvidence(evidence)
            == MatchKey(evidence.sport, evidence.competition, Members(evidence.participants))
  {
  }

  lemma SameKeyMeans(event: Event, evidence: Evidence)
    ensures MatchKeyOf(event) == KeyOfEvidence(evidence) <==>
            && event.sport == evidence.sport && event.competition == evidence.competition
            && forall p :: p in event.participants <==> p in evidence.participants
  {
    ParticipantsMean(event, evidence);
  }

  lemma LookupMeans<K(!new)>(index: map<K, seq<Event>>, events: seq<Event>, keyOf: Event -> K, key: K)
    requires Groups(index, events, keyOf)
    ensures |(if key in index then index[key] else [])| == 0 <==> forall e :: e in events ==> keyOf(e) != key
  {
    var found := Filter(events, Sharing(keyOf, key));
    assert found == if key in index then index[key] else [];
    FilterMembers(events, Sharing(keyOf, key));
    if |found| > 0 {
      assert found[0] in found;
    }
  }
}
