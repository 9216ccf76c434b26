/** Context-aware alias catalogs: an alias resolves only when its context leaves one meaning. */
module Aliases {
  import opened Wrappers
  import opened Domain

  datatype Resolution = Resolved(value: Id) | Ambiguous(candidates: set<Id>) | UnknownAlias

  // ----- Competitions and participants

  datatype CompetitionAlias = CompetitionAlias(
    alias: Id, competition: Id, sport: Id,
    provider: Option<Id>, region: Option<Id>, season: Option<Id>, parent: Option<Id>)

  datatype ParticipantAlias = ParticipantAlias(
    alias: Id, participant: Id, sport: Id, kind: Id,
    provider: Option<Id>, competition: Option<Id>, region: Option<Id>)

  /** What both catalogs look at: an alias within a sport, its meaning, and the context it needs. */
  datatype Entry = Entry(alias: Id, sport: Id, meaning: Id, needs: seq<Option<Id>>)

  type Context = seq<Option<Id>>

  function OfCompetition(a: CompetitionAlias): Entry {
    Entry(a.alias, a.sport, a.competition, [a.provider, a.region, a.season, a.parent])
  }

  function OfParticipant(a: ParticipantAlias): Entry {
    Entry(a.alias, a.sport, a.participant, [Some(a.kind), a.provider, a.competition, a.region])
  }

  datatype Fit = Matches | Missing | Conflicts

  function ContextState(expected: Option<Id>, actual: Option<Id>): Fit {
    if expected.None? then Matches
    else if actual.None? then Missing
    else if expected == actual then Matches
    else Conflicts
  }

  function StateAt(entry: Entry, context: Context, i: nat): Fit
    requires i < |entry.needs|
  {
    ContextState(entry.needs[i], if i < |context| then context[i] else None)
  }

  function FitOf(entry: Entry, context: Context): Fit {
    if exists i :: 0 <= i < |entry.needs| && StateAt(entry, context, i) == Conflicts then Conflicts
    else if exists i :: 0 <= i < |entry.needs| && StateAt(entry, context, i) == Missing then Missing
    else Matches
  }

  /** The entry is about this alias and nothing in the context speaks against it. */
  predicate Possible(entry: Entry, alias: Id, sport: Id, context: Context) {
    entry.alias == alias && entry.sport == sport && FitOf(entry, context) != Conflicts
  }

  predicate Certain(entry: Entry, alias: Id, sport: Id, context: Context) {
    entry.alias == alias && entry.sport == sport && FitOf(entry, context) == Matches
  }

  /** Some entry that is possible in this context names `v`. */
  predicate CouldMean(v: Id, entries: seq<Entry>, alias: Id, sport: Id, context: Context) {
    exists i :: 0 <= i < |entries| && Possible(entries[i], alias, sport, context) && entries[i].meaning == v
  }

  /** Some entry whose every need is met names `v`. */
  predicate SurelyMeans(v: Id, entries: seq<Entry>, alias: Id, sport: Id, context: Context) {
    exists i :: 0 <= i < |entries| && Certain(entries[i], alias, sport, context) && entries[i].meaning == v
  }

  /** `v` is certain and nothing else is possible. */
  ghost predicate OnlyMeaning(v: Id, entries: seq<Entry>, alias: Id, sport: Id, context: Context) {
    && SurelyMeans(v, entries, alias, sport, context)
    && forall other :: CouldMean(other, entries, alias, sport, context) ==> other == v
  }

  /** The two sets the loop fills: meanings that are certain, and meanings that lack context. */
  method Gather(entries: seq<Entry>, alias: Id, sport: Id, context: Context) returns (full: set<Id>, potential: set<Id>)
    ensures forall v :: v in full <==> SurelyMeans(v, entries, alias, sport, context)
    ensures forall v :: v in full || v in potential <==> CouldMean(v, entries, alias, sport, context)
  {
    hide FitOf;
    full, potential := {}, {};
    for n := 0 to |entries|
      invariant forall v :: v in full <==> SurelyMeans(v, entries[..n], alias, sport, context)
      invariant forall v :: v in full || v in potential <==> CouldMean(v, entries[..n], alias, sport, context)
    {
      var entry := entries[n];
      OneMoreEntry(entries, n, alias, sport, context);
      if entry.alias == alias && entry.sport == sport {
        match FitOf(entry, context) {
          case Conflicts =>
          case Missing => potential := potential + {entry.meaning};
          case Matches => full := full + {entry.meaning};
        }
      }
    }
    assert entries[..|entries|] == entries;
  }

  lemma OneMoreEntry(entries: seq<Entry>, n: nat, alias: Id, sport: Id, context: Context)
    requires n < |entries|
    ensures forall v :: SurelyMeans(v, entries[..n + 1], alias, sport, context) <==>
              SurelyMeans(v, entries[..n], alias, sport, context)
              || (Certain(entries[n], alias, sport, context) && entries[n].meaning == v)
    ensures forall v :: CouldMean(v, entries[..n + 1], alias, sport, context) <==>
              CouldMean(v, entries[..n], alias, sport, context)
              || (Possible(entries[n], alias, sport, context) && entries[n].meaning == v)
  {
    hide FitOf;
    var longer := entries[..n + 1];
    assert forall i :: 0 <= i < n ==> longer[i] == entries[..n][i];
    assert longer[n] == entries[n];
    forall v
      ensures SurelyMeans(v, longer, alias, sport, context) <==>
              SurelyMeans(v, entries[..n], alias, sport, context)
              || (Certain(entries[n], alias, sport, context) && entries[n].meaning == v)
      ensures CouldMean(v, longer, alias, sport, context) <==>
              CouldMean(v, entries[..n], alias, sport, context)
              || (Possible(entries[n], alias, sport, context) && entries[n].meaning == v)
    {
      if i :| 0 <= i < n && Certain(entries[..n][i], alias, sport, context) && entries[..n][i].meaning == v {
        assert Certain(longer[i], alias, sport, context);
      }
      if i :| 0 <= i < n && Possible(entries[..n][i], alias, sport, context) && entries[..n][i].meaning == v {
        assert Possible(longer[i], alias, sport, context);
      }
    }
  }

  /** At least two meanings are possible. */
  ghost predicate SeveralMeanings(entries: seq<Entry>, alias: Id, sport: Id, context: Context) {
    exists v, w :: v != w && CouldMean(v, entries, alias, sport, context)
      && CouldMean(w, entries, alias, sport, context)
  }

  /**
    Resolves exactly when one meaning is certain and no other is possible; ambiguous exactly
    when several are possible.
   */
  method Resolve(entries: seq<Entry>, alias: Id, sport: Id, context: Context) returns (r: Resolution)
    ensures forall v :: r == Resolved(v) <==> OnlyMeaning(v, entries, alias, sport, context)
    ensures r.Ambiguous? <==> SeveralMeanings(entries, alias, sport, context)
    ensures r.Ambiguous? ==> forall v :: v in r.candidates <==> CouldMean(v, entries, alias, sport, context)
  {
    hide CouldMean, SurelyMeans;
    var full, potential := Gather(entries, alias, sport, context);
    var candidates := full + potential;
    if |candidates| > 1 {
      var v, w := TwoMembers(candidates);
      return Ambiguous(candidates);
    }
    AtMostOne(candidates);
    if full != {} {
      NonEmpty(full);
      var v :| v in full;
      assert v in candidates;
      return Resolved(v);
    }
    return UnknownAlias;
  }

  lemma TwoMembers(s: set<Id>) returns (v: Id, w: Id)
    requires |s| > 1
    ensures v in s && w in s && v != w
  {
    NonEmpty(s);
    v :| v in s;
    assert |s - {v}| > 0;
    NonEmpty(s - {v});
    w :| w in s - {v};
  }

  lemma AtMostOne(s: set<Id>)
    requires |s| <= 1
    ensures forall v, w :: v in s && w in s ==> v == w
  {
    forall v, w | v in s && w in s
      ensures v == w
    {
      assert w in s - {v} ==> |s - {v}| > 0;
    }
  }

  // ----- The two catalogs

  /** How a competition alias compares with the context of the call, field by field. */
  function CompetitionStates(a: CompetitionAlias, provider: Option<Id>, region: Option<Id>, season: Option<Id>,
                             parent: Option<Id>): seq<Fit> {
    [ContextState(a.provider, provider), ContextState(a.region, region), ContextState(a.season, season),
     ContextState(a.parent, parent)]
  }

  function ParticipantStates(a: ParticipantAlias, kind: Option<Id>, provider: Option<Id>, competition: Option<Id>,
                             region: Option<Id>): seq<Fit> {
    [ContextState(Some(a.kind), kind), ContextState(a.provider, provider), ContextState(a.competition, competition),
     ContextState(a.region, region)]
  }

  /** No field conflicts. */
  predicate Tolerated(states: seq<Fit>) { forall i :: 0 <= i < |states| ==> states[i] != Conflicts }

  /** Every field the alias asks for is met. */
  predicate Confirmed(states: seq<Fit>) { forall i :: 0 <= i < |states| ==> states[i] == Matches }

  /** What the alias needs is not contradicted by what is given. */
  predicate Allows(need: Option<Id>, given: Option<Id>) {
    need.Some? && given.Some? ==> need.value == given.value
  }

  /** What the alias needs is given. */
  predicate Meets(need: Option<Id>, given: Option<Id>) {
    need.Some? ==> given.Some? && need.value == given.value
  }

  lemma FourFields(a: Fit, b: Fit, c: Fit, d: Fit)
    ensures Tolerated([a, b, c, d]) <==> a != Conflicts && b != Conflicts && c != Conflicts && d != Conflicts
    ensures Confirmed([a, b, c, d]) <==> a == b == c == d == Matches
  {
    var states := [a, b, c, d];
    assert states[0] == a && states[1] == b && states[2] == c && states[3] == d;
  }

  lemma ContextStateMeans(need: Option<Id>, given: Option<Id>)
    ensures ContextState(need, given) != Conflicts <==> Allows(need, given)
    ensures ContextState(need, given) == Matches <==> Meets(need, given)
  {
  }

  /** Some alias whose own fields tolerate the context names the competition `v`. */
  ghost predicate MayBeCompetition(v: Id, aliases: seq<CompetitionAlias>, alias: Id, sport: Id, provider: Option<Id>,
                                   region: Option<Id>, season: Option<Id>, parent: Option<Id>) {
    exists i :: 0 <= i < |aliases| && aliases[i].competition == v && aliases[i].alias == alias
                && aliases[i].sport == sport && Allows(aliases[i].provider, provider)
                && Allows(aliases[i].region, region) && Allows(aliases[i].season, season)
                && Allows(aliases[i].parent, parent)
  }

  ghost predicate MustBeCompetition(v: Id, aliases: seq<CompetitionAlias>, alias: Id, sport: Id, provider: Option<Id>,
                                    region: Option<Id>, season: Option<Id>, parent: Option<Id>) {
    exists i :: 0 <= i < |aliases| && aliases[i].competition == v && aliases[i].alias == alias
                && aliases[i].sport == sport && Meets(aliases[i].provider, provider)
                && Meets(aliases[i].region, region) && Meets(aliases[i].season, season)
                && Meets(aliases[i].parent, parent)
  }

  ghost predicate MayBeParticipant(v: Id, aliases: seq<ParticipantAlias>, alias: Id, sport: Id, kind: Option<Id>,
                                   provider: Option<Id>, competition: Option<Id>, region: Option<Id>) {
    exists i :: 0 <= i < |aliases| && aliases[i].participant == v && aliases[i].alias == alias
                && aliases[i].sport == sport && Allows(Some(aliases[i].kind), kind)
                && Allows(aliases[i].provider, provider) && Allows(aliases[i].competition, competition)
                && Allows(aliases[i].region, region)
  }

  ghost predicate MustBeParticipant(v: Id, aliases: seq<ParticipantAlias>, alias: Id, sport: Id, kind: Option<Id>,
                                    provider: Option<Id>, competition: Option<Id>, region: Option<Id>) {
    exists i :: 0 <= i < |aliases| && aliases[i].participant == v && aliases[i].alias == alias
                && aliases[i].sport == sport && Meets(Some(aliases[i].kind), kind)
                && Meets(aliases[i].provider, provider) && Meets(aliases[i].competition, competition)
                && Meets(aliases[i].region, region)
  }

  lemma FitByFields(entry: Entry, context: Context, states: seq<Fit>)
    requires |states| == |entry.needs| && forall i :: 0 <= i < |states| ==> states[i] == StateAt(entry, context, i)
    ensures FitOf(entry, context) != Conflicts <==> Tolerated(states)
    ensures FitOf(entry, context) == Matches <==> Confirmed(states)
  {
    hide StateAt;
    forall i | 0 <= i < |entry.needs|
      ensures StateAt(entry, context, i) == states[i]
    {
    }
  }

  function CompetitionEntries(aliases: seq<CompetitionAlias>): seq<Entry> {
    seq(|aliases|, i requires 0 <= i < |aliases| => OfCompetition(aliases[i]))
  }

  function ParticipantEntries(aliases: seq<ParticipantAlias>): seq<Entry> {
    seq(|aliases|, i requires 0 <= i < |aliases| => OfParticipant(aliases[i]))
  }

  lemma CompetitionFit(a: CompetitionAlias, provider: Option<Id>, region: Option<Id>, season: Option<Id>,
                       parent: Option<Id>)
    ensures var fit := FitOf(OfCompetition(a), [provider, region, season, parent]);
      && (fit != Conflicts <==> Allows(a.provider, provider) && Allows(a.region, region) && Allows(a.season, season)
                                && Allows(a.parent, parent))
      && (fit == Matches <==> Meets(a.provider, provider) && Meets(a.region, region) && Meets(a.season, season)
                              && Meets(a.parent, parent))
  {
    hide ContextState, FitOf, Allows, Meets, Tolerated, Confirmed;
    FitByFields(OfCompetition(a), [provider, region, season, parent],
                CompetitionStates(a, provider, region, season, parent));
    ContextStateMeans(a.provider, provider);
    ContextStateMeans(a.region, region);
    ContextStateMeans(a.season, season);
    ContextStateMeans(a.parent, parent);
    FourFields(ContextState(a.provider, provider), ContextState(a.region, region),
               ContextState(a.season, season), ContextState(a.parent, parent));
  }

  lemma CompetitionMeanings(aliases: seq<CompetitionAlias>, alias: Id, sport: Id, provider: Option<Id>,
                            region: Option<Id>, season: Option<Id>, parent: Option<Id>)
    ensures forall v :: CouldMean(v, CompetitionEntries(aliases), alias, sport, [provider, region, season, parent])
              <==> MayBeCompetition(v, aliases, alias, sport, provider, region, season, parent)
    ensures forall v :: SurelyMeans(v, CompetitionEntries(aliases), alias, sport, [provider, region, season, parent])
              <==> MustBeCompetition(v, aliases, alias, sport, provider, region, season, parent)
  {
    hide FitOf, Allows, Meets;
    var entries, context := CompetitionEntries(aliases), [provider, region, season, parent];
    forall i | 0 <= i < |entries|
      ensures FitOf(entries[i], context) != Conflicts
              <==> Allows(aliases[i].provider, provider) && Allows(aliases[i].region, region)
                   && Allows(aliases[i].season, season) && Allows(aliases[i].parent, parent)
      ensures FitOf(entries[i], context) == Matches
              <==> Meets(aliases[i].provider, provider) && Meets(aliases[i].region, region)
                   && Meets(aliases[i].season, season) && Meets(aliases[i].parent, parent)
    {
      CompetitionFit(aliases[i], provider, region, season, parent);
    }
  }

  lemma ParticipantFit(a: ParticipantAlias, kind: Option<Id>, provider: Option<Id>, competition: Option<Id>,
                       region: Option<Id>)
    ensures var fit := FitOf(OfParticipant(a), [kind, provider, competition, region]);
      && (fit != Conflicts <==> Allows(Some(a.kind), kind) && Allows(a.provider, provider)
                                && Allows(a.competition, competition) && Allows(a.region, region))
      && (fit == Matches <==> Meets(Some(a.kind), kind) && Meets(a.provider, provider)
                              && Meets(a.competition, competition) && Meets(a.region, region))
  {
    hide ContextState, FitOf, Allows, Meets, Tolerated, Confirmed;
    FitByFields(OfParticipant(a), [kind, provider, competition, region],
                ParticipantStates(a, kind, provider, competition, region));
    ContextStateMeans(Some(a.kind), kind);
    ContextStateMeans(a.provider, provider);
    ContextStateMeans(a.competition, competition);
    ContextStateMeans(a.region, region);
    FourFields(ContextState(Some(a.kind), kind), ContextState(a.provider, provider),
               ContextState(a.competition, competition), ContextState(a.region, region));
  }

  lemma ParticipantMeanings(aliases: seq<ParticipantAlias>, alias: Id, sport: Id, kind: Option<Id>,
                            provider: Option<Id>, competition: Option<Id>, region: Option<Id>)
    ensures forall v :: CouldMean(v, ParticipantEntries(aliases), alias, sport, [kind, provider, competition, region])
              <==> MayBeParticipant(v, aliases, alias, sport, kind, provider, competition, region)
    ensures forall v :: SurelyMeans(v, ParticipantEntries(aliases), alias, sport, [kind, provider, competition, region])
              <==> MustBeParticipant(v, aliases, alias, sport, kind, provider, competition, region)
  {
    hide FitOf, Allows, Meets;
    var entries, context := ParticipantEntries(aliases), [kind, provider, competition, region];
    forall i | 0 <= i < |entries|
      ensures FitOf(entries[i], context) != Conflicts
              <==> Allows(Some(aliases[i].kind), kind) && Allows(aliases[i].provider, provider)
                   && Allows(aliases[i].competition, competition) && Allows(aliases[i].region, region)
      ensures FitOf(entries[i], context) == Matches
              <==> Meets(Some(aliases[i].kind), kind) && Meets(aliases[i].provider, provider)
                   && Meets(aliases[i].competition, competition) && Meets(aliases[i].region, region)
    {
      ParticipantFit(aliases[i], kind, provider, competition, region);
    }
  }

  method ResolveCompetition(aliases: seq<CompetitionAlias>, alias: Id, sport: Id, provider: Option<Id>,
                            region: Option<Id>, season: Option<Id>, parent: Option<Id>)
    returns (r: Resolution)
    ensures forall v :: r == Resolved(v) <==>
              OnlyMeaning(v, CompetitionEntries(aliases), alias, sport, [provider, region, season, parent])
    ensures forall v :: r == Resolved(v) <==>
              && MustBeCompetition(v, aliases, alias, sport, provider, region, season, parent)
              && forall w :: MayBeCompetition(w, aliases, alias, sport, provider, region, season, parent) ==> w == v
    ensures r.Ambiguous? <==> exists v, w ::
              && v != w
              && MayBeCompetition(v, aliases, alias, sport, provider, region, season, parent)
              && MayBeCompetition(w, aliases, alias, sport, provider, region, season, parent)
    ensures r.Ambiguous? ==> forall v :: v in r.candidates <==>
              MayBeCompetition(v, aliases, alias, sport, provider, region, season, parent)
  {
    hide CouldMean, SurelyMeans, MayBeCompetition, MustBeCompetition;
    r := Resolve(CompetitionEntries(aliases), alias, sport, [provider, region, season, parent]);
    CompetitionMeanings(aliases, alias, sport, provider, region, season, parent);
  }

  method ResolveParticipant(aliases: seq<ParticipantAlias>, alias: Id, sport: Id, kind: Option<Id>,
                            provider: Option<Id>, competition: Option<Id>, region: Option<Id>)
    returns (r: Resolution)
    ensures forall v :: r == Resolved(v) <==>
              OnlyMeaning(v, ParticipantEntries(aliases), alias, sport, [kind, provider, competition, region])
    ensures forall v :: r == Resolved(v) <==>
              && MustBeParticipant(v, aliases, alias, sport, kind, provider, competition, region)
              && forall w :: MayBeParticipant(w, aliases, alias, sport, kind, provider, competition, region) ==> w == v
    ensures r.Ambiguous? <==> exists v, w ::
              && v != w
              && MayBeParticipant(v, aliases, alias, sport, kind, provider, competition, region)
              && MayBeParticipant(w, aliases, alias, sport, kind, provider, competition, region)
    ensures r.Ambiguous? ==> forall v :: v in r.candidates <==>
              MayBeParticipant(v, aliases, alias, sport, kind, provider, competition, region)
  {
    hide CouldMean, SurelyMeans, MayBeParticipant, MustBeParticipant;
    r := Resolve(ParticipantEntries(aliases), alias, sport, [kind, provider, competition, region]);
    ParticipantMeanings(aliases, alias, sport, kind, provider, competition, region);
  }

  // ----- More context never changes an answer

  /** `more` supplies everything `context` supplies. */
  ghost predicate Supplies(more: Context, context: Context) {
    |context| <= |more| && forall i :: 0 <= i < |context| && context[i].Some? ==> more[i] == context[i]
  }

  lemma FitTightens(entry: Entry, context: Context, more: Context)
    requires Supplies(more, context)
    ensures FitOf(entry, context) == Matches ==> FitOf(entry, more) == Matches
    ensures FitOf(entry, context) == Conflicts ==> FitOf(entry, more) == Conflicts
  {
    forall i | 0 <= i < |entry.needs|
      ensures StateAt(entry, context, i) == Matches ==> StateAt(entry, more, i) == Matches
      ensures StateAt(entry, context, i) == Conflicts ==> StateAt(entry, more, i) == Conflicts
    {
    }
  }

  /** An alias that resolves still resolves to the same meaning when missing context is supplied. */
  lemma ResolutionMonotone(entries: seq<Entry>, alias: Id, sport: Id, context: Context, more: Context, v: Id)
    requires Supplies(more, context)
    requires OnlyMeaning(v, entries, alias, sport, context)
    ensures OnlyMeaning(v, entries, alias, sport, more)
  {
    hide FitOf;
    var k :| 0 <= k < |entries| && Certain(entries[k], alias, sport, context) && entries[k].meaning == v;
    FitTightens(entries[k], context, more);
    assert Certain(entries[k], alias, sport, more);
    forall other | CouldMean(other, entries, alias, sport, more)
      ensures other == v
    {
      var i :| 0 <= i < |entries| && Possible(entries[i], alias, sport, more) && entries[i].meaning == other;
      FitTightens(entries[i], context, more);
      assert Possible(entries[i], alias, sport, context);
      assert CouldMean(other, entries, alias, sport, context);
    }
  }

  // ----- Sports

  datatype SportAlias = SportAlias(alias: Id, sport: Id, provider: Option<Id>)

  predicate SpecificTo(entry: SportAlias, alias: Id, provider: Option<Id>) {
    entry.alias == alias && entry.provider == provider
  }

  /** The entries that count: the provider's own, or the general ones if it has none. */
  ghost predicate Counts(entry: SportAlias, entries: seq<SportAlias>, alias: Id, provider: Option<Id>) {
    && entry in entries
    && if provider.Some? && exists e :: e in entries && SpecificTo(e, alias, provider)
       then SpecificTo(entry, alias, provider) else SpecificTo(entry, alias, None)
  }

  ghost predicate OnlySport(v: Id, entries: seq<SportAlias>, alias: Id, provider: Option<Id>) {
    && (exists e :: Counts(e, entries, alias, provider) && e.sport == v)
    && (forall e :: Counts(e, entries, alias, provider) ==> e.sport == v)
  }

  /**
    Sports are different: a provider's own entries override the general ones. A sport
    resolved without a provider stays when the provider is supplied exactly when none of
    that provider's own entries names another sport.
   */
  lemma SportKeptIff(entries: seq<SportAlias>, alias: Id, provider: Id, v: Id)
    requires OnlySport(v, entries, alias, None)
    ensures OnlySport(v, entries, alias, Some(provider))
            <==> forall e :: e in entries && SpecificTo(e, alias, Some(provider)) ==> e.sport == v
  {
    var general :| Counts(general, entries, alias, None) && general.sport == v;
    if e :| e in entries && SpecificTo(e, alias, Some(provider)) {
      assert Counts(e, entries, alias, Some(provider));
    } else {
      assert Counts(general, entries, alias, Some(provider));
      forall e | Counts(e, entries, alias, Some(provider))
        ensures e.sport == v
      {
        assert Counts(e, entries, alias, None);
      }
    }
  }

  /** Supplying a provider can change the sport an alias means. */
  lemma SportMayChange() returns (entries: seq<SportAlias>, alias: Id, provider: Id)
    ensures exists v :: OnlySport(v, entries, alias, None)
    ensures !exists v :: OnlySport(v, entries, alias, None) && OnlySport(v, entries, alias, Some(provider))
  {
    var general, own := SportAlias(0, 1, None), SportAlias(0, 2, Some(3));
    entries, alias, provider := [general, own], 0, 3;
    assert general in entries && own in entries;
    assert Counts(general, entries, alias, None) && Counts(own, entries, alias, Some(provider));
    assert OnlySport(1, entries, alias, None);
  }
}
