/**
  Versioned live quote state of one feed: which quotes a batch is allowed to
  change, which versions are fresh, and which are evicted.
 */
module LiveQuotes {
  import opened Wrappers
  import opened Ordering
  import opened Domain

  type Duration = d: int | 0 <= d <= LONGEST_DURATION witness 0

  datatype FreshnessPolicy = FreshnessPolicy(window: Duration, tolerance: Duration)

  datatype QuoteKey = QuoteKey(provider: Id, event: Id, market: Id, selection: Id)

  function KeyOf(quote: OddsQuote): QuoteKey {
    QuoteKey(quote.provider, quote.event, quote.market, quote.selection)
  }

  datatype QuoteVersion = QuoteVersion(key: QuoteKey, revision: nat, quote: OddsQuote, observedAt: Instant)

  type LiveState = map<QuoteKey, QuoteVersion>

  ghost predicate Consistent(live: LiveState) {
    forall key :: key in live ==>
                    live[key].key == key == KeyOf(live[key].quote) && live[key].revision >= 1
  }

  function Lookup(live: LiveState, key: QuoteKey): Option<QuoteVersion> {
    if key in live then Some(live[key]) else None
  }

  /** Two observations with the same fingerprint carry the same information. */
  datatype Fingerprint = Fingerprint(
    key: QuoteKey, price: Odds, status: QuoteStatus,
    sourceEvent: Id, sourceMarket: Id, sourceSelection: Id, effective: Instant)

  function FingerprintOf(quote: OddsQuote): Fingerprint {
    Fingerprint(KeyOf(quote), quote.price, quote.status,
                quote.sourceEvent, quote.sourceMarket, quote.sourceSelection, quote.Effective())
  }

  datatype DiagnosticCode =
    | DuplicateQuote | OutOfOrder | FutureIngestion | ClockSkewDetected | ClockSkewExceeded
    | StaleEvicted | InactiveEvicted

  /** Position of a code in the alphabetical order of the codes' texts. */
  function CodeRank(code: DiagnosticCode): int {
    match code
    case ClockSkewDetected => 0
    case ClockSkewExceeded => 1
    case DuplicateQuote => 2
    case FutureIngestion => 3
    case InactiveEvicted => 4
    case OutOfOrder => 5
    case StaleEvicted => 6
  }

  datatype Diagnostic = Diagnostic(code: DiagnosticCode, key: QuoteKey)

  function ByProviderAndCode(item: Diagnostic): Key {
    [item.key.provider, item.key.event, item.key.market, item.key.selection, CodeRank(item.code)]
  }

  function BySlot(version: QuoteVersion): Key {
    [version.key.event, version.key.market, version.key.selection, version.key.provider]
  }

  /** The order in which a batch is applied. */
  function ByArrival(quote: OddsQuote): Key {
    [quote.provider, quote.event, quote.market, quote.selection, quote.Effective(), quote.ingestedAt, quote.id]
  }

  // ----- What one quote does

  datatype Verdict = Added | Updated | Repeated | Rejected(code: DiagnosticCode)

  predicate PassesClock(policy: FreshnessPolicy, quote: OddsQuote, observed: Instant) {
    quote.ingestedAt <= observed && quote.Effective() - observed <= policy.tolerance
  }

  function Judge(policy: FreshnessPolicy, current: Option<QuoteVersion>, quote: OddsQuote, observed: Instant): Verdict {
    if quote.ingestedAt > observed then Rejected(FutureIngestion)
    else if quote.Effective() - observed > policy.tolerance then Rejected(ClockSkewExceeded)
    else match current
      case None => Added
      case Some(version) =>
        if version.quote.Effective() - quote.Effective() > policy.tolerance then Rejected(OutOfOrder)
        else if FingerprintOf(version.quote) == FingerprintOf(quote) then Repeated
        else if quote.Effective() < version.quote.Effective() && quote.ingestedAt <= version.quote.ingestedAt
        then Rejected(OutOfOrder)
        else Updated
  }

  predicate Accepts(policy: FreshnessPolicy, current: Option<QuoteVersion>, quote: OddsQuote, observed: Instant) {
    var verdict := Judge(policy, current, quote, observed);
    verdict.Added? || verdict.Updated?
  }

  function NextVersion(current: Option<QuoteVersion>, quote: OddsQuote, observed: Instant): QuoteVersion {
    QuoteVersion(KeyOf(quote), if current.None? then 1 else current.value.revision + 1, quote, observed)
  }

  /** The result of applying quotes one after the other. */
  datatype Batch = Batch(
    live: LiveState,
    accepted: seq<QuoteVersion>,
    diagnostics: seq<Diagnostic>,
    added: nat,
    updated: nat,
    duplicate: nat,
    rejected: nat)

  /** The diagnostics one quote causes. */
  function NotesFor(verdict: Verdict, quote: OddsQuote, observed: Instant): seq<Diagnostic> {
    var key := KeyOf(quote);
    if verdict == Rejected(FutureIngestion) || verdict == Rejected(ClockSkewExceeded) then
      [Diagnostic(verdict.code, key)]
    else
      (if quote.Effective() > observed then [Diagnostic(ClockSkewDetected, key)] else []) +
      (match verdict
       case Rejected(code) => [Diagnostic(code, key)]
       case Repeated => [Diagnostic(DuplicateQuote, key)]
       case _ => [])
  }

  function Tally(batch: Batch, verdict: Verdict): Batch {
    match verdict
    case Added => batch.(added := batch.added + 1)
    case Updated => batch.(updated := batch.updated + 1)
    case Repeated => batch.(duplicate := batch.duplicate + 1)
    case Rejected(_) => batch.(rejected := batch.rejected + 1)
  }

  function ApplyOne(policy: FreshnessPolicy, batch: Batch, quote: OddsQuote, observed: Instant): Batch {
    var current := Lookup(batch.live, KeyOf(quote));
    var verdict := Judge(policy, current, quote, observed);
    var counted := Tally(batch, verdict).(diagnostics := batch.diagnostics + NotesFor(verdict, quote, observed));
    if verdict.Added? || verdict.Updated? then
      var version := NextVersion(current, quote, observed);
      counted.(live := batch.live[KeyOf(quote) := version], accepted := batch.accepted + [version])
    else
      counted
  }

  function ApplyAll(policy: FreshnessPolicy, live: LiveState, quotes: seq<OddsQuote>, observed: Instant): Batch {
    if |quotes| == 0 then Batch(live, [], [], 0, 0, 0, 0)
    else
      var n := |quotes| - 1;
      ApplyOne(policy, ApplyAll(policy, live, quotes[..n], observed), quotes[n], observed)
  }

  /** Whatever quotes a batch holds, every version stays under its own key. */
  lemma {:induction false} ApplyAllConsistent(policy: FreshnessPolicy, live: LiveState, quotes: seq<OddsQuote>,
                                              observed: Instant)
    requires Consistent(live)
    ensures Consistent(ApplyAll(policy, live, quotes, observed).live)
  {
    if |quotes| > 0 {
      ApplyAllConsistent(policy, live, quotes[..|quotes| - 1], observed);
    }
  }

  // ----- Freshness and eviction

  predicate Fresh(policy: FreshnessPolicy, quote: OddsQuote, asOf: Instant) {
    && quote.status == Active
    && quote.ingestedAt <= asOf
    && 0 <= asOf - quote.Effective() <= policy.window
  }

  predicate StaleAt(policy: FreshnessPolicy, quote: OddsQuote, asOf: Instant) {
    asOf - quote.Effective() > policy.window
  }

  predicate Evictable(policy: FreshnessPolicy, quote: OddsQuote, asOf: Instant) {
    quote.status != Active || StaleAt(policy, quote, asOf)
  }

  function FreshAt(policy: FreshnessPolicy, asOf: Instant): OddsQuote -> bool {
    (quote: OddsQuote) => Fresh(policy, quote, asOf)
  }

  function EvictableAt(policy: FreshnessPolicy, asOf: Instant): OddsQuote -> bool {
    (quote: OddsQuote) => Evictable(policy, quote, asOf)
  }

  function Kept(policy: FreshnessPolicy, live: LiveState, asOf: Instant): LiveState {
    map key | key in live && !Evictable(policy, live[key].quote, asOf) :: live[key]
  }

  /** `versions` lists, in slot order, exactly the versions of `live` that satisfy `wanted`. */
  ghost predicate Lists(versions: seq<QuoteVersion>, live: LiveState, wanted: OddsQuote -> bool) {
    && StrictlySortedBy(versions, BySlot)
    && forall v :: v in versions <==> exists key :: key in live && live[key] == v && wanted(v.quote)
  }

  // ----- The same, by the fields of the quotes

  /** The version that is stored for the quote's bookmaker and selection. */
  ghost function StoredFor(live: LiveState, quote: OddsQuote): Option<QuoteVersion> {
    var key := QuoteKey(quote.provider, quote.event, quote.market, quote.selection);
    if key in live then Some(live[key]) else None
  }

  /** Neither ingested nor seen too far in the future. */
  ghost predicate OnTime(policy: FreshnessPolicy, quote: OddsQuote, observed: Instant) {
    quote.ingestedAt <= observed && quote.Effective() <= observed + policy.tolerance
  }

  /** `newer` tells nothing that `older` does not: same price, status, source ids and instant. */
  ghost predicate TellsNothingNew(older: OddsQuote, newer: OddsQuote) {
    && newer.price == older.price && newer.status == older.status
    && newer.sourceEvent == older.sourceEvent && newer.sourceMarket == older.sourceMarket
    && newer.sourceSelection == older.sourceSelection && newer.Effective() == older.Effective()
  }

  /** `newer` is too old: by more than the tolerance, or at all without being ingested later. */
  ghost predicate ComesLate(policy: FreshnessPolicy, older: OddsQuote, newer: OddsQuote) {
    || newer.Effective() < older.Effective() - policy.tolerance
    || (newer.Effective() < older.Effective() && newer.ingestedAt <= older.ingestedAt)
  }

  /** When each verdict is given. */
  ghost predicate Decides(verdict: Verdict, policy: FreshnessPolicy, live: LiveState, quote: OddsQuote,
                          observed: Instant)
  {
    var stored := StoredFor(live, quote);
    match verdict
    case Added => OnTime(policy, quote, observed) && stored.None?
    case Updated => OnTime(policy, quote, observed) && stored.Some? && !TellsNothingNew(stored.value.quote, quote)
                    && !ComesLate(policy, stored.value.quote, quote)
    case Repeated => OnTime(policy, quote, observed) && stored.Some? && TellsNothingNew(stored.value.quote, quote)
    case Rejected(code) =>
      if code == FutureIngestion then quote.ingestedAt > observed
      else if code == ClockSkewExceeded then
        quote.ingestedAt <= observed && quote.Effective() > observed + policy.tolerance
      else
        && code == OutOfOrder && OnTime(policy, quote, observed) && stored.Some?
        && ComesLate(policy, stored.value.quote, quote)
  }

  /** The state after a verdict: an added or updated quote is held with the next revision, nothing else changes. */
  ghost predicate Follows(after: LiveState, verdict: Verdict, before: LiveState, quote: OddsQuote, observed: Instant) {
    var key := QuoteKey(quote.provider, quote.event, quote.market, quote.selection);
    if verdict.Added? || verdict.Updated? then
      after == before[key := QuoteVersion(key, if key in before then before[key].revision + 1 else 1, quote, observed)]
    else after == before
  }

  /** What a verdict is reported with: a slight skew of a timely quote, and why it is not held. */
  ghost predicate IsNoted(item: Diagnostic, verdict: Verdict, policy: FreshnessPolicy, quote: OddsQuote,
                          observed: Instant)
  {
    && item.key == QuoteKey(quote.provider, quote.event, quote.market, quote.selection)
    && match item.code
       case ClockSkewDetected => OnTime(policy, quote, observed) && quote.Effective() > observed
       case DuplicateQuote => verdict == Repeated
       case code => verdict == Rejected(code)
  }

  ghost predicate Notes(notes: seq<Diagnostic>, verdict: Verdict, policy: FreshnessPolicy, quote: OddsQuote,
                        observed: Instant)
  {
    && Distinct(notes)
    && forall item :: item in notes <==> IsNoted(item, verdict, policy, quote, observed)
  }

  /** Every quote gets the verdict its fields ask for, and the state and the report follow. */
  lemma JudgeMeans(policy: FreshnessPolicy, live: LiveState, quote: OddsQuote, observed: Instant)
    requires Consistent(live)
    ensures var current := Lookup(live, KeyOf(quote));
      var verdict := Judge(policy, current, quote, observed);
      && (forall v :: verdict == v <==> Decides(v, policy, live, quote, observed))
      && Follows(if verdict.Added? || verdict.Updated?
                 then live[KeyOf(quote) := NextVersion(current, quote, observed)] else live,
                 verdict, live, quote, observed)
  {
  }

  lemma NotesMean(policy: FreshnessPolicy, live: LiveState, quote: OddsQuote, observed: Instant, verdict: Verdict)
    requires Decides(verdict, policy, live, quote, observed)
    ensures Notes(NotesFor(verdict, quote, observed), verdict, policy, quote, observed)
  {
  }

  /** Active, neither ingested nor seen after `asOf`, and seen within the window. */
  ghost predicate MayBeUsed(quote: OddsQuote, policy: FreshnessPolicy, asOf: Instant) {
    && quote.status == Active && quote.ingestedAt <= asOf
    && quote.Effective() <= asOf <= quote.Effective() + policy.window
  }

  /** Not active, or seen before the window. */
  ghost predicate MustGo(quote: OddsQuote, policy: FreshnessPolicy, asOf: Instant) {
    quote.status != Active || quote.Effective() + policy.window < asOf
  }

  ghost predicate SaysWhyGone(item: Diagnostic, version: QuoteVersion) {
    && item.key == version.key
    && item.code == if version.quote.status != Active then InactiveEvicted else StaleEvicted
  }

  lemma FreshMeans(policy: FreshnessPolicy, asOf: Instant)
    ensures forall quote :: FreshAt(policy, asOf)(quote) <==> MayBeUsed(quote, policy, asOf)
  {
  }

  lemma EvictableMeans(policy: FreshnessPolicy, asOf: Instant)
    ensures forall quote :: EvictableAt(policy, asOf)(quote) <==> MustGo(quote, policy, asOf)
    ensures forall quote :: Evictable(policy, quote, asOf) <==> MustGo(quote, policy, asOf)
  {
  }

  /** Strictly by event, market, selection and bookmaker. */
  ghost predicate InSlotOrder(versions: seq<QuoteVersion>) {
    forall i, j :: 0 <= i < j < |versions| ==> var a, b := versions[i].key, versions[j].key;
      KeyLess([a.event, a.market, a.selection, a.provider], [b.event, b.market, b.selection, b.provider])
  }

  lemma ListsMean(versions: seq<QuoteVersion>, live: LiveState, wanted: OddsQuote -> bool)
    requires Lists(versions, live, wanted)
    ensures InSlotOrder(versions)
    ensures forall v :: v in versions <==> v in live.Values && wanted(v.quote)
  {
    hide KeyLess;
  }

  /** What one quote of a batch did: its verdict, the state it left and the notes about it. */
  datatype Turn = Turn(verdict: Verdict, live: LiveState, notes: seq<Diagnostic>)

  function LiveBefore(live: LiveState, turns: seq<Turn>, i: nat): LiveState
    requires i <= |turns|
  {
    if i == 0 then live else turns[i - 1].live
  }

  /** The quotes take their turns one after the other. */
  ghost predicate TakeTurns(turns: seq<Turn>, policy: FreshnessPolicy, live: LiveState, quotes: seq<OddsQuote>,
                            observed: Instant)
  {
    && |turns| == |quotes|
    && forall i :: 0 <= i < |quotes| ==> IsTurn(turns[i], policy, LiveBefore(live, turns, i), quotes[i], observed)
  }

  ghost predicate IsTurn(turn: Turn, policy: FreshnessPolicy, before: LiveState, quote: OddsQuote, observed: Instant) {
    && Decides(turn.verdict, policy, before, quote, observed)
    && Follows(turn.live, turn.verdict, before, quote, observed)
    && Notes(turn.notes, turn.verdict, policy, quote, observed)
  }

  function VerdictsOf(turns: seq<Turn>): seq<Verdict> {
    seq(|turns|, i requires 0 <= i < |turns| => turns[i].verdict)
  }

  function AllNotes(turns: seq<Turn>): seq<Diagnostic> {
    if |turns| == 0 then [] else AllNotes(turns[..|turns| - 1]) + turns[|turns| - 1].notes
  }

  /** The versions that were newly held, in turn. */
  function NewlyHeld(turns: seq<Turn>, quotes: seq<OddsQuote>): seq<QuoteVersion>
    requires |turns| == |quotes|
  {
    if |turns| == 0 then []
    else
      var n := |turns| - 1;
      var turn, key := turns[n], QuoteKey(quotes[n].provider, quotes[n].event, quotes[n].market, quotes[n].selection);
      NewlyHeld(turns[..n], quotes[..n])
      + if (turn.verdict.Added? || turn.verdict.Updated?) && key in turn.live then [turn.live[key]] else []
  }

  /** The report of a batch adds its turns up. */
  ghost predicate AddsUp(batch: Batch, turns: seq<Turn>, live: LiveState, quotes: seq<OddsQuote>) {
    var verdicts := multiset(VerdictsOf(turns));
    && |turns| == |quotes|
    && batch.live == LiveBefore(live, turns, |turns|)
    && batch.diagnostics == AllNotes(turns) && batch.accepted == NewlyHeld(turns, quotes)
    && batch.added == verdicts[Added] && batch.updated == verdicts[Updated] && batch.duplicate == verdicts[Repeated]
    && batch.added + batch.updated + batch.duplicate + batch.rejected == |quotes|
  }

  lemma NoTurns(policy: FreshnessPolicy, live: LiveState, observed: Instant)
    ensures TakeTurns([], policy, live, [], observed) && AddsUp(ApplyAll(policy, live, [], observed), [], live, [])
  {
  }

  lemma OneMoreTurn(turns: seq<Turn>, turn: Turn, policy: FreshnessPolicy, live: LiveState, quotes: seq<OddsQuote>,
                    quote: OddsQuote, observed: Instant)
    requires TakeTurns(turns, policy, live, quotes, observed)
    requires IsTurn(turn, policy, LiveBefore(live, turns, |turns|), quote, observed)
    ensures TakeTurns(turns + [turn], policy, live, quotes + [quote], observed)
  {
    hide IsTurn;
    forall i | 0 <= i <= |quotes|
      ensures IsTurn((turns + [turn])[i], policy, LiveBefore(live, turns + [turn], i), (quotes + [quote])[i], observed)
    {
      assert i > 0 ==> (turns + [turn])[i - 1] == turns[i - 1];
    }
  }

  /** One more turn adds its verdict, its notes and the version it leaves. */
  lemma OneMoreAddsUp(batch: Batch, turns: seq<Turn>, turn: Turn, policy: FreshnessPolicy, live: LiveState,
                      quotes: seq<OddsQuote>, quote: OddsQuote, observed: Instant)
    requires AddsUp(batch, turns, live, quotes)
    requires var current := Lookup(batch.live, KeyOf(quote));
      var verdict := Judge(policy, current, quote, observed);
      && turn.verdict == verdict && turn.notes == NotesFor(verdict, quote, observed)
      && turn.live == (if verdict.Added? || verdict.Updated?
                       then batch.live[KeyOf(quote) := NextVersion(current, quote, observed)] else batch.live)
    ensures AddsUp(ApplyOne(policy, batch, quote, observed), turns + [turn], live, quotes + [quote])
  {
    hide Judge, NotesFor, NextVersion, AllNotes, NewlyHeld, VerdictsOf;
    var longer := turns + [turn];
    OneMoreListed(turns, turn, quotes, quote);
    assert LiveBefore(live, longer, |longer|) == turn.live;
  }

  lemma OneMoreListed(turns: seq<Turn>, turn: Turn, quotes: seq<OddsQuote>, quote: OddsQuote)
    requires |turns| == |quotes|
    ensures VerdictsOf(turns + [turn]) == VerdictsOf(turns) + [turn.verdict]
    ensures AllNotes(turns + [turn]) == AllNotes(turns) + turn.notes
    ensures NewlyHeld(turns + [turn], quotes + [quote])
            == NewlyHeld(turns, quotes)
               + if (turn.verdict.Added? || turn.verdict.Updated?) && KeyOf(quote) in turn.live
                 then [turn.live[KeyOf(quote)]] else []
  {
    var longer := turns + [turn];
    assert longer[..|turns|] == turns && (quotes + [quote])[..|turns|] == quotes;
    assert VerdictsOf(longer) == VerdictsOf(turns) + [turn.verdict];
  }

  lemma {:induction false} BatchMeans(policy: FreshnessPolicy, live: LiveState, quotes: seq<OddsQuote>,
                                      observed: Instant)
    returns (turns: seq<Turn>)
    requires Consistent(live)
    ensures TakeTurns(turns, policy, live, quotes, observed)
    ensures AddsUp(ApplyAll(policy, live, quotes, observed), turns, live, quotes)
  {
    hide TakeTurns, AddsUp, Decides, Follows, Notes, Judge, NotesFor, NextVersion, Consistent, ApplyOne;
    if |quotes| == 0 {
      turns := [];
      NoTurns(policy, live, observed);
      assert quotes == [];
    } else {
      var n := |quotes| - 1;
      var quote, batch := quotes[n], ApplyAll(policy, live, quotes[..n], observed);
      var earlier := BatchMeans(policy, live, quotes[..n], observed);
      ApplyAllConsistent(policy, live, quotes[..n], observed);
      var current := Lookup(batch.live, KeyOf(quote));
      var verdict := Judge(policy, current, quote, observed);
      var after := if verdict.Added? || verdict.Updated?
                   then batch.live[KeyOf(quote) := NextVersion(current, quote, observed)] else batch.live;
      var turn := Turn(verdict, after, NotesFor(verdict, quote, observed));
      JudgeMeans(policy, batch.live, quote, observed);
      NotesMean(policy, batch.live, quote, observed, verdict);
      BatchEnds(batch, earlier, live, quotes[..n]);
      OneMoreTurn(earlier, turn, policy, live, quotes[..n], quote, observed);
      OneMoreAddsUp(batch, earlier, turn, policy, live, quotes[..n], quote, observed);
      turns := earlier + [turn];
      assert quotes == quotes[..n] + [quote];
    }
  }

  lemma BatchEnds(batch: Batch, turns: seq<Turn>, live: LiveState, quotes: seq<OddsQuote>)
    requires AddsUp(batch, turns, live, quotes)
    ensures batch.live == LiveBefore(live, turns, |turns|) && |turns| == |quotes|
    ensures batch.accepted == NewlyHeld(turns, quotes)
  {
  }

  /** The same quotes by bookmaker, event, market, selection, instant seen, ingestion and id. */
  ghost predicate InArrivalOrder(ordered: seq<OddsQuote>, quotes: seq<OddsQuote>) {
    && multiset(ordered) == multiset(quotes)
    && forall i, j :: 0 <= i < j < |ordered| ==> var a, b := ordered[i], ordered[j];
      !KeyLess([b.provider, b.event, b.market, b.selection, b.Effective(), b.ingestedAt, b.id],
               [a.provider, a.event, a.market, a.selection, a.Effective(), a.ingestedAt, a.id])
  }

  lemma ArrivalOrder(quotes: seq<OddsQuote>)
    ensures InArrivalOrder(SortBy(quotes, ByArrival), quotes)
  {
    hide KeyLess;
    SortBySorts(quotes, ByArrival);
  }

  // ----- The store

  datatype ApplyResult = ApplyResult(
    accepted: seq<QuoteVersion>,
    diagnostics: seq<Diagnostic>,
    added: nat,
    updated: nat,
    duplicate: nat,
    rejected: nat)

  function Report(batch: Batch): ApplyResult {
    ApplyResult(batch.accepted, SortBy(batch.diagnostics, ByProviderAndCode),
                batch.added, batch.updated, batch.duplicate, batch.rejected)
  }

  function StoreApply(policy: FreshnessPolicy, live: LiveState, quotes: seq<OddsQuote>, observed: Instant): Batch {
    ApplyAll(policy, live, SortBy(quotes, ByArrival), observed)
  }

  class LiveQuoteStore {
    const policy: FreshnessPolicy
    var current: LiveState

    constructor (policy: FreshnessPolicy)
      ensures this.policy == policy && current == map[] && Consistent(current)
    {
      this.policy := policy;
      current := map[];
    }

    /** A store that continues from a given state. */
    constructor Resume(policy: FreshnessPolicy, live: LiveState)
      ensures this.policy == policy && current == live
    {
      this.policy := policy;
      current := live;
    }

    /** The body of the batch loop: what one quote does to the current state. */
    method Offer(quote: OddsQuote, observed: Instant)
      returns (verdict: Verdict, notes: seq<Diagnostic>, accept: Option<QuoteVersion>)
      modifies this`current
      ensures verdict == Judge(policy, Lookup(old(current), KeyOf(quote)), quote, observed)
      ensures notes == NotesFor(verdict, quote, observed)
      ensures accept == if verdict.Added? || verdict.Updated?
                        then Some(NextVersion(Lookup(old(current), KeyOf(quote)), quote, observed)) else None
      ensures current == if accept.Some? then old(current)[KeyOf(quote) := accept.value] else old(current)
      ensures Consistent(old(current)) ==>
                && (forall v :: verdict == v <==> Decides(v, policy, old(current), quote, observed))
                && Follows(current, verdict, old(current), quote, observed)
                && Notes(notes, verdict, policy, quote, observed)
    {
      hide Decides, Follows, Notes, Consistent;
      if Consistent(current) {
        JudgeMeans(policy, current, quote, observed);
        NotesMean(policy, current, quote, observed, Judge(policy, Lookup(current, KeyOf(quote)), quote, observed));
      }
      notes, accept := [], None;
      var key := KeyOf(quote);
      var effective := quote.Effective();
      if quote.ingestedAt > observed {
        return Rejected(FutureIngestion), [Diagnostic(FutureIngestion, key)], None;
      }
      var futureDelta := effective - observed;
      if futureDelta > policy.tolerance {
        return Rejected(ClockSkewExceeded), [Diagnostic(ClockSkewExceeded, key)], None;
      }
      if futureDelta > 0 {
        notes := notes + [Diagnostic(ClockSkewDetected, key)];
      }
      var revision := 1;
      if key in current {
        var version := current[key];
        if version.quote.Effective() - effective > policy.tolerance {
          return Rejected(OutOfOrder), notes + [Diagnostic(OutOfOrder, key)], None;
        }
        if FingerprintOf(version.quote) == FingerprintOf(quote) {
          return Repeated, notes + [Diagnostic(DuplicateQuote, key)], None;
        }
        if effective < version.quote.Effective() && quote.ingestedAt <= version.quote.ingestedAt {
          return Rejected(OutOfOrder), notes + [Diagnostic(OutOfOrder, key)], None;
        }
        revision := version.revision + 1;
        verdict := Updated;
      } else {
        verdict := Added;
      }
      accept := Some(QuoteVersion(key, revision, quote, observed));
      current := current[key := accept.value];
    }

    method Apply(quotes: seq<OddsQuote>, observed: Instant) returns (r: ApplyResult, ghost batch: Batch)
      requires Consistent(current)
      modifies this`current
      ensures batch == StoreApply(policy, old(current), quotes, observed)
      ensures current == batch.live && r == Report(batch) && Consistent(current)
      ensures exists ordered, turns :: InArrivalOrder(ordered, quotes)
                && TakeTurns(turns, policy, old(current), ordered, observed)
                && AddsUp(batch, turns, old(current), ordered)
    {
      hide Decides, Follows, Notes, InArrivalOrder, TakeTurns, AddsUp, Judge, NotesFor, NextVersion, SortBy,
        Consistent, Lookup, KeyOf;
      var accepted: seq<QuoteVersion>, diagnostics: seq<Diagnostic> := [], [];
      var added: nat, updated: nat, duplicate: nat, rejected: nat := 0, 0, 0, 0;
      var ordered := SortBy(quotes, ByArrival);
      for i := 0 to |ordered|
        invariant Batch(current, accepted, diagnostics, added, updated, duplicate, rejected)
                  == ApplyAll(policy, old(current), ordered[..i], observed)
      {
        assert ordered[..i + 1][..i] == ordered[..i];
        var verdict, notes, accept := Offer(ordered[i], observed);
        diagnostics := diagnostics + notes;
        match verdict {
          case Added => added := added + 1;
          case Updated => updated := updated + 1;
          case Repeated => duplicate := duplicate + 1;
          case Rejected(_) => rejected := rejected + 1;
        }
        if accept.Some? {
          accepted := accepted + [accept.value];
        }
      }
      assert ordered[..|ordered|] == ordered;
      ApplyAllConsistent(policy, old(current), ordered, observed);
      ArrivalOrder(quotes);
      ghost var turns := BatchMeans(policy, old(current), ordered, observed);
      batch := StoreApply(policy, old(current), quotes, observed);
      r := ApplyResult(accepted, SortBy(diagnostics, ByProviderAndCode), added, updated, duplicate, rejected);
    }

    method FreshVersions(asOf: Instant) returns (r: seq<QuoteVersion>)
      requires Consistent(current)
      ensures Lists(r, current, FreshAt(policy, asOf))
      ensures InSlotOrder(r)
      ensures forall v :: v in r <==> v in current.Values && MayBeUsed(v.quote, policy, asOf)
    {
      hide InSlotOrder, MayBeUsed;
      r := Select(current, FreshAt(policy, asOf));
      FreshMeans(policy, asOf);
      ListsMean(r, current, FreshAt(policy, asOf));
    }

    method FreshQuotes(asOf: Instant) returns (r: seq<OddsQuote>)
      requires Consistent(current)
      ensures exists versions :: Lists(versions, current, FreshAt(policy, asOf))
                                 && r == Quotes(versions)
    {
      var versions := FreshVersions(asOf);
      r := Quotes(versions);
    }

    method EvictStale(asOf: Instant) returns (evicted: seq<QuoteVersion>, diagnostics: seq<Diagnostic>)
      requires Consistent(current)
      modifies this`current
      ensures current == Kept(policy, old(current), asOf) && Consistent(current)
      ensures Lists(evicted, old(current), EvictableAt(policy, asOf))
      ensures SortedBy(diagnostics, ByProviderAndCode)
      ensures multiset(diagnostics) == multiset(EvictionNotes(evicted))
      ensures InSlotOrder(evicted)
      ensures forall v :: v in evicted <==> v in old(current).Values && MustGo(v.quote, policy, asOf)
      ensures forall key :: key in current <==> key in old(current) && !MustGo(old(current)[key].quote, policy, asOf)
      ensures forall key :: key in current ==> current[key] == old(current)[key]
      ensures |diagnostics| == |evicted|
      ensures forall item :: item in diagnostics <==> exists v :: v in evicted && SaysWhyGone(item, v)
    {
      hide InSlotOrder, MustGo, Evictable, SortBy, Lists, BySlot;
      EvictableMeans(policy, asOf);
      evicted := Select(current, EvictableAt(policy, asOf));
      ListsMean(evicted, current, EvictableAt(policy, asOf));
      var keys := current.Keys;
      var kept: LiveState := map[];
      while keys != {}
        invariant keys <= current.Keys
        invariant kept == map key | key in current && key !in keys && !Evictable(policy, current[key].quote, asOf) ::
          current[key]
        decreases keys
      {
        var key :| key in keys;
        if !Evictable(policy, current[key].quote, asOf) {
          kept := kept[key := current[key]];
        }
        keys := keys - {key};
      }
      current := kept;
      diagnostics := SortBy(EvictionNotes(evicted), ByProviderAndCode);
      SortBySorts(EvictionNotes(evicted), ByProviderAndCode);
      SortByMembers(EvictionNotes(evicted), ByProviderAndCode);
      EvictionNotesMean(evicted);
    }
  }

  function Quotes(versions: seq<QuoteVersion>): seq<OddsQuote> {
    seq(|versions|, i requires 0 <= i < |versions| => versions[i].quote)
  }

  function EvictionNote(version: QuoteVersion): Diagnostic {
    Diagnostic(if version.quote.status != Active then InactiveEvicted else StaleEvicted, version.key)
  }

  function EvictionNotes(evicted: seq<QuoteVersion>): seq<Diagnostic> {
    seq(|evicted|, i requires 0 <= i < |evicted| => EvictionNote(evicted[i]))
  }

  lemma EvictionNotesMean(evicted: seq<QuoteVersion>)
    ensures forall item :: item in EvictionNotes(evicted) <==> exists v :: v in evicted && SaysWhyGone(item, v)
  {
    forall item
      ensures item in EvictionNotes(evicted) <==> exists v :: v in evicted && item == EvictionNote(v)
    {
      if v :| v in evicted && item == EvictionNote(v) {
        var i :| 0 <= i < |evicted| && evicted[i] == v;
        assert EvictionNotes(evicted)[i] == item;
      }
      if i :| 0 <= i < |evicted| && EvictionNotes(evicted)[i] == item {
        assert evicted[i] in evicted;
      }
    }
  }

  /** Collects the wanted versions and sorts them by slot. */
  method Select(live: LiveState, wanted: OddsQuote -> bool) returns (r: seq<QuoteVersion>)
    requires Consistent(live)
    ensures Lists(r, live, wanted)
  {
    var keys := live.Keys;
    var values: seq<QuoteVersion> := [];
    while keys != {}
      invariant keys <= live.Keys
      invariant forall v :: v in values <==> exists key :: key in live && key !in keys && live[key] == v
                                                           && wanted(v.quote)
      invariant DistinctKeys(values, BySlot)
      decreases keys
    {
      var key :| key in keys;
      if wanted(live[key].quote) {
        SlotUnseen(live, values, key);
        values := values + [live[key]];
      }
      keys := keys - {key};
    }
    r := SortBy(values, BySlot);
    SortByStrict(values, BySlot);
    SortByMembers(values, BySlot);
  }

  lemma SlotUnseen(live: LiveState, values: seq<QuoteVersion>, key: QuoteKey)
    requires Consistent(live) && key in live
    requires forall v :: v in values ==> exists other :: other in live && other != key && live[other] == v
    ensures forall i :: 0 <= i < |values| ==> BySlot(values[i]) != BySlot(live[key])
  {
    forall i | 0 <= i < |values|
      ensures BySlot(values[i]) != BySlot(live[key])
    {
      assert values[i] in values;
      var other :| other in live && other != key && live[other] == values[i];
      var a, b := BySlot(values[i]), BySlot(live[key]);
      assert a[0] == other.event && a[1] == other.market && a[2] == other.selection && a[3] == other.provider;
      assert b[0] == key.event && b[1] == key.market && b[2] == key.selection && b[3] == key.provider;
    }
  }
}
