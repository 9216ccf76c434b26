/**
  Opportunity intervals of a replay. The replay keeps one open interval per market that
  was an arbitrage at the last detection instant; the emitted intervals are shown to be
  exactly the maximal runs of such instants.
 */
module Intervals {
  import opened Wrappers
  import opened Reals
  import opened Ordering
  import opened Collections
  import opened Domain
  import opened ArbitrageMath
  import opened Lifecycle

  datatype Detection = Detection(
    opportunity: Opportunity,
    evaluation: ArbitrageEvaluation,
    lifecycle: Option<LifecycleEvaluation>)
  {
    function Margin(): real { evaluation.margin }
    function Event(): Id { evaluation.event }
    predicate IsActionable() { lifecycle.Some? && lifecycle.value.state == Actionable }
  }

  /** The detections of one instant, by market. */
  type Row = map<Id, Detection>

  datatype OpenInterval = OpenInterval(
    event: Id, market: Id, start: Instant, lastDetected: Instant,
    count: nat, maxMargin: real, everActionable: bool)

  datatype Interval = Interval(
    event: Id, market: Id, start: Instant, end: Instant,
    count: nat, maxMargin: real, everActionable: bool, closedByEnd: bool)

  function Opened(market: Id, detection: Detection, now: Instant): OpenInterval {
    OpenInterval(detection.Event(), market, now, now, 1, detection.Margin(), detection.IsActionable())
  }

  function Extended(state: OpenInterval, detection: Detection, now: Instant): OpenInterval {
    state.(lastDetected := now,
           count := state.count + 1,
           maxMargin := Max(state.maxMargin, detection.Margin()),
           everActionable := state.everActionable || detection.IsActionable())
  }

  function Closed(state: OpenInterval, end: Instant, closedByEnd: bool): Interval {
    Interval(state.event, state.market, state.start, end, state.count, state.maxMargin,
             state.everActionable, closedByEnd)
  }

  function ByStart(interval: Interval): Key { [interval.start, interval.event, interval.market] }

  // ----- Runs of detections

  /** The detections of every instant so far, with the instants in ascending order. */
  datatype History = History(times: seq<Instant>, rows: seq<Row>) {
    predicate Valid() {
      |times| == |rows| && forall i, j :: 0 <= i < j < |times| ==> times[i] < times[j]
    }

    predicate On(market: Id, k: int) {
      0 <= k < |rows| && market in rows[k]
    }

    function At(market: Id, k: int): Detection
      requires On(market, k)
    {
      rows[k][market]
    }
  }

  /** Where the run that includes instant `k` began. */
  function RunStart(h: History, market: Id, k: nat): (r: nat)
    requires h.On(market, k)
    ensures r <= k && forall i :: r <= i <= k ==> h.On(market, i)
    ensures !h.On(market, r - 1)
  {
    if h.On(market, k - 1) then RunStart(h, market, k - 1) else k
  }

  /** What has been accumulated for the market after instant `k`. */
  function RunState(h: History, market: Id, k: nat): OpenInterval
    requires h.Valid() && h.On(market, k)
  {
    if h.On(market, k - 1) then Extended(RunState(h, market, k - 1), h.rows[k][market], h.times[k])
    else Opened(market, h.rows[k][market], h.times[k])
  }

  /** The market is an arbitrage at exactly the instants from `first` to `last`, and not just outside. */
  ghost predicate MaximalRun(h: History, market: Id, first: nat, last: nat) {
    && first <= last && h.On(market, first) && h.On(market, last)
    && (forall i :: first <= i <= last ==> h.On(market, i))
    && !h.On(market, first - 1) && !h.On(market, last + 1)
  }

  predicate WasActionable(detection: Detection) {
    match detection.lifecycle
    case Some(result) => result.state == Actionable
    case None => false
  }

  /** `state` has accumulated the detections from `first` to `last`. */
  ghost predicate Accumulated(state: OpenInterval, h: History, market: Id, first: nat, last: nat)
    requires h.Valid() && h.On(market, first) && h.On(market, last)
  {
    && state.market == market && state.event == h.At(market, first).evaluation.event
    && state.start == h.times[first] && state.lastDetected == h.times[last]
    && state.count == last - first + 1
    && (forall i :: first <= i <= last && h.On(market, i) ==> h.At(market, i).evaluation.margin <= state.maxMargin)
    && (exists i :: first <= i <= last && h.On(market, i) && h.At(market, i).evaluation.margin == state.maxMargin)
    && (state.everActionable <==> exists i :: first <= i <= last && h.On(market, i) && WasActionable(h.At(market, i)))
  }

  lemma OpenedAccumulates(h: History, market: Id, k: nat)
    requires h.Valid() && h.On(market, k)
    ensures Accumulated(Opened(market, h.At(market, k), h.times[k]), h, market, k, k)
  {
    assert h.At(market, k).evaluation.margin == Opened(market, h.At(market, k), h.times[k]).maxMargin;
  }

  lemma ExtendedAccumulates(h: History, market: Id, state: OpenInterval, first: nat, k: nat)
    requires h.Valid() && first < k && h.On(market, first) && h.On(market, k - 1) && h.On(market, k)
    requires Accumulated(state, h, market, first, k - 1)
    ensures Accumulated(Extended(state, h.At(market, k), h.times[k]), h, market, first, k)
  {
    var i :| first <= i <= k - 1 && h.On(market, i) && h.At(market, i).evaluation.margin == state.maxMargin;
    var extended := Extended(state, h.At(market, k), h.times[k]);
    assert extended.maxMargin == h.At(market, i).evaluation.margin
           || extended.maxMargin == h.At(market, k).evaluation.margin;
  }

  lemma {:induction false} RunAccumulates(h: History, market: Id, k: nat)
    requires h.Valid() && h.On(market, k)
    ensures Accumulated(RunState(h, market, k), h, market, RunStart(h, market, k), k)
  {
    hide Accumulated, Opened, Extended;
    if h.On(market, k - 1) {
      RunAccumulates(h, market, k - 1);
      ExtendedAccumulates(h, market, RunState(h, market, k - 1), RunStart(h, market, k - 1), k);
    } else {
      OpenedAccumulates(h, market, k);
    }
  }

  // ----- The loop state

  /** The interval of a run that ended just before instant `k`. */
  function EndedAt(h: History, market: Id, k: int): Interval
    requires h.Valid() && 0 < k < |h.rows| && h.On(market, k - 1)
  {
    Closed(RunState(h, market, k - 1), h.times[k], false)
  }

  ghost predicate Ends(h: History, market: Id, k: int) {
    0 < k < |h.rows| && h.On(market, k - 1) && !h.On(market, k)
  }

  /** The markets of the last instant are open, each with what its run accumulated. */
  ghost predicate TracksOpen(open: map<Id, OpenInterval>, h: History)
    requires h.Valid()
  {
    var n := |h.rows|;
    && open.Keys == (if n == 0 then {} else h.rows[n - 1].Keys)
    && forall m :: m in open ==> open[m] == RunState(h, m, n - 1)
  }

  /** The closed intervals are those of the runs that have ended. */
  ghost predicate ListsEnded(closed: seq<Interval>, h: History)
    requires h.Valid()
  {
    && (forall iv :: iv in closed <==> exists m, k :: Ends(h, m, k) && iv == EndedAt(h, m, k))
    && DistinctKeys(closed, ByStart)
  }

  // ----- Counting detections

  function Counts(open: map<Id, OpenInterval>): map<Id, int> {
    map m | m in open :: open[m].count
  }

  function CountOf(intervals: seq<Interval>): int {
    if |intervals| == 0 then 0 else CountOf(intervals[..|intervals| - 1]) + intervals[|intervals| - 1].count
  }

  function DetectionCount(rows: seq<Row>): int {
    if |rows| == 0 then 0 else DetectionCount(rows[..|rows| - 1]) + |rows[|rows| - 1]|
  }

  lemma {:induction false} CountOfConcat(xs: seq<Interval>, ys: seq<Interval>)
    ensures CountOf(xs + ys) == CountOf(xs) + CountOf(ys)
  {
    if |ys| == 0 {
      assert xs + ys == xs;
    } else {
      assert (xs + ys)[..|xs + ys| - 1] == xs + ys[..|ys| - 1];
      CountOfConcat(xs, ys[..|ys| - 1]);
    }
  }

  lemma {:induction false} CountOfInsert(xs: seq<Interval>, x: Interval)
    ensures CountOf(Insert(xs, x, ByStart)) == CountOf(xs) + x.count
  {
    var r := Insert(xs, x, ByStart);
    if |xs| == 0 || !KeyLess(ByStart(x), ByStart(xs[|xs| - 1])) {
      assert r[..|r| - 1] == xs;
    } else {
      assert r[..|r| - 1] == Insert(xs[..|xs| - 1], x, ByStart);
      CountOfInsert(xs[..|xs| - 1], x);
    }
  }

  lemma {:induction false} CountOfSorted(xs: seq<Interval>)
    ensures CountOf(SortBy(xs, ByStart)) == CountOf(xs)
  {
    if |xs| > 0 {
      CountOfSorted(xs[..|xs| - 1]);
      CountOfInsert(SortBy(xs[..|xs| - 1], ByStart), xs[|xs| - 1]);
    }
  }

  // ----- One detection instant

  ghost predicate KeepsMarkets(open: map<Id, OpenInterval>) {
    forall m :: m in open ==> open[m].market == m
  }

  function Still(open: map<Id, OpenInterval>, row: Row): map<Id, OpenInterval> {
    map m | m in open && m in row :: open[m]
  }

  /** `ended` closes, at `end`, each market of `open` that is in `chosen`. */
  ghost predicate ClosesAll(ended: seq<Interval>, open: map<Id, OpenInterval>, chosen: set<Id>, end: Instant,
                            byEnd: bool) {
    && (forall iv :: iv in ended <==> exists m :: m in open && m in chosen && iv == Closed(open[m], end, byEnd))
    && DistinctKeys(ended, ByStart)
  }

  /** Closes the open intervals of the given markets. */
  method CloseMarkets(open: map<Id, OpenInterval>, chosen: set<Id>, end: Instant, byEnd: bool)
    returns (rest: map<Id, OpenInterval>, ended: seq<Interval>)
    requires KeepsMarkets(open) && chosen <= open.Keys
    ensures rest == open - chosen
    ensures ClosesAll(ended, open, chosen, end, byEnd)
    ensures CountOf(ended) + MapSum(Counts(rest)) == MapSum(Counts(open))
  {
    hide ClosesAll, CountOf, Counts, MapSum, Closed;
    rest, ended := open, [];
    var pending := chosen;
    NothingClosed(open, end, byEnd);
    assert chosen - chosen == {};
    while pending != {}
      invariant pending <= chosen
      invariant rest == open - (chosen - pending)
      invariant ClosesAll(ended, open, chosen - pending, end, byEnd)
      invariant CountOf(ended) + MapSum(Counts(rest)) == MapSum(Counts(open))
      decreases pending
    {
      NonEmpty(pending);
      var market :| market in pending;
      CloseOne(ended, open, chosen - pending, market, end, byEnd);
      ClosingConserves(ended, rest, market, end, byEnd);
      ended := ended + [Closed(rest[market], end, byEnd)];
      rest := rest - {market};
      assert chosen - (pending - {market}) == (chosen - pending) + {market};
      pending := pending - {market};
    }
    assert chosen - {} == chosen;
  }

  lemma NothingClosed(open: map<Id, OpenInterval>, end: Instant, byEnd: bool)
    ensures ClosesAll([], open, {}, end, byEnd) && CountOf([]) == 0
  {
  }

  lemma ClosingConserves(ended: seq<Interval>, rest: map<Id, OpenInterval>, market: Id, end: Instant, byEnd: bool)
    requires market in rest
    ensures CountOf(ended + [Closed(rest[market], end, byEnd)]) + MapSum(Counts(rest - {market}))
            == CountOf(ended) + MapSum(Counts(rest))
  {
    MapSumTake(Counts(rest), market);
    assert Counts(rest - {market}) == Counts(rest) - {market};
    assert (ended + [Closed(rest[market], end, byEnd)])[..|ended|] == ended;
  }

  lemma CloseOne(ended: seq<Interval>, open: map<Id, OpenInterval>, chosen: set<Id>, market: Id, end: Instant,
                 byEnd: bool)
    requires KeepsMarkets(open) && market in open && market !in chosen
    requires ClosesAll(ended, open, chosen, end, byEnd)
    ensures ClosesAll(ended + [Closed(open[market], end, byEnd)], open, chosen + {market}, end, byEnd)
  {
    var extra := Closed(open[market], end, byEnd);
    forall i | 0 <= i < |ended|
      ensures ByStart(ended[i]) != ByStart(extra)
    {
      assert ended[i] in ended;
      assert ByStart(ended[i])[2] != ByStart(extra)[2];
    }
    var longer := ended + [extra];
    forall iv
      ensures iv in longer <==> exists m :: m in open && m in chosen + {market} && iv == Closed(open[m], end, byEnd)
    {
      assert iv in longer <==> iv in ended || iv == extra;
    }
  }

  function NextState(open: map<Id, OpenInterval>, row: Row, market: Id, now: Instant): OpenInterval
    requires market in row
  {
    if market in open then Extended(open[market], row[market], now) else Opened(market, row[market], now)
  }

  function Continued(open: map<Id, OpenInterval>, row: Row, now: Instant): map<Id, OpenInterval> {
    map m | m in row :: NextState(open, row, m, now)
  }

  /** The open intervals when the markets in `pending` have not been visited yet. */
  ghost predicate Midway(next: map<Id, OpenInterval>, open: map<Id, OpenInterval>, row: Row, now: Instant,
                         pending: set<Id>) {
    && next.Keys == open.Keys + (row.Keys - pending)
    && forall m :: m in next ==> next[m] == if m in row && m !in pending then NextState(open, row, m, now) else open[m]
  }

  /** Opens an interval for each new market and extends the others. */
  method OpenOrExtend(open: map<Id, OpenInterval>, row: Row, now: Instant) returns (next: map<Id, OpenInterval>)
    requires open.Keys <= row.Keys
    ensures next == Continued(open, row, now)
    ensures MapSum(Counts(next)) == MapSum(Counts(open)) + |row|
  {
    next := open;
    var pending := row.Keys;
    while pending != {}
      invariant pending <= row.Keys
      invariant Midway(next, open, row, now, pending)
      invariant MapSum(Counts(next)) == MapSum(Counts(open)) + |row| - |pending|
      decreases pending
    {
      NonEmpty(pending);
      var market :| market in pending;
      VisitMarket(next, open, row, now, pending, market);
      next := next[market := NextState(next, row, market, now)];
      pending := pending - {market};
    }
    AllVisited(next, open, row, now);
  }

  lemma AllVisited(next: map<Id, OpenInterval>, open: map<Id, OpenInterval>, row: Row, now: Instant)
    requires open.Keys <= row.Keys && Midway(next, open, row, now, {})
    ensures next == Continued(open, row, now)
  {
  }

  lemma VisitMarket(next: map<Id, OpenInterval>, open: map<Id, OpenInterval>, row: Row, now: Instant, pending: set<Id>,
                    market: Id)
    requires Midway(next, open, row, now, pending) && market in pending && pending <= row.Keys
    ensures Midway(next[market := NextState(next, row, market, now)], open, row, now, pending - {market})
    ensures MapSum(Counts(next[market := NextState(next, row, market, now)])) == MapSum(Counts(next)) + 1
  {
    hide Extended, Opened, Counts, MapSum;
    VisitCounts(next, row, now, market);
  }

  /** Extending an open interval, or opening one, adds one to its detections. */
  lemma VisitCounts(next: map<Id, OpenInterval>, row: Row, now: Instant, market: Id)
    requires market in row
    ensures MapSum(Counts(next[market := NextState(next, row, market, now)])) == MapSum(Counts(next)) + 1
  {
    hide MapSum;
    var state := NextState(next, row, market, now);
    MapSumPut(Counts(next), market, state.count);
    assert Counts(next[market := state]) == Counts(next)[market := state.count];
  }

  function Appended(h: History, row: Row, now: Instant): History {
    History(h.times + [now], h.rows + [row])
  }

  lemma {:induction false} RunStateKept(h: History, row: Row, now: Instant, market: Id, k: nat)
    requires h.Valid() && Appended(h, row, now).Valid() && h.On(market, k)
    ensures RunState(Appended(h, row, now), market, k) == RunState(h, market, k)
  {
    if h.On(market, k - 1) {
      RunStateKept(h, row, now, market, k - 1);
    }
  }

  lemma OpenAdvances(h: History, open: map<Id, OpenInterval>, row: Row, now: Instant)
    requires h.Valid() && Appended(h, row, now).Valid() && TracksOpen(open, h)
    ensures TracksOpen(Continued(Still(open, row), row, now), Appended(h, row, now))
  {
    var n, next := |h.rows|, Appended(h, row, now);
    forall m | m in row
      ensures Continued(Still(open, row), row, now)[m] == RunState(next, m, n)
    {
      assert next.On(m, n - 1) <==> m in open;
      if m in open {
        RunStateKept(h, row, now, m, n - 1);
      }
    }
  }

  lemma EndedAdvances(h: History, open: map<Id, OpenInterval>, row: Row, now: Instant, closed: seq<Interval>,
                      ended: seq<Interval>)
    requires h.Valid() && Appended(h, row, now).Valid() && TracksOpen(open, h) && KeepsMarkets(open)
    requires ListsEnded(closed, h) && ClosesAll(ended, open, open.Keys - row.Keys, now, false)
    ensures ListsEnded(closed + ended, Appended(h, row, now))
  {
    var n, next := |h.rows|, Appended(h, row, now);
    forall m, k | Ends(h, m, k)
      ensures Ends(next, m, k) && EndedAt(next, m, k) == EndedAt(h, m, k)
    {
      RunStateKept(h, row, now, m, k - 1);
    }
    forall m | m in open && m !in row
      ensures Ends(next, m, n) && EndedAt(next, m, n) == Closed(open[m], now, false)
    {
      RunStateKept(h, row, now, m, n - 1);
    }
    EndedMembers(h, open, row, now, closed, ended);
    EndedDistinct(h, open, row, now, closed, ended);
  }

  lemma EndedMembers(h: History, open: map<Id, OpenInterval>, row: Row, now: Instant, closed: seq<Interval>,
                     ended: seq<Interval>)
    requires h.Valid() && Appended(h, row, now).Valid() && TracksOpen(open, h)
    requires ListsEnded(closed, h) && ClosesAll(ended, open, open.Keys - row.Keys, now, false)
    requires forall m, k :: Ends(h, m, k) ==>
               Ends(Appended(h, row, now), m, k) && EndedAt(Appended(h, row, now), m, k) == EndedAt(h, m, k)
    requires forall m :: m in open && m !in row ==>
               Ends(Appended(h, row, now), m, |h.rows|)
               && EndedAt(Appended(h, row, now), m, |h.rows|) == Closed(open[m], now, false)
    ensures forall iv :: iv in closed + ended <==>
              exists m, k :: Ends(Appended(h, row, now), m, k) && iv == EndedAt(Appended(h, row, now), m, k)
  {
    hide EndedAt, Closed, RunState, KeepsMarkets;
    var n, next := |h.rows|, Appended(h, row, now);
    forall m, k | Ends(next, m, k)
      ensures EndedAt(next, m, k) in closed + ended
    {
      if k < n {
        assert Ends(h, m, k);
        assert EndedAt(h, m, k) in closed;
      } else {
        assert next.On(m, n - 1);
        assert m in open && m !in row;
        assert Closed(open[m], now, false) in ended;
      }
    }
    forall iv | iv in closed + ended
      ensures exists m, k :: Ends(next, m, k) && iv == EndedAt(next, m, k)
    {
      if iv in closed {
        var m, k :| Ends(h, m, k) && iv == EndedAt(h, m, k);
        assert Ends(next, m, k);
      } else {
        assert iv in ended;
        var m :| m in open && m in open.Keys - row.Keys && iv == Closed(open[m], now, false);
        assert Ends(next, m, n);
      }
    }
  }

  lemma EndedDistinct(h: History, open: map<Id, OpenInterval>, row: Row, now: Instant, closed: seq<Interval>,
                      ended: seq<Interval>)
    requires h.Valid() && TracksOpen(open, h) && KeepsMarkets(open)
    requires ListsEnded(closed, h) && ClosesAll(ended, open, open.Keys - row.Keys, now, false)
    ensures DistinctKeys(closed + ended, ByStart)
  {
    forall i | 0 <= i < |closed|
      ensures IsEnded(closed[i], h)
    {
      assert closed[i] in closed;
    }
    forall j | 0 <= j < |ended|
      ensures IsLast(ended[j], h)
    {
      assert ended[j] in ended;
    }
    forall i, j | 0 <= i < |closed| && 0 <= j < |ended|
      ensures ByStart(closed[i]) != ByStart(ended[j])
    {
      StartsDiffer(h, closed[i], ended[j]);
    }
  }

  ghost predicate IsEnded(iv: Interval, h: History)
    requires h.Valid()
  {
    exists m, k :: Ends(h, m, k) && iv == EndedAt(h, m, k)
  }

  /** `iv` starts where the run that includes the last instant starts. */
  ghost predicate IsLast(iv: Interval, h: History)
    requires h.Valid()
  {
    h.On(iv.market, |h.rows| - 1) && iv.start == RunState(h, iv.market, |h.rows| - 1).start
  }

  lemma StartsDiffer(h: History, earlier: Interval, later: Interval)
    requires h.Valid() && IsEnded(earlier, h) && IsLast(later, h)
    ensures ByStart(earlier) != ByStart(later)
  {
    var m, k :| Ends(h, m, k) && earlier == EndedAt(h, m, k);
    var o := later.market;
    RunAccumulates(h, m, k - 1);
    RunAccumulates(h, o, |h.rows| - 1);
    assert ByStart(earlier)[0] == earlier.start && ByStart(later)[0] == later.start;
    assert ByStart(earlier)[2] == m && ByStart(later)[2] == o;
    if m == o {
      StartsAfterEnd(h, m, k, |h.rows| - 1);
    }
  }

  /** A run that is on after the market was off at `k` started after `k`. */
  lemma StartsAfterEnd(h: History, market: Id, k: int, last: nat)
    requires h.Valid() && Ends(h, market, k) && h.On(market, last) && k <= last
    ensures RunStart(h, market, k - 1) < k < RunStart(h, market, last)
  {
    assert !h.On(market, k);
    assert RunStart(h, market, last) <= k ==> h.On(market, k);
  }

  /** Everything the interval bookkeeping maintains after each detection instant. */
  ghost predicate Tracks(open: map<Id, OpenInterval>, closed: seq<Interval>, h: History) {
    && h.Valid() && TracksOpen(open, h) && ListsEnded(closed, h)
    && CountOf(closed) + MapSum(Counts(open)) == DetectionCount(h.rows)
  }

  lemma TracksKeepsMarkets(open: map<Id, OpenInterval>, closed: seq<Interval>, h: History)
    requires Tracks(open, closed, h)
    ensures KeepsMarkets(open)
  {
    forall m | m in open
      ensures open[m].market == m
    {
      RunAccumulates(h, m, |h.rows| - 1);
    }
  }

  /** One detection instant: close what stopped, open what started, extend the rest. */
  method Track(open: map<Id, OpenInterval>, closed: seq<Interval>, row: Row, now: Instant, ghost h: History)
    returns (open': map<Id, OpenInterval>, closed': seq<Interval>)
    requires Tracks(open, closed, h)
    requires |h.times| > 0 ==> h.times[|h.times| - 1] < now
    ensures Tracks(open', closed', Appended(h, row, now))
  {
    hide Tracks, Still, Continued, ClosesAll;
    TracksKeepsMarkets(open, closed, h);
    var rest, ended := CloseMarkets(open, open.Keys - row.Keys, now, false);
    StillIsRest(open, row);
    open' := OpenOrExtend(rest, row, now);
    closed' := closed + ended;
    Advances(open, closed, row, now, h, ended);
  }

  lemma StillIsRest(open: map<Id, OpenInterval>, row: Row)
    ensures open - (open.Keys - row.Keys) == Still(open, row) && Still(open, row).Keys <= row.Keys
  {
  }

  /** What a detection instant does to the bookkeeping keeps it right. */
  lemma Advances(open: map<Id, OpenInterval>, closed: seq<Interval>, row: Row, now: Instant, h: History,
                 ended: seq<Interval>)
    requires Tracks(open, closed, h)
    requires |h.times| > 0 ==> h.times[|h.times| - 1] < now
    requires ClosesAll(ended, open, open.Keys - row.Keys, now, false)
    requires var next := Continued(Still(open, row), row, now);
      CountOf(ended) + MapSum(Counts(next)) == MapSum(Counts(open)) + |row|
    ensures Tracks(Continued(Still(open, row), row, now), closed + ended, Appended(h, row, now))
  {
    hide TracksOpen, ListsEnded, KeepsMarkets, ClosesAll, Continued, Still, Counts, MapSum;
    TracksKeepsMarkets(open, closed, h);
    AppendedValid(h, row, now);
    OpenAdvances(h, open, row, now);
    EndedAdvances(h, open, row, now, closed, ended);
    CountOfConcat(closed, ended);
    assert Appended(h, row, now).rows[..|h.rows|] == h.rows;
  }

  lemma AppendedValid(h: History, row: Row, now: Instant)
    requires h.Valid() && (|h.times| > 0 ==> h.times[|h.times| - 1] < now)
    ensures Appended(h, row, now).Valid()
  {
  }

  // ----- The emitted intervals

  /** The interval summarises one maximal run of the market's detections. */
  ghost predicate Summarises(iv: Interval, h: History, first: nat, last: nat)
    requires h.Valid()
  {
    && MaximalRun(h, iv.market, first, last)
    && Accumulated(OpenInterval(iv.event, iv.market, iv.start, h.times[last], iv.count, iv.maxMargin,
                                iv.everActionable),
                   h, iv.market, first, last)
    && iv.closedByEnd == (last + 1 == |h.rows|)
    && iv.end == (if last + 1 < |h.rows| then h.times[last + 1] else h.times[last])
  }

  /** The interval of the run that ends at `last`. */
  function RunInterval(h: History, market: Id, last: int): Interval
    requires h.Valid() && h.On(market, last)
  {
    Closed(RunState(h, market, last), if last + 1 < |h.rows| then h.times[last + 1]
      else h.times[last], last + 1 == |h.rows|)
  }

  lemma RunIntervalSummarises(h: History, market: Id, last: int)
    requires h.Valid() && h.On(market, last) && !h.On(market, last + 1)
    ensures Summarises(RunInterval(h, market, last), h, RunStart(h, market, last), last)
  {
    RunAccumulates(h, market, last);
  }

  lemma RunStartUnique(h: History, market: Id, first: nat, last: nat)
    requires MaximalRun(h, market, first, last)
    ensures RunStart(h, market, last) == first
  {
    var start := RunStart(h, market, last);
    assert start < first ==> h.On(market, first - 1);
    assert first < start ==> h.On(market, start - 1);
  }

  ghost predicate IsRunInterval(iv: Interval, h: History, market: Id, last: int)
    requires h.Valid()
  {
    h.On(market, last) && !h.On(market, last + 1) && iv == RunInterval(h, market, last)
  }

  ghost predicate Runs(intervals: seq<Interval>, h: History)
    requires h.Valid()
  {
    forall iv :: iv in intervals <==> exists m, last :: IsRunInterval(iv, h, m, last)
  }

  /** Every interval summarises a maximal run. */
  ghost predicate OnlyRuns(intervals: seq<Interval>, h: History)
    requires h.Valid()
  {
    forall iv :: iv in intervals ==> exists first: nat, last: nat :: Summarises(iv, h, first, last)
  }

  /** Every maximal run has its interval. */
  ghost predicate EveryRun(intervals: seq<Interval>, h: History)
    requires h.Valid()
  {
    forall m, first: nat, last: nat :: MaximalRun(h, m, first, last) ==>
      exists iv :: iv in intervals && iv.market == m && Summarises(iv, h, first, last)
  }

  lemma RunsAreRuns(intervals: seq<Interval>, h: History)
    requires h.Valid() && Runs(intervals, h)
    ensures OnlyRuns(intervals, h)
  {
    forall iv | iv in intervals
      ensures exists first: nat, last: nat :: Summarises(iv, h, first, last)
    {
      var m, last :| IsRunInterval(iv, h, m, last);
      RunIntervalSummarises(h, m, last);
    }
  }

  lemma RunsAreComplete(intervals: seq<Interval>, h: History)
    requires h.Valid() && Runs(intervals, h)
    ensures EveryRun(intervals, h)
  {
    forall m, first: nat, last: nat | MaximalRun(h, m, first, last)
      ensures exists iv :: iv in intervals && iv.market == m && Summarises(iv, h, first, last)
    {
      RunStartUnique(h, m, first, last);
      RunIntervalSummarises(h, m, last);
      RunAccumulates(h, m, last);
      assert IsRunInterval(RunInterval(h, m, last), h, m, last);
      assert RunInterval(h, m, last) in intervals;
    }
  }

  /** Closes what is still open at the end of the stream and puts the intervals in order. */
  method Finish(open: map<Id, OpenInterval>, closed: seq<Interval>, ghost h: History, final: Instant)
    returns (intervals: seq<Interval>)
    requires Tracks(open, closed, h) && |h.rows| > 0 && final == h.times[|h.times| - 1]
    ensures h.Valid() && OnlyRuns(intervals, h) && EveryRun(intervals, h)
    ensures StrictlySortedBy(intervals, ByStart)
    ensures CountOf(intervals) == DetectionCount(h.rows)
  {
    TracksKeepsMarkets(open, closed, h);
    var rest, ended := CloseMarkets(open, open.Keys, final, true);
    assert Counts(rest) == map[];
    CountOfConcat(closed, ended);
    CountOfSorted(closed + ended);
    LastRunsDiffer(h, open, closed, ended, final);
    AllRuns(h, open, closed, ended, final);
    intervals := SortBy(closed + ended, ByStart);
    SortByMembers(closed + ended, ByStart);
    SortByStrict(closed + ended, ByStart);
    RunsAreRuns(intervals, h);
    RunsAreComplete(intervals, h);
  }

  lemma LastRunsDiffer(h: History, open: map<Id, OpenInterval>, closed: seq<Interval>, ended: seq<Interval>,
                       final: Instant)
    requires h.Valid() && TracksOpen(open, h) && KeepsMarkets(open)
    requires ListsEnded(closed, h) && ClosesAll(ended, open, open.Keys, final, true)
    ensures DistinctKeys(closed + ended, ByStart)
  {
    forall i | 0 <= i < |closed|
      ensures IsEnded(closed[i], h)
    {
      assert closed[i] in closed;
    }
    forall j | 0 <= j < |ended|
      ensures IsLast(ended[j], h)
    {
      assert ended[j] in ended;
    }
    forall i, j | 0 <= i < |closed| && 0 <= j < |ended|
      ensures ByStart(closed[i]) != ByStart(ended[j])
    {
      StartsDiffer(h, closed[i], ended[j]);
    }
  }

  lemma AllRuns(h: History, open: map<Id, OpenInterval>, closed: seq<Interval>, ended: seq<Interval>, final: Instant)
    requires h.Valid() && |h.rows| > 0 && final == h.times[|h.times| - 1]
    requires TracksOpen(open, h) && ListsEnded(closed, h) && ClosesAll(ended, open, open.Keys, final, true)
    ensures Runs(closed + ended, h)
  {
    forall iv
      ensures iv in closed + ended <==> exists m, last :: IsRunInterval(iv, h, m, last)
    {
      if iv in closed + ended {
        ListedIsRun(h, open, closed, ended, final, iv);
      }
      if m, last :| IsRunInterval(iv, h, m, last) {
        RunIsListed(h, open, closed, ended, final, m, last);
      }
    }
  }

  lemma RunIsListed(h: History, open: map<Id, OpenInterval>, closed: seq<Interval>, ended: seq<Interval>,
                    final: Instant, m: Id, last: int)
    requires h.Valid() && |h.rows| > 0 && final == h.times[|h.times| - 1]
    requires TracksOpen(open, h) && ListsEnded(closed, h) && ClosesAll(ended, open, open.Keys, final, true)
    requires h.On(m, last) && !h.On(m, last + 1)
    ensures RunInterval(h, m, last) in closed + ended
  {
    hide RunState;
    if last + 1 < |h.rows| {
      assert Ends(h, m, last + 1) && RunInterval(h, m, last) == EndedAt(h, m, last + 1);
    } else {
      assert m in open && RunInterval(h, m, last) == Closed(open[m], final, true);
    }
  }

  lemma ListedIsRun(h: History, open: map<Id, OpenInterval>, closed: seq<Interval>, ended: seq<Interval>,
                    final: Instant, iv: Interval)
    requires h.Valid() && |h.rows| > 0 && final == h.times[|h.times| - 1]
    requires TracksOpen(open, h) && ListsEnded(closed, h) && ClosesAll(ended, open, open.Keys, final, true)
    requires iv in closed + ended
    ensures exists m, last :: IsRunInterval(iv, h, m, last)
  {
    hide RunState;
    var n := |h.rows|;
    if iv in closed {
      var m, k :| Ends(h, m, k) && iv == EndedAt(h, m, k);
      assert IsRunInterval(iv, h, m, k - 1);
    } else {
      var m :| m in open && m in open.Keys && iv == Closed(open[m], final, true);
      assert IsRunInterval(iv, h, m, n - 1);
    }
  }

  // ----- Listing the detections

  /** `detections` lists the detections of every instant, each once. */
  ghost predicate ListsDetections(detections: seq<Detection>, h: History) {
    && (forall d :: d in detections <==> exists m, k :: h.On(m, k) && h.At(m, k) == d)
    && |detections| == DetectionCount(h.rows)
  }

  method AddDetections(detections: seq<Detection>, row: Row, now: Instant, ghost h: History) returns (r: seq<Detection>)
    requires |h.times| == |h.rows| && ListsDetections(detections, h)
    ensures ListsDetections(r, Appended(h, row, now))
  {
    var added: seq<Detection> := [];
    var pending := row.Keys;
    while pending != {}
      invariant pending <= row.Keys
      invariant forall d :: d in added <==> exists m :: m in row && m !in pending && row[m] == d
      invariant |added| + |pending| == |row|
      decreases pending
    {
      NonEmpty(pending);
      var market :| market in pending;
      added := added + [row[market]];
      pending := pending - {market};
    }
    r := detections + added;
    AddedListed(detections, added, row, now, h);
  }

  lemma AddedListed(detections: seq<Detection>, added: seq<Detection>, row: Row, now: Instant, h: History)
    requires |h.times| == |h.rows| && ListsDetections(detections, h)
    requires |added| == |row| && forall d :: d in added <==> exists m :: m in row && row[m] == d
    ensures ListsDetections(detections + added, Appended(h, row, now))
  {
    var next, n := Appended(h, row, now), |h.rows|;
    assert next.rows[..n] == h.rows;
    forall m, k
      ensures next.On(m, k) <==> h.On(m, k) || (k == n && m in row)
      ensures h.On(m, k) ==> next.At(m, k) == h.At(m, k)
      ensures k == n && m in row ==> next.At(m, k) == row[m]
    {
    }
    forall d
      ensures d in detections + added <==> exists m, k :: next.On(m, k) && next.At(m, k) == d
    {
      if d in detections {
        var m, k :| h.On(m, k) && h.At(m, k) == d;
        assert next.On(m, k) && next.At(m, k) == d;
      } else if d in added {
        var m :| m in row && row[m] == d;
        assert next.On(m, n) && next.At(m, n) == d;
      }
      if m, k :| next.On(m, k) && next.At(m, k) == d {
        assert h.On(m, k) || (k == n && m in row);
      }
    }
  }

  // ----- What the intervals say about the stream

  /** A detection instant that the interval covers: it started, and was still running. */
  predicate Contains(iv: Interval, instant: Instant) {
    iv.start <= instant && (instant < iv.end || (iv.closedByEnd && instant == iv.end))
  }

  function RunEnd(h: History, market: Id, k: nat): (r: nat)
    requires h.On(market, k)
    ensures k <= r && forall i :: k <= i <= r ==> h.On(market, i)
    ensures !h.On(market, r + 1)
    decreases |h.rows| - k
  {
    if h.On(market, k + 1) then RunEnd(h, market, k + 1) else k
  }

  /** Where an interval lies on the time line. */
  ghost predicate Spans(iv: Interval, h: History, first: nat, last: nat)
    requires h.Valid()
  {
    && MaximalRun(h, iv.market, first, last)
    && iv.start == h.times[first]
    && iv.closedByEnd == (last + 1 == |h.rows|)
    && iv.end == (if last + 1 < |h.rows| then h.times[last + 1] else h.times[last])
  }

  lemma CoversItsRun(iv: Interval, h: History, first: nat, last: nat, k: nat)
    requires h.Valid() && Spans(iv, h, first, last) && k < |h.rows|
    ensures Contains(iv, h.times[k]) <==> first <= k <= last
  {
    assert first < k ==> h.times[first] < h.times[k];
    assert k < first ==> h.times[k] < h.times[first];
    assert k < last ==> h.times[k] < h.times[last];
    assert last < k ==> h.times[last] < h.times[k];
    if last + 1 < |h.rows| {
      assert k < last + 1 ==> h.times[k] < h.times[last + 1];
      assert last + 1 < k ==> h.times[last + 1] < h.times[k];
    }
  }

  /** An instant at which a market was an arbitrage lies in one of its intervals. */
  lemma DetectionsCovered(intervals: seq<Interval>, h: History, market: Id, k: nat)
    requires h.Valid() && EveryRun(intervals, h) && h.On(market, k)
    ensures exists iv :: iv in intervals && iv.market == market && Contains(iv, h.times[k])
  {
    var first, last := RunStart(h, market, k), RunEnd(h, market, k);
    assert MaximalRun(h, market, first, last);
    var iv :| iv in intervals && iv.market == market && Summarises(iv, h, first, last);
    CoversItsRun(iv, h, first, last, k);
  }

  /** At every instant an interval contains, its market was an arbitrage. */
  lemma CoveredWereDetected(intervals: seq<Interval>, h: History, iv: Interval, k: nat)
    requires h.Valid() && OnlyRuns(intervals, h) && iv in intervals
    requires k < |h.rows| && Contains(iv, h.times[k])
    ensures h.On(iv.market, k)
  {
    var first: nat, last: nat :| Summarises(iv, h, first, last);
    CoversItsRun(iv, h, first, last, k);
  }

  /** Two intervals of one market are disjoint: the earlier one ends before the later one starts. */
  lemma Chronological(intervals: seq<Interval>, h: History, i: nat, j: nat)
    requires h.Valid() && OnlyRuns(intervals, h) && StrictlySortedBy(intervals, ByStart)
    requires i < j < |intervals| && intervals[i].market == intervals[j].market
    ensures intervals[i].end < intervals[j].start
  {
    assert intervals[i] in intervals && intervals[j] in intervals;
    var f: nat, l: nat :| Summarises(intervals[i], h, f, l);
    var g: nat, m: nat :| Summarises(intervals[j], h, g, m);
    StartsEarlier(intervals[i], intervals[j], h, f, l, g, m);
    GapBetween(intervals[i], intervals[j], h, f, l, g, m);
  }

  lemma GapBetween(a: Interval, b: Interval, h: History, f: nat, l: nat, g: nat, m: nat)
    requires h.Valid() && a.market == b.market && f < g
    requires Spans(a, h, f, l) && Spans(b, h, g, m)
    ensures a.end < b.start
  {
    RunsApart(h, a.market, f, l, g, m);
    assert h.times[l + 1] < h.times[g];
  }

  lemma StartsEarlier(a: Interval, b: Interval, h: History, f: nat, l: nat, g: nat, m: nat)
    requires h.Valid() && a.market == b.market && KeyLess(ByStart(a), ByStart(b))
    requires Summarises(a, h, f, l) && Summarises(b, h, g, m)
    ensures f < g
  {
    SameStartSameKey(a, b, h, f, l, g, m);
    KeyTrichotomy(ByStart(a), ByStart(b));
    assert ByStart(a)[0] == a.start && ByStart(b)[0] == b.start;
  }

  lemma SameStartSameKey(a: Interval, b: Interval, h: History, f: nat, l: nat, g: nat, m: nat)
    requires h.Valid() && a.market == b.market && Summarises(a, h, f, l) && Summarises(b, h, g, m)
    ensures f == g ==> ByStart(a) == ByStart(b)
    ensures g < f ==> b.start < a.start
  {
  }

  /** Two maximal runs of one market have a gap between them. */
  lemma RunsApart(h: History, market: Id, first: nat, last: nat, first': nat, last': nat)
    requires MaximalRun(h, market, first, last) && MaximalRun(h, market, first', last')
    requires first < first'
    ensures last + 1 < first'
  {
    assert first <= first' - 1 <= last ==> h.On(market, first' - 1);
    assert first' == last + 1 ==> !h.On(market, first');
  }
}
