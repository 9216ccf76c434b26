/** The order in which diagnostics are reported: by the names they carry and the texts of their codes. */
module NoteOrder {
  import opened Ordering
  import LiveQuotes
  import MultiSource
  import MarketBook

  // ----- Texts

  function Letters(text: string): Key { seq(|text|, i requires 0 <= i < |text| => text[i] as int) }

  /** Lexical order of texts. */
  predicate Before(a: string, b: string) { KeyLess(Letters(a), Letters(b)) }

  /** The first letter in which two texts differ decides. */
  lemma {:induction false} FirstDifference(a: Key, b: Key, k: nat)
    requires k < |a| && k < |b| && a[..k] == b[..k] && a[k] < b[k]
    ensures KeyLess(a, b)
  {
    if k > 0 {
      assert a[..k][0] == b[..k][0];
      assert a[1..][..k - 1] == a[..k][1..] && b[1..][..k - 1] == b[..k][1..];
      FirstDifference(a[1..], b[1..], k - 1);
    }
  }

  lemma Differ(a: string, b: string, k: nat)
    requires k < |a| && k < |b| && a[..k] == b[..k] && a[k] < b[k]
    ensures Before(a, b)
  {
    var x, y := Letters(a), Letters(b);
    forall i | 0 <= i < k
      ensures x[i] == y[i]
    {
      assert a[..k][i] == b[..k][i];
    }
    FirstDifference(x, y, k);
  }

  // ----- Codes of the quote stores

  function StoreText(code: LiveQuotes.DiagnosticCode): string {
    match code
    case DuplicateQuote => "duplicate"
    case OutOfOrder => "out_of_order"
    case FutureIngestion => "future_ingestion"
    case ClockSkewDetected => "clock_skew_detected"
    case ClockSkewExceeded => "clock_skew_exceeded"
    case StaleEvicted => "stale_evicted"
    case InactiveEvicted => "inactive_evicted"
  }

  lemma NextStoreCode(a: LiveQuotes.DiagnosticCode, b: LiveQuotes.DiagnosticCode)
    requires LiveQuotes.CodeRank(b) == LiveQuotes.CodeRank(a) + 1
    ensures Before(StoreText(a), StoreText(b))
  {
    Differ(StoreText(a), StoreText(b), if a == LiveQuotes.ClockSkewDetected then 11 else 0);
  }

  lemma {:induction false} StoreCodesAscend(a: LiveQuotes.DiagnosticCode, b: LiveQuotes.DiagnosticCode)
    requires LiveQuotes.CodeRank(a) < LiveQuotes.CodeRank(b)
    ensures Before(StoreText(a), StoreText(b))
    decreases LiveQuotes.CodeRank(b)
  {
    hide StoreText;
    var rank := LiveQuotes.CodeRank(b) - 1;
    if LiveQuotes.CodeRank(a) == rank {
      NextStoreCode(a, b);
    } else {
      var c := StoreCodeAt(rank);
      StoreCodesAscend(a, c);
      NextStoreCode(c, b);
      Chained(StoreText(a), StoreText(c), StoreText(b));
    }
  }

  function StoreCodeAt(rank: int): (code: LiveQuotes.DiagnosticCode)
    requires 0 <= rank < 7
    ensures LiveQuotes.CodeRank(code) == rank
  {
    match rank
    case 0 => LiveQuotes.ClockSkewDetected
    case 1 => LiveQuotes.ClockSkewExceeded
    case 2 => LiveQuotes.DuplicateQuote
    case 3 => LiveQuotes.FutureIngestion
    case 4 => LiveQuotes.InactiveEvicted
    case 5 => LiveQuotes.OutOfOrder
    case _ => LiveQuotes.StaleEvicted
  }

  lemma Chained(a: string, b: string, c: string)
    requires Before(a, b) && Before(b, c)
    ensures Before(a, c)
  {
    var x, y, z := Letters(a), Letters(b), Letters(c);
    KeyTrichotomy(x, y);
    KeyTrichotomy(y, z);
    KeyTransitive(x, y, z);
  }

  lemma StoreCodesInOrder(a: LiveQuotes.DiagnosticCode, b: LiveQuotes.DiagnosticCode)
    ensures LiveQuotes.CodeRank(a) < LiveQuotes.CodeRank(b) <==> Before(StoreText(a), StoreText(b))
  {
    hide StoreText;
    KeyTrichotomy(Letters(StoreText(a)), Letters(StoreText(b)));
    if LiveQuotes.CodeRank(a) < LiveQuotes.CodeRank(b) {
      StoreCodesAscend(a, b);
    } else if LiveQuotes.CodeRank(b) < LiveQuotes.CodeRank(a) {
      StoreCodesAscend(b, a);
    }
  }

  /** Diagnostics of one feed: by provider, then by slot, then by the code's text. */
  ghost predicate InProviderOrder(items: seq<LiveQuotes.Diagnostic>) {
    forall i, j :: 0 <= i < j < |items| ==> var a, b := items[i].key, items[j].key;
      || KeyLess([a.provider, a.event, a.market, a.selection], [b.provider, b.event, b.market, b.selection])
      || (a == b && !Before(StoreText(items[j].code), StoreText(items[i].code)))
  }

  /** Diagnostics of all feeds: by slot, then by the code's text. */
  ghost predicate InSlotAndCodeOrder(items: seq<LiveQuotes.Diagnostic>) {
    forall i, j :: 0 <= i < j < |items| ==> var a, b := items[i].key, items[j].key;
      || KeyLess([a.event, a.market, a.selection, a.provider], [b.event, b.market, b.selection, b.provider])
      || (a == b && !Before(StoreText(items[j].code), StoreText(items[i].code)))
  }

  /** Of keys alike in length the front decides first, then the back. */
  lemma {:induction false} KeyInParts(a: Key, x: Key, b: Key, y: Key)
    requires |a| == |b|
    ensures KeyLess(a + x, b + y) <==> KeyLess(a, b) || (a == b && KeyLess(x, y))
  {
    if |a| == 0 {
      assert a + x == x && b + y == y;
    } else {
      KeyInParts(a[1..], x, b[1..], y);
      assert (a + x)[1..] == a[1..] + x && (b + y)[1..] == b[1..] + y;
      assert a == [a[0]] + a[1..] && b == [b[0]] + b[1..];
    }
  }

  lemma ProviderOrderMeans(items: seq<LiveQuotes.Diagnostic>)
    ensures SortedBy(items, LiveQuotes.ByProviderAndCode) <==> InProviderOrder(items)
  {
    hide StoreText, Before, KeyLess;
    forall i, j | 0 <= i < j < |items|
      ensures !KeyLess(LiveQuotes.ByProviderAndCode(items[j]), LiveQuotes.ByProviderAndCode(items[i])) <==>
              var a, b := items[i].key, items[j].key;
              || KeyLess([a.provider, a.event, a.market, a.selection], [b.provider, b.event, b.market, b.selection])
              || (a == b && !Before(StoreText(items[j].code), StoreText(items[i].code)))
    {
      var a, b := items[i].key, items[j].key;
      var x, y := LiveQuotes.CodeRank(items[i].code), LiveQuotes.CodeRank(items[j].code);
      var front, other := [a.provider, a.event, a.market, a.selection], [b.provider, b.event, b.market, b.selection];
      KeyInParts(other, [y], front, [x]);
      KeyLessOfOne(y, x);
      KeyTrichotomy(front, other);
      StoreCodesInOrder(items[j].code, items[i].code);
      assert LiveQuotes.ByProviderAndCode(items[i]) == front + [x];
      assert LiveQuotes.ByProviderAndCode(items[j]) == other + [y];
      assert front == other <==> front[0] == other[0] && front[1] == other[1] && front[2] == other[2]
                                 && front[3] == other[3];
    }
  }

  lemma SlotOrderMeans(items: seq<LiveQuotes.Diagnostic>)
    ensures SortedBy(items, MultiSource.BySlotAndCode) <==> InSlotAndCodeOrder(items)
  {
    hide StoreText, Before, KeyLess;
    forall i, j | 0 <= i < j < |items|
      ensures !KeyLess(MultiSource.BySlotAndCode(items[j]), MultiSource.BySlotAndCode(items[i])) <==>
              var a, b := items[i].key, items[j].key;
              || KeyLess([a.event, a.market, a.selection, a.provider], [b.event, b.market, b.selection, b.provider])
              || (a == b && !Before(StoreText(items[j].code), StoreText(items[i].code)))
    {
      var a, b := items[i].key, items[j].key;
      var x, y := LiveQuotes.CodeRank(items[i].code), LiveQuotes.CodeRank(items[j].code);
      var front, other := [a.event, a.market, a.selection, a.provider], [b.event, b.market, b.selection, b.provider];
      KeyInParts(other, [y], front, [x]);
      KeyLessOfOne(y, x);
      KeyTrichotomy(front, other);
      StoreCodesInOrder(items[j].code, items[i].code);
      assert MultiSource.BySlotAndCode(items[i]) == front + [x];
      assert MultiSource.BySlotAndCode(items[j]) == other + [y];
      assert front == other <==> front[0] == other[0] && front[1] == other[1] && front[2] == other[2]
                                 && front[3] == other[3];
    }
  }

  /** Both stores report the diagnostics of a batch in these orders. */
  lemma ReportsInOrder(batch: LiveQuotes.Batch, report: LiveQuotes.ApplyResult)
    ensures InProviderOrder(LiveQuotes.Report(batch).diagnostics)
    ensures InSlotAndCodeOrder(MultiSource.FeedReport(report).diagnostics)
  {
    hide SortBy, InProviderOrder, InSlotAndCodeOrder;
    SortBySorts(batch.diagnostics, LiveQuotes.ByProviderAndCode);
    ProviderOrderMeans(LiveQuotes.Report(batch).diagnostics);
    SortBySorts(report.diagnostics, MultiSource.BySlotAndCode);
    SlotOrderMeans(MultiSource.FeedReport(report).diagnostics);
  }

  // ----- Codes of the books

  function BookText(code: MarketBook.BookCode): string {
    match code
    case DuplicateQuoteId => "duplicate_quote_id"
    case UnknownEvent => "unknown_event"
    case UnknownMarket => "unknown_market"
    case UnknownSelection => "unknown_selection"
    case QuoteEventMismatch => "quote_event_mismatch"
    case QuoteSelectionMismatch => "quote_selection_mismatch"
    case ProviderFiltered => "provider_filtered"
    case InactiveQuote => "inactive_quote"
    case FutureIngest => "future_ingestion"
    case FutureQuote => "future_quote"
    case StaleQuote => "stale_quote"
    case EventNotPrematch => "event_not_prematch"
    case InsufficientOutcomes => "insufficient_outcomes"
    case IncompleteMarket => "incomplete_market"
  }

  function BookCodeAt(rank: int): (code: MarketBook.BookCode)
    requires 0 <= rank < 14
    ensures MarketBook.Rank(code) == rank
  {
    match rank
    case 0 => MarketBook.DuplicateQuoteId
    case 1 => MarketBook.EventNotPrematch
    case 2 => MarketBook.FutureIngest
    case 3 => MarketBook.FutureQuote
    case 4 => MarketBook.InactiveQuote
    case 5 => MarketBook.IncompleteMarket
    case 6 => MarketBook.InsufficientOutcomes
    case 7 => MarketBook.ProviderFiltered
    case 8 => MarketBook.QuoteEventMismatch
    case 9 => MarketBook.QuoteSelectionMismatch
    case 10 => MarketBook.StaleQuote
    case 11 => MarketBook.UnknownEvent
    case 12 => MarketBook.UnknownMarket
    case _ => MarketBook.UnknownSelection
  }

  /** The first letter in which the texts of this code and the next differ. */
  function FirstDifferent(code: MarketBook.BookCode): nat {
    match code
    case FutureIngest => 7
    case InactiveQuote => 2
    case IncompleteMarket => 2
    case QuoteEventMismatch => 6
    case UnknownEvent => 8
    case UnknownMarket => 8
    case _ => 0
  }

  lemma NextBookCode(a: MarketBook.BookCode, b: MarketBook.BookCode)
    requires MarketBook.Rank(b) == MarketBook.Rank(a) + 1
    ensures Before(BookText(a), BookText(b))
  {
    hide BookText;
    if MarketBook.Rank(a) < 6 {
      NextEarlyCode(a, b);
    } else {
      NextLateCode(a, b);
    }
  }

  lemma NextEarlyCode(a: MarketBook.BookCode, b: MarketBook.BookCode)
    requires MarketBook.Rank(b) == MarketBook.Rank(a) + 1 <= 6
    ensures Before(BookText(a), BookText(b))
  {
    Differ(BookText(a), BookText(b), FirstDifferent(a));
  }

  lemma NextLateCode(a: MarketBook.BookCode, b: MarketBook.BookCode)
    requires MarketBook.Rank(b) == MarketBook.Rank(a) + 1 > 6
    ensures Before(BookText(a), BookText(b))
  {
    Differ(BookText(a), BookText(b), FirstDifferent(a));
  }

  lemma {:induction false} BookCodesAscend(a: MarketBook.BookCode, b: MarketBook.BookCode)
    requires MarketBook.Rank(a) < MarketBook.Rank(b)
    ensures Before(BookText(a), BookText(b))
    decreases MarketBook.Rank(b)
  {
    hide BookText;
    var rank := MarketBook.Rank(b) - 1;
    if MarketBook.Rank(a) == rank {
      NextBookCode(a, b);
    } else {
      var c := BookCodeAt(rank);
      BookCodesAscend(a, c);
      NextBookCode(c, b);
      Chained(BookText(a), BookText(c), BookText(b));
    }
  }

  lemma BookCodesInOrder(a: MarketBook.BookCode, b: MarketBook.BookCode)
    ensures MarketBook.Rank(a) < MarketBook.Rank(b) <==> Before(BookText(a), BookText(b))
  {
    hide BookText;
    KeyTrichotomy(Letters(BookText(a)), Letters(BookText(b)));
    if MarketBook.Rank(a) < MarketBook.Rank(b) {
      BookCodesAscend(a, b);
    } else if MarketBook.Rank(b) < MarketBook.Rank(a) {
      BookCodesAscend(b, a);
    }
  }

  lemma OneCodeOneRank(a: MarketBook.BookCode, b: MarketBook.BookCode)
    ensures MarketBook.Rank(a) == MarketBook.Rank(b) <==> a == b
  {
  }

  /** What a note names beyond event, market and code; a note on a market names nothing more. */
  function Subject(note: MarketBook.BookNote): Key {
    match note
    case QuoteNote(_, _, _, selection, provider, quote) => [selection, provider, quote]
    case MarketNote(_, _, _) => []
  }

  /** By event and market, then by the code's text, then by selection, provider and quote. */
  ghost predicate InNoteOrder(notes: seq<MarketBook.BookNote>) {
    forall i, j :: 0 <= i < j < |notes| ==> NotAfter(notes[i], notes[j])
  }

  predicate NotAfter(a: MarketBook.BookNote, b: MarketBook.BookNote) {
    || KeyLess([a.event, a.market], [b.event, b.market])
    || (a.event == b.event && a.market == b.market
        && (Before(BookText(a.code), BookText(b.code)) || (a.code == b.code && !KeyLess(Subject(b), Subject(a)))))
  }

  lemma NotAfterMeans(a: MarketBook.BookNote, b: MarketBook.BookNote)
    ensures !KeyLess(MarketBook.ByNote(b), MarketBook.ByNote(a)) <==> NotAfter(a, b)
  {
    hide BookText, Before, KeyLess;
    var x, y := MarketBook.Rank(a.code), MarketBook.Rank(b.code);
    var front, other := [a.event, a.market], [b.event, b.market];
    assert MarketBook.ByNote(a) == front + ([x] + Subject(a));
    assert MarketBook.ByNote(b) == other + ([y] + Subject(b));
    KeyInParts(other, [y] + Subject(b), front, [x] + Subject(a));
    KeyInParts([y], Subject(b), [x], Subject(a));
    KeyLessOfOne(y, x);
    KeyTrichotomy(front, other);
    BookCodesInOrder(a.code, b.code);
    OneCodeOneRank(a.code, b.code);
    assert front == other <==> front[0] == other[0] && front[1] == other[1];
    assert [x] == [y] <==> [x][0] == [y][0];
  }

  /** The builder reports its notes in this order. */
  lemma BatchInOrder(batch: MarketBook.BookBatch)
    ensures InNoteOrder(MarketBook.SortedBatch(batch).notes)
  {
    hide MarketBook.ByNote, NotAfter, SortBy;
    var notes := MarketBook.SortedBatch(batch).notes;
    SortBySorts(batch.notes, MarketBook.ByNote);
    forall i, j | 0 <= i < j < |notes|
      ensures NotAfter(notes[i], notes[j])
    {
      NotAfterMeans(notes[i], notes[j]);
    }
  }
}
