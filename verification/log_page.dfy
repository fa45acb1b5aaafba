/**
  The arithmetic and filtering of the log page: the search box, the page that
  is requested, and the pager under the list.
 */
module LogPage {
  import opened Wrappers
  import opened Seqs
  import opened Text
  import opened Numbers
  import opened Entries
  import opened RecentLogs

  // ----- Search -----

  /** The entry's slug or notes contain the query, ignoring case. */
  predicate Matches(e: EntryView, query: string) {
    Contains(ToLower(e.slug), ToLower(query)) || Contains(ToLower(e.notes), ToLower(query))
  }

  /** `filteredLogEntries`: the entries of the current page that match the query, in order. */
  function Search(entries: seq<EntryView>, query: string): (r: seq<EntryView>)
    ensures IsSubsequence(r, entries)
    ensures forall e :: e in r <==> e in entries && Matches(e, query)
  {
    Filter(entries, (e: EntryView) => Matches(e, query))
  }

  /** An empty search box keeps every entry. */
  lemma {:induction false} EmptyQueryKeepsAll(entries: seq<EntryView>)
    ensures Search(entries, "") == entries
  {
    forall e: EntryView ensures Matches(e, "") {
      ContainsEmpty(ToLower(e.slug));
    }
  }

  /** Lower-casing twice is lower-casing once. */
  lemma {:induction false} ToLowerIdempotent(s: string)
    ensures ToLower(ToLower(s)) == ToLower(s)
  {
  }

  /** The case of the query does not matter. */
  lemma {:induction false} SearchIgnoresQueryCase(entries: seq<EntryView>, query: string)
    ensures Search(entries, query) == Search(entries, ToLower(query))
  {
    ToLowerIdempotent(query);
    FilterSameTest(entries, (e: EntryView) => Matches(e, query), (e: EntryView) => Matches(e, ToLower(query)));
  }

  // ----- The requested page -----

  const PageSize: nat := 10

  /** `fetchLogEntries(page)` asks for `offset = page * limit`; pages count from 0. */
  function PageOffset(page: nat): (offset: nat)
    ensures offset % PageSize == 0 && offset / PageSize == page
  {
    page * PageSize
  }

  /** What the server answers to the page's request `limit=10&offset=<page * 10>`. */
  function Fetch(log: seq<LogEntry>, userId: string, page: nat): Outcome {
    RecentLogs.RecentLogs(Some(userId), Some(DecimalString(PageSize)), Some(DecimalString(PageOffset(page))), log)
  }

  /** A decimal numeral is a non-empty parameter that reads back as its number. */
  lemma {:induction false} ParsesBack(n: nat)
    ensures DecimalString(n) != "" && ParseInt(DecimalString(n)) == Some(n)
  {
    ParseIntDecimal(n, "");
    assert DecimalString(n) + "" == DecimalString(n);
  }

  /** Page `p` of a signed-in user holds the entries at positions 10p .. 10p + 9 of the newest-first list. */
  lemma {:induction false} FetchedPage(log: seq<LogEntry>, userId: string, page: nat)
    requires userId != ""
    ensures Fetch(log, userId, page) == Page(PageOf(log, userId, PageSize, PageOffset(page)))
  {
    RequestedNumerals(log, userId, PageSize, PageOffset(page));
  }

  /** Numerals written into `limit` and `offset` ask for the page at that offset and limit. */
  lemma {:induction false} RequestedNumerals(log: seq<LogEntry>, userId: string, limit: nat, offset: nat)
    requires userId != ""
    ensures RecentLogs.RecentLogs(Some(userId), Some(DecimalString(limit)), Some(DecimalString(offset)), log)
            == Page(PageOf(log, userId, limit, offset))
  {
    ParsesBack(limit);
    ParsesBack(offset);
    assert ParamOr(Some(DecimalString(limit)), DefaultLimit) == DecimalString(limit);
    assert ParamOr(Some(DecimalString(offset)), DefaultOffset) == DecimalString(offset);
    RequestedPage(userId, Some(DecimalString(limit)), Some(DecimalString(offset)), log, limit, offset);
  }

  // ----- The pager -----

  /** `PaginationControls` renders only when there is more than one page. */
  predicate ShowControls(p: Option<Pagination>) {
    p.Some? && p.value.total > p.value.limit
  }

  /** `Math.ceil(total / limit)`. */
  function TotalPages(total: nat, limit: nat): (n: nat)
    requires limit > 0
    ensures (n == 0 <==> total == 0)
    ensures n > 0 ==> (n - 1) * limit < total <= n * limit
  {
    (total + limit - 1) / limit
  }

  /** More than one page exactly when the controls show. */
  lemma {:induction false} ControlsIffSeveralPages(total: nat, limit: nat)
    requires limit > 0
    ensures ShowControls(Some(Pagination(total, limit, 0, false, false))) <==> TotalPages(total, limit) > 1
  {
    var n := TotalPages(total, limit);
    if n > 1 {
      MultipleAtLeast(n - 1, limit);
    } else if n == 1 {
      assert n * limit == limit;
    }
  }

  /** A positive multiple of `b` is at least `b`. */
  lemma {:induction false} MultipleAtLeast(a: nat, b: nat)
    requires a >= 1
    ensures a * b >= b
  {
    assert a * b == (a - 1) * b + b;
  }

  const MaxButtons: nat := 5

  /**
    The page-number buttons (1-based) for `current`, the 1-based current page:
    the first five, the last five, or five centred on the current page.
   */
  function PageButtons(totalPages: nat, current: int): (w: seq<int>)
    ensures |w| == Min(MaxButtons, totalPages)
    ensures forall i :: 0 <= i < |w| - 1 ==> w[i + 1] == w[i] + 1
    ensures forall i :: 0 <= i < |w| ==> 1 <= w[i] <= totalPages
    ensures 1 <= current <= totalPages ==> current in w
  {
    var n := Min(MaxButtons, totalPages);
    var w := seq(n, i requires 0 <= i < n =>
      if totalPages <= 5 then i + 1
      else if current <= 3 then i + 1
      else if current >= totalPages - 2 then totalPages - 4 + i
      else current - 2 + i);
    var k := if totalPages <= 5 || current <= 3 then current - 1
             else if current >= totalPages - 2 then current - totalPages + 4
             else 2;
    assert 1 <= current <= totalPages ==> 0 <= k < n && w[k] == current;
    w
  }

  /** The first button: the current page less two, kept within 1 .. totalPages - 4. */
  function FirstButton(totalPages: nat, current: int): int {
    Max(1, Min(current - 2, totalPages - 4))
  }

  /** The buttons are the window of consecutive pages starting at `FirstButton`. */
  lemma {:induction false} PageButtonsFromFirst(totalPages: nat, current: int)
    ensures var w := PageButtons(totalPages, current);
            forall i :: 0 <= i < |w| ==> w[i] == FirstButton(totalPages, current) + i
  {
  }

  /** "Showing X to Y": the 1-based positions of the current page's first and last entries. */
  function ShowingFrom(currentPage: nat, limit: nat): nat {
    currentPage * limit + 1
  }

  function ShowingTo(currentPage: nat, limit: nat, total: nat): nat {
    Min((currentPage + 1) * limit, total)
  }

  /** For a page inside the list, the "Showing" range counts exactly the entries the server sent. */
  lemma {:induction false} ShowingMatchesPage(log: seq<LogEntry>, userId: string, page: nat)
    requires PageOffset(page) < PageOf(log, userId, PageSize, PageOffset(page)).pagination.total
    ensures var p := PageOf(log, userId, PageSize, PageOffset(page));
            && ShowingFrom(page, PageSize) == PageOffset(page) + 1
            && ShowingTo(page, PageSize, p.pagination.total) - ShowingFrom(page, PageSize) + 1 == |p.logEntries|
  {
  }
}
