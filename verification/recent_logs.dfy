/**
  GET /api/logs/recent: one page of the user's entries, most recent first,
  with the flags the pager needs.
 */
module RecentLogs {
  import opened Wrappers
  import opened Seqs
  import opened Entries
  import opened Http
  import opened Sorting
  import opened Numbers

  /** `searchParams.get(name) || fallback`: a missing or empty parameter takes the fallback. */
  function ParamOr(raw: Option<string>, fallback: string): (s: string)
    ensures raw.Some? && raw.value != "" ==> s == raw.value
    ensures raw.None? || raw.value == "" ==> s == fallback
  {
    if raw.Some? && raw.value != "" then raw.value else fallback
  }

  const DefaultLimit: string := "10"
  const DefaultOffset: string := "0"

  /** One entry of the reply: the stored fields, unchanged. */
  datatype EntryView = EntryView(
    id: string,
    slugId: Option<string>,
    calories: real,
    fats: real,
    sugars: real,
    carbohydrates: real,
    proteins: real,
    notes: string,
    slug: string,
    timestamp: int)

  function View(e: LogEntry): (v: EntryView)
    ensures v.id == e.id && v.slugId == e.slugId && v.notes == e.notes && v.slug == e.slug
    ensures v.calories == e.calories && v.fats == e.fats && v.sugars == e.sugars
    ensures v.carbohydrates == e.carbohydrates && v.proteins == e.proteins
    ensures v.timestamp == e.stamp.instant
  {
    EntryView(e.id, e.slugId, e.calories, e.fats, e.sugars, e.carbohydrates, e.proteins, e.notes, e.slug, e.stamp.instant)
  }

  datatype Pagination = Pagination(total: nat, limit: nat, offset: nat, hasMore: bool, hasPrevious: bool)

  datatype RecentPage = RecentPage(logEntries: seq<EntryView>, pagination: Pagination)

  /**
    What the handler answers. `Unmodelled` stands for a `take` or `skip` that
    is NaN or negative, whose handling is up to the database library.
   */
  datatype Outcome = Page(page: RecentPage) | Error(reply: ErrorReply) | Unmodelled

  const UserIdRequired: ErrorReply := ErrorReply(400, "User ID is required")

  /** `skip: offset, take: limit`: the entries at positions offset .. offset + limit - 1 that exist. */
  function Window<T>(s: seq<T>, offset: nat, limit: nat): (w: seq<T>)
    ensures |w| == if offset >= |s| then 0 else Min(limit, |s| - offset)
    ensures forall i :: 0 <= i < |w| ==> w[i] == s[offset + i]
  {
    if offset >= |s| then [] else s[offset..Min(offset + limit, |s|)]
  }

  /** The user's entries, most recent first. */
  function Newest(log: seq<LogEntry>, userId: string): (r: seq<LogEntry>)
    ensures SortedDesc(r, Instant)
    ensures multiset(r) == multiset(OwnedBy(log, userId))
  {
    SortDesc(OwnedBy(log, userId), Instant)
  }

  /** The reply for a valid user id and non-negative limit and offset. */
  function PageOf(log: seq<LogEntry>, userId: string, limit: nat, offset: nat): (p: RecentPage)
    ensures var all := Newest(log, userId);
            && p.pagination == Pagination(|all|, limit, offset, offset + limit < |all|, offset > 0)
            && |p.logEntries| <= limit
            && |p.logEntries| == |Window(all, offset, limit)|
            && forall i :: 0 <= i < |p.logEntries| ==> p.logEntries[i] == View(all[offset + i])
  {
    var all := Newest(log, userId);
    var w := Window(all, offset, limit);
    RecentPage(seq(|w|, i requires 0 <= i < |w| => View(w[i])),
               Pagination(|all|, limit, offset, offset + limit < |all|, offset > 0))
  }

  /** GET with the raw `userId`, `limit` and `offset` query parameters. */
  function RecentLogs(userId: Option<string>, rawLimit: Option<string>, rawOffset: Option<string>, log: seq<LogEntry>): (o: Outcome)
    ensures o.Error? <==> userId.None? || userId.value == ""
    ensures o.Error? ==> o.reply == UserIdRequired
    ensures o.Unmodelled? <==>
              && userId.Some? && userId.value != ""
              && var limit, offset := ParseInt(ParamOr(rawLimit, DefaultLimit)), ParseInt(ParamOr(rawOffset, DefaultOffset));
                 (limit.None? || limit.value < 0 || offset.None? || offset.value < 0)
    ensures o.Page? <==>
              && userId.Some? && userId.value != ""
              && var limit, offset := ParseInt(ParamOr(rawLimit, DefaultLimit)), ParseInt(ParamOr(rawOffset, DefaultOffset));
                 (limit.Some? && limit.value >= 0 && offset.Some? && offset.value >= 0)
    ensures o.Page? ==>
              && ParseInt(ParamOr(rawLimit, DefaultLimit)) == Some(o.page.pagination.limit)
              && ParseInt(ParamOr(rawOffset, DefaultOffset)) == Some(o.page.pagination.offset)
              && o.page == PageOf(log, userId.value, o.page.pagination.limit, o.page.pagination.offset)
  {
    var limit := ParseInt(ParamOr(rawLimit, DefaultLimit));
    var offset := ParseInt(ParamOr(rawOffset, DefaultOffset));
    if userId.None? || userId.value == "" then Error(UserIdRequired)
    else if limit.None? || limit.value < 0 || offset.None? || offset.value < 0 then Unmodelled
    else Page(PageOf(log, userId.value, limit.value, offset.value))
  }

  /** Parameters that parse to non-negative numbers ask for the page at that offset and limit. */
  lemma {:induction false} RequestedPage(userId: string, rawLimit: Option<string>, rawOffset: Option<string>, log: seq<LogEntry>,
                      limit: nat, offset: nat)
    requires userId != ""
    requires ParseInt(ParamOr(rawLimit, DefaultLimit)) == Some(limit)
    requires ParseInt(ParamOr(rawOffset, DefaultOffset)) == Some(offset)
    ensures RecentLogs(Some(userId), rawLimit, rawOffset, log) == Page(PageOf(log, userId, limit, offset))
  {
  }

  /** Absent or empty `limit` and `offset` ask for the ten most recent entries. */
  lemma {:induction false} DefaultsApply(userId: string, rawLimit: Option<string>, rawOffset: Option<string>, log: seq<LogEntry>)
    requires userId != ""
    requires rawLimit.None? || rawLimit.value == ""
    requires rawOffset.None? || rawOffset.value == ""
    ensures RecentLogs(Some(userId), rawLimit, rawOffset, log) == Page(PageOf(log, userId, 10, 0))
  {
    DefaultLimitIsTen();
    DefaultOffsetIsZero();
  }

  lemma {:induction false} DefaultLimitIsTen()
    ensures ParseInt(DefaultLimit) == Some(10)
  {
    TenNumeral();
    NumeralParses(DefaultLimit, 10);
  }

  /** The numeral of ten. */
  lemma {:induction false} TenNumeral()
    ensures DecimalString(10) == DefaultLimit
  {
    assert DecimalString(1) == "1";
  }

  lemma {:induction false} DefaultOffsetIsZero()
    ensures ParseInt(DefaultOffset) == Some(0)
  {
    assert DecimalString(0) == DefaultOffset;
    NumeralParses(DefaultOffset, 0);
  }

  /** `hasMore` holds exactly when entries remain after this page. */
  lemma {:induction false} HasMoreIffEntriesRemain(log: seq<LogEntry>, userId: string, limit: nat, offset: nat)
    ensures var p := PageOf(log, userId, limit, offset);
            p.pagination.hasMore <==> offset + |p.logEntries| < p.pagination.total
  {
  }

  /** Consecutive pages tile the sorted entries: nothing is skipped or shown twice. */
  lemma {:induction false} PagesTile(log: seq<LogEntry>, userId: string, limit: nat, offset: nat)
    ensures var all := Newest(log, userId);
            Window(all, offset, limit) + Window(all, offset + limit, limit) == Window(all, offset, 2 * limit)
  {
    WindowsTile(Newest(log, userId), offset, limit);
  }

  /** Two consecutive windows of one size make up the window of twice the size. */
  lemma {:induction false} WindowsTile<T>(s: seq<T>, offset: nat, limit: nat)
    ensures Window(s, offset, limit) + Window(s, offset + limit, limit) == Window(s, offset, 2 * limit)
  {
    if offset >= |s| {
    } else if offset + limit >= |s| {
      assert Window(s, offset + limit, limit) == [];
      assert Window(s, offset, limit) == s[offset..] == Window(s, offset, 2 * limit);
    } else {
      var end := Min(offset + 2 * limit, |s|);
      assert Window(s, offset, limit) == s[offset..offset + limit];
      assert Window(s, offset + limit, limit) == s[offset + limit..end];
      assert Window(s, offset, 2 * limit) == s[offset..end];
      assert s[offset..end] == s[offset..offset + limit] + s[offset + limit..end];
    }
  }
}
