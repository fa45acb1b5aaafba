/**
  GET /api/last-10-days: the user's entries of the last thirty days summed per
  date, of which the ten most recent dates are charted oldest first.
 */
module LastTenDays {
  import opened Wrappers
  import opened Seqs
  import opened Entries
  import opened Http
  import opened Sorting
  import Numbers

  // ----- Grouping by date -----

  /**
    One entry of `dailyData`: the sums of one UTC date (`key`) and the local
    calendar reading of the first entry that opened it.
   */
  datatype DayTotal = DayTotal(key: int, date: int, monthDay: MonthDay, weekday: Weekday, calories: real, protein: real)

  /** The local date as a sort key. */
  function Date(g: DayTotal): int { g.date }

  /** Some group has `key`, as `dailyData[dateKey]` being defined. */
  predicate HasKey(groups: seq<DayTotal>, key: int) {
    exists i :: 0 <= i < |groups| && groups[i].key == key
  }

  /** No two groups share a key, as keys of an object. */
  predicate DistinctKeys(groups: seq<DayTotal>) {
    forall i, j :: 0 <= i < j < |groups| ==> groups[i].key != groups[j].key
  }

  /** The entries whose UTC date is `key`, in order. */
  function OnDay(entries: seq<LogEntry>, key: int): seq<LogEntry> {
    Filter(entries, (e: LogEntry) => e.stamp.utcDate == key)
  }

  /**
    `g` holds the sums of the entries of its date, and the calendar reading of
    the first of them.
   */
  predicate Describes(g: DayTotal, entries: seq<LogEntry>) {
    var on := OnDay(entries, g.key);
    && |on| > 0
    && g.date == on[0].stamp.date && g.monthDay == on[0].stamp.monthDay && g.weekday == on[0].stamp.weekday
    && g.calories == SumOf(on, Calories) && g.protein == SumOf(on, Proteins)
  }

  /** `groups` is `dailyData` for `entries`: one group per date present, each describing its date. */
  predicate GroupsOf(groups: seq<DayTotal>, entries: seq<LogEntry>) {
    && DistinctKeys(groups)
    && (forall i :: 0 <= i < |groups| ==> Describes(groups[i], entries))
    && (forall e :: e in entries ==> HasKey(groups, e.stamp.utcDate))
  }

  /** The position of the group with `key`, or `|groups|` when there is none. */
  function Find(groups: seq<DayTotal>, key: int): (i: nat)
    ensures i <= |groups|
    ensures i < |groups| ==> groups[i].key == key
    ensures i == |groups| <==> !HasKey(groups, key)
    decreases |groups|
  {
    if |groups| == 0 then 0
    else if groups[0].key == key then 0
    else
      HasKeyTail(groups, key);
      1 + Find(groups[1..], key)
  }

  /** Past a first group with another key, the key is present exactly when the rest has it. */
  lemma {:induction false} HasKeyTail(groups: seq<DayTotal>, key: int)
    requires |groups| > 0 && groups[0].key != key
    ensures HasKey(groups, key) <==> HasKey(groups[1..], key)
  {
    if HasKey(groups, key) {
      var i :| 0 <= i < |groups| && groups[i].key == key;
      assert groups[1..][i - 1] == groups[i];
    }
    if HasKey(groups[1..], key) {
      var i :| 0 <= i < |groups| - 1 && groups[1..][i].key == key;
      assert groups[i + 1] == groups[1..][i];
    }
  }

  /** A group holding only `e`. */
  function Open(e: LogEntry): DayTotal {
    DayTotal(e.stamp.utcDate, e.stamp.date, e.stamp.monthDay, e.stamp.weekday, e.calories, e.proteins)
  }

  /** One step of the `forEach`: opens the group of `e`'s date if missing, then adds `e` to it. */
  function Add(groups: seq<DayTotal>, e: LogEntry): (r: seq<DayTotal>)
    ensures |r| == |groups| || r == groups + [Open(e)]
  {
    var i := Find(groups, e.stamp.utcDate);
    if i == |groups| then groups + [Open(e)]
    else groups[i := groups[i].(calories := groups[i].calories + e.calories, protein := groups[i].protein + e.proteins)]
  }

  /** Filtering by date splits over appending one entry. */
  lemma {:induction false} OnDaySnoc(prefix: seq<LogEntry>, e: LogEntry, key: int)
    ensures OnDay(prefix + [e], key) == OnDay(prefix, key) + (if e.stamp.utcDate == key then [e] else [])
  {
    FilterConcat(prefix, [e], (x: LogEntry) => x.stamp.utcDate == key);
    assert [e][1..] == [];
  }

  /** A group whose date `e` does not have still describes its date after `e`. */
  lemma {:induction false} DescribesOther(g: DayTotal, prefix: seq<LogEntry>, e: LogEntry)
    requires Describes(g, prefix) && g.key != e.stamp.utcDate
    ensures Describes(g, prefix + [e])
  {
    OnDaySnoc(prefix, e, g.key);
    assert OnDay(prefix + [e], g.key) == OnDay(prefix, g.key);
  }

  /** Adding `e` to the group of its date keeps that group describing it. */
  lemma {:induction false} DescribesGrown(g: DayTotal, prefix: seq<LogEntry>, e: LogEntry)
    requires Describes(g, prefix) && g.key == e.stamp.utcDate
    ensures Describes(g.(calories := g.calories + e.calories, protein := g.protein + e.proteins), prefix + [e])
  {
    var on := OnDay(prefix, g.key);
    OnDaySnoc(prefix, e, g.key);
    SumOfConcat(on, [e], Calories);
    SumOfConcat(on, [e], Proteins);
  }

  /** A date absent before `e` is described by the group `e` opens. */
  lemma {:induction false} DescribesOpened(prefix: seq<LogEntry>, e: LogEntry)
    requires forall x :: x in prefix ==> x.stamp.utcDate != e.stamp.utcDate
    ensures Describes(Open(e), prefix + [e])
  {
    FilterNone(prefix, (x: LogEntry) => x.stamp.utcDate == e.stamp.utcDate);
    OnDaySnoc(prefix, e, e.stamp.utcDate);
    assert OnDay(prefix + [e], e.stamp.utcDate) == [e];
  }

  /** One step of the `forEach` keeps `dailyData` describing the entries seen so far. */
  lemma {:induction false} AddKeepsGroups(groups: seq<DayTotal>, prefix: seq<LogEntry>, e: LogEntry)
    requires GroupsOf(groups, prefix)
    ensures GroupsOf(Add(groups, e), prefix + [e])
  {
    AddKeepsDistinct(groups, e);
    AddKeepsCover(groups, prefix, e);
    if Find(groups, e.stamp.utcDate) == |groups| {
      AddOpenedDescribes(groups, prefix, e);
    } else {
      AddGrownDescribes(groups, prefix, e);
    }
  }

  /** Adding an entry never makes two groups share a key. */
  lemma {:induction false} AddKeepsDistinct(groups: seq<DayTotal>, e: LogEntry)
    requires DistinctKeys(groups)
    ensures DistinctKeys(Add(groups, e))
  {
    var k := e.stamp.utcDate;
    var r := Add(groups, e);
    if Find(groups, k) == |groups| {
      forall p, q | 0 <= p < q < |r| ensures r[p].key != r[q].key {
        if q == |groups| {
          assert r[p] == groups[p];
        } else {
          assert r[p] == groups[p] && r[q] == groups[q];
        }
      }
    }
  }

  /** After adding an entry, every entry seen so far has a group. */
  lemma {:induction false} AddKeepsCover(groups: seq<DayTotal>, prefix: seq<LogEntry>, e: LogEntry)
    requires forall x :: x in prefix ==> HasKey(groups, x.stamp.utcDate)
    ensures forall x :: x in prefix + [e] ==> HasKey(Add(groups, e), x.stamp.utcDate)
  {
    var k := e.stamp.utcDate;
    var i := Find(groups, k);
    var r := Add(groups, e);
    assert r[i].key == k;
    forall x | x in prefix + [e] ensures HasKey(r, x.stamp.utcDate) {
      if x != e {
        assert x in prefix && HasKey(groups, x.stamp.utcDate);
        var j :| 0 <= j < |groups| && groups[j].key == x.stamp.utcDate;
        assert r[j].key == groups[j].key;
      }
    }
  }

  /** Opening a group for a new date keeps every group describing its date. */
  lemma {:induction false} AddOpenedDescribes(groups: seq<DayTotal>, prefix: seq<LogEntry>, e: LogEntry)
    requires GroupsOf(groups, prefix) && Find(groups, e.stamp.utcDate) == |groups|
    ensures forall j :: 0 <= j < |groups| + 1 ==> Describes(Add(groups, e)[j], prefix + [e])
  {
    var k := e.stamp.utcDate;
    var r := Add(groups, e);
    assert r == groups + [Open(e)];
    forall j | 0 <= j < |groups| ensures Describes(r[j], prefix + [e]) {
      assert groups[j].key != k;
      DescribesOther(groups[j], prefix, e);
    }
    forall x | x in prefix ensures x.stamp.utcDate != k {
      assert HasKey(groups, x.stamp.utcDate);
    }
    DescribesOpened(prefix, e);
  }

  /** Adding to the group of an existing date keeps every group describing its date. */
  lemma {:induction false} AddGrownDescribes(groups: seq<DayTotal>, prefix: seq<LogEntry>, e: LogEntry)
    requires DistinctKeys(groups) && forall j :: 0 <= j < |groups| ==> Describes(groups[j], prefix)
    requires Find(groups, e.stamp.utcDate) < |groups|
    ensures forall j :: 0 <= j < |groups| ==> Describes(Add(groups, e)[j], prefix + [e])
  {
    forall j | 0 <= j < |groups| ensures Describes(Add(groups, e)[j], prefix + [e]) {
      AddGrownDescribesOne(groups, prefix, e, j);
    }
  }

  /** The `j`-th group after adding to an existing date. */
  lemma {:induction false} AddGrownDescribesOne(groups: seq<DayTotal>, prefix: seq<LogEntry>, e: LogEntry, j: nat)
    requires DistinctKeys(groups) && j < |groups| && Describes(groups[j], prefix)
    requires Find(groups, e.stamp.utcDate) < |groups| && Describes(groups[Find(groups, e.stamp.utcDate)], prefix)
    ensures Describes(Add(groups, e)[j], prefix + [e])
  {
    var i := Find(groups, e.stamp.utcDate);
    var g := groups[i];
    var r := groups[i := g.(calories := g.calories + e.calories, protein := g.protein + e.proteins)];
    assert Add(groups, e) == r;
    if j == i {
      DescribesGrown(g, prefix, e);
    } else {
      assert r[j] == groups[j];
      assert groups[j].key != g.key;
      DescribesOther(groups[j], prefix, e);
    }
  }

  /** `logEntries.forEach(...)` into `dailyData`, in the order the entries come. */
  function Group(entries: seq<LogEntry>): seq<DayTotal>
    decreases |entries|
  {
    if |entries| == 0 then [] else Add(Group(entries[..|entries| - 1]), entries[|entries| - 1])
  }

  /** `dailyData` ends up with one group per date, each holding that date's sums. */
  lemma {:induction false} GroupIsGroupsOf(entries: seq<LogEntry>)
    ensures GroupsOf(Group(entries), entries)
    decreases |entries|
  {
    if |entries| > 0 {
      var prefix := entries[..|entries| - 1];
      var e := entries[|entries| - 1];
      assert prefix + [e] == entries;
      var before := Group(prefix);
      assert Group(entries) == Add(before, e);
      GroupIsGroupsOf(prefix);
      AddKeepsGroups(before, prefix, e);
    }
  }

  /** Every date present in the entries has exactly one group. */
  lemma {:induction false} GroupPerDate(entries: seq<LogEntry>, key: int)
    ensures HasKey(Group(entries), key) <==> |OnDay(entries, key)| > 0
  {
    var groups := Group(entries);
    var on := OnDay(entries, key);
    GroupIsGroupsOf(entries);
    if HasKey(groups, key) {
      var i :| 0 <= i < |groups| && groups[i].key == key;
      assert Describes(groups[i], entries);
    }
    if |on| > 0 {
      assert on[0] in on;
    }
  }

  // ----- The ten most recent dates -----

  const MaxDays: nat := 10

  /** `.sort(date desc).slice(0, 10).reverse()`: the latest ten groups, oldest first. */
  function Latest(groups: seq<DayTotal>): (r: seq<DayTotal>)
    ensures |r| == Min(MaxDays, |groups|)
    ensures DatesAscending(r)
    ensures multiset(r) <= multiset(groups)
  {
    var sorted := SortDesc(groups, Date);
    var n := Min(MaxDays, |sorted|);
    ReversedPrefixAscending(sorted, n);
    Reverse(sorted[..n])
  }

  /** The first `n` of a sequence sorted newest first, reversed, run oldest first and come from it. */
  lemma {:induction false} ReversedPrefixAscending(sorted: seq<DayTotal>, n: nat)
    requires SortedDesc(sorted, Date) && n <= |sorted|
    ensures DatesAscending(Reverse(sorted[..n]))
    ensures multiset(Reverse(sorted[..n])) <= multiset(sorted)
  {
    var r := Reverse(sorted[..n]);
    forall i, j | 0 <= i < j < |r| ensures r[i].date <= r[j].date {
      assert r[i] == sorted[..n][n - 1 - i] == sorted[n - 1 - i];
      assert r[j] == sorted[..n][n - 1 - j] == sorted[n - 1 - j];
      assert Date(sorted[n - 1 - j]) >= Date(sorted[n - 1 - i]);
    }
    assert sorted == sorted[..n] + sorted[n..];
  }

  /** In a sequence sorted newest first, an element outside the first `n` is no newer than any of them. */
  lemma {:induction false} DroppedNotNewer(sorted: seq<DayTotal>, n: nat, g: DayTotal)
    requires SortedDesc(sorted, Date) && n <= |sorted|
    requires g in sorted && g !in sorted[..n]
    ensures forall k :: 0 <= k < n ==> g.date <= sorted[k].date
  {
    assert forall q :: 0 <= q < n ==> sorted[q] == sorted[..n][q];
    var p :| 0 <= p < |sorted| && sorted[p] == g;
    forall k | 0 <= k < n ensures g.date <= sorted[k].date {
      assert Date(sorted[k]) >= Date(sorted[p]);
    }
  }

  /** Only groups at least as old as every chosen one are dropped. */
  lemma {:induction false} LatestAreMostRecent(groups: seq<DayTotal>, g: DayTotal)
    requires g in groups && g !in Latest(groups)
    ensures forall k :: 0 <= k < |Latest(groups)| ==> g.date <= Latest(groups)[k].date
  {
    var sorted := SortDesc(groups, Date);
    assert g in multiset(groups);
    ReversedPrefixDropped(sorted, Min(MaxDays, |sorted|), g);
  }

  /** What the reversed first `n` of a newest-first sequence leaves out is no newer than what it keeps. */
  lemma {:induction false} ReversedPrefixDropped(sorted: seq<DayTotal>, n: nat, g: DayTotal)
    requires SortedDesc(sorted, Date) && n <= |sorted|
    requires g in sorted && g !in Reverse(sorted[..n])
    ensures forall k :: 0 <= k < n ==> g.date <= Reverse(sorted[..n])[k].date
  {
    var r := Reverse(sorted[..n]);
    assert g !in sorted[..n] by {
      assert multiset(r) == multiset(sorted[..n]);
      assert g !in multiset(r);
    }
    DroppedNotNewer(sorted, n, g);
    forall k | 0 <= k < n ensures g.date <= r[k].date {
      assert r[k] == sorted[..n][n - 1 - k] == sorted[n - 1 - k];
    }
  }

  /** Every entry's UTC date and local date pick out the same days. */
  predicate DatesAgree(entries: seq<LogEntry>) {
    forall x, y :: x in entries && y in entries ==> (x.stamp.utcDate == y.stamp.utcDate <==> x.stamp.date == y.stamp.date)
  }

  /** When dates agree, different groups fall on different local dates. */
  lemma {:induction false} GroupDatesDistinct(entries: seq<LogEntry>)
    requires DatesAgree(entries)
    ensures DatesDistinct(Group(entries))
  {
    var groups := Group(entries);
    GroupIsGroupsOf(entries);
    forall p, q | 0 <= p < q < |groups| ensures groups[p].date != groups[q].date {
      var x := OnDay(entries, groups[p].key)[0];
      var y := OnDay(entries, groups[q].key)[0];
      assert Describes(groups[p], entries) && Describes(groups[q], entries);
      assert x in OnDay(entries, groups[p].key) && y in OnDay(entries, groups[q].key);
    }
  }

  /** No two groups share a local date. */
  predicate DatesDistinct(groups: seq<DayTotal>) {
    forall p, q :: 0 <= p < q < |groups| ==> groups[p].date != groups[q].date
  }

  /** Local dates never decrease from left to right. */
  predicate DatesAscending(groups: seq<DayTotal>) {
    forall i, j :: 0 <= i < j < |groups| ==> groups[i].date <= groups[j].date
  }

  /** Local dates strictly increase from left to right. */
  predicate DatesIncreasing(groups: seq<DayTotal>) {
    forall i, j :: 0 <= i < j < |groups| ==> groups[i].date < groups[j].date
  }

  /** Non-decreasing dates taken from groups with pairwise different dates strictly increase. */
  lemma {:induction false} AscendingFromDistinctDates(chosen: seq<DayTotal>, groups: seq<DayTotal>)
    requires multiset(chosen) <= multiset(groups)
    requires DatesDistinct(groups) && DatesAscending(chosen)
    ensures DatesIncreasing(chosen)
  {
    assert Distinct(groups);
    SubmultisetDistinct(chosen, groups);
    forall i, j | 0 <= i < j < |chosen| ensures chosen[i].date < chosen[j].date {
      assert chosen[i] in multiset(groups) && chosen[j] in multiset(groups);
      var p :| 0 <= p < |groups| && groups[p] == chosen[i];
      var q :| 0 <= q < |groups| && groups[q] == chosen[j];
      assert p != q;
    }
  }

  /** When dates agree, the chart's dates strictly increase. */
  lemma {:induction false} LatestStrictlyAscending(entries: seq<LogEntry>)
    requires DatesAgree(entries)
    ensures DatesIncreasing(Latest(Group(entries)))
  {
    var groups := Group(entries);
    var chosen := Latest(groups);
    GroupDatesDistinct(entries);
    assert DatesDistinct(groups);
    assert DatesAscending(chosen);
    AscendingFromDistinctDates(chosen, groups);
  }

  // ----- The handler -----

  /** One bar of the chart. */
  datatype ChartDay = ChartDay(day: string, calories: real, protein: real, fullDay: string, date: int, dayNumber: nat)

  /** `chartData`'s mapping of the `index`-th chosen group. */
  function ToChartDay(g: DayTotal, index: nat): (c: ChartDay)
    ensures c.calories == g.calories && c.protein == g.protein && c.date == g.date
    ensures Numbers.AllDigits(c.day) && Numbers.DigitsValue(c.day) == g.monthDay && c.fullDay == DayNames[g.weekday]
    ensures c.dayNumber == index + 1
  {
    ChartDay(Numbers.DecimalString(g.monthDay), g.calories, g.protein, DayNames[g.weekday], g.date, index + 1)
  }

  /** `chosen.map((day, index) => ...)`. */
  function Bars(chosen: seq<DayTotal>): (bars: seq<ChartDay>)
    ensures |bars| == |chosen|
    ensures forall i :: 0 <= i < |chosen| ==> bars[i] == ToChartDay(chosen[i], i)
  {
    seq(|chosen|, i requires 0 <= i < |chosen| => ToChartDay(chosen[i], i))
  }

  const UserIdRequired: ErrorReply := ErrorReply(400, "User ID is required")

  /** The user's entries from `start` on (thirty local days before now), most recent first. */
  function Window(log: seq<LogEntry>, userId: string, start: int): (r: seq<LogEntry>)
    ensures forall e :: e in r <==> e in log && e.userId == userId && e.stamp.instant >= start
    ensures SortedDesc(r, Instant)
  {
    var w := Filter(OwnedBy(log, userId), (e: LogEntry) => e.stamp.instant >= start);
    var r := SortDesc(w, Instant);
    assert forall e :: e in r <==> e in multiset(w);
    r
  }

  /** The reply of a successful request. */
  datatype TenDaysReply = TenDaysReply(data: seq<ChartDay>, totalEntries: nat, daysWithData: nat)

  /** GET: `userId` is the query parameter, `start` the instant thirty days ago. */
  function LastTenDays(userId: Option<string>, log: seq<LogEntry>, start: int): (r: Result<TenDaysReply, ErrorReply>)
    ensures r.Failure? <==> userId.None? || userId.value == ""
    ensures r.Failure? ==> r.error == UserIdRequired
    ensures r.Success? ==>
              var entries := Window(log, userId.value, start);
              var chosen := Latest(Group(entries));
              && r.value.totalEntries == |entries|
              && r.value.daysWithData == |Group(entries)|
              && |r.value.data| == Min(MaxDays, r.value.daysWithData)
              && forall i :: 0 <= i < |r.value.data| ==> r.value.data[i] == ToChartDay(chosen[i], i)
  {
    if userId.None? || userId.value == "" then Failure(UserIdRequired)
    else
      var entries := Window(log, userId.value, start);
      var groups := Group(entries);
      var chosen := Latest(groups);
      Success(TenDaysReply(Bars(chosen), |entries|, |groups|))
  }

  /** Every chosen group holds the sums of one date present in the entries. */
  lemma {:induction false} ChosenDescribesDate(entries: seq<LogEntry>, i: nat)
    requires i < |Latest(Group(entries))|
    ensures Describes(Latest(Group(entries))[i], entries)
  {
    var groups := Group(entries);
    var chosen := Latest(groups);
    GroupIsGroupsOf(entries);
    SubmultisetMember(chosen, groups, i);
    var p :| 0 <= p < |groups| && groups[p] == chosen[i];
    assert Describes(groups[p], entries);
  }

  // ----- UTC keys against local dates -----

  /** Two entries on different UTC dates open a group each. */
  lemma {:induction false} TwoDatesTwoGroups(a: LogEntry, b: LogEntry)
    requires a.stamp.utcDate != b.stamp.utcDate
    ensures Group([a, b]) == [Open(a), Open(b)]
  {
    assert [a, b][..1] == [a] && [a][..0] == [];
    assert Group([a]) == Add([], a) == [Open(a)];
    assert Find([Open(a)], b.stamp.utcDate) == 1 + Find([], b.stamp.utcDate) == 1;
  }

  /** Two entries on one local date but different UTC dates give two bars with that date. */
  lemma {:induction false} SplitLocalDate(a: LogEntry, b: LogEntry)
    requires a.stamp.utcDate != b.stamp.utcDate && a.stamp.date == b.stamp.date
    ensures var chosen := Latest(Group([a, b]));
            |chosen| == 2 && chosen[0].date == chosen[1].date == a.stamp.date
  {
    TwoDatesTwoGroups(a, b);
    var groups := Group([a, b]);
    var chosen := Latest(groups);
    assert chosen[0] in multiset(groups) && chosen[1] in multiset(groups);
  }

  /**
    Two meals eaten on the same local day, 10:00 and 21:00 on Thursday
    1 January 1970 five hours west of Greenwich, fall on two UTC dates.
    They get two groups, and so two bars with the same local date.
   */
  lemma {:induction false} SameLocalDateTwice()
    ensures var morning := LogEntry("a", None, "u", 500.0, 10.0, 60.0, 30.0, 5.0, "", "", Stamp(54_000_000, 0, 0, 1, 4, 10));
            var evening := LogEntry("b", None, "u", 700.0, 20.0, 80.0, 40.0, 9.0, "", "", Stamp(93_600_000, 1, 0, 1, 4, 21));
            var chosen := Latest(Group([evening, morning]));
            |chosen| == 2 && chosen[0].date == chosen[1].date == 0
  {
    var morning := LogEntry("a", None, "u", 500.0, 10.0, 60.0, 30.0, 5.0, "", "", Stamp(54_000_000, 0, 0, 1, 4, 10));
    var evening := LogEntry("b", None, "u", 700.0, 20.0, 80.0, 40.0, 9.0, "", "", Stamp(93_600_000, 1, 0, 1, 4, 21));
    SplitLocalDate(evening, morning);
  }

  /** The entries with their UTC date replaced by their local date, so that grouping is by local day. */
  function Localize(entries: seq<LogEntry>): (r: seq<LogEntry>)
    ensures |r| == |entries|
    ensures forall i :: 0 <= i < |entries| ==>
              r[i] == entries[i].(stamp := entries[i].stamp.(utcDate := entries[i].stamp.date))
    ensures DatesAgree(r)
  {
    seq(|entries|, i requires 0 <= i < |entries| => entries[i].(stamp := entries[i].stamp.(utcDate := entries[i].stamp.date)))
  }

  /** The route with groups keyed by the local date, as its chart labels them. */
  function LastTenLocalDays(userId: Option<string>, log: seq<LogEntry>, start: int): (r: Result<TenDaysReply, ErrorReply>)
    ensures r.Failure? <==> userId.None? || userId.value == ""
    ensures r.Success? ==> |r.value.data| == Min(MaxDays, r.value.daysWithData)
    ensures r.Success? ==> forall i :: 0 <= i < |r.value.data| ==> r.value.data[i].dayNumber == i + 1
    ensures r.Success? ==> forall i, j :: 0 <= i < j < |r.value.data| ==> r.value.data[i].date < r.value.data[j].date
  {
    if userId.None? || userId.value == "" then Failure(UserIdRequired)
    else
      var entries := Localize(Window(log, userId.value, start));
      var groups := Group(entries);
      var chosen := Latest(groups);
      LatestStrictlyAscending(entries);
      Success(TenDaysReply(Bars(chosen), |entries|, |groups|))
  }
}
