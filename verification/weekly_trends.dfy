/**
  GET /api/weekly-trends: calories and protein of the last seven days, summed
  per weekday into a fixed Sunday..Saturday chart, with empty days filled from
  their neighbours.
 */
module WeeklyTrends {
  import opened Wrappers
  import opened Seqs
  import opened Entries
  import opened Http
  import Numbers

  // ----- Buckets per weekday -----

  /** The entries logged on weekday `d`, in order. */
  function OnWeekday(entries: seq<LogEntry>, d: Weekday): seq<LogEntry> {
    Filter(entries, (e: LogEntry) => e.stamp.weekday == d)
  }

  /** The seven empty buckets, Sunday first. */
  function EmptyWeek(): (b: seq<real>)
    ensures |b| == 7 && forall d :: 0 <= d < 7 ==> b[d] == 0.0
  {
    seq(7, _ => 0.0)
  }

  /** `forEach`: adds each entry's `field` to the bucket of its weekday, in order. */
  function Bucket(entries: seq<LogEntry>, field: LogEntry -> real): (b: seq<real>)
    ensures |b| == 7
    ensures forall d: Weekday :: b[d] == SumOf(OnWeekday(entries, d), field)
    decreases |entries|
  {
    if |entries| == 0 then EmptyWeek()
    else
      var prefix := entries[..|entries| - 1];
      var e := entries[|entries| - 1];
      var b := Bucket(prefix, field);
      assert entries == prefix + [e];
      forall d: Weekday ensures SumOf(OnWeekday(entries, d), field)
                                == SumOf(OnWeekday(prefix, d), field) + (if e.stamp.weekday == d then field(e) else 0.0) {
        WeekdaySumSnoc(prefix, e, field, d);
      }
      b[e.stamp.weekday := b[e.stamp.weekday] + field(e)]
  }

  /** Appending an entry adds its `field` to the sum of its own weekday only. */
  lemma {:induction false} WeekdaySumSnoc(prefix: seq<LogEntry>, e: LogEntry, field: LogEntry -> real, d: Weekday)
    ensures SumOf(OnWeekday(prefix + [e], d), field)
            == SumOf(OnWeekday(prefix, d), field) + (if e.stamp.weekday == d then field(e) else 0.0)
  {
    FilterConcat(prefix, [e], (x: LogEntry) => x.stamp.weekday == d);
    SumOfConcat(OnWeekday(prefix, d), OnWeekday([e], d), field);
  }

  /** The raw calories per weekday. */
  function RawCalories(entries: seq<LogEntry>): (b: seq<real>)
    ensures |b| == 7
  {
    Bucket(entries, Calories)
  }

  /** The raw protein per weekday. */
  function RawProtein(entries: seq<LogEntry>): (b: seq<real>)
    ensures |b| == 7
  {
    Bucket(entries, Proteins)
  }

  /** Entries from different dates that share a weekday land in one bucket: buckets add up. */
  lemma {:induction false} BucketMerges(a: seq<LogEntry>, b: seq<LogEntry>, field: LogEntry -> real, d: Weekday)
    ensures Bucket(a + b, field)[d] == Bucket(a, field)[d] + Bucket(b, field)[d]
  {
    FilterConcat(a, b, (x: LogEntry) => x.stamp.weekday == d);
    SumOfConcat(OnWeekday(a, d), OnWeekday(b, d), field);
  }

  // ----- Smoothing -----

  /** The positive raw values of the previous and the next day; no wrap-around past Sunday or Saturday. */
  function PositiveNeighbours(raw: seq<real>, i: nat): (n: seq<real>)
    requires |raw| == 7 && i < 7
    ensures |n| == (if PrevPositive(raw, i) then 1 else 0) + (if NextPositive(raw, i) then 1 else 0)
    ensures forall k :: 0 <= k < |n| ==> n[k] > 0.0
    ensures forall k :: 0 <= k < |n| ==> (i > 0 && n[k] == raw[i - 1]) || (i < 6 && n[k] == raw[i + 1])
    ensures PrevPositive(raw, i) ==> n[0] == raw[i - 1]
    ensures NextPositive(raw, i) ==> n[|n| - 1] == raw[i + 1]
  {
    (if i > 0 && raw[i - 1] > 0.0 then [raw[i - 1]] else [])
    + (if i < 6 && raw[i + 1] > 0.0 then [raw[i + 1]] else [])
  }

  function Mean(xs: seq<real>): real
    requires |xs| > 0
  {
    Sum(xs) / |xs| as real
  }

  /** Only the previous and the next day can feed the mean. */
  lemma {:induction false} NeighbourMean(raw: seq<real>, i: nat)
    requires |raw| == 7 && i < 7
    ensures var n := PositiveNeighbours(raw, i);
            (PrevPositive(raw, i) && NextPositive(raw, i) ==> |n| == 2 && Mean(n) == (raw[i - 1] + raw[i + 1]) / 2.0)
            && (PrevPositive(raw, i) && !NextPositive(raw, i) ==> |n| == 1 && Mean(n) == raw[i - 1])
            && (!PrevPositive(raw, i) && NextPositive(raw, i) ==> |n| == 1 && Mean(n) == raw[i + 1])
            && (!PrevPositive(raw, i) && !NextPositive(raw, i) ==> |n| == 0)
  {
    var n := PositiveNeighbours(raw, i);
    if |n| > 0 {
      assert Sum(n) == n[0] + Sum(n[1..]);
      if |n| == 2 {
        assert Sum(n[1..]) == n[1] + Sum(n[2..]);
      }
    }
  }

  /** The previous day has positive raw calories. */
  predicate PrevPositive(raw: seq<real>, i: nat)
    requires |raw| == 7 && i < 7
  {
    i > 0 && raw[i - 1] > 0.0
  }

  /** The next day has positive raw calories. */
  predicate NextPositive(raw: seq<real>, i: nat)
    requires |raw| == 7 && i < 7
  {
    i < 6 && raw[i + 1] > 0.0
  }

  /**
    A day's calories on the chart: its raw value unless that is zero; a zero
    day takes the rounded mean of its positive raw neighbours, or stays zero.
   */
  function SmoothCalories(raw: seq<real>, i: nat): (c: real)
    requires |raw| == 7 && i < 7
    ensures raw[i] != 0.0 ==> c == raw[i]
    ensures raw[i] == 0.0 && PrevPositive(raw, i) && NextPositive(raw, i) ==>
              c == Numbers.Round((raw[i - 1] + raw[i + 1]) / 2.0) as real
    ensures raw[i] == 0.0 && PrevPositive(raw, i) && !NextPositive(raw, i) ==>
              c == Numbers.Round(raw[i - 1]) as real
    ensures raw[i] == 0.0 && !PrevPositive(raw, i) && NextPositive(raw, i) ==>
              c == Numbers.Round(raw[i + 1]) as real
    ensures raw[i] == 0.0 && !PrevPositive(raw, i) && !NextPositive(raw, i) ==> c == 0.0
  {
    if raw[i] == 0.0 then
      var n := PositiveNeighbours(raw, i);
      NeighbourMean(raw, i);
      if |n| > 0 then Numbers.Round(Mean(n)) as real else raw[i]
    else raw[i]
  }

  /** Protein is smoothed the same way but rounded to one decimal place. */
  function SmoothProtein(raw: seq<real>, i: nat): (p: real)
    requires |raw| == 7 && i < 7
    ensures raw[i] != 0.0 ==> p == raw[i]
    ensures raw[i] == 0.0 && PrevPositive(raw, i) && NextPositive(raw, i) ==>
              p == Numbers.Round((raw[i - 1] + raw[i + 1]) / 2.0 * 10.0) as real / 10.0 && -0.05 < p - (raw[i - 1] + raw[i + 1]) / 2.0 <= 0.05
    ensures raw[i] == 0.0 && PrevPositive(raw, i) && !NextPositive(raw, i) ==>
              p == Numbers.Round(raw[i - 1] * 10.0) as real / 10.0 && -0.05 < p - raw[i - 1] <= 0.05
    ensures raw[i] == 0.0 && !PrevPositive(raw, i) && NextPositive(raw, i) ==>
              p == Numbers.Round(raw[i + 1] * 10.0) as real / 10.0 && -0.05 < p - raw[i + 1] <= 0.05
    ensures raw[i] == 0.0 && !PrevPositive(raw, i) && !NextPositive(raw, i) ==> p == 0.0
  {
    if raw[i] == 0.0 then
      var n := PositiveNeighbours(raw, i);
      NeighbourMean(raw, i);
      if |n| > 0 then Numbers.Round(Mean(n) * 10.0) as real / 10.0 else raw[i]
    else raw[i]
  }

  /** Smoothing looks only at the day itself and its two raw neighbours. */
  lemma {:induction false} SmoothingIsLocal(raw: seq<real>, raw': seq<real>, i: nat)
    requires |raw| == 7 && |raw'| == 7 && i < 7
    requires raw[i] == raw'[i]
    requires i > 0 ==> raw[i - 1] == raw'[i - 1]
    requires i < 6 ==> raw[i + 1] == raw'[i + 1]
    ensures SmoothCalories(raw, i) == SmoothCalories(raw', i)
    ensures SmoothProtein(raw, i) == SmoothProtein(raw', i)
  {
    assert PositiveNeighbours(raw, i) == PositiveNeighbours(raw', i);
  }

  /** With non-negative raw values, the smoothed values are non-negative too. */
  lemma {:induction false} SmoothingNonNegative(raw: seq<real>, i: nat)
    requires |raw| == 7 && i < 7
    requires forall k :: 0 <= k < 7 ==> raw[k] >= 0.0
    ensures SmoothCalories(raw, i) >= 0.0
    ensures SmoothProtein(raw, i) >= 0.0
  {
  }

  // ----- The chart -----

  /** One bar of the chart. */
  datatype ChartPoint = ChartPoint(day: string, calories: real, protein: real, fullDay: string, isSmoothed: bool)

  /** `days.map(...)`: one point per weekday, Sunday to Saturday. */
  function Chart(entries: seq<LogEntry>): (chart: seq<ChartPoint>)
    ensures |chart| == 7
    ensures forall i :: 0 <= i < 7 ==> chart[i].fullDay == DayNames[i] && chart[i].day == DayNames[i][..1]
    ensures var calories, protein := RawCalories(entries), RawProtein(entries);
            forall i :: 0 <= i < 7 ==>
              && (chart[i].isSmoothed <==> calories[i] == 0.0 || protein[i] == 0.0)
              && chart[i].calories == SmoothCalories(calories, i)
              && chart[i].protein == SmoothProtein(protein, i)
  {
    var calories := RawCalories(entries);
    var protein := RawProtein(entries);
    seq(7, i requires 0 <= i < 7 => Point(calories, protein, i))
  }

  /** The chart point of weekday `i` from the raw calories and protein. */
  function Point(calories: seq<real>, protein: seq<real>, i: nat): (p: ChartPoint)
    requires |calories| == 7 && |protein| == 7 && i < 7
    ensures p.fullDay == DayNames[i] && p.day == DayNames[i][..1]
    ensures p.isSmoothed <==> calories[i] == 0.0 || protein[i] == 0.0
    ensures p.calories == SmoothCalories(calories, i) && p.protein == SmoothProtein(protein, i)
  {
    ChartPoint(DayNames[i][..1], SmoothCalories(calories, i), SmoothProtein(protein, i), DayNames[i],
               calories[i] == 0.0 || protein[i] == 0.0)
  }

  /** A day with logged calories shows exactly the calories logged on that weekday. */
  lemma {:induction false} ChartKeepsLoggedDays(entries: seq<LogEntry>, d: Weekday)
    requires SumOf(OnWeekday(entries, d), Calories) != 0.0
    ensures Chart(entries)[d].calories == SumOf(OnWeekday(entries, d), Calories)
    ensures Chart(entries)[d].isSmoothed <==> SumOf(OnWeekday(entries, d), Proteins) == 0.0
  {
  }

  /** A week of entries without negative fields charts no negative value. */
  lemma {:induction false} ChartNonNegative(entries: seq<LogEntry>, d: Weekday)
    requires forall k :: 0 <= k < |entries| ==> NonNegative(entries[k])
    ensures Chart(entries)[d].calories >= 0.0 && Chart(entries)[d].protein >= 0.0
  {
    forall w: Weekday ensures RawCalories(entries)[w] >= 0.0 && RawProtein(entries)[w] >= 0.0 {
      var on := OnWeekday(entries, w);
      assert forall k :: 0 <= k < |on| ==> on[k] in entries;
      SumOfNonNegative(on, Calories);
      SumOfNonNegative(on, Proteins);
    }
    SmoothingNonNegative(RawCalories(entries), d);
    SmoothingNonNegative(RawProtein(entries), d);
  }

  // ----- The handler -----

  const UserIdRequired: ErrorReply := ErrorReply(400, "User ID is required")

  /**
    The user's entries logged from `start` up to `now`, both ends included.
    `start` is the same wall-clock time seven local calendar days before `now`.
   */
  function Window(log: seq<LogEntry>, userId: string, start: int, now: int): (r: seq<LogEntry>)
    ensures forall e :: e in r <==> e in log && e.userId == userId && start <= e.stamp.instant <= now
    ensures IsSubsequence(r, log)
  {
    var owned := OwnedBy(log, userId);
    var r := Filter(owned, (e: LogEntry) => start <= e.stamp.instant <= now);
    SubsequenceTransitive(r, owned, log);
    r
  }

  /** The reply of a successful request: the chart and the number of entries summed. */
  datatype WeeklyReply = WeeklyReply(data: seq<ChartPoint>, totalEntries: nat)

  /** GET: `userId` is the query parameter; `start` and `now` bound the week. */
  function WeeklyTrends(userId: Option<string>, log: seq<LogEntry>, start: int, now: int): (r: Result<WeeklyReply, ErrorReply>)
    ensures r.Failure? <==> userId.None? || userId.value == ""
    ensures r.Failure? ==> r.error == UserIdRequired
    ensures r.Success? ==> |r.value.data| == 7
    ensures r.Success? ==> r.value.data == Chart(Window(log, userId.value, start, now))
    ensures r.Success? ==> r.value.totalEntries == |Window(log, userId.value, start, now)|
  {
    if userId.None? || userId.value == "" then Failure(UserIdRequired)
    else
      var entries := Window(log, userId.value, start, now);
      Success(WeeklyReply(Chart(entries), |entries|))
  }
}
