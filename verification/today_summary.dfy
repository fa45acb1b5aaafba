/** GET /api/today-summary: how many meals the signed-in user logged today, and their totals. */
module TodaySummary {
  import opened Wrappers
  import opened Seqs
  import opened Entries
  import opened Http

  datatype Summary = Summary(
    mealsLogged: nat,
    totalCalories: real,
    totalProtein: real,
    totalCarbohydrates: real,
    totalFats: real,
    totalSugars: real)

  /**
    The user's entries from `startOfDay` (local midnight) to `endOfDay` (local
    23:59:59.999 of the same date), both included. The two are computed by the
    caller from the local calendar, so a day of 23 or 25 hours is what it is.
   */
  function Today(log: seq<LogEntry>, userId: string, startOfDay: int, endOfDay: int): (r: seq<LogEntry>)
    ensures forall e :: e in r <==> e in log && e.userId == userId && startOfDay <= e.stamp.instant <= endOfDay
    ensures IsSubsequence(r, log)
  {
    var owned := OwnedBy(log, userId);
    var r := Filter(owned, (e: LogEntry) => startOfDay <= e.stamp.instant <= endOfDay);
    SubsequenceTransitive(r, owned, log);
    r
  }

  /** The count and the per-field sums of `entries`; `totalProtein` sums `proteins`. */
  function Summarize(entries: seq<LogEntry>): (s: Summary)
    ensures s.mealsLogged == |entries|
    ensures |entries| == 0 ==> s == Summary(0, 0.0, 0.0, 0.0, 0.0, 0.0)
  {
    Summary(|entries|, SumOf(entries, Calories), SumOf(entries, Proteins), SumOf(entries, Carbohydrates),
            SumOf(entries, Fats), SumOf(entries, Sugars))
  }

  /** Summing two batches of entries adds their summaries. */
  lemma {:induction false} SummarizeAdds(a: seq<LogEntry>, b: seq<LogEntry>)
    ensures var s, sa, sb := Summarize(a + b), Summarize(a), Summarize(b);
            && s.mealsLogged == sa.mealsLogged + sb.mealsLogged
            && s.totalCalories == sa.totalCalories + sb.totalCalories
            && s.totalProtein == sa.totalProtein + sb.totalProtein
            && s.totalCarbohydrates == sa.totalCarbohydrates + sb.totalCarbohydrates
            && s.totalFats == sa.totalFats + sb.totalFats
            && s.totalSugars == sa.totalSugars + sb.totalSugars
  {
    SumOfConcat(a, b, Calories);
    SumOfConcat(a, b, Proteins);
    SumOfConcat(a, b, Carbohydrates);
    SumOfConcat(a, b, Fats);
    SumOfConcat(a, b, Sugars);
  }

  /** A single entry's summary is that entry's fields. */
  lemma {:induction false} SummarizeOne(e: LogEntry)
    ensures Summarize([e]) == Summary(1, e.calories, e.proteins, e.carbohydrates, e.fats, e.sugars)
  {
    SumOfSingle(e, Calories);
    SumOfSingle(e, Proteins);
    SumOfSingle(e, Carbohydrates);
    SumOfSingle(e, Fats);
    SumOfSingle(e, Sugars);
  }

  /** Entries without negative fields give no negative total. */
  lemma {:induction false} SummaryNonNegative(entries: seq<LogEntry>)
    requires forall k :: 0 <= k < |entries| ==> NonNegative(entries[k])
    ensures var s := Summarize(entries);
            s.totalCalories >= 0.0 && s.totalProtein >= 0.0 && s.totalCarbohydrates >= 0.0
            && s.totalFats >= 0.0 && s.totalSugars >= 0.0
  {
    SumOfNonNegative(entries, Calories);
    SumOfNonNegative(entries, Proteins);
    SumOfNonNegative(entries, Carbohydrates);
    SumOfNonNegative(entries, Fats);
    SumOfNonNegative(entries, Sugars);
  }

  /** GET for the signed-in user (if any); `startOfDay` and `endOfDay` are today's local midnight and 23:59:59.999. */
  function Handle(user: Option<User>, log: seq<LogEntry>, startOfDay: int, endOfDay: int): (r: Result<Summary, ErrorReply>)
    ensures r.Failure? <==> user.None?
    ensures r.Failure? ==> r.error == AuthRequired
    ensures r.Success? ==> r.value == Summarize(Today(log, user.value.id, startOfDay, endOfDay))
    ensures r.Success? ==> r.value.mealsLogged == |Today(log, user.value.id, startOfDay, endOfDay)|
  {
    if user.None? then Failure(AuthRequired)
    else Success(Summarize(Today(log, user.value.id, startOfDay, endOfDay)))
  }

  /**
    Only the entries of the day count: the window's ends are included, and
    the instants just beside them are not.
   */
  lemma {:induction false} WindowInclusive(log: seq<LogEntry>, userId: string, startOfDay: int, endOfDay: int, e: LogEntry)
    requires e in log && e.userId == userId && startOfDay <= endOfDay
    ensures e.stamp.instant == startOfDay ==> e in Today(log, userId, startOfDay, endOfDay)
    ensures e.stamp.instant == endOfDay ==> e in Today(log, userId, startOfDay, endOfDay)
    ensures e.stamp.instant == startOfDay - 1 ==> e !in Today(log, userId, startOfDay, endOfDay)
    ensures e.stamp.instant == endOfDay + 1 ==> e !in Today(log, userId, startOfDay, endOfDay)
  {
  }

  /**
    Consecutive local days, the second starting the millisecond after the
    first ends, never count one entry twice, and together count exactly the
    entries of both.
   */
  lemma {:induction false} ConsecutiveDays(log: seq<LogEntry>, userId: string, start1: int, end1: int, end2: int, e: LogEntry)
    requires start1 <= end1 < end2
    ensures !(e in Today(log, userId, start1, end1) && e in Today(log, userId, end1 + 1, end2))
    ensures e in Today(log, userId, start1, end2) <==>
            e in Today(log, userId, start1, end1) || e in Today(log, userId, end1 + 1, end2)
  {
  }

  /**
    On a day with a daylight-saving change the window is not 24 hours long:
    on a 23-hour day an instant 23.5 hours after midnight belongs to the next
    day, and on a 25-hour day an instant 24.5 hours after midnight still
    belongs to this one.
   */
  lemma {:induction false} DaylightSavingDays(log: seq<LogEntry>, userId: string, startOfDay: int, e: LogEntry)
    requires e in log && e.userId == userId
    ensures var hour := MsPerDay / 24;
            && (e.stamp.instant == startOfDay + 47 * hour / 2 ==>
                  e !in Today(log, userId, startOfDay, startOfDay + 23 * hour - 1))
            && (e.stamp.instant == startOfDay + 49 * hour / 2 ==>
                  e in Today(log, userId, startOfDay, startOfDay + 25 * hour - 1))
  {
  }
}
