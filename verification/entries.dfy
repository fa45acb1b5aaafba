/**
  The persisted log entry shared by every endpoint, with the local calendar
  reading of its timestamp passed in as plain integers.
 */
module Entries {
  import opened Wrappers
  import opened Seqs

  /** `Date.prototype.getDay()`: 0 is Sunday. */
  type Weekday = w: int | 0 <= w < 7

  /** `Date.prototype.getHours()`. */
  type Hour = h: int | 0 <= h < 24

  /** `Date.prototype.getDate()`: the day of the month. */
  type MonthDay = d: int | 1 <= d <= 31 witness 1

  /**
    A timestamp: the instant in milliseconds since the epoch together with its
    calendar readings: the day number of its UTC date (the `YYYY-MM-DD` of
    `toISOString()`), the day number of its local date, and the local day of
    the month, weekday and hour. How the readings follow from the instant
    (time zone, locale) is not modelled.
   */
  datatype Stamp = Stamp(instant: int, utcDate: int, date: int, monthDay: MonthDay, weekday: Weekday, hour: Hour)

  /**
    One row of the `logEntry` table. `slugId`, the public link of an entry, is
    absent on rows whose creator does not set it.
   */
  datatype LogEntry = LogEntry(
    id: string,
    slugId: Option<string>,
    userId: string,
    calories: real,
    fats: real,
    carbohydrates: real,
    proteins: real,
    sugars: real,
    notes: string,
    slug: string,
    stamp: Stamp)

  const DayNames: seq<string> := ["Sunday", "Monday", "Tuesday", "Wednesday", "Thursday", "Friday", "Saturday"]

  const MsPerDay: int := 86_400_000

  function Calories(e: LogEntry): real { e.calories }
  function Fats(e: LogEntry): real { e.fats }
  function Carbohydrates(e: LogEntry): real { e.carbohydrates }
  function Proteins(e: LogEntry): real { e.proteins }
  function Sugars(e: LogEntry): real { e.sugars }

  /** The timestamp as a sort key. */
  function Instant(e: LogEntry): int { e.stamp.instant }

  /** `where: { userId }`: the entries owned by one user, in stored order. */
  function OwnedBy(log: seq<LogEntry>, userId: string): (r: seq<LogEntry>)
    ensures forall e :: e in r <==> e in log && e.userId == userId
    ensures IsSubsequence(r, log)
  {
    Filter(log, (e: LogEntry) => e.userId == userId)
  }

  /** No nutrient field of the entry is negative. */
  predicate NonNegative(e: LogEntry) {
    e.calories >= 0.0 && e.fats >= 0.0 && e.carbohydrates >= 0.0 && e.proteins >= 0.0 && e.sugars >= 0.0
  }
}
