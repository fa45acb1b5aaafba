# foodgoggles core, modelled in Dafny

foodgoggles is a meal-logging web application. A signed-in user describes a
meal in words; the server asks a language model for its nutrition, stores the
result as a log entry with a slug naming the weekday, the part of the day and
whether it was a snack or a meal, and the pages chart and list what was logged.

This project models the deterministic logic under that glue, with the
database, the clock, the model reply and randomness passed in as values:

- **analyze-meal** (`AnalyzeMeal`): the order of the guards; cleaning the
  model reply of markdown fences; checking the parsed record's field types;
  `generateSlug`; how thrown errors are classified; and the field mapping to
  the stored row and back.
- **weekly-trends** (`WeeklyTrends`): calories and protein summed per weekday
  into a fixed Sunday..Saturday chart. An empty day takes the rounded mean of
  its positive raw neighbours.
- **last-10-days** (`LastTenDays`): entries grouped by date key, the ten most
  recent dates charted oldest first, numbered 1..n.
- **today-summary** (`TodaySummary`): the authentication gate, the inclusive
  window from today's local midnight to its local 23:59:59.999, the count and
  the per-field sums.
- **logs/recent** (`RecentLogs`): the `limit`/`offset` defaults, the page
  window over newest-first entries, and the `hasMore`/`hasPrevious` flags.
- **goals** (`Goals`): GET with its default of 3500 for `calories` and 0
  otherwise, and PUT as an upsert keyed by the goal type alone.
- **log page** (`LogPage`, `MealNames`): the search filter, page to offset,
  the page-number buttons, the "Showing X to Y" range, and `formatMealName`.
- **components** (`RecentMeals`, `GoalModal`, `CaloriesEaten`): the slug to
  emoji and colour classifiers, the goal editor's positive-value check and its
  label and unit tables, and the capped calorie progress with its 3500
  fallbacks.
- **common meals** (`CommonMeals`): the example meals and the two pickers.
  The draw of `Math.random()` is a parameter.

Shared modules:

- `Entries` holds the stored log entry. A `Stamp` carries the instant together
  with its UTC date, local date, day of month, weekday and hour, as plain
  integers.
- `Json` holds parsed JSON values, JavaScript truthiness and `typeof`.
- `Numbers` holds `Math.round`, and `parseInt`/`parseFloat` on decimal
  numerals.
- `Text` holds trimming, `includes`, `slice` with negative indices, `split`
  and `join`, and ASCII case mapping.
- `Seqs` and `Sorting` hold filtering, sums and a stable sort by decreasing
  key.

## Model

| member | source | states |
|---|---|---|
| AnalyzeMeal.PeriodOf | src/app/api/analyze-meal/route.ts:13-30 | the hour lies in the returned band and in no other; the seven bands split the 24 hours without overlap, with night running from 23 through 4 |
| AnalyzeMeal.BandsFillDay | src/app/api/analyze-meal/route.ts:16-30 | the band lengths add up to exactly 24 hours |
| AnalyzeMeal.SizeOf | src/app/api/analyze-meal/route.ts:33 | a snack exactly when calories are below 100, a meal otherwise |
| AnalyzeMeal.GenerateSlug | src/app/api/analyze-meal/route.ts:9-36 | split on spaces, the slug is exactly the weekday name, the band name and snack/meal |
| AnalyzeMeal.RenderSlug | src/app/api/analyze-meal/route.ts:35 | the three words are joined by single spaces, so splitting on spaces recovers them |
| AnalyzeMeal.WeekdayNamed | src/app/api/analyze-meal/route.ts:10-11 | the reading of a weekday name is the inverse of the day-name table |
| AnalyzeMeal.PeriodNamed | src/app/api/analyze-meal/route.ts:15-30 | the reading of a band name is the inverse of the band-name table |
| AnalyzeMeal.SizeNamed | src/app/api/analyze-meal/route.ts:33 | the reading of snack/meal is the inverse of the size names |
| AnalyzeMeal.WeekdayNameReadsBack | src/app/api/analyze-meal/route.ts:10-11 | each weekday name reads back as its weekday |
| AnalyzeMeal.PeriodNameReadsBack | src/app/api/analyze-meal/route.ts:15-30 | each band name reads back as its band |
| AnalyzeMeal.SizeNameReadsBack | src/app/api/analyze-meal/route.ts:33 | each size name reads back as its size |
| AnalyzeMeal.ParseRenderSlug | src/app/api/analyze-meal/route.ts:35 | every rendered slug reads back as the parts it was made from |
| AnalyzeMeal.RenderParseSlug | src/app/api/analyze-meal/route.ts:35 | every text that reads as a slug is exactly the rendering of what was read |
| AnalyzeMeal.GenerateSlugReadsBack | src/app/api/analyze-meal/route.ts:9-36 | the slug of a logged meal reads back as its weekday, its hour's band and its size |
| AnalyzeMeal.UnfenceTrimmed | src/app/api/analyze-meal/route.ts:135-139 | removing a fence from trimmed text leaves trimmed text |
| AnalyzeMeal.StripFences | src/app/api/analyze-meal/route.ts:132-139 | the cleaned reply has no surrounding white space |
| AnalyzeMeal.FencedIsTrimmed | src/app/api/analyze-meal/route.ts:132 | a text opening and closing with backticks is left alone by the first trim |
| AnalyzeMeal.UnfenceJson | src/app/api/analyze-meal/route.ts:135-136 | a ```json fence loses 7 leading and 3 trailing characters and is re-trimmed |
| AnalyzeMeal.UnfenceBare | src/app/api/analyze-meal/route.ts:137-138 | a bare fence loses 3 and 3 characters and is re-trimmed |
| AnalyzeMeal.JsonFenced | src/app/api/analyze-meal/route.ts:135-136 | a body wrapped in a ```json fence starts and ends with the fences, and its inner slice is the body |
| AnalyzeMeal.BareFenced | src/app/api/analyze-meal/route.ts:137-138 | a body not starting with `json` wrapped in bare fences takes the second branch, and its inner slice is the body |
| AnalyzeMeal.StripJsonFence | src/app/api/analyze-meal/route.ts:132-139 | any body wrapped in a ```json fence comes back as the trimmed body |
| AnalyzeMeal.StripBareFence | src/app/api/analyze-meal/route.ts:132-139 | a body in bare fences comes back trimmed, unless it starts with the `json` tag |
| AnalyzeMeal.StripUnfenced | src/app/api/analyze-meal/route.ts:132-139 | a reply not opening with a fence is only trimmed |
| AnalyzeMeal.StripOverlappingFences | src/app/api/analyze-meal/route.ts:135-139 | when the opening and closing fences overlap, the slice is empty instead of an error |
| AnalyzeMeal.Validate | src/app/api/analyze-meal/route.ts:158-170 | a `null` reply fails on reading a field. Otherwise validation succeeds exactly when the five nutrients are numbers and notes is a string, and the analysis holds exactly those field values |
| AnalyzeMeal.ValidateEncode | src/app/api/analyze-meal/route.ts:115-170 | a reply in the requested format validates to exactly the analysis it encodes |
| AnalyzeMeal.ValidateIgnoresExtraFields | src/app/api/analyze-meal/route.ts:158-165 | fields other than the six checked ones do not affect validation |
| AnalyzeMeal.ClassifyThrown | src/app/api/analyze-meal/route.ts:205-233 | "API key not valid" gives 401 and is tested before "quota", which gives 429; everything else, including non-Error values, gives 500 |
| AnalyzeMeal.NullReplyIsGenericFailure | src/app/api/analyze-meal/route.ts:158-232 | the TypeError raised by reading a field of `null` ends in the generic 500 |
| AnalyzeMeal.ToStored | src/app/api/analyze-meal/route.ts:172-189 | the row copies every nutrient and the notes, with `protein` stored as `proteins`; the slug is generated from the time and calories; no slugId is set |
| AnalyzeMeal.ToResponse | src/app/api/analyze-meal/route.ts:192-202 | the response copies the row's fields, with `protein` read back from `proteins` |
| AnalyzeMeal.StoredRoundTrip | src/app/api/analyze-meal/route.ts:177-202 | storing an analysis and building the response from the row gives back the same analysis |
| AnalyzeMeal.Guard | src/app/api/analyze-meal/route.ts:63-90 | no user gives 401, checked before a missing key (500), checked before reading the body, whose throw goes to the catch block, checked before a falsy or non-string meal text (400); the request passes exactly when all of them hold |
| AnalyzeMeal.ReadMealText | src/app/api/analyze-meal/route.ts:82 | a body that is not JSON throws what the parse throws, a `null` body throws the destructuring TypeError, and otherwise `mealText` is the body's own field or `undefined` |
| AnalyzeMeal.UnreadableBodyFails | src/app/api/analyze-meal/route.ts:82-232 | past the session and key checks, a body that is not JSON or is `null` is answered by the catch block, and a `null` body gets the generic 500 |
| AnalyzeMeal.NullBodyIsGenericFailure | src/app/api/analyze-meal/route.ts:82-232 | the TypeError of destructuring a `null` body ends in the generic 500 |
| AnalyzeMeal.WithoutKeyLettersIsGeneric | src/app/api/analyze-meal/route.ts:215-232 | a message with no 'k' and no 'q' matches neither "API key not valid" nor "quota", so it gets the generic 500 |
| AnalyzeMeal.Interpret | src/app/api/analyze-meal/route.ts:125-233 | an analysis results exactly when the cleaned reply parses and validates. A thrown call is classified, and an unparsable reply gives the 500 parse failure |
| AnalyzeMeal.Analyze | src/app/api/analyze-meal/route.ts:62-234 | the guards, including reading the request body, answer first; every failure leaves the log unchanged, and its status is among 400/401/429/500. A success appends exactly one stored row, whose response echoes the analysis, slug and new id |
| AnalyzeMeal.AnalyzeStoresReply | src/app/api/analyze-meal/route.ts:82-204 | a valid request whose reply parses to an encoded analysis stores and returns exactly that analysis |
| AnalyzeMeal.InterpretEncoded | src/app/api/analyze-meal/route.ts:145-170 | a reply text that parses to an encoded analysis is read as that analysis |
| AnalyzeMeal.GuardPasses | src/app/api/analyze-meal/route.ts:63-90 | a signed-in request with a key and a body `{ mealText }` holding a non-empty string passes every guard |
| AnalyzeMeal.AnalyzeStores | src/app/api/analyze-meal/route.ts:172-204 | past the guards, an interpreted analysis is appended to the log and echoed when the insert does not throw |
| AnalyzeMeal.AnalyzeStoresFencedReply | src/app/api/analyze-meal/route.ts:132-204 | the same holds when the JSON comes wrapped in a ```json fence |
| AnalyzeMeal.AnalyzeNullReply | src/app/api/analyze-meal/route.ts:145-232 | a reply that parses to `null` gives the generic 500 and stores nothing, whatever the insert would do |
| AnalyzeMeal.InterpretNull | src/app/api/analyze-meal/route.ts:158-232 | a reply parsing to `null` is read as the generic failure |
| Entries.OwnedBy | src/app/api/logs/recent/route.ts:24-27 | exactly the user's entries, in stored order |
| WeeklyTrends.EmptyWeek | src/app/api/weekly-trends/route.ts:37-44 | seven buckets, all zero |
| WeeklyTrends.Bucket | src/app/api/weekly-trends/route.ts:47-51 | seven buckets, each the sum of the field over exactly the entries on that weekday |
| WeeklyTrends.RawCalories | src/app/api/weekly-trends/route.ts:47-49 | one calorie bucket per weekday |
| WeeklyTrends.RawProtein | src/app/api/weekly-trends/route.ts:47-50 | one protein bucket per weekday |
| WeeklyTrends.WeekdaySumSnoc | src/app/api/weekly-trends/route.ts:47-51 | one more entry adds its value to the sum of its own weekday and leaves the other weekdays' sums alone |
| WeeklyTrends.BucketMerges | src/app/api/weekly-trends/route.ts:47-51 | entries from different dates on the same weekday add up in one bucket |
| WeeklyTrends.PositiveNeighbours | src/app/api/weekly-trends/route.ts:60-76 | one value for each neighbour with positive raw value, the previous day's first; every value is the previous or the next day's, with no wrap-around past Sunday or Saturday |
| WeeklyTrends.NeighbourMean | src/app/api/weekly-trends/route.ts:60-81 | the mean is the average of both neighbours when both are positive, the one positive neighbour otherwise, and nothing when neither is |
| WeeklyTrends.SmoothCalories | src/app/api/weekly-trends/route.ts:55-82 | a non-zero day keeps its raw value. A zero day takes the rounded mean of its positive raw neighbours, or stays zero |
| WeeklyTrends.SmoothProtein | src/app/api/weekly-trends/route.ts:85-105 | protein is smoothed the same way, to `Math.round(m * 10) / 10` of the mean `m` of the positive neighbours, which lies within 0.05 of `m` |
| WeeklyTrends.SmoothingIsLocal | src/app/api/weekly-trends/route.ts:54-105 | smoothing depends only on the day's raw value and its two raw neighbours, so smoothed values never feed each other |
| WeeklyTrends.SmoothingNonNegative | src/app/api/weekly-trends/route.ts:54-105 | non-negative raw values smooth to non-negative values |
| WeeklyTrends.Chart | src/app/api/weekly-trends/route.ts:38-114 | seven points, Sunday to Saturday, with the full name and its first letter; `isSmoothed` holds exactly when raw calories or raw protein is zero; values are the smoothed raw sums |
| WeeklyTrends.Point | src/app/api/weekly-trends/route.ts:107-113 | one point carries the day's name, initial, smoothed values and smoothing flag |
| WeeklyTrends.ChartKeepsLoggedDays | src/app/api/weekly-trends/route.ts:47-112 | a weekday with logged calories charts exactly their sum, and is flagged exactly when its protein sum is zero |
| WeeklyTrends.ChartNonNegative | src/app/api/weekly-trends/route.ts:47-105 | entries without negative fields chart no negative value |
| WeeklyTrends.Window | src/app/api/weekly-trends/route.ts:15-32 | exactly the user's entries whose time lies between the start and now, both ends included, in stored order |
| WeeklyTrends.WeeklyTrends | src/app/api/weekly-trends/route.ts:6-129 | a missing or empty user id gives 400 "User ID is required"; otherwise the chart of the window, with its entry count |
| LastTenDays.Find | src/app/api/last-10-days/route.ts:37 | the position of the group with the key, or the length exactly when no group has it |
| LastTenDays.Add | src/app/api/last-10-days/route.ts:35-46 | either the groups keep their number, or one group holding only the entry is appended at the end |
| LastTenDays.OnDaySnoc | src/app/api/last-10-days/route.ts:34-47 | one more entry joins the entries of its own date only |
| LastTenDays.DescribesOther | src/app/api/last-10-days/route.ts:34-47 | an entry of another date leaves a group's sums correct |
| LastTenDays.DescribesGrown | src/app/api/last-10-days/route.ts:45-46 | adding an entry's calories and protein to its date's group keeps the sums correct |
| LastTenDays.DescribesOpened | src/app/api/last-10-days/route.ts:37-43 | a group opened by the first entry of a date holds that entry's values and calendar reading |
| LastTenDays.AddKeepsDistinct | src/app/api/last-10-days/route.ts:37-43 | a group is opened only for a date that has none, so no two groups share a date key |
| LastTenDays.AddKeepsCover | src/app/api/last-10-days/route.ts:34-46 | after each step, every entry seen so far has a group for its date |
| LastTenDays.AddOpenedDescribes | src/app/api/last-10-days/route.ts:37-43 | opening a group for a new date leaves the other groups' sums correct and gives the new one the entry's values |
| LastTenDays.AddGrownDescribes | src/app/api/last-10-days/route.ts:45-46 | adding to an existing date's group leaves every group holding its date's sums |
| LastTenDays.AddKeepsGroups | src/app/api/last-10-days/route.ts:34-47 | one step of the loop keeps one group per date seen, each holding that date's sums |
| LastTenDays.GroupIsGroupsOf | src/app/api/last-10-days/route.ts:32-47 | the grouping has distinct keys, covers every entry's date, and holds each date's calorie and protein sums |
| LastTenDays.GroupPerDate | src/app/api/last-10-days/route.ts:37-77 | a date has a group exactly when some entry has that date, so `daysWithData` counts the distinct dates |
| LastTenDays.Latest | src/app/api/last-10-days/route.ts:50-53 | min(10, groups) groups, taken from the grouping, with dates ascending |
| LastTenDays.ReversedPrefixAscending | src/app/api/last-10-days/route.ts:50-53 | the first ten of a newest-first list, reversed, run oldest first and are taken from the list |
| LastTenDays.DroppedNotNewer | src/app/api/last-10-days/route.ts:51-52 | in a newest-first list, an element outside the first n is no newer than any of them |
| LastTenDays.LatestAreMostRecent | src/app/api/last-10-days/route.ts:51-52 | a group left out is no more recent than any chosen group |
| LastTenDays.GroupDatesDistinct | src/app/api/last-10-days/route.ts:35-41 | when UTC and local dates pick out the same days, no two groups share a local date |
| LastTenDays.AscendingFromDistinctDates | src/app/api/last-10-days/route.ts:51-53 | ascending dates drawn from groups with distinct dates strictly increase |
| LastTenDays.LatestStrictlyAscending | src/app/api/last-10-days/route.ts:34-53 | when UTC and local dates agree, the chosen dates strictly increase |
| LastTenDays.ToChartDay | src/app/api/last-10-days/route.ts:56-63 | the bar carries the group's sums and date, the day of month as a decimal numeral, the weekday name, and number index + 1 |
| LastTenDays.Window | src/app/api/last-10-days/route.ts:15-29 | exactly the user's entries from the start on, most recent first |
| LastTenDays.LastTenDays | src/app/api/last-10-days/route.ts:6-78 | a missing user id gives 400. Otherwise there are min(10, daysWithData) bars, bar i is the i-th chosen group numbered i + 1, and the reply counts the entries and the distinct date keys |
| LastTenDays.ChosenDescribesDate | src/app/api/last-10-days/route.ts:34-53 | every charted group holds the sums of one date present in the window |
| LastTenDays.TwoDatesTwoGroups | src/app/api/last-10-days/route.ts:35-43 | two entries on different UTC dates open one group each |
| LastTenDays.SplitLocalDate | src/app/api/last-10-days/route.ts:35-41 | two entries of one local date on different UTC dates give two bars with the same date |
| LastTenDays.SameLocalDateTwice | src/app/api/last-10-days/route.ts:35-41 | a 10:00 and a 21:00 meal of one local day, five hours west of Greenwich, chart as two bars dated the same day |
| LastTenDays.Localize | src/app/api/last-10-days/route.ts:41 | each entry keeps everything but takes its local date as grouping key, so the keys agree with the dates |
| LastTenDays.LastTenLocalDays | src/app/api/last-10-days/route.ts:34-63 | grouping by local date charts min(10, days) bars numbered 1..n with strictly increasing dates |
| TodaySummary.Today | src/app/api/today-summary/route.ts:28-41 | exactly the user's entries from the given local midnight to the given local 23:59:59.999, both ends included, in stored order |
| TodaySummary.Summarize | src/app/api/today-summary/route.ts:43-51 | the count of entries; no entries give all-zero totals |
| TodaySummary.SummarizeAdds | src/app/api/today-summary/route.ts:45-50 | the count and every total add up over two batches of entries |
| TodaySummary.SummarizeOne | src/app/api/today-summary/route.ts:45-50 | one entry's totals are its own fields, `totalProtein` being its `proteins` |
| TodaySummary.SummaryNonNegative | src/app/api/today-summary/route.ts:45-50 | entries without negative fields give no negative total |
| TodaySummary.Handle | src/app/api/today-summary/route.ts:16-53 | no user gives 401; otherwise the summary of the entries between today's local midnight and local 23:59:59.999, counting exactly them |
| TodaySummary.WindowInclusive | src/app/api/today-summary/route.ts:36-39 | `gte` and `lte`: entries at the first and last millisecond count, those one millisecond outside do not |
| TodaySummary.ConsecutiveDays | src/app/api/today-summary/route.ts:28-41 | two consecutive local days never share an entry, and together hold exactly the entries of the span they cover |
| TodaySummary.DaylightSavingDays | src/app/api/today-summary/route.ts:29-30 | the window follows the local calendar: on a 23-hour day an entry 23.5 hours after midnight is not counted, and on a 25-hour day one 24.5 hours after midnight is |
| Sorting.Insert | src/app/api/logs/recent/route.ts:28-30 | inserting into a list sorted by decreasing key keeps it sorted, adds exactly the new element, and keeps every common upper bound of the keys |
| Sorting.SortDesc | src/app/api/logs/recent/route.ts:28-30 | a permutation of the input, sorted by decreasing key |
| RecentLogs.ParamOr | src/app/api/logs/recent/route.ts:10-11 | a missing or empty parameter takes the fallback, any other is kept |
| RecentLogs.View | src/app/api/logs/recent/route.ts:36-47 | each returned entry carries the stored fields unchanged |
| RecentLogs.Window | src/app/api/logs/recent/route.ts:31-32 | the entries at positions offset .. offset + limit - 1 that exist, in order |
| RecentLogs.Newest | src/app/api/logs/recent/route.ts:24-30 | the user's entries, rearranged into decreasing time |
| RecentLogs.PageOf | src/app/api/logs/recent/route.ts:18-55 | the page is the window of the newest-first entries, at most `limit` long. `hasMore` is offset + limit < total and `hasPrevious` is offset > 0 |
| RecentLogs.RecentLogs | src/app/api/logs/recent/route.ts:6-55 | exactly a missing or empty user id gives 400. The answer is left to the database library exactly when limit or offset is NaN or negative. It is a page exactly when the user id is given and both parse to non-negative numbers, and then the page of those limit and offset |
| RecentLogs.RequestedPage | src/app/api/logs/recent/route.ts:10-33 | parameters reading as non-negative numbers ask for the page at that offset and limit |
| RecentLogs.DefaultsApply | src/app/api/logs/recent/route.ts:10-11 | an absent or empty limit and offset ask for the ten newest entries |
| RecentLogs.DefaultLimitIsTen | src/app/api/logs/recent/route.ts:10 | the default limit reads as 10 |
| RecentLogs.DefaultOffsetIsZero | src/app/api/logs/recent/route.ts:11 | the default offset reads as 0 |
| RecentLogs.HasMoreIffEntriesRemain | src/app/api/logs/recent/route.ts:52 | `hasMore` holds exactly when entries remain after the page |
| RecentLogs.PagesTile | src/app/api/logs/recent/route.ts:31-32 | two consecutive pages together are the double-size page, with nothing skipped or repeated |
| RecentLogs.WindowsTile | src/app/api/logs/recent/route.ts:31-32 | for any list, the windows at offset and offset + limit together are the window of size 2 * limit at offset |
| LogPage.Search | src/app/log/page.tsx:139-142 | an order-keeping subsequence holding exactly the entries whose lower-cased slug or notes contains the lower-cased query |
| LogPage.EmptyQueryKeepsAll | src/app/log/page.tsx:139-142 | an empty query keeps every entry |
| LogPage.SearchIgnoresQueryCase | src/app/log/page.tsx:139-142 | a query and its lower-cased form find the same entries |
| LogPage.PageOffset | src/app/log/page.tsx:76-77 | page p asks for offset 10p, a multiple of 10 that gives back p |
| LogPage.ParsesBack | src/app/log/page.tsx:78 | a number written into the query string reads back as itself |
| LogPage.RequestedNumerals | src/app/log/page.tsx:76-78 | the limit and offset the page writes into the URL as decimal numerals are read back by the route as that limit and offset |
| LogPage.FetchedPage | src/app/log/page.tsx:71-82 | page p holds the entries at positions 10p .. 10p + 9 of the newest-first list |
| LogPage.TotalPages | src/app/log/page.tsx:147 | the least page count whose pages hold every entry; zero exactly for no entries |
| LogPage.ControlsIffSeveralPages | src/app/log/page.tsx:145-147 | the pager shows exactly when there is more than one page |
| LogPage.PageButtons | src/app/log/page.tsx:166-176 | min(5, totalPages) consecutive page numbers within 1..totalPages, including the current page when it is a real page |
| LogPage.PageButtonsFromFirst | src/app/log/page.tsx:166-176 | the buttons start at the current page less two, kept within 1..totalPages - 4 |
| LogPage.ShowingMatchesPage | src/app/log/page.tsx:153 | for a page inside the list, "Showing X to Y" starts at offset + 1 and spans exactly the entries received |
| MealNames.CapitalizeAll | src/app/log/page.tsx:135 | each word gets its first letter upper-cased |
| MealNames.FormatMealName | src/app/log/page.tsx:131-137 | same length as the slug and no hyphen. Each hyphen becomes a space, each word's first letter is upper-cased, and every other character stays |
| MealNames.FormatJoined | src/components/RecentMeals.tsx:54-60 | capitalising hyphen-free words and joining them with spaces agrees character by character with the reference reading of their hyphen join |
| MealNames.SingleWord | src/components/RecentMeals.tsx:56-59 | a slug without hyphens only has its first letter upper-cased |
| RecentMeals.KindOf | src/components/RecentMeals.tsx:20-51 | the first of snack, morning, afternoon, evening and night that the slug contains, and only then |
| RecentMeals.MealEmoji | src/components/RecentMeals.tsx:20-34 | apple for snacks whatever else matches, then sunrise, sun, plate, moon; the default is the plate |
| RecentMeals.MealBgColor | src/components/RecentMeals.tsx:37-51 | one of six classes: green, yellow, orange, purple, blue in priority order, else gray |
| RecentMeals.ColourSeparatesKinds | src/components/RecentMeals.tsx:20-51 | two slugs share a colour exactly when they share a kind; they share an emoji exactly when they share a kind or are evening and unmatched |
| RecentMeals.SnackWins | src/components/RecentMeals.tsx:21-39 | any slug containing "snack" gets the apple on green |
| Goals.DefaultValue | src/app/api/goals/route.ts:34 | 3500 for `calories`, 0 for any other type |
| Goals.Get | src/app/api/goals/route.ts:15-49 | a missing or empty type gives 400. A type with no row gets its default, flagged as default; a stored type gets its row, not flagged |
| Goals.Put | src/app/api/goals/route.ts:60-92 | a falsy type or undefined value gives 400 and leaves the store. A valid body upserts its type: the value is set, id and creation kept or created, all other types untouched. Anything else gives 500 |
| Goals.ZeroValueAccepted | src/app/api/goals/route.ts:65 | a value of 0 passes the required-field check; an empty type does not |
| Goals.PutThenGet | src/app/api/goals/route.ts:28-85 | after a PUT of a value for a type, a GET of that type reports it as stored |
| Goals.PutKeepsOtherTypes | src/app/api/goals/route.ts:73-77 | a PUT leaves what GET reports for every other type unchanged |
| Goals.PutIdempotent | src/app/api/goals/route.ts:73-77 | repeating a PUT at the same instant leaves the store as one PUT left it |
| GoalModal.HandleSave | src/components/GoalModal.tsx:54-74 | an input that is not a number above zero is refused with "Please enter a valid positive number"; any other input sends its type and value |
| GoalModal.EnabledIffSends | src/components/GoalModal.tsx:59-216 | the save control is active exactly when pressing it sends a value |
| GoalModal.SentValueIsStored | src/components/GoalModal.tsx:65-74 | the value sent is what a GET of the type then reports |
| GoalModal.Label | src/components/GoalModal.tsx:99-112 | the four known labels; any other type with its first letter upper-cased |
| GoalModal.Unit | src/components/GoalModal.tsx:114-125 | kcal for calories, g for protein, carbs and fats, nothing otherwise |
| GoalModal.UnitIsEmptyOnlyForUnknown | src/components/GoalModal.tsx:99-125 | a type has no unit exactly when it is not one of the four known types, and is then labelled by capitalising it |
| CaloriesEaten.Settle | src/components/CaloriesEaten.tsx:26-88 | without a user the card shows 0 of 3500. Otherwise it shows the summary's calories, or 0 when that request fails, against the goal, or 3500 when that request fails |
| CaloriesEaten.Progress | src/components/CaloriesEaten.tsx:89 | never above 100. It is 0 for a missing or zero goal, non-negative for non-negative calories and a positive goal, and current / goal × 100 below the cap |
| CaloriesEaten.FullIffGoalReached | src/components/CaloriesEaten.tsx:89 | with a positive goal the bar is full exactly when the calories reach the goal |
| CaloriesEaten.ProgressMonotonic | src/components/CaloriesEaten.tsx:89 | more calories never show less progress |
| CaloriesEaten.FallbackMatchesServerDefault | src/components/CaloriesEaten.tsx:66-84 | with no stored calorie goal the card shows 3500, whether the goal request succeeds or fails |
| CommonMeals.RandomIndex | src/data/commonMeals.ts:59 | a valid index, the floor of the scaled draw |
| CommonMeals.ScaledDraw | src/data/commonMeals.ts:59 | a draw in [0, 1) times n lies in [0, n) |
| CommonMeals.SameFloor | src/data/commonMeals.ts:59 | a draw picks out one index only |
| CommonMeals.Pick | src/data/commonMeals.ts:59-70 | the element at the floor of the scaled draw, so always a member |
| CommonMeals.RandomMeal | src/data/commonMeals.ts:58-61 | the description of the meal at the drawn index, always one of the listed meals |
| CommonMeals.MealsIn | src/data/commonMeals.ts:65 | exactly the meals of the time of day, in their original order |
| CommonMeals.MealsFor | src/data/commonMeals.ts:65 | exactly the listed meals of the time of day, in order |
| CommonMeals.HasMealFor | src/data/commonMeals.ts:65-66 | a list with a meal of that time keeps one when filtered |
| CommonMeals.EveryTimeHasMeals | src/data/commonMeals.ts:7-68 | every time of day has a meal, so the fallback to any meal is never taken |
| CommonMeals.PickFor | src/data/commonMeals.ts:65-70 | a meal of that time of day, at the drawn position among them |
| CommonMeals.RandomMealForTime | src/data/commonMeals.ts:64-71 | the description of a listed meal of that time of day |
| Numbers.Round | src/app/api/weekly-trends/route.ts:80-103 | `Math.round`: the nearest integer, halves rounding up |
| Numbers.ParseIntDecimal | src/app/api/logs/recent/route.ts:10-11 | the decimal numeral of a number reads back as that number |
| Numbers.ParseFloatDecimal | src/components/GoalModal.tsx:59 | the decimal numeral of a number reads back as that number |
| Numbers.ParseFloatDigits | src/components/GoalModal.tsx:59 | a digit string followed by neither digit nor point reads as the value of its digits |
| Numbers.NumeralParses | src/app/api/logs/recent/route.ts:10-11 | any decimal numeral of n reads back as n |

## Left out

- The prompt text and the call to the language model. The model's reply, or the value it throws, is a parameter of `AnalyzeMeal.Analyze`.
- `JSON.parse` is a parameter `string -> Option<Json>`, with `None` for a syntax error. `request.json()` in the goals PUT is the body `Option<Json>`.
- `request.json()` in analyze-meal is the body `AnalyzeMeal.RequestBody`: the parsed value, or the value thrown for text that is not JSON. The V8 message of that SyntaxError quotes part of the body, so it is a parameter and not a fixed text.
- Session cookies and `getCurrentUser`: the signed-in user is an `Option<User>` parameter.
- The configured API key is a string parameter, and "" stands for an unset key.
- Prisma: the tables are an in-memory sequence of entries and a map from goal type to goal row.
  - The order among entries with equal timestamps is not specified by the queries. The model sorts stably.
  - Ids and the current instant of created rows are parameters.
- The clock, time zone and locale. Each entry's `Stamp` carries its UTC date, local date, day of month, weekday and hour as given integers, and how they follow from the instant is not modelled.
  - The window starts of weekly-trends and last-10-days are parameters computed by the caller. They are the current local time of day, seven or thirty local calendar days back (`setDate(getDate() - 7)` and `setDate(getDate() - 30)` on the current date); they are not midnights.
  - The today-summary window is the pair of parameters `startOfDay` and `endOfDay`: local midnight and local 23:59:59.999 of today, as the caller's calendar gives them. On a day with a daylight-saving change they are 23 or 25 hours apart, not 24.
- The `date` field of a last-10-days bar is the group's local date number. The ISO text `toISOString()` makes of local midnight, which shifts by one day east of Greenwich, is not modelled.
- Weekday initialisation in weekly-trends: the loop over the last seven dates fills all seven day names whatever today is, so the model starts from seven zero buckets.
- `console` logging and the debug output of the routes.
- The catch-all 500 replies of weekly-trends, last-10-days, logs/recent, today-summary and goals GET, raised when the database fails. Only failures the handler's own code causes are modelled (analyze-meal's catch block, and goals PUT with an unusable body).
- IEEE floating point: values are exact reals, so NaN, infinities and rounding error do not arise. A nutrient value is always a number.
- Numbers.ParseInt: reads base-10 text only (white space, sign, digits). The `0x` prefix and radix detection are not modelled.
- Numbers.ParseFloat: reads plain decimals only. Exponents and `Infinity` are not modelled.
- Text.ToLower: case mapping covers ASCII letters only; `toLowerCase` and `toUpperCase` on other scripts are not modelled.
- RecentLogs.RecentLogs: a NaN or negative `take`/`skip` gives `Unmodelled`, because its handling belongs to the database library.
- LogPage.TotalPages: requires a positive limit. The page always receives limit 10, and a zero limit would divide by zero.
- CommonMeals.RandomMealForTime: states only that the description belongs to a meal of that time of day. The position chosen by the draw is stated on `CommonMeals.PickFor`, which it calls.
- WeeklyTrends.SmoothProtein: states the exact real `Round(m * 10) / 10` of the mean `m`, not the IEEE double that the division by 10 produces.
- The `timestamp` of a logs/recent entry and of the analyze-meal response is the entry's instant in milliseconds. Its `toISOString()` text is not modelled.
- Goals: the `createdAt`/`updatedAt` columns are instants set from the `now` parameter. Their schema defaults and ISO formatting are not modelled.
- React state, effects, loading flags and rendering. Only the values the components compute are modelled.
- `getRandomMeal`'s `Math.random()` is a parameter in [0, 1).
- `src/app/api/recent-meals/route.ts` and the `logs/[id]` routes are not part of this model.

## Findings

| source | as written | input that shows it | evidently intended | confidence | as-written member | corrected member |
|---|---|---|---|---|---|---|
| src/app/api/last-10-days/route.ts:35-41 | entries are grouped by the UTC date of `toISOString()`, but each group is labelled with the local date of its first entry | a server five hours west of Greenwich; meals at 10:00 and 21:00 local on the same day fall on two UTC dates | one bar per local day, with strictly increasing dates | low: only when the server's time zone is not UTC; not executed | LastTenDays.SameLocalDateTwice | LastTenDays.LastTenLocalDays |
