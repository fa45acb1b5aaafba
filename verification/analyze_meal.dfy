/**
  POST /api/analyze-meal: the guards, the cleaning and validation of the
  model's reply, the slug derived from the time of logging, the classification
  of thrown errors, and the mapping to and from the stored entry.
 */
module AnalyzeMeal {
  import opened Wrappers
  import opened Text
  import opened Json
  import opened Entries
  import opened Http

  // ----- Time-of-day slug -----

  /** The seven bands of the day a meal can fall in. */
  datatype Period = EarlyMorning | LateMorning | EarlyAfternoon | LateAfternoon | EarlyEvening | LateEvening | Night

  function PeriodName(p: Period): string {
    match p
    case EarlyMorning => "early-morning"
    case LateMorning => "late-morning"
    case EarlyAfternoon => "early-afternoon"
    case LateAfternoon => "late-afternoon"
    case EarlyEvening => "early-evening"
    case LateEvening => "late-evening"
    case Night => "night"
  }

  /** The first hour of a band on the 24-hour clock. */
  function BandStart(p: Period): Hour {
    match p
    case EarlyMorning => 5
    case LateMorning => 9
    case EarlyAfternoon => 12
    case LateAfternoon => 14
    case EarlyEvening => 17
    case LateEvening => 20
    case Night => 23
  }

  /** How many hours a band spans; the night band runs past midnight. */
  function BandLength(p: Period): nat {
    match p
    case EarlyMorning => 4
    case LateMorning => 3
    case EarlyAfternoon => 2
    case LateAfternoon => 3
    case EarlyEvening => 3
    case LateEvening => 3
    case Night => 6
  }

  /** `hour` lies in the band, counting round the clock from its first hour. */
  predicate InBand(hour: Hour, p: Period) {
    (hour - BandStart(p)) % 24 < BandLength(p)
  }

  /** The band the hour falls in; the bands cover the day without overlap. */
  function PeriodOf(hour: Hour): (p: Period)
    ensures InBand(hour, p)
    ensures forall q :: InBand(hour, q) ==> q == p
  {
    if 5 <= hour < 9 then EarlyMorning
    else if 9 <= hour < 12 then LateMorning
    else if 12 <= hour < 14 then EarlyAfternoon
    else if 14 <= hour < 17 then LateAfternoon
    else if 17 <= hour < 20 then EarlyEvening
    else if 20 <= hour < 23 then LateEvening
    else Night
  }

  /** The band lengths add up to a whole day. */
  lemma {:induction false} BandsFillDay()
    ensures BandLength(EarlyMorning) + BandLength(LateMorning) + BandLength(EarlyAfternoon)
            + BandLength(LateAfternoon) + BandLength(EarlyEvening) + BandLength(LateEvening)
            + BandLength(Night) == 24
  {
  }

  /** Snack below 100 kcal, meal otherwise. */
  datatype Size = Snack | Meal

  function SizeOf(calories: real): (z: Size)
    ensures z == Snack <==> calories < 100.0
  {
    if calories < 100.0 then Snack else Meal
  }

  function SizeName(z: Size): string {
    match z
    case Snack => "snack"
    case Meal => "meal"
  }

  /** What a slug records: weekday, band of the day and size. */
  datatype SlugParts = SlugParts(weekday: Weekday, period: Period, size: Size)

  /** The three words of a slug, joined by single spaces. */
  function RenderSlug(p: SlugParts): (slug: string)
    ensures Split(slug, ' ') == [DayNames[p.weekday], PeriodName(p.period), SizeName(p.size)]
  {
    var words := [DayNames[p.weekday], PeriodName(p.period), SizeName(p.size)];
    assert forall i :: 0 <= i < 3 ==> ' ' !in words[i];
    SplitJoin(words, ' ');
    Join3(DayNames[p.weekday], PeriodName(p.period), SizeName(p.size), ' ');
    DayNames[p.weekday] + " " + PeriodName(p.period) + " " + SizeName(p.size)
  }

  /** `generateSlug`: weekday name, band of the hour, and snack or meal, separated by spaces. */
  function GenerateSlug(stamp: Stamp, calories: real): (slug: string)
    ensures Split(slug, ' ') == [DayNames[stamp.weekday], PeriodName(PeriodOf(stamp.hour)), SizeName(SizeOf(calories))]
  {
    RenderSlug(SlugParts(stamp.weekday, PeriodOf(stamp.hour), SizeOf(calories)))
  }

  function WeekdayNamed(name: string): (r: Option<Weekday>)
    ensures r.Some? ==> DayNames[r.value] == name
    ensures r.None? ==> forall w: Weekday :: DayNames[w] != name
  {
    if name == "Sunday" then Some(0)
    else if name == "Monday" then Some(1)
    else if name == "Tuesday" then Some(2)
    else if name == "Wednesday" then Some(3)
    else if name == "Thursday" then Some(4)
    else if name == "Friday" then Some(5)
    else if name == "Saturday" then Some(6)
    else None
  }

  function PeriodNamed(name: string): (r: Option<Period>)
    ensures r.Some? ==> PeriodName(r.value) == name
    ensures r.None? ==> forall p :: PeriodName(p) != name
  {
    if name == "early-morning" then Some(EarlyMorning)
    else if name == "late-morning" then Some(LateMorning)
    else if name == "early-afternoon" then Some(EarlyAfternoon)
    else if name == "late-afternoon" then Some(LateAfternoon)
    else if name == "early-evening" then Some(EarlyEvening)
    else if name == "late-evening" then Some(LateEvening)
    else if name == "night" then Some(Night)
    else None
  }

  function SizeNamed(name: string): (r: Option<Size>)
    ensures r.Some? ==> SizeName(r.value) == name
    ensures r.None? ==> forall z :: SizeName(z) != name
  {
    if name == "snack" then Some(Snack) else if name == "meal" then Some(Meal) else None
  }

  /** Reads a slug back into its parts; `None` for text no `generateSlug` call produces. */
  function ParseSlug(slug: string): Option<SlugParts> {
    var words := Split(slug, ' ');
    if |words| != 3 then None
    else
      match (WeekdayNamed(words[0]), PeriodNamed(words[1]), SizeNamed(words[2]))
      case (Some(w), Some(p), Some(z)) => Some(SlugParts(w, p, z))
      case _ => None
  }

  /** Every slug reads back as the parts it was made from. */
  lemma {:induction false} ParseRenderSlug(p: SlugParts)
    ensures ParseSlug(RenderSlug(p)) == Some(p)
  {
    var words := Split(RenderSlug(p), ' ');
    assert words == [DayNames[p.weekday], PeriodName(p.period), SizeName(p.size)];
    WeekdayNameReadsBack(p.weekday);
    PeriodNameReadsBack(p.period);
    SizeNameReadsBack(p.size);
  }

  /** Each weekday name reads back as its weekday. */
  lemma {:induction false} WeekdayNameReadsBack(w: Weekday)
    ensures WeekdayNamed(DayNames[w]) == Some(w)
  {
    if w == 0 {
    } else if w == 1 {
    } else if w == 2 {
    } else if w == 3 {
    } else if w == 4 {
    } else if w == 5 {
    } else {
      assert w == 6;
    }
  }

  /** Each band name reads back as its band. */
  lemma {:induction false} PeriodNameReadsBack(p: Period)
    ensures PeriodNamed(PeriodName(p)) == Some(p)
  {
    match p
    case EarlyMorning =>
    case LateMorning =>
    case EarlyAfternoon =>
    case LateAfternoon =>
    case EarlyEvening =>
    case LateEvening =>
    case Night =>
  }

  /** Each size name reads back as its size. */
  lemma {:induction false} SizeNameReadsBack(z: Size)
    ensures SizeNamed(SizeName(z)) == Some(z)
  {
  }

  /** Whatever reads back as a slug is exactly the rendering of what it read. */
  lemma {:induction false} RenderParseSlug(slug: string)
    requires ParseSlug(slug).Some?
    ensures RenderSlug(ParseSlug(slug).value) == slug
  {
    var p := ParseSlug(slug).value;
    var words := Split(slug, ' ');
    JoinSplit(slug, ' ');
    assert words == [DayNames[p.weekday], PeriodName(p.period), SizeName(p.size)];
    Join3(DayNames[p.weekday], PeriodName(p.period), SizeName(p.size), ' ');
  }

  /** The slug of a logged meal records the weekday, band and size it was derived from. */
  lemma {:induction false} GenerateSlugReadsBack(stamp: Stamp, calories: real)
    ensures ParseSlug(GenerateSlug(stamp, calories)) == Some(SlugParts(stamp.weekday, PeriodOf(stamp.hour), SizeOf(calories)))
  {
    ParseRenderSlug(SlugParts(stamp.weekday, PeriodOf(stamp.hour), SizeOf(calories)));
  }

  // ----- Cleaning the model's reply -----

  const JsonFence: string := "```json"
  const Fence: string := "```"

  /** On an already trimmed reply: drops a ```json fence, else a bare fence, and re-trims what is left. */
  function Unfence(t: string): (u: string)
  {
    if StartsWith(t, JsonFence) && EndsWith(t, Fence) then Trim(Slice(t, 7, -3))
    else if StartsWith(t, Fence) && EndsWith(t, Fence) then Trim(Slice(t, 3, -3))
    else t
  }

  /** Unfencing a trimmed text leaves trimmed text. */
  lemma {:induction false} UnfenceTrimmed(t: string)
    requires Trim(t) == t
    ensures Trim(Unfence(t)) == Unfence(t)
  {
    var u := Unfence(t);
    assert u == t || u == Trim(Slice(t, 7, -3)) || u == Trim(Slice(t, 3, -3));
    TrimIdempotent(Slice(t, 7, -3));
    TrimIdempotent(Slice(t, 3, -3));
  }

  /** The cleaning of the model's reply: trim, then remove a surrounding markdown code fence. */
  function StripFences(text: string): (r: string)
    ensures Trim(r) == r
  {
    TrimIdempotent(text);
    UnfenceTrimmed(Trim(text));
    Unfence(Trim(text))
  }

  /** A fenced text starts and ends with a backtick, so trimming leaves it alone. */
  lemma {:induction false} FencedIsTrimmed(open: string, body: string)
    requires |open| > 0 && open[0] == '`'
    ensures Trim(open + body + Fence) == open + body + Fence
  {
    var s := open + body + Fence;
    assert s[0] == '`' && s[|s| - 1] == '`';
    TrimUnchanged(s);
  }

  /** How `Unfence` reads a trimmed text carrying a ```json fence. */
  lemma {:induction false} UnfenceJson(s: string, body: string)
    requires StartsWith(s, JsonFence) && EndsWith(s, Fence) && Slice(s, 7, -3) == body
    ensures Unfence(s) == Trim(body)
  {
  }

  /** How `Unfence` reads a trimmed text carrying a bare fence only. */
  lemma {:induction false} UnfenceBare(s: string, body: string)
    requires !StartsWith(s, JsonFence) && StartsWith(s, Fence) && EndsWith(s, Fence) && Slice(s, 3, -3) == body
    ensures Unfence(s) == Trim(body)
  {
  }

  /** The shape of a text wrapped in a ```json fence. */
  lemma {:induction false} JsonFenced(body: string)
    ensures var s := JsonFence + body + Fence;
            StartsWith(s, JsonFence) && EndsWith(s, Fence) && Slice(s, 7, -3) == body
  {
    var s := JsonFence + body + Fence;
    assert s[..7] == JsonFence;
    assert s[|s| - 3..] == Fence;
    assert s[7..|s| - 3] == body;
  }

  /** The shape of a text wrapped in a bare fence. */
  lemma {:induction false} BareFenced(body: string)
    requires !StartsWith(body, "json")
    ensures var s := Fence + body + Fence;
            !StartsWith(s, JsonFence) && StartsWith(s, Fence) && EndsWith(s, Fence) && Slice(s, 3, -3) == body
  {
    var s := Fence + body + Fence;
    assert s[..3] == Fence;
    assert s[|s| - 3..] == Fence;
    assert s[3..|s| - 3] == body;
    if |s| >= 7 {
      assert JsonFence[3..7] == "json";
      if |body| >= 4 {
        assert s[3..7] == body[..4] != "json";
        assert s[..7][3..7] == s[3..7];
      } else {
        var k := 3 + |body|;
        assert s[k] == '`' != JsonFence[k];
        assert s[..7][k] == s[k];
      }
    }
  }

  /** A body wrapped in a ```json fence comes back trimmed, whatever it contains. */
  lemma {:induction false} StripJsonFence(body: string)
    ensures StripFences(JsonFence + body + Fence) == Trim(body)
  {
    FencedIsTrimmed(JsonFence, body);
    JsonFenced(body);
    UnfenceJson(JsonFence + body + Fence, body);
  }

  /** A body in a bare fence comes back trimmed, unless it starts with the `json` tag. */
  lemma {:induction false} StripBareFence(body: string)
    requires !StartsWith(body, "json")
    ensures StripFences(Fence + body + Fence) == Trim(body)
  {
    FencedIsTrimmed(Fence, body);
    BareFenced(body);
    UnfenceBare(Fence + body + Fence, body);
  }

  /** A reply whose trimmed text does not open with a fence is only trimmed. */
  lemma {:induction false} StripUnfenced(text: string)
    requires !StartsWith(Trim(text), Fence)
    ensures StripFences(text) == Trim(text)
  {
    assert JsonFence == Fence + "json";
    if StartsWith(Trim(text), JsonFence) {
      StartsWithLonger(Trim(text), Fence, "json");
    }
  }

  /** When the opening and closing fences overlap the result is empty, not an error. */
  lemma {:induction false} StripOverlappingFences(text: string)
    requires StartsWith(Trim(text), Fence) && EndsWith(Trim(text), Fence)
    requires |Trim(text)| < 6
    ensures StripFences(text) == ""
  {
  }

  // ----- Validating the parsed reply -----

  /** `MealAnalysisResult`. */
  datatype Analysis = Analysis(calories: real, fats: real, carbohydrates: real, protein: real, sugars: real, notes: string)

  /** Why a parsed reply is not an analysis: it is `null` (reading a field throws), or a field has the wrong type. */
  datatype Invalid = NullReply | BadFormat

  /** The field-type check of the parsed reply. */
  function Validate(v: Json): (r: Result<Analysis, Invalid>)
    ensures r == Failure(NullReply) <==> v.JNull?
    ensures r.Success? <==>
              v.JObj?
              && "calories" in v.fields && v.fields["calories"].JNum?
              && "fats" in v.fields && v.fields["fats"].JNum?
              && "carbohydrates" in v.fields && v.fields["carbohydrates"].JNum?
              && "protein" in v.fields && v.fields["protein"].JNum?
              && "sugars" in v.fields && v.fields["sugars"].JNum?
              && "notes" in v.fields && v.fields["notes"].JStr?
    ensures r.Success? ==>
              && v.fields["calories"] == JNum(r.value.calories)
              && v.fields["fats"] == JNum(r.value.fats)
              && v.fields["carbohydrates"] == JNum(r.value.carbohydrates)
              && v.fields["protein"] == JNum(r.value.protein)
              && v.fields["sugars"] == JNum(r.value.sugars)
              && v.fields["notes"] == JStr(r.value.notes)
  {
    if v.JNull? then Failure(NullReply)
    else
      var calories := Property(v, "calories");
      var fats := Property(v, "fats");
      var carbohydrates := Property(v, "carbohydrates");
      var protein := Property(v, "protein");
      var sugars := Property(v, "sugars");
      var notes := Property(v, "notes");
      if !IsNumber(calories) || !IsNumber(fats) || !IsNumber(carbohydrates)
         || !IsNumber(protein) || !IsNumber(sugars) || !IsString(notes)
      then Failure(BadFormat)
      else Success(Analysis(calories.value.n, fats.value.n, carbohydrates.value.n,
                            protein.value.n, sugars.value.n, notes.value.s))
  }

  /** The JSON object the prompt asks the model to reply with. */
  function Encode(a: Analysis): Json {
    JObj(map[
      "calories" := JNum(a.calories),
      "fats" := JNum(a.fats),
      "carbohydrates" := JNum(a.carbohydrates),
      "protein" := JNum(a.protein),
      "sugars" := JNum(a.sugars),
      "notes" := JStr(a.notes)])
  }

  /** A reply in the requested format validates to exactly the analysis it encodes. */
  lemma {:induction false} ValidateEncode(a: Analysis)
    ensures Validate(Encode(a)) == Success(a)
  {
  }

  predicate IsAnalysisField(key: string) {
    key in {"calories", "fats", "carbohydrates", "protein", "sugars", "notes"}
  }

  /** Extra fields in the reply (a `slug`, say) change nothing. */
  lemma {:induction false} ValidateIgnoresExtraFields(fields: map<string, Json>, key: string, value: Json)
    requires !IsAnalysisField(key)
    ensures Validate(JObj(fields[key := value])) == Validate(JObj(fields))
  {
  }

  // ----- Classifying thrown errors -----

  /** A thrown value: an `Error` with its message, or anything else. */
  datatype Thrown = ErrorValue(message: string) | OtherValue

  const InvalidKeyReply: ErrorReply := ErrorReply(401, "Invalid API key. Please check your GEMINI_API_KEY in .env.local")
  const QuotaReply: ErrorReply := ErrorReply(429, "API quota exceeded. Please try again later.")
  const AnalyzeFailedReply: ErrorReply := ErrorReply(500, "Failed to analyze meal. Please try again.")

  /** The catch block: an invalid key before a quota problem, everything else a generic failure. */
  function ClassifyThrown(t: Thrown): (e: ErrorReply)
    ensures e in {InvalidKeyReply, QuotaReply, AnalyzeFailedReply}
    ensures e == InvalidKeyReply <==> t.ErrorValue? && Contains(t.message, "API key not valid")
    ensures e == QuotaReply <==>
              t.ErrorValue? && !Contains(t.message, "API key not valid") && Contains(t.message, "quota")
  {
    match t
    case ErrorValue(message) =>
      if Contains(message, "API key not valid") then InvalidKeyReply
      else if Contains(message, "quota") then QuotaReply
      else AnalyzeFailedReply
    case OtherValue => AnalyzeFailedReply
  }

  /** The TypeError the V8 engine throws when the parsed reply is `null`. */
  const NullReadMessage: string := "Cannot read " + "properties " + "of null" + " (reading " + "'calories')"

  /** A message with neither a 'k' nor a 'q' names neither an invalid key nor a quota, so it is a generic failure. */
  lemma {:induction false} WithoutKeyLettersIsGeneric(message: string)
    requires 'k' !in message && 'q' !in message
    ensures ClassifyThrown(ErrorValue(message)) == AnalyzeFailedReply
  {
    LacksChar(message, "API key not valid", 'k');
    LacksChar(message, "quota", 'q');
  }

  /** A `null` reply ends in the generic failure. */
  lemma {:induction false} NullReplyIsGenericFailure()
    ensures ClassifyThrown(ErrorValue(NullReadMessage)) == AnalyzeFailedReply
  {
    NullMessageLacksKeyLetters();
    WithoutKeyLettersIsGeneric(NullReadMessage);
  }

  /** The message has neither a 'k' nor a 'q'. */
  lemma {:induction false} NullMessageLacksKeyLetters()
    ensures 'k' !in NullReadMessage && 'q' !in NullReadMessage
  {
    assert 'k' !in "Cannot read " && 'q' !in "Cannot read ";
    assert 'k' !in "properties " && 'q' !in "properties ";
    assert 'k' !in "of null" && 'q' !in "of null";
    assert 'k' !in " (reading " && 'q' !in " (reading ";
    assert 'k' !in "'calories')" && 'q' !in "'calories')";
  }

  /** The TypeError the V8 engine throws when `const { mealText } = ...` meets a `null` body. */
  const NullBodyMessage: string :=
    "Cannot destructure " + "property " + "'mealText' " + "of '(intermediate " + "value)' " + "as it is null."

  /** A `null` request body ends in the generic failure. */
  lemma {:induction false} NullBodyIsGenericFailure()
    ensures ClassifyThrown(ErrorValue(NullBodyMessage)) == AnalyzeFailedReply
  {
    assert 'k' !in "Cannot destructure " && 'q' !in "Cannot destructure ";
    assert 'k' !in "property " && 'q' !in "property ";
    assert 'k' !in "'mealText' " && 'q' !in "'mealText' ";
    assert 'k' !in "of '(intermediate " && 'q' !in "of '(intermediate ";
    assert 'k' !in "value)' " && 'q' !in "value)' ";
    assert 'k' !in "as it is null." && 'q' !in "as it is null.";
    WithoutKeyLettersIsGeneric(NullBodyMessage);
  }

  // ----- Stored entry and response -----

  /** `LogEntryResponse`: the reply of a successful analysis. */
  datatype EntryResponse = EntryResponse(
    id: string,
    calories: real,
    fats: real,
    carbohydrates: real,
    protein: real,
    sugars: real,
    notes: string,
    slug: string,
    timestamp: int)

  /** The `data` of `prisma.logEntry.create`: `protein` is stored as `proteins`. */
  function ToStored(a: Analysis, id: string, userId: string, now: Stamp): (e: LogEntry)
    ensures e.calories == a.calories && e.fats == a.fats && e.carbohydrates == a.carbohydrates
    ensures e.proteins == a.protein && e.sugars == a.sugars && e.notes == a.notes
    ensures e.slug == GenerateSlug(now, a.calories)
    ensures e.id == id && e.slugId.None? && e.userId == userId && e.stamp == now
  {
    LogEntry(id, None, userId, a.calories, a.fats, a.carbohydrates, a.protein, a.sugars, a.notes,
             GenerateSlug(now, a.calories), now)
  }

  /** The response built from the stored row: `protein` is read back from `proteins`. */
  function ToResponse(e: LogEntry): (r: EntryResponse)
    ensures r.protein == e.proteins && r.calories == e.calories && r.fats == e.fats
    ensures r.carbohydrates == e.carbohydrates && r.sugars == e.sugars && r.notes == e.notes
    ensures r.id == e.id && r.slug == e.slug && r.timestamp == e.stamp.instant
  {
    EntryResponse(e.id, e.calories, e.fats, e.carbohydrates, e.proteins, e.sugars, e.notes, e.slug, e.stamp.instant)
  }

  /** The nutrition a response reports. */
  function AnalysisOf(r: EntryResponse): Analysis {
    Analysis(r.calories, r.fats, r.carbohydrates, r.protein, r.sugars, r.notes)
  }

  /** Storing an analysis and reading the response back loses nothing. */
  lemma {:induction false} StoredRoundTrip(a: Analysis, id: string, userId: string, now: Stamp)
    ensures AnalysisOf(ToResponse(ToStored(a, id, userId, now))) == a
  {
  }

  // ----- The handler -----

  /** What the model call produced: the reply text, or a thrown value. */
  datatype Reply = Replied(text: string) | Raised(thrown: Thrown)

  /** The handler's reply together with the log table after the request. */
  datatype Outcome = Outcome(response: Result<EntryResponse, ErrorReply>, log: seq<LogEntry>)

  const MissingKeyReply: ErrorReply := ErrorReply(500, "API key not configured. Please add GEMINI_API_KEY to your .env.local file")
  const MissingTextReply: ErrorReply := ErrorReply(400, "Meal text is required")
  const ParseFailedReply: ErrorReply := ErrorReply(500, "Failed to parse nutrition analysis")
  const BadFormatReply: ErrorReply := ErrorReply(500, "Invalid nutrition analysis format")

  /** `!mealText || typeof mealText !== 'string'` fails. */
  predicate ValidMealText(mealText: Option<Json>) {
    Truthy(mealText) && IsString(mealText)
  }

  /** What `await request.json()` gives: the parsed body, or the value it throws on a body that is not JSON. */
  datatype RequestBody = Parsed(value: Json) | Unparsable(thrown: Thrown)

  /**
    `const { mealText } = await request.json()`: the field of the parsed body,
    or the value thrown by the parse or by destructuring `null`.
   */
  function ReadMealText(body: RequestBody): (r: Result<Option<Json>, Thrown>)
    ensures body.Unparsable? ==> r == Failure(body.thrown)
    ensures body == Parsed(JNull) ==> r == Failure(ErrorValue(NullBodyMessage))
    ensures r.Success? <==> body.Parsed? && !body.value.JNull?
    ensures r.Success? && r.value.Some? ==> body.value.JObj? && "mealText" in body.value.fields
                                             && r.value.value == body.value.fields["mealText"]
    ensures body.Parsed? && body.value.JObj? && "mealText" in body.value.fields ==> r.Success? && r.value.Some?
  {
    match body
    case Unparsable(t) => Failure(t)
    case Parsed(v) => if v.JNull? then Failure(ErrorValue(NullBodyMessage)) else Success(Property(v, "mealText"))
  }

  /** A request body `{ mealText }`. */
  function MealBody(meal: string): Json {
    JObj(map["mealText" := JStr(meal)])
  }

  /**
    The checks made before the model is called, in their order: session,
    configured key, then reading the body (whose throw the catch block
    classifies) and checking the meal text.
   */
  function Guard(user: Option<User>, apiKey: string, body: RequestBody): (r: Option<ErrorReply>)
    ensures r.None? <==>
              user.Some? && apiKey != "" && ReadMealText(body).Success? && ValidMealText(ReadMealText(body).value)
    ensures user.None? ==> r == Some(AuthRequired)
    ensures user.Some? && apiKey == "" ==> r == Some(MissingKeyReply)
    ensures user.Some? && apiKey != "" && ReadMealText(body).Failure? ==>
              r == Some(ClassifyThrown(ReadMealText(body).error))
    ensures user.Some? && apiKey != "" && ReadMealText(body).Success? && !ValidMealText(ReadMealText(body).value) ==>
              r == Some(MissingTextReply)
  {
    if user.None? then Some(AuthRequired)
    else if apiKey == "" then Some(MissingKeyReply)
    else
      match ReadMealText(body)
      case Failure(t) => Some(ClassifyThrown(t))
      case Success(mealText) => if !ValidMealText(mealText) then Some(MissingTextReply) else None
  }

  /** A `null` body or one that is not JSON ends in a 500 unless the thrown message names an invalid key or a quota. */
  lemma {:induction false} UnreadableBodyFails(user: User, apiKey: string, body: RequestBody)
    requires apiKey != ""
    requires body == Parsed(JNull) || body.Unparsable?
    ensures var r := Guard(Some(user), apiKey, body);
            && r.Some? && r.value.status in {401, 429, 500}
            && (body == Parsed(JNull) ==> r == Some(AnalyzeFailedReply))
  {
    if body == Parsed(JNull) {
      NullBodyIsGenericFailure();
    }
  }

  /**
    From the model's answer to an analysis: a thrown value is classified, the
    text is cleaned and parsed (`parse` stands for `JSON.parse`, `None` when it
    throws), and the parsed value is validated.
   */
  function Interpret(reply: Reply, parse: string -> Option<Json>): (r: Result<Analysis, ErrorReply>)
    ensures r.Success? <==>
              reply.Replied? && parse(StripFences(reply.text)).Some?
              && Validate(parse(StripFences(reply.text)).value).Success?
    ensures r.Success? ==> r.value == Validate(parse(StripFences(reply.text)).value).value
    ensures reply.Raised? ==> r == Failure(ClassifyThrown(reply.thrown))
    ensures reply.Replied? && parse(StripFences(reply.text)).None? ==> r == Failure(ParseFailedReply)
    ensures r.Failure? ==> r.error.status in {401, 429, 500}
  {
    match reply
    case Raised(t) => Failure(ClassifyThrown(t))
    case Replied(text) =>
      match parse(StripFences(text))
      case None => Failure(ParseFailedReply)
      case Some(v) =>
        match Validate(v)
        case Failure(NullReply) => Failure(ClassifyThrown(ErrorValue(NullReadMessage)))
        case Failure(BadFormat) => Failure(BadFormatReply)
        case Success(a) => Success(a)
  }

  /**
    POST: `user` is the session's user, `apiKey` the configured key ("" when
    unset), `body` the request body, `reply` the model's answer, `parse`
    stands for `JSON.parse`, `now` the current time, `newId` the id the
    database assigns, and `persist` a value the insert throws, if any.
   */
  function Analyze(user: Option<User>, apiKey: string, body: RequestBody, reply: Reply,
                   parse: string -> Option<Json>, now: Stamp, newId: string,
                   persist: Option<Thrown>, log: seq<LogEntry>): (o: Outcome)
    ensures o.response.Failure? ==> o.log == log
    ensures o.response.Failure? ==> o.response.error.status in {400, 401, 429, 500}
    ensures Guard(user, apiKey, body).Some? ==> o.response == Failure(Guard(user, apiKey, body).value)
    ensures Guard(user, apiKey, body).None? && Interpret(reply, parse).Failure? ==>
              o.response == Failure(Interpret(reply, parse).error)
    ensures o.response.Success? <==>
              Guard(user, apiKey, body).None? && Interpret(reply, parse).Success? && persist.None?
    ensures o.response.Success? ==>
              && var a := Interpret(reply, parse).value;
                 && o.log == log + [ToStored(a, newId, user.value.id, now)]
                 && AnalysisOf(o.response.value) == a
                 && o.response.value.slug == GenerateSlug(now, a.calories)
                 && o.response.value.id == newId
  {
    match Guard(user, apiKey, body)
    case Some(e) => Outcome(Failure(e), log)
    case None =>
      match Interpret(reply, parse)
      case Failure(e) => Outcome(Failure(e), log)
      case Success(a) =>
        match persist
        case Some(t) => Outcome(Failure(ClassifyThrown(t)), log)
        case None =>
          var entry := ToStored(a, newId, user.value.id, now);
          StoredRoundTrip(a, newId, user.value.id, now);
          Outcome(Success(ToResponse(entry)), log + [entry])
  }

  /** A reply that parses to an analysis in the requested format is stored and echoed back unchanged. */
  lemma {:induction false} AnalyzeStoresReply(user: User, apiKey: string, meal: string, text: string, a: Analysis,
                           parse: string -> Option<Json>, now: Stamp, newId: string, log: seq<LogEntry>)
    requires apiKey != "" && meal != ""
    requires parse(StripFences(text)) == Some(Encode(a))
    ensures var o := Analyze(Some(user), apiKey, Parsed(MealBody(meal)), Replied(text), parse, now, newId, None, log);
            && o.response.Success?
            && AnalysisOf(o.response.value) == a
            && o.log == log + [ToStored(a, newId, user.id, now)]
  {
    InterpretEncoded(text, parse, a);
    GuardPasses(user, apiKey, meal);
    AnalyzeStores(user, apiKey, meal, text, a, parse, now, newId, log);
  }

  /** A reply text that parses to an encoded analysis is interpreted as that analysis. */
  lemma {:induction false} InterpretEncoded(text: string, parse: string -> Option<Json>, a: Analysis)
    requires parse(StripFences(text)) == Some(Encode(a))
    ensures Interpret(Replied(text), parse) == Success(a)
  {
    ValidateEncode(a);
  }

  /** A signed-in request with a configured key and a non-empty meal text passes the guards. */
  lemma {:induction false} GuardPasses(user: User, apiKey: string, meal: string)
    requires apiKey != "" && meal != ""
    ensures Guard(Some(user), apiKey, Parsed(MealBody(meal))) == None
  {
  }

  /** Past the guards, an interpreted analysis is stored when the insert does not throw. */
  lemma {:induction false} AnalyzeStores(user: User, apiKey: string, meal: string, text: string, a: Analysis,
                      parse: string -> Option<Json>, now: Stamp, newId: string, log: seq<LogEntry>)
    requires Guard(Some(user), apiKey, Parsed(MealBody(meal))) == None
    requires Interpret(Replied(text), parse) == Success(a)
    ensures var o := Analyze(Some(user), apiKey, Parsed(MealBody(meal)), Replied(text), parse, now, newId, None, log);
            && o.response.Success?
            && AnalysisOf(o.response.value) == a
            && o.log == log + [ToStored(a, newId, user.id, now)]
  {
  }

  /** The same holds when the model wraps its JSON in a ```json fence. */
  lemma {:induction false} AnalyzeStoresFencedReply(user: User, apiKey: string, meal: string, body: string, a: Analysis,
                                 parse: string -> Option<Json>, now: Stamp, newId: string, log: seq<LogEntry>)
    requires apiKey != "" && meal != ""
    requires parse(Trim(body)) == Some(Encode(a))
    ensures var o := Analyze(Some(user), apiKey, Parsed(MealBody(meal)), Replied(JsonFence + body + Fence), parse, now, newId, None, log);
            && o.response.Success?
            && AnalysisOf(o.response.value) == a
            && o.log == log + [ToStored(a, newId, user.id, now)]
  {
    StripJsonFence(body);
    AnalyzeStoresReply(user, apiKey, meal, JsonFence + body + Fence, a, parse, now, newId, log);
  }

  /** A reply that parses to `null` ends in the generic failure and stores nothing. */
  lemma {:induction false} AnalyzeNullReply(user: User, apiKey: string, meal: string, text: string,
                         parse: string -> Option<Json>, now: Stamp, newId: string,
                         persist: Option<Thrown>, log: seq<LogEntry>)
    requires apiKey != "" && meal != ""
    requires parse(StripFences(text)) == Some(JNull)
    ensures Analyze(Some(user), apiKey, Parsed(MealBody(meal)), Replied(text), parse, now, newId, persist, log)
            == Outcome(Failure(AnalyzeFailedReply), log)
  {
    NullReplyIsGenericFailure();
    GuardPasses(user, apiKey, meal);
    InterpretNull(text, parse);
  }

  /** A reply text that parses to `null` is interpreted as the generic failure. */
  lemma {:induction false} InterpretNull(text: string, parse: string -> Option<Json>)
    requires parse(StripFences(text)) == Some(JNull)
    ensures Interpret(Replied(text), parse) == Failure(AnalyzeFailedReply)
  {
    NullReplyIsGenericFailure();
  }
}
