/**
  The goal editor: checking the typed value before it is saved, and the
  label and unit shown for a goal type.
 */
module GoalModal {
  import opened Wrappers
  import opened Text
  import opened Numbers
  import opened Json
  import Goals

  const InvalidNumber: string := "Please enter a valid positive number"

  /** What `handleSave` does before any request: refuse with an error, or send a PUT body. */
  datatype SaveStep = Rejected(error: string) | Send(body: Json)

  /** The typed value, if it reads as a number above zero. */
  predicate IsPositiveNumber(input: string) {
    ParseFloat(input).Some? && ParseFloat(input).value > 0.0
  }

  /** `handleSave`: `parseFloat` the input; NaN or a value not above zero is refused. */
  function HandleSave(goalType: string, input: string): (s: SaveStep)
    ensures s.Rejected? <==> !IsPositiveNumber(input)
    ensures s.Rejected? ==> s.error == InvalidNumber
    ensures s.Send? ==> s.body == Goals.Body(goalType, ParseFloat(input).value) && ParseFloat(input).value > 0.0
  {
    var value := ParseFloat(input);
    if value.None? || value.value <= 0.0 then Rejected(InvalidNumber)
    else Send(Goals.Body(goalType, value.value))
  }

  /** The save control is active: `newValue.trim()` is non-empty and the value is a positive number. */
  predicate SaveEnabled(input: string) {
    Trim(input) != "" && IsPositiveNumber(input)
  }

  /** The control is active exactly when pressing it would send the value. */
  lemma {:induction false} EnabledIffSends(goalType: string, input: string)
    ensures SaveEnabled(input) <==> HandleSave(goalType, input).Send?
  {
    if IsPositiveNumber(input) {
      var i :| 0 <= i < |input| && IsDigit(input[i]);
      DigitIsNotSpace(input[i]);
      NonSpaceSurvivesTrim(input, i);
    }
  }

  /** A sent value is what the goal store then reports for the type. */
  lemma {:induction false} SentValueIsStored(store: Goals.Store, goalType: string, input: string, newId: string, now: int)
    requires goalType != ""
    requires HandleSave(goalType, input).Send?
    ensures var o := Goals.Put(store, Some(HandleSave(goalType, input).body), newId, now);
            && o.reply.Success?
            && Goals.Get(o.store, Some(goalType)).value.value == ParseFloat(input).value
  {
    Goals.PutThenGet(store, goalType, ParseFloat(input).value, newId, now);
  }

  /** `getGoalTypeLabel`. */
  function Label(goalType: string): (text: string)
    ensures goalType == "calories" ==> text == "Calories"
    ensures goalType == "protein" ==> text == "Protein"
    ensures goalType == "carbs" ==> text == "Carbohydrates"
    ensures goalType == "fats" ==> text == "Fats"
    ensures goalType !in {"calories", "protein", "carbs", "fats"} ==>
              |text| == |goalType| && (|goalType| > 0 ==> text[0] == UpperChar(goalType[0]) && text[1..] == goalType[1..])
  {
    match goalType
    case "calories" => "Calories"
    case "protein" => "Protein"
    case "carbs" => "Carbohydrates"
    case "fats" => "Fats"
    case _ => Capitalize(goalType)
  }

  /** `getGoalTypeUnit`. */
  function Unit(goalType: string): (symbol: string)
    ensures goalType == "calories" ==> symbol == "kcal"
    ensures goalType in {"protein", "carbs", "fats"} ==> symbol == "g"
    ensures goalType !in {"calories", "protein", "carbs", "fats"} ==> symbol == ""
  {
    match goalType
    case "calories" => "kcal"
    case "protein" => "g"
    case "carbs" => "g"
    case "fats" => "g"
    case _ => ""
  }

  /** The known types other than calories are measured in grams; only unknown types have no unit. */
  lemma {:induction false} UnitIsEmptyOnlyForUnknown(goalType: string)
    ensures Unit(goalType) == "" <==> Label(goalType) == Capitalize(goalType) && goalType !in {"calories", "protein", "carbs", "fats"}
  {
  }
}
