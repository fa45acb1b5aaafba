/**
  The recent-meals list's icons: an emoji and a background colour chosen from
  the words a slug contains.
 */
module RecentMeals {
  import opened Text

  /** The first of the checked words a slug contains, in checking order. */
  datatype MealKind = SnackMeal | MorningMeal | AfternoonMeal | EveningMeal | NightMeal | OtherMeal

  /**
    `getMealEmoji` and `getMealBgColor` both test, in this order, whether the
    slug includes "snack", "morning", "afternoon", "evening" and "night".
   */
  function KindOf(slug: string): (k: MealKind)
    ensures k == SnackMeal <==> Contains(slug, "snack")
    ensures k == MorningMeal <==> !Contains(slug, "snack") && Contains(slug, "morning")
    ensures k == AfternoonMeal <==> !Contains(slug, "snack") && !Contains(slug, "morning") && Contains(slug, "afternoon")
    ensures k == EveningMeal <==>
              !Contains(slug, "snack") && !Contains(slug, "morning") && !Contains(slug, "afternoon")
              && Contains(slug, "evening")
    ensures k == NightMeal <==>
              !Contains(slug, "snack") && !Contains(slug, "morning") && !Contains(slug, "afternoon")
              && !Contains(slug, "evening") && Contains(slug, "night")
    ensures k == OtherMeal <==>
              !Contains(slug, "snack") && !Contains(slug, "morning") && !Contains(slug, "afternoon")
              && !Contains(slug, "evening") && !Contains(slug, "night")
  {
    if Contains(slug, "snack") then SnackMeal
    else if Contains(slug, "morning") then MorningMeal
    else if Contains(slug, "afternoon") then AfternoonMeal
    else if Contains(slug, "evening") then EveningMeal
    else if Contains(slug, "night") then NightMeal
    else OtherMeal
  }

  const Apple: string := "\U{1F34E}"
  const Sunrise: string := "\U{1F305}"
  const Sun: string := "\U{2600}\U{FE0F}"
  const Plate: string := "\U{1F37D}\U{FE0F}"
  const Moon: string := "\U{1F319}"

  /** `getMealEmoji`. */
  function MealEmoji(slug: string): (emoji: string)
    ensures Contains(slug, "snack") ==> emoji == Apple
    ensures KindOf(slug) == MorningMeal ==> emoji == Sunrise
    ensures KindOf(slug) == AfternoonMeal ==> emoji == Sun
    ensures KindOf(slug) == NightMeal ==> emoji == Moon
    ensures KindOf(slug) == EveningMeal || KindOf(slug) == OtherMeal ==> emoji == Plate
  {
    match KindOf(slug)
    case SnackMeal => Apple
    case MorningMeal => Sunrise
    case AfternoonMeal => Sun
    case EveningMeal => Plate
    case NightMeal => Moon
    case OtherMeal => Plate
  }

  const Green: string := "bg-green-100"
  const Yellow: string := "bg-yellow-100"
  const Orange: string := "bg-orange-100"
  const Purple: string := "bg-purple-100"
  const Blue: string := "bg-blue-100"
  const Gray: string := "bg-gray-100"

  /** The six background classes. */
  const Colours: set<string> := {Green, Yellow, Orange, Purple, Blue, Gray}

  /** `getMealBgColor`. */
  function MealBgColor(slug: string): (colour: string)
    ensures colour in Colours
    ensures Contains(slug, "snack") ==> colour == Green
    ensures KindOf(slug) == MorningMeal ==> colour == Yellow
    ensures KindOf(slug) == AfternoonMeal ==> colour == Orange
    ensures KindOf(slug) == EveningMeal ==> colour == Purple
    ensures KindOf(slug) == NightMeal ==> colour == Blue
    ensures KindOf(slug) == OtherMeal ==> colour == Gray
  {
    match KindOf(slug)
    case SnackMeal => Green
    case MorningMeal => Yellow
    case AfternoonMeal => Orange
    case EveningMeal => Purple
    case NightMeal => Blue
    case OtherMeal => Gray
  }

  /** The colour tells the kind apart where the emoji does not: evening and other meals share a plate. */
  lemma {:induction false} ColourSeparatesKinds(a: string, b: string)
    ensures MealBgColor(a) == MealBgColor(b) <==> KindOf(a) == KindOf(b)
    ensures MealEmoji(a) == MealEmoji(b) <==>
              KindOf(a) == KindOf(b)
              || ({KindOf(a), KindOf(b)} == {EveningMeal, OtherMeal})
  {
  }

  /** Any slug naming a snack gets the apple on green, whatever else it names. */
  lemma {:induction false} SnackWins(before: string, after: string)
    ensures MealEmoji(before + "snack" + after) == Apple
    ensures MealBgColor(before + "snack" + after) == Green
  {
    ContainsSelf("snack");
    ContainsInSuffix(before, "snack" + after, "snack");
    assert StartsWith("snack" + after, "snack");
    assert before + "snack" + after == before + ("snack" + after);
  }
}
