/** Example meal descriptions for the meal box, picked at random, optionally for a time of day. */
module CommonMeals {
  import opened Seqs

  datatype TimeOfDay = Breakfast | Lunch | Dinner | Snack

  datatype MealEntry = MealEntry(description: string, timeOfDay: TimeOfDay)

  /** `commonMeals`: three breakfasts, three lunches, two dinners and two snacks. */
  const Meals: seq<MealEntry> := [
    MealEntry("scrambled eggs with whole wheat toast and avocado", Breakfast),
    MealEntry("oatmeal with berries, banana, and almond butter", Breakfast),
    MealEntry("greek yogurt parfait with granola and mixed berries", Breakfast),
    MealEntry("grilled chicken breast with steamed broccoli and brown rice", Lunch),
    MealEntry("quinoa salad with chickpeas, cucumber, tomatoes, and olive oil dressing", Lunch),
    MealEntry("salmon fillet with roasted sweet potatoes and asparagus", Lunch),
    MealEntry("baked cod with quinoa pilaf and steamed green beans", Dinner),
    MealEntry("turkey meatballs with whole wheat pasta and marinara sauce", Dinner),
    MealEntry("apple slices with almond butter", Snack),
    MealEntry("mixed nuts and dried fruit", Snack)
  ]

  /** `i` is `Math.floor(random * n)`: `random * n` lies in `[i, i + 1)`. */
  predicate Drawn(random: real, n: nat, i: int) {
    i as real <= random * n as real < i as real + 1.0
  }

  /** A draw in [0, 1) scaled by `n` stays in [0, n). */
  lemma {:induction false} ScaledDraw(random: real, n: nat)
    requires 0.0 <= random < 1.0 && n > 0
    ensures 0.0 <= random * n as real < n as real
  {
    assert random * n as real < 1.0 * n as real;
  }

  /** `Math.floor(random * n)` for a `Math.random()` draw in [0, 1): a valid index. */
  function RandomIndex(random: real, n: nat): (i: nat)
    requires 0.0 <= random < 1.0 && n > 0
    ensures i < n
    ensures Drawn(random, n, i)
  {
    ScaledDraw(random, n);
    (random * n as real).Floor
  }

  /** A draw picks out one index only. */
  lemma {:induction false} SameFloor(random: real, n: nat, i: int, j: int)
    requires Drawn(random, n, i) && Drawn(random, n, j)
    ensures i == j
  {
  }

  /** `s[Math.floor(random * s.length)]`. */
  function Pick<T>(s: seq<T>, random: real): (x: T)
    requires 0.0 <= random < 1.0 && |s| > 0
    ensures x in s
    ensures forall i :: 0 <= i < |s| && Drawn(random, |s|, i) ==> x == s[i]
  {
    var k := RandomIndex(random, |s|);
    forall i | 0 <= i < |s| && Drawn(random, |s|, i) ensures s[i] == s[k] {
      SameFloor(random, |s|, i, k);
    }
    s[k]
  }

  /** The description of the drawn element of `s`. */
  function PickDescription(s: seq<MealEntry>, random: real): (d: string)
    requires 0.0 <= random < 1.0 && |s| > 0
    ensures exists m :: m in s && m.description == d
    ensures forall i :: 0 <= i < |s| && Drawn(random, |s|, i) ==> d == s[i].description
  {
    Pick(s, random).description
  }

  /** `getRandomMeal` with the draw passed in: the meal at position floor(random * 10). */
  function RandomMeal(random: real): (d: string)
    requires 0.0 <= random < 1.0
    ensures exists m :: m in Meals && m.description == d
    ensures forall i :: 0 <= i < |Meals| && Drawn(random, |Meals|, i) ==> d == Meals[i].description
  {
    PickDescription(Meals, random)
  }

  /** The meals of `s` for one time of day, in order. */
  function MealsIn(s: seq<MealEntry>, t: TimeOfDay): (r: seq<MealEntry>)
    ensures IsSubsequence(r, s)
    ensures forall m :: m in r <==> m in s && m.timeOfDay == t
  {
    Filter(s, (m: MealEntry) => m.timeOfDay == t)
  }

  /** `commonMeals.filter(meal => meal.timeOfDay === t)`. */
  function MealsFor(t: TimeOfDay): (r: seq<MealEntry>)
    ensures IsSubsequence(r, Meals)
    ensures forall m :: m in r <==> m in Meals && m.timeOfDay == t
  {
    MealsIn(Meals, t)
  }

  /** A list holding a meal of time `t` keeps it when filtered for `t`. */
  lemma {:induction false} HasMealFor(s: seq<MealEntry>, t: TimeOfDay, i: nat)
    requires i < |s| && s[i].timeOfDay == t
    ensures |MealsIn(s, t)| > 0
  {
    assert s[i] in MealsIn(s, t);
  }

  /** Every time of day has a meal, so the fallback to any meal is never taken. */
  lemma {:induction false} EveryTimeHasMeals(t: TimeOfDay)
    ensures |MealsFor(t)| > 0
  {
    var i := match t
      case Breakfast => 0
      case Lunch => 3
      case Dinner => 6
      case Snack => 8;
    HasMealFor(Meals, t, i);
  }

  /** A random meal of time `t` from `meals`, which has one. */
  function PickFor(meals: seq<MealEntry>, t: TimeOfDay, random: real): (m: MealEntry)
    requires 0.0 <= random < 1.0 && |MealsIn(meals, t)| > 0
    ensures m in meals && m.timeOfDay == t
    ensures var candidates := MealsIn(meals, t);
            forall i :: 0 <= i < |candidates| && Drawn(random, |candidates|, i) ==> m == candidates[i]
  {
    Pick(MealsIn(meals, t), random)
  }

  /** `getRandomMealForTime` with the draw passed in: a meal of that time of day, chosen as `PickFor` does. */
  function RandomMealForTime(t: TimeOfDay, random: real): (d: string)
    requires 0.0 <= random < 1.0
    ensures exists m :: m in Meals && m.timeOfDay == t && m.description == d
  {
    EveryTimeHasMeals(t);
    PickFor(Meals, t, random).description
  }
}
