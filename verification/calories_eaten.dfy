/**
  The "Calories Eaten" card: today's calories against the calorie goal, as a
  progress percentage capped at 100.
 */
module CaloriesEaten {
  import opened Wrappers
  import opened Http
  import Goals
  import TodaySummary

  /** The goal shown when there is no user or the goal cannot be fetched. */
  const FallbackGoal: real := 3500.0

  /** What the card shows: today's calories and the goal (`None` while it is `null`). */
  datatype Card = Card(current: real, goal: Option<real>)

  /**
    The card once both requests have settled. Without a user id no request is
    made; a failed summary request leaves the summary `null`, read as 0
    calories; a failed goal request falls back to 3500.
   */
  function Settle(userId: Option<string>,
                  summary: Result<TodaySummary.Summary, ErrorReply>,
                  goal: Result<Goals.GoalReply, ErrorReply>): (c: Card)
    ensures userId.None? || userId.value == "" ==> c == Card(0.0, Some(FallbackGoal))
    ensures userId.Some? && userId.value != "" ==>
              && c.current == (if summary.Success? then summary.value.totalCalories else 0.0)
              && c.goal == Some(if goal.Success? then goal.value.value else FallbackGoal)
  {
    if userId.None? || userId.value == "" then Card(0.0, Some(FallbackGoal))
    else
      var current := if summary.Success? then summary.value.totalCalories else 0.0;
      Card(current, Some(if goal.Success? then goal.value.value else FallbackGoal))
  }

  /** `goalCalories ? Math.min(current / goal * 100, 100) : 0`; a `null` or zero goal shows no progress. */
  function Progress(current: real, goal: Option<real>): (p: real)
    ensures p <= 100.0
    ensures goal.None? || goal.value == 0.0 ==> p == 0.0
    ensures goal.Some? && goal.value > 0.0 && current >= 0.0 ==> p >= 0.0
    ensures goal.Some? && goal.value != 0.0 && current / goal.value * 100.0 < 100.0 ==> p == current / goal.value * 100.0
  {
    if goal.None? || goal.value == 0.0 then 0.0
    else
      var ratio := current / goal.value * 100.0;
      if ratio < 100.0 then ratio else 100.0
  }

  /** With a positive goal the bar is full exactly when today's calories reach the goal. */
  lemma {:induction false} FullIffGoalReached(current: real, goal: real)
    requires goal > 0.0
    ensures Progress(current, Some(goal)) == 100.0 <==> current >= goal
  {
    if current < goal {
      assert current / goal < 1.0;
    } else {
      assert current / goal >= 1.0;
    }
  }

  /** More calories never show less progress. */
  lemma {:induction false} ProgressMonotonic(a: real, b: real, goal: real)
    requires goal > 0.0 && a <= b
    ensures Progress(a, Some(goal)) <= Progress(b, Some(goal))
  {
    assert a / goal <= b / goal;
  }

  /** A store without a calorie goal shows 3500 whether or not the goal request succeeds. */
  lemma {:induction false} FallbackMatchesServerDefault(store: Goals.Store, userId: string, summary: Result<TodaySummary.Summary, ErrorReply>)
    requires userId != "" && Goals.CaloriesType !in store
    ensures Settle(Some(userId), summary, Goals.Get(store, Some(Goals.CaloriesType))).goal == Some(FallbackGoal)
  {
  }
}
