/**
  GET and PUT /api/goals: one numeric goal per goal type, with a default for
  types never saved. Goals are keyed by type alone, shared by every user.
 */
module Goals {
  import opened Wrappers
  import opened Json
  import opened Http

  /** A stored `goal` row, without its key. Times are instants in milliseconds. */
  datatype Goal = Goal(id: string, value: real, createdAt: int, updatedAt: int)

  /** The `goal` table: its `type` column is unique, so it is a map from type to row. */
  type Store = map<string, Goal>

  const CaloriesType: string := "calories"
  const DefaultCalories: real := 3500.0

  /** The value reported for a type with no row. */
  function DefaultValue(goalType: string): (v: real)
    ensures goalType == CaloriesType ==> v == DefaultCalories
    ensures goalType != CaloriesType ==> v == 0.0
  {
    if goalType == CaloriesType then DefaultCalories else 0.0
  }

  /** A successful reply: a stored row, or the default for a type with none (`isDefault: true`). */
  datatype GoalReply =
    | Stored(id: string, goalType: string, value: real, createdAt: int, updatedAt: int)
    | Default(goalType: string, value: real)
  {
    predicate IsDefault() { Default? }
  }

  function ReplyOf(goalType: string, g: Goal): GoalReply {
    Stored(g.id, goalType, g.value, g.createdAt, g.updatedAt)
  }

  const TypeRequired: ErrorReply := ErrorReply(400, "Type parameter is required")

  /** GET with the raw `type` query parameter. Reading never changes the store. */
  function Get(store: Store, goalType: Option<string>): (r: Result<GoalReply, ErrorReply>)
    ensures r.Failure? <==> goalType.None? || goalType.value == ""
    ensures r.Failure? ==> r.error == TypeRequired
    ensures r.Success? ==> r.value.goalType == goalType.value
    ensures r.Success? ==> (r.value.IsDefault() <==> goalType.value !in store)
    ensures r.Success? && goalType.value !in store ==> r.value.value == DefaultValue(goalType.value)
    ensures r.Success? && goalType.value in store ==> r.value == ReplyOf(goalType.value, store[goalType.value])
  {
    if goalType.None? || goalType.value == "" then Failure(TypeRequired)
    else if goalType.value !in store then Success(Default(goalType.value, DefaultValue(goalType.value)))
    else Success(ReplyOf(goalType.value, store[goalType.value]))
  }

  const FieldsRequired: ErrorReply := ErrorReply(400, "Type and value are required")
  const UpdateFailed: ErrorReply := ErrorReply(500, "Failed to update goal")

  /** The reply of a PUT and the store after it. */
  datatype PutOutcome = PutOutcome(reply: Result<GoalReply, ErrorReply>, store: Store)

  /** `const { type, value } = body` on a parsed, non-null body. */
  function TypeField(body: Json): Option<Json>
    requires !body.JNull?
  {
    Property(body, "type")
  }

  function ValueField(body: Json): Option<Json>
    requires !body.JNull?
  {
    Property(body, "value")
  }

  /** The required-field check: a truthy `type` and a defined `value`. */
  predicate HasFields(body: Json)
    requires !body.JNull?
  {
    Truthy(TypeField(body)) && ValueField(body).Some?
  }

  /** The fields have the column types, a string `type` and a number `value`, so the upsert is accepted. */
  predicate Storable(body: Json)
    requires !body.JNull?
  {
    IsString(TypeField(body)) && IsNumber(ValueField(body))
  }

  /**
    PUT with the request body (`None` when it is not JSON), the id a created
    row receives and the current instant. A body that is not JSON, is `null`,
    or has fields of the wrong type makes a step throw, and the catch block
    answers 500.
   */
  function Put(store: Store, body: Option<Json>, newId: string, now: int): (o: PutOutcome)
    ensures o.reply.Failure? ==> o.store == store
    ensures o.reply.Failure? ==> o.reply.error == FieldsRequired || o.reply.error == UpdateFailed
    ensures o.reply == Failure(FieldsRequired) <==> body.Some? && !body.value.JNull? && !HasFields(body.value)
    ensures o.reply.Success? <==> body.Some? && !body.value.JNull? && HasFields(body.value) && Storable(body.value)
    ensures o.reply.Success? ==>
              var t, v := TypeField(body.value).value.s, ValueField(body.value).value.n;
              && o.store.Keys == store.Keys + {t}
              && o.store[t].value == v && o.store[t].updatedAt == now
              && (t in store ==> o.store[t].id == store[t].id && o.store[t].createdAt == store[t].createdAt)
              && (t !in store ==> o.store[t].id == newId && o.store[t].createdAt == now)
              && (forall k :: k in store && k != t ==> o.store[k] == store[k])
              && o.reply.value == ReplyOf(t, o.store[t])
  {
    if body.None? || body.value.JNull? then PutOutcome(Failure(UpdateFailed), store)
    else if !HasFields(body.value) then PutOutcome(Failure(FieldsRequired), store)
    else if !Storable(body.value) then PutOutcome(Failure(UpdateFailed), store)
    else
      var t, v := TypeField(body.value).value.s, ValueField(body.value).value.n;
      var g := if t in store then store[t].(value := v, updatedAt := now) else Goal(newId, v, now, now);
      PutOutcome(Success(ReplyOf(t, g)), store[t := g])
  }

  /** A body `{ type, value }` with a string type and a number value. */
  function Body(goalType: string, value: real): Json {
    JObj(map["type" := JStr(goalType), "value" := JNum(value)])
  }

  /** A value of 0 passes the required-field check, an empty type does not. */
  lemma {:induction false} ZeroValueAccepted(store: Store, goalType: string, newId: string, now: int)
    ensures Put(store, Some(Body(goalType, 0.0)), newId, now).reply.Success? <==> goalType != ""
  {
    assert TypeField(Body(goalType, 0.0)) == Some(JStr(goalType));
    assert ValueField(Body(goalType, 0.0)) == Some(JNum(0.0));
  }

  /** After a successful PUT of `v` for type `t`, a GET of `t` reports `v` as a stored goal. */
  lemma {:induction false} PutThenGet(store: Store, goalType: string, value: real, newId: string, now: int)
    requires goalType != ""
    ensures var o := Put(store, Some(Body(goalType, value)), newId, now);
            && o.reply.Success?
            && Get(o.store, Some(goalType)) == Success(o.reply.value)
            && Get(o.store, Some(goalType)).value.value == value
  {
    assert TypeField(Body(goalType, value)) == Some(JStr(goalType));
    assert ValueField(Body(goalType, value)) == Some(JNum(value));
  }

  /** A PUT for one type leaves what a GET reports for every other type unchanged. */
  lemma {:induction false} PutKeepsOtherTypes(store: Store, body: Option<Json>, newId: string, now: int, other: string)
    requires var o := Put(store, body, newId, now);
             o.reply.Failure? || o.reply.value.goalType != other
    ensures Get(Put(store, body, newId, now).store, Some(other)) == Get(store, Some(other))
  {
  }

  /** Repeating a PUT at the same instant leaves the store as one PUT leaves it. */
  lemma {:induction false} PutIdempotent(store: Store, body: Option<Json>, newId: string, newId': string, now: int)
    ensures var once := Put(store, body, newId, now).store;
            Put(once, body, newId', now).store == once
  {
    var once := Put(store, body, newId, now);
    if once.reply.Success? {
      var t := once.reply.value.goalType;
      assert Put(once.store, body, newId', now).store == once.store[t := once.store[t]];
    }
  }
}
