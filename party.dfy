/**
 * One booking (`Party`): its time window, meal order, contact details and
 * status with its append-only history.
 */
module Parties {
  import opened Errors
  import Sets

  const PENDING := 0
  const COMPLETE := 1
  const CANCELLED := 2

  /** `dict.get(meal, 0)`. */
  function QuantityOf(meals: map<string, int>, meal: string): int {
    if meal in meals then meals[meal] else 0
  }

  /** The order after `modify_meals(delta)`: every meal of the delta gets its amount added, negative or not. */
  function ApplyMeals(meals: map<string, int>, delta: map<string, int>): (r: map<string, int>)
    ensures r.Keys == meals.Keys + delta.Keys
    ensures forall meal :: meal in delta ==> r[meal] == QuantityOf(meals, meal) + delta[meal]
    ensures forall meal :: meal in meals && meal !in delta ==> r[meal] == meals[meal]
  {
    map meal | meal in meals.Keys + delta.Keys ::
      if meal in delta then QuantityOf(meals, meal) + delta[meal] else meals[meal]
  }

  /** Two deltas in turn, added up per meal. */
  function SumDeltas(first: map<string, int>, second: map<string, int>): map<string, int> {
    map meal | meal in first.Keys + second.Keys :: QuantityOf(first, meal) + QuantityOf(second, meal)
  }

  /** Applying one delta and then another is applying their sum once: `{a: x}` then `{a: y}` is `{a: x + y}`. */
  lemma ApplyMealsCompose(meals: map<string, int>, first: map<string, int>, second: map<string, int>)
    ensures ApplyMeals(ApplyMeals(meals, first), second) == ApplyMeals(meals, SumDeltas(first, second))
  {
    var lhs := ApplyMeals(ApplyMeals(meals, first), second);
    var rhs := ApplyMeals(meals, SumDeltas(first, second));
    forall meal | meal in lhs ensures meal in rhs && lhs[meal] == rhs[meal] {
    }
  }

  /** Nothing stops a quantity from going negative: removing three of a meal ordered once leaves -2. */
  lemma ApplyMealsAllowsNegative()
    ensures ApplyMeals(map["1" := 1], map["1" := -3]) == map["1" := -2]
  {
  }

  /** The delta restricted to the meals already applied. */
  function Restrict(delta: map<string, int>, done: set<string>): map<string, int> {
    map meal | meal in delta && meal in done :: delta[meal]
  }

  /** The order once every meal of the delta outside `todo` has been applied. */
  function Applied(base: map<string, int>, delta: map<string, int>, todo: set<string>): map<string, int> {
    ApplyMeals(base, Restrict(delta, delta.Keys - todo))
  }

  /** Before any meal is applied, the order is unchanged. */
  lemma AppliedNone(base: map<string, int>, delta: map<string, int>)
    ensures Applied(base, delta, delta.Keys) == base
  {
    assert Restrict(delta, {}) == map[];
  }

  /** Applying one more meal of the delta removes it from `todo`. */
  lemma AppliedStep(base: map<string, int>, delta: map<string, int>, todo: set<string>, meal: string)
    requires meal in todo && todo <= delta.Keys
    ensures var cur := Applied(base, delta, todo);
            cur[meal := QuantityOf(cur, meal) + delta[meal]] == Applied(base, delta, todo - {meal})
  {
    var cur := Applied(base, delta, todo);
    var lhs := cur[meal := QuantityOf(cur, meal) + delta[meal]];
    var rhs := Applied(base, delta, todo - {meal});
    assert delta.Keys - (todo - {meal}) == (delta.Keys - todo) + {meal};
    assert lhs.Keys == rhs.Keys;
    forall k | k in lhs ensures lhs[k] == rhs[k] {
    }
  }

  /** Once `todo` is empty, the whole delta has been applied. */
  lemma AppliedAll(base: map<string, int>, delta: map<string, int>)
    ensures Applied(base, delta, {}) == ApplyMeals(base, delta)
  {
    assert Restrict(delta, delta.Keys) == delta;
  }

  class Party {
    var timeStart: int
    var timeLength: int
    var meals: map<string, int>
    var name: string
    var caravanNo: int
    var telephoneNo: int
    var additionalNotes: string
    var status: int
    var statusLog: seq<int>

    /** The log is never empty and ends with the current status. */
    ghost predicate Valid()
      reads this
    {
      |statusLog| > 0 && statusLog[|statusLog| - 1] == status
    }

    /** `Party.__init__`; `booked` is accepted and not stored. */
    constructor (timeStart: int, timeLength: int, meals: map<string, int>, booked: bool,
                 name: string := "anon", caravanNo: int := -1, telephoneNo: int := -1,
                 additionalNotes: string := "", status: int := PENDING)
      ensures Valid()
      ensures this.timeStart == timeStart && this.timeLength == timeLength && this.meals == meals
      ensures this.name == name && this.caravanNo == caravanNo && this.telephoneNo == telephoneNo
      ensures this.additionalNotes == additionalNotes
      ensures this.status == status && statusLog == [status]
    {
      this.timeStart := timeStart;
      this.timeLength := timeLength;
      this.meals := meals;
      this.name := name;
      this.caravanNo := caravanNo;
      this.telephoneNo := telephoneNo;
      this.additionalNotes := additionalNotes;
      this.status := status;
      this.statusLog := [status];
    }

    /** `time_end`: the start plus the length of the stay, so it is not before the start exactly when the length is not negative. */
    function TimeEnd(): (r: int)
      reads this
      ensures r - timeLength == timeStart
      ensures r >= timeStart <==> timeLength >= 0
    {
      timeStart + timeLength
    }

    /** The `pending`, `complete` and `cancelled` getters compare the status with its code. */
    predicate Pending()
      reads this
    {
      status == PENDING
    }

    predicate Complete()
      reads this
    {
      status == COMPLETE
    }

    predicate Cancelled()
      reads this
    {
      status == CANCELLED
    }

    /** At most one status getter holds, and one holds exactly when the status is a known code. */
    lemma StatusFlags()
      ensures !(Pending() && Complete()) && !(Pending() && Cancelled()) && !(Complete() && Cancelled())
      ensures Pending() || Complete() || Cancelled() <==> status in {PENDING, COMPLETE, CANCELLED}
    {
    }

    /** The `pending` setter: a truthy value makes the party pending and logs it; a falsy one raises. */
    method SetPending(value: bool) returns (r: Outcome)
      requires Valid()
      modifies this`status, this`statusLog
      ensures Valid()
      ensures value ==> r == Pass && Pending() && statusLog == old(statusLog) + [PENDING]
      ensures !value ==> r == Fail(ValueError(FalsyStatus)) && status == old(status) && statusLog == old(statusLog)
    {
      if value {
        status := PENDING;
        statusLog := statusLog + [PENDING];
        r := Pass;
      } else {
        r := Fail(ValueError(FalsyStatus));
      }
    }

    /** The `complete` setter. */
    method SetComplete(value: bool) returns (r: Outcome)
      requires Valid()
      modifies this`status, this`statusLog
      ensures Valid()
      ensures value ==> r == Pass && Complete() && statusLog == old(statusLog) + [COMPLETE]
      ensures !value ==> r == Fail(ValueError(FalsyStatus)) && status == old(status) && statusLog == old(statusLog)
    {
      if value {
        status := COMPLETE;
        statusLog := statusLog + [COMPLETE];
        r := Pass;
      } else {
        r := Fail(ValueError(FalsyStatus));
      }
    }

    /** The `cancelled` setter. */
    method SetCancelled(value: bool) returns (r: Outcome)
      requires Valid()
      modifies this`status, this`statusLog
      ensures Valid()
      ensures value ==> r == Pass && Cancelled() && statusLog == old(statusLog) + [CANCELLED]
      ensures !value ==> r == Fail(ValueError(FalsyStatus)) && status == old(status) && statusLog == old(statusLog)
    {
      if value {
        status := CANCELLED;
        statusLog := statusLog + [CANCELLED];
        r := Pass;
      } else {
        r := Fail(ValueError(FalsyStatus));
      }
    }

    /** `Party.modify_meals`: adds each amount of the delta to the order, one meal at a time. */
    method ModifyMeals(mealsAdd: map<string, int>)
      modifies this`meals
      ensures meals == ApplyMeals(old(meals), mealsAdd)
    {
      var todo := mealsAdd.Keys;
      AppliedNone(meals, mealsAdd);
      while todo != {}
        invariant todo <= mealsAdd.Keys
        invariant meals == Applied(old(meals), mealsAdd, todo)
        decreases todo
      {
        ghost var someMeal := Sets.Member(todo);  // a witness, so that the choice below exists
        var meal :| meal in todo;
        AppliedStep(old(meals), mealsAdd, todo, meal);
        meals := meals[meal := QuantityOf(meals, meal) + mealsAdd[meal]];
        todo := todo - {meal};
      }
      AppliedAll(old(meals), mealsAdd);
    }

    /** `Party.overwrite_additional_party_notes`: "w" replaces, "a" appends, any other mode does nothing. */
    method OverwriteAdditionalPartyNotes(notes: string, mode: string := "w")
      modifies this`additionalNotes
      ensures mode == "w" ==> additionalNotes == notes
      ensures mode == "a" ==> additionalNotes == old(additionalNotes) + notes
      ensures mode != "w" && mode != "a" ==> additionalNotes == old(additionalNotes)
    {
      if mode == "w" {
        additionalNotes := notes;
      } else if mode == "a" {
        additionalNotes := additionalNotes + notes;
      }
    }
  }
}
