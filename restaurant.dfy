/**
 * The restaurant: its configuration, its ledger and its timetable, and the
 * operations on a party that go through the `check_iden_exists` guard.
 */
module Restaurants {
  import opened Errors
  import opened Parties
  import opened Ledger
  import opened Seating
  import TimeSlots

  /** `veg` of a meal: 0, 1, 2 or None. */
  datatype VegClass = NotVeg | Vegetarian | Vegan | VegUnknown

  /** One menu entry, as the configuration check admits it (the price is not modelled). */
  datatype MealInfo = MealInfo(name: string, veg: VegClass,
                               eggFree: Option<bool>, dairyFree: Option<bool>, nutFree: Option<bool>)

  /** The settings a configuration file leaves on the restaurant. */
  datatype Config = Config(
    timingIntervalMins: int,
    restaurantName: string,
    openingTime: int,
    finalOrders: int,
    closingTime: int,
    maxStay: int,
    floorsAndTables: map<int, seq<TableSpec>>,
    meals: map<string, MealInfo>)

  /** How `iden` reached a guarded method: not as a keyword, as something other than an int, or as an int. */
  datatype IdenArg = Missing | NonInt | Iden(id: int)

  /** `check_iden_exists`: the checks run in order and the first that fails decides the error. */
  function CheckIden(iden: IdenArg, ids: set<int>): (r: Result<int>)
    ensures r.Ok? <==> iden.Iden? && iden.id in ids
    ensures r.Ok? ==> r.value == iden.id
    ensures iden.Missing? ==> r == Err(IdentityError(NotKeyword))
    ensures iden.NonInt? ==> r == Err(IdentityError(NotAnInt))
    ensures iden.Iden? && iden.id !in ids ==> r == Err(IdentityError(UnknownIden))
  {
    match iden
    case Missing => Err(IdentityError(NotKeyword))
    case NonInt => Err(IdentityError(NotAnInt))
    case Iden(id) => if id in ids then Ok(id) else Err(IdentityError(UnknownIden))
  }

  /** Every party of `ledger` whose number is not in `except` is untouched. */
  twostate predicate Untouched(ledger: map<int, Party>, except: set<int>)
    reads ledger.Values
  {
    forall id :: id in ledger && id !in except ==> unchanged(ledger[id])
  }

  /** The party keeps its time window and contact details. */
  twostate predicate DetailsUnchanged(p: Party)
    reads p
  {
    && p.timeStart == old(p.timeStart) && p.timeLength == old(p.timeLength)
    && p.name == old(p.name) && p.caravanNo == old(p.caravanNo) && p.telephoneNo == old(p.telephoneNo)
  }

  class Restaurant {
    const timingIntervalMins: int
    const restaurantName: string
    const openingTime: int
    const finalOrders: int
    const closingTime: int
    const maxStay: int
    const floorsAndTablesConfig: map<int, seq<TableSpec>>
    const meals: map<string, MealInfo>
    const transactions: Transaction
    const timetable: Timetable

    /**
     * The ledger is well formed, no party object is stored under two
     * numbers, and every party's log ends with its status, one of the three.
     */
    ghost predicate Valid()
      reads transactions, transactions.entries.Values
    {
      && transactions.Valid()
      && transactions.KnownStatuses()
      && (forall id :: id in transactions.entries ==> transactions.entries[id].Valid())
      && (forall id, other :: id in transactions.entries && other in transactions.entries && id != other ==>
            transactions.entries[id] != transactions.entries[other])
    }

    /**
     * `Restaurant.__init__` after the configuration has been loaded and
     * type-checked: an empty ledger and the timetable of the opening window.
     */
    constructor (config: Config)
      requires config.timingIntervalMins != 0
      ensures Valid() && fresh(transactions) && fresh(timetable)
      ensures timingIntervalMins == config.timingIntervalMins && restaurantName == config.restaurantName
      ensures openingTime == config.openingTime && finalOrders == config.finalOrders
      ensures closingTime == config.closingTime && maxStay == config.maxStay
      ensures floorsAndTablesConfig == config.floorsAndTables && meals == config.meals
      ensures transactions.entries == map[] && transactions.nextNo == 0
      ensures timetable.openingTime == openingTime && timetable.closingTime == closingTime
      ensures timetable.interval == timingIntervalMins && timetable.floorsConfig == floorsAndTablesConfig
      ensures timetable.floors.Keys == floorsAndTablesConfig.Keys && Distinct(timetable.floors)
      ensures forall f :: f in timetable.floors ==> timetable.floors[f].tables == Layout(floorsAndTablesConfig[f])
      ensures forall m :: m in timetable.slots <==>
                0 <= m < Timetable.SlotCount(openingTime, closingTime, timingIntervalMins)
      ensures forall m :: m in timetable.slots ==>
                timetable.slots[m].Keys == floorsAndTablesConfig.Keys && Distinct(timetable.slots[m])
      ensures forall m, f :: m in timetable.slots && f in timetable.slots[m] ==>
                timetable.slots[m][f].tables == Layout(floorsAndTablesConfig[f])
                && timetable.slots[m][f] !in timetable.floors.Values
      ensures SlotsApart(timetable.slots)
    {
      timingIntervalMins := config.timingIntervalMins;
      restaurantName := config.restaurantName;
      openingTime := config.openingTime;
      finalOrders := config.finalOrders;
      closingTime := config.closingTime;
      maxStay := config.maxStay;
      floorsAndTablesConfig := config.floorsAndTables;
      meals := config.meals;
      transactions := new Transaction();
      timetable := new Timetable(config.openingTime, config.closingTime, config.timingIntervalMins,
                                 config.floorsAndTables);
    }

    /**
     * `add_party`: a new pending party staying `max_stay`, stored under the
     * next number; `booked` is accepted and dropped.
     */
    method AddParty(timeStart: int, partyMeals: map<string, int>, booked: bool,
                    name: string := "anon", caravanNo: int := -1, telephoneNo: int := -1,
                    additionalNotes: string := "")
      requires Valid()
      modifies transactions
      ensures Valid()
      ensures transactions.nextNo == old(transactions.nextNo) + 1
      ensures old(transactions.nextNo) !in old(transactions.entries)
      ensures transactions.entries.Keys == old(transactions.entries).Keys + {old(transactions.nextNo)}
      ensures forall id :: id in old(transactions.entries) ==> transactions.entries[id] == old(transactions.entries)[id]
      ensures var p := transactions.entries[old(transactions.nextNo)];
              && fresh(p) && p.Pending() && p.statusLog == [PENDING]
              && p.timeStart == timeStart && p.timeLength == maxStay && p.TimeEnd() == timeStart + maxStay
              && p.meals == partyMeals && p.name == name && p.caravanNo == caravanNo
              && p.telephoneNo == telephoneNo && p.additionalNotes == additionalNotes
    {
      var party := new Party(timeStart, maxStay, partyMeals, booked, name, caravanNo, telephoneNo, additionalNotes);
      transactions.Add(party);
    }

    /** `get_party` behind the guard. */
    method GetParty(iden: IdenArg) returns (r: Result<Party>)
      ensures CheckIden(iden, transactions.entries.Keys).Err? ==>
                r == Err(CheckIden(iden, transactions.entries.Keys).error)
      ensures CheckIden(iden, transactions.entries.Keys).Ok? ==> r == Ok(transactions.entries[iden.id])
    {
      var check := CheckIden(iden, transactions.entries.Keys);
      if check.Err? {
        r := Err(check.error);
      } else {
        r := Ok(transactions.entries[check.value]);
      }
    }

    /** `modify_meals` behind the guard: the party's order gets the delta added, no other party changes. */
    method ModifyMeals(iden: IdenArg, mealsAdd: map<string, int>) returns (r: Outcome)
      requires Valid()
      modifies transactions.entries.Values
      ensures Valid()
      ensures CheckIden(iden, transactions.entries.Keys).Err? ==>
                r == Fail(CheckIden(iden, transactions.entries.Keys).error) && Untouched(old(transactions.entries), {})
      ensures CheckIden(iden, transactions.entries.Keys).Ok? ==>
                var p := transactions.entries[iden.id];
                && r == Pass && Untouched(old(transactions.entries), {iden.id}) && DetailsUnchanged(p)
                && p.meals == ApplyMeals(old(p.meals), mealsAdd)
                && p.additionalNotes == old(p.additionalNotes)
                && p.status == old(p.status) && p.statusLog == old(p.statusLog)
    {
      var check := CheckIden(iden, transactions.entries.Keys);
      if check.Err? {
        r := Fail(check.error);
      } else {
        transactions.entries[check.value].ModifyMeals(mealsAdd);
        r := Pass;
      }
    }

    /**
     * `overwrite_additional_party_notes` behind the guard: a mode other than
     * "w" or "a" raises; "w" replaces the notes and "a" appends to them.
     */
    method OverwriteAdditionalPartyNotes(iden: IdenArg, notes: string, mode: string := "w") returns (r: Outcome)
      requires Valid()
      modifies transactions.entries.Values
      ensures Valid()
      ensures CheckIden(iden, transactions.entries.Keys).Err? ==>
                r == Fail(CheckIden(iden, transactions.entries.Keys).error) && Untouched(old(transactions.entries), {})
      ensures CheckIden(iden, transactions.entries.Keys).Ok? && mode != "w" && mode != "a" ==>
                r == Fail(ValueError(InvalidMode)) && Untouched(old(transactions.entries), {})
      ensures CheckIden(iden, transactions.entries.Keys).Ok? && (mode == "w" || mode == "a") ==>
                var p := transactions.entries[iden.id];
                && r == Pass && Untouched(old(transactions.entries), {iden.id}) && DetailsUnchanged(p)
                && p.additionalNotes == (if mode == "w" then notes else old(p.additionalNotes) + notes)
                && p.meals == old(p.meals) && p.status == old(p.status) && p.statusLog == old(p.statusLog)
    {
      var check := CheckIden(iden, transactions.entries.Keys);
      if check.Err? {
        r := Fail(check.error);
      } else if !(mode == "w" || mode == "a") {
        r := Fail(ValueError(InvalidMode));
      } else {
        transactions.entries[check.value].OverwriteAdditionalPartyNotes(notes, mode);
        r := Pass;
      }
    }

    /** `complete_party`: sets `complete = True` on the party behind the guard. */
    method CompleteParty(iden: IdenArg) returns (r: Outcome)
      requires Valid()
      modifies transactions.entries.Values
      ensures Valid()
      ensures CheckIden(iden, transactions.entries.Keys).Err? ==>
                r == Fail(CheckIden(iden, transactions.entries.Keys).error) && Untouched(old(transactions.entries), {})
      ensures CheckIden(iden, transactions.entries.Keys).Ok? ==>
                var p := transactions.entries[iden.id];
                && r == Pass && Untouched(old(transactions.entries), {iden.id}) && DetailsUnchanged(p)
                && p.Complete() && p.statusLog == old(p.statusLog) + [COMPLETE]
                && p.meals == old(p.meals) && p.additionalNotes == old(p.additionalNotes)
    {
      var check := CheckIden(iden, transactions.entries.Keys);
      if check.Err? {
        r := Fail(check.error);
      } else {
        r := transactions.entries[check.value].SetComplete(true);
      }
    }

    /** `cancel_party`: sets `cancelled = True` on the party behind the guard. */
    method CancelParty(iden: IdenArg) returns (r: Outcome)
      requires Valid()
      modifies transactions.entries.Values
      ensures Valid()
      ensures CheckIden(iden, transactions.entries.Keys).Err? ==>
                r == Fail(CheckIden(iden, transactions.entries.Keys).error) && Untouched(old(transactions.entries), {})
      ensures CheckIden(iden, transactions.entries.Keys).Ok? ==>
                var p := transactions.entries[iden.id];
                && r == Pass && Untouched(old(transactions.entries), {iden.id}) && DetailsUnchanged(p)
                && p.Cancelled() && p.statusLog == old(p.statusLog) + [CANCELLED]
                && p.meals == old(p.meals) && p.additionalNotes == old(p.additionalNotes)
    {
      var check := CheckIden(iden, transactions.entries.Keys);
      if check.Err? {
        r := Fail(check.error);
      } else {
        r := transactions.entries[check.value].SetCancelled(true);
      }
    }

    /** `reactivate_party`: sets `pending = True` on the party behind the guard. */
    method ReactivateParty(iden: IdenArg) returns (r: Outcome)
      requires Valid()
      modifies transactions.entries.Values
      ensures Valid()
      ensures CheckIden(iden, transactions.entries.Keys).Err? ==>
                r == Fail(CheckIden(iden, transactions.entries.Keys).error) && Untouched(old(transactions.entries), {})
      ensures CheckIden(iden, transactions.entries.Keys).Ok? ==>
                var p := transactions.entries[iden.id];
                && r == Pass && Untouched(old(transactions.entries), {iden.id}) && DetailsUnchanged(p)
                && p.Pending() && p.statusLog == old(p.statusLog) + [PENDING]
                && p.meals == old(p.meals) && p.additionalNotes == old(p.additionalNotes)
    {
      var check := CheckIden(iden, transactions.entries.Keys);
      if check.Err? {
        r := Fail(check.error);
      } else {
        r := transactions.entries[check.value].SetPending(true);
      }
    }
  }
}
