/**
 * The seating layout and the empty timetable built from it: `Floor`,
 * `Table` and `Timetable.__init__`.  The timetable is only built; nothing
 * in the booking code writes to it afterwards.
 */
module Seating {
  import opened PyArith
  import TimeSlots
  import Sets

  /** One configured table: `[table_number, seat_count]`. */
  datatype TableSpec = TableSpec(number: int, seats: int)

  /** A table is its seat count; it is never changed after it is built. */
  datatype Table = Table(seats: int)

  /** The table map `Floor.__init__` builds: one entry per table number, a later duplicate overwriting an earlier one. */
  function Layout(specs: seq<TableSpec>): map<int, Table>
  {
    if specs == [] then map[]
    else
      var last := specs[|specs| - 1];
      Layout(specs[..|specs| - 1])[last.number := Table(last.seats)]
  }

  /** A table number is on the floor exactly when some configured table has it. */
  lemma {:induction false} LayoutKeys(specs: seq<TableSpec>, n: int)
    ensures n in Layout(specs) <==> exists i :: 0 <= i < |specs| && specs[i].number == n
  {
    if specs != [] {
      var k := |specs| - 1;
      var init := specs[..k];
      LayoutKeys(init, n);
      if n in Layout(init) {
        var i :| 0 <= i < |init| && init[i].number == n;
        assert specs[i].number == n;
      }
      forall i | 0 <= i < k && specs[i].number == n ensures n in Layout(init) {
        assert init[i] == specs[i];
      }
    }
  }

  /** The seats of a table number are those of the LAST configured table with that number. */
  lemma {:induction false} LayoutLastWins(specs: seq<TableSpec>, i: int)
    requires 0 <= i < |specs|
    requires forall j :: i < j < |specs| ==> specs[j].number != specs[i].number
    ensures specs[i].number in Layout(specs) && Layout(specs)[specs[i].number] == Table(specs[i].seats)
  {
    var k := |specs| - 1;
    if i < k {
      var init := specs[..k];
      assert init[i] == specs[i];
      LayoutLastWins(init, i);
    }
  }

  /** A floor: its tables by table number. */
  class Floor {
    var tables: map<int, Table>

    /** `Floor.__init__`: one entry per configured table, in configuration order. */
    constructor (specs: seq<TableSpec>)
      ensures tables == Layout(specs)
    {
      var built := map[];
      for i := 0 to |specs|
        invariant built == Layout(specs[..i])
      {
        assert specs[..i + 1][..i] == specs[..i];
        built := built[specs[i].number := Table(specs[i].seats)];
      }
      assert specs[..|specs|] == specs;
      tables := built;
    }

    /** What `deepcopy` makes of a floor: a new object with the same tables. */
    constructor Clone(source: Floor)
      ensures tables == source.tables
    {
      tables := source.tables;
    }
  }

  /** No floor object is stored under two keys. */
  ghost predicate Distinct(floors: map<int, Floor>) {
    forall f, g :: f in floors && g in floors && f != g ==> floors[f] != floors[g]
  }

  /** No floor object is shared by two slots. */
  ghost predicate SlotsApart(table: map<int, map<int, Floor>>) {
    forall m, f, n, g :: m in table && f in table[m] && n in table && g in table[n] && m != n ==>
      table[m][f] != table[n][g]
  }

  /** Adding a slot whose floors are all outside `seen`, which holds every floor already used, keeps the slots apart. */
  lemma AddSlotKeepsApart(table: map<int, map<int, Floor>>, m: int, copy: map<int, Floor>, seen: set<Floor>)
    requires SlotsApart(table) && m !in table
    requires forall n, f :: n in table && f in table[n] ==> table[n][f] in seen
    requires forall g :: g in copy ==> copy[g] !in seen
    ensures SlotsApart(table[m := copy])
  {
    var t := table[m := copy];
    forall a, f, b, g | a in t && f in t[a] && b in t && g in t[b] && a != b
      ensures t[a][f] != t[b][g]
    {
      if a == m {
        assert t[b][g] in seen;
      } else if b == m {
        assert t[a][f] in seen;
      }
    }
  }

  /**
   * `deepcopy` of a map of floors: the same keys and tables, a new floor
   * object per key, so none of them is among the `existing` objects.
   */
  method DeepCopyFloors(floors: map<int, Floor>, ghost existing: set<Floor>) returns (copy: map<int, Floor>)
    ensures copy.Keys == floors.Keys && Distinct(copy)
    ensures forall f :: f in copy ==> fresh(copy[f]) && copy[f] !in existing && copy[f].tables == floors[f].tables
  {
    copy := map[];
    var todo := floors.Keys;
    while todo != {}
      invariant todo <= floors.Keys
      invariant copy.Keys == floors.Keys - todo && Distinct(copy)
      invariant forall f :: f in copy ==> fresh(copy[f]) && copy[f].tables == floors[f].tables
      decreases todo
    {
      ghost var someKey := Sets.Member(todo);  // a witness, so that the choice below exists
      var f :| f in todo;
      var c := new Floor.Clone(floors[f]);
      copy := copy[f := c];
      todo := todo - {f};
    }
  }

  /** Python's `range(0, stop, step)` goes on while the next value is still before `stop`. */
  predicate BeforeStop(v: int, stop: int, step: int) {
    if step > 0 then v < stop else v > stop
  }

  /** How many values `range(0, stop, step)` yields. */
  function RangeLength(stop: int, step: int): nat
    requires step != 0
  {
    if step > 0 then (if stop <= 0 then 0 else (stop - 1) / step + 1)
    else (if stop >= 0 then 0 else (-stop - 1) / (-step) + 1)
  }

  /** The `j`-th value of `range(0, stop, step)` exists exactly when `j` is below the range's length. */
  lemma RangeLengthCounts(stop: int, step: int, j: int)
    requires step != 0 && j >= 0
    ensures j < RangeLength(stop, step) <==> BeforeStop(j * step, stop, step)
  {
    if step > 0 {
      if stop > 0 {
        MulLeIffLeDiv(j, stop - 1, step);
      } else {
        MulMono(0, j, step);
      }
    } else {
      assert j * step == -(j * (-step));
      if stop < 0 {
        MulLeIffLeDiv(j, -stop - 1, -step);
      } else {
        MulMono(0, j, -step);
      }
    }
  }

  /** The loop that fills `_floors`: one `Floor` per configured floor. */
  method BuildFloors(floorsConfig: map<int, seq<TableSpec>>) returns (built: map<int, Floor>)
    ensures built.Keys == floorsConfig.Keys && Distinct(built)
    ensures forall f :: f in built ==> fresh(built[f]) && built[f].tables == Layout(floorsConfig[f])
  {
    built := map[];
    var todo := floorsConfig.Keys;
    while todo != {}
      invariant todo <= floorsConfig.Keys
      invariant built.Keys == floorsConfig.Keys - todo && Distinct(built)
      invariant forall f :: f in built ==> fresh(built[f]) && built[f].tables == Layout(floorsConfig[f])
      decreases todo
    {
      ghost var someKey := Sets.Member(todo);  // a witness, so that the choice below exists
      var f :| f in todo;
      var floor := new Floor(floorsConfig[f]);
      built := built[f := floor];
      todo := todo - {f};
    }
  }

  /**
   * The loop that fills `_timetable`: for each value `v` of
   * `range(0, total, interval)`, slot `int(v / interval)` gets its own deep
   * copy of `floors`.
   */
  method BuildSlots(total: int, interval: int, floors: map<int, Floor>) returns (table: map<int, map<int, Floor>>)
    requires interval != 0
    ensures forall m :: m in table <==> 0 <= m < RangeLength(total, interval)
    ensures forall m :: m in table ==> table[m].Keys == floors.Keys && Distinct(table[m])
    ensures forall m, f :: m in table && f in table[m] ==>
              table[m][f].tables == floors[f].tables && table[m][f] !in floors.Values
    ensures SlotsApart(table)
  {
    var count := RangeLength(total, interval);
    table := map[];
    var v := 0;
    ghost var j := 0;
    // every floor object in use so far: the originals and the copies made
    ghost var seen: set<Floor> := floors.Values;
    RangeLengthCounts(total, interval, 0);
    while BeforeStop(v, total, interval)
      invariant 0 <= j <= count && v == j * interval
      invariant BeforeStop(v, total, interval) <==> j < count
      invariant forall m :: m in table <==> 0 <= m < j
      invariant floors.Values <= seen
      invariant forall m :: m in table ==> table[m].Keys == floors.Keys && Distinct(table[m])
      invariant forall m, f :: m in table && f in table[m] ==>
                  table[m][f].tables == floors[f].tables && table[m][f] !in floors.Values && table[m][f] in seen
      invariant SlotsApart(table)
      decreases count - j
    {
      var copy := DeepCopyFloors(floors, seen);
      TruncDivExact(j, interval);
      AddSlotKeepsApart(table, j, copy, seen);
      table := table[TruncDiv(v, interval) := copy];
      seen := seen + copy.Values;
      v := v + interval;
      j := j + 1;
      RangeLengthCounts(total, interval, j);
    }
  }

  /** The timetable of an opening window: one copy of the floor layout per slot. */
  class Timetable {
    const openingTime: int
    const closingTime: int
    const interval: int
    const floorsConfig: map<int, seq<TableSpec>>
    var floors: map<int, Floor>
    var slots: map<int, map<int, Floor>>

    /** The number of slots: multiples of the interval strictly inside the window's minute length. */
    static function SlotCount(openingTime: int, closingTime: int, interval: int): nat
      requires interval != 0
    {
      RangeLength(TimeSlots.Minutes(closingTime) - TimeSlots.Minutes(openingTime), interval)
    }

    /**
     * `Timetable.__init__`: builds one floor per configured floor, then one
     * slot per value of `range(0, total_open_time_mins, interval)`, keyed by
     * `int(value / interval)` and holding its own deep copy of the floors.
     */
    constructor (openingTime: int, closingTime: int, interval: int, floorsConfig: map<int, seq<TableSpec>>)
      requires interval != 0
      ensures this.openingTime == openingTime && this.closingTime == closingTime
      ensures this.interval == interval && this.floorsConfig == floorsConfig
      ensures floors.Keys == floorsConfig.Keys
      ensures forall f :: f in floors ==> fresh(floors[f]) && floors[f].tables == Layout(floorsConfig[f])
      ensures Distinct(floors)
      ensures forall m :: m in slots <==> 0 <= m < SlotCount(openingTime, closingTime, interval)
      ensures forall m :: m in slots ==> slots[m].Keys == floorsConfig.Keys && Distinct(slots[m])
      ensures forall m, f :: m in slots && f in slots[m] ==>
                slots[m][f].tables == Layout(floorsConfig[f]) && slots[m][f] !in floors.Values
      ensures SlotsApart(slots)
    {
      var built := BuildFloors(floorsConfig);
      var table := BuildSlots(TimeSlots.Minutes(closingTime) - TimeSlots.Minutes(openingTime), interval, built);
      this.openingTime := openingTime;
      this.closingTime := closingTime;
      this.interval := interval;
      this.floorsConfig := floorsConfig;
      floors := built;
      slots := table;
    }
  }
}
