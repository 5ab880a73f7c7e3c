# Restam bookings: a verified model

This project models the booking bookkeeping of Restam, a restaurant reservation tool
(`restam/bookings/bookings_restam.py`). It covers these parts:

- **Time slots.** Opening hours are HHMM integers (1830 is half past six). The day is cut into slots ("moments")
  of `timing_interval_mins` minutes from opening. `time_to_moment` and `moment_to_time` convert between the two
  (module `TimeSlots`, which takes the restaurant's opening time, closing time and interval as parameters).
- **Seating and the timetable.** A `Floor` maps table numbers to tables. A `Timetable` holds one independent
  deep copy of all floors for every slot of the opening window (module `Seating`). The timetable is built once and
  never written to afterwards.
- **The party.** A `Party` is one booking. It has a time window, a meal order, contact details and a status
  (0 pending, 1 complete, 2 cancelled). Each status setter appends to an append-only `status_log`
  (module `Parties`).
- **The ledger.** A `Transaction` maps an ever-increasing counter to parties. It has pending, completed and
  cancelled views (module `Ledger`).
- **The restaurant.** A `Restaurant` holds the loaded configuration, the ledger and the timetable. It adds parties
  and, behind the `check_iden_exists` guard, changes meals, notes and statuses (module `Restaurants`).

Python's exceptions become `Err`/`Fail` values of module `Errors`. Python's flooring `%` and truncating
`int(a / b)` are written out in module `PyArith`. State that the source updates in place is modelled as classes
whose methods state their whole new state: `Party`, `Transaction`, `Floor`, `Timetable` and `Restaurant`.

The model follows the code as written, including where it is looser than a booking system would need to be:
- `add_party` converts no times and reserves no table. It validates no meal identifier.
- `modify_meals` lets quantities go negative.
- Completing, cancelling or reactivating a party only sets its status.
- `time_to_moment` checks alignment on the raw HHMM difference. See Findings below.

## Model

| member | source | states |
|---|---|---|
| `TimeSlots.TimeToMoment` | restam/bookings/bookings_restam.py:251-263 | Fails with `ValueError` exactly when the time is before opening or after closing. Otherwise fails with `ZeroDivisionError` exactly when the interval is 0. Otherwise fails with `ValueError` exactly when the raw HHMM difference from opening is not a multiple of the interval. It succeeds exactly when none of these applies. When it succeeds with a positive interval and a real opening minute, the result is non-negative and is the number of whole intervals elapsed since opening. |
| `TimeSlots.SlotOfBounds` | restam/bookings/bookings_restam.py:261-263 | For a positive interval, an opening whose minute is below 60 and a time from opening onwards, the conversion step gives the non-negative index `m` of the slot that holds the time: `m * interval <= elapsed minutes < (m + 1) * interval`. |
| `TimeSlots.OpeningIsMomentZero` | restam/bookings/bookings_restam.py:251-268 | `moment_to_time(0)` is the opening time, and `time_to_moment(opening)` is 0. |
| `TimeSlots.SlotOfMomentToTime` | restam/bookings/bookings_restam.py:261-268 | The conversion step of `time_to_moment` maps `moment_to_time(m)` back to `m`. This holds whenever the opening minute plus `(m * interval) mod 60` stays below 100, so in particular below 60. |
| `TimeSlots.RawAlignmentBreaksRoundTrip` | restam/bookings/bookings_restam.py:255 | With opening 1800, closing 2300 and interval 15: moment 4 is 1900, `time_to_moment(1900)` raises "misaligned", and `time_to_moment(1905)` returns 4. |
| `TimeSlots.MomentToTimeDoesNotCarry` | restam/bookings/bookings_restam.py:265-268 | With opening 1830 and interval 15, moment 2 is 1860, which is not a clock time. |
| `TimeSlots.ClockTimeToMoment` | restam/bookings/bookings_restam.py:251-263 | Corrected `time_to_moment`. It rejects times outside the hours. Otherwise it fails with `ZeroDivisionError` exactly when the interval is 0. Otherwise it rejects times whose difference from opening, counted in minutes, is not a multiple of the interval. It succeeds exactly when none of these applies. |
| `TimeSlots.MomentToTime` | restam/bookings/bookings_restam.py:265-268 | `moment_to_time` as written. The amount added to the opening time, read as HHMM, is exactly `moment * interval` minutes. Its last two digits are those minutes modulo 60, whatever the opening's own minute. |
| `TimeSlots.ClockMomentToTime` | restam/bookings/bookings_restam.py:265-268 | Corrected `moment_to_time`. The result is always a clock time, and it lies exactly `moment * interval` minutes after opening. |
| `TimeSlots.ClockMomentRoundTrip` | restam/bookings/bookings_restam.py:251-268 | Corrected pair, for a positive interval and an opening whose minute is below 60: every non-negative moment whose time is not after closing converts to a clock time, and that time converts back to the same moment. |
| `TimeSlots.ClockTimeRoundTrip` | restam/bookings/bookings_restam.py:251-268 | Corrected pair, for a positive interval, an opening whose minute is below 60 and a time whose minute is below 60: every accepted time converts to a non-negative moment, and that moment's time is the original time. |
| `PyArith.FloorModZeroIff` | restam/bookings/bookings_restam.py:255 | Python's `a % b == 0` holds exactly when `abs(b)` divides `a`, whatever the sign of `b`. |
| `PyArith.TruncDivExact` | restam/bookings/bookings_restam.py:121 | `int(m * b / b) == m`: each timetable key is the index of its range value. |
| `Seating.LayoutKeys` | restam/bookings/bookings_restam.py:429-432 | A table number is on a floor exactly when some configured table has it. |
| `Seating.LayoutLastWins` | restam/bookings/bookings_restam.py:429-432 | When a table number is configured more than once, its seats are those of the last configured table with that number. |
| `Seating.Floor.constructor` | restam/bookings/bookings_restam.py:429-432 | The loop builds exactly the layout of the configured tables. |
| `Seating.Floor.Clone` | restam/bookings/bookings_restam.py:121 | A deep copy of a floor has the same tables. |
| `Seating.DeepCopyFloors` | restam/bookings/bookings_restam.py:121 | `deepcopy` of the floors: same keys and same tables. Each floor is a new object, distinct from the others and from every object that existed before the copy. |
| `Seating.RangeLengthCounts` | restam/bookings/bookings_restam.py:120 | `range(0, stop, step)` has a `j`-th value exactly when `j` is below `RangeLength(stop, step)`, for either sign of the step. For a positive step this is the number of multiples of the step strictly below `stop`, or 0 when `stop <= 0`. |
| `Seating.BuildFloors` | restam/bookings/bookings_restam.py:113-115 | `_floors` has one new `Floor` per configured floor, holding that floor's layout. |
| `Seating.BuildSlots` | restam/bookings/bookings_restam.py:117-121 | The slot keys are exactly `0 .. RangeLength - 1`. Each slot holds floor objects with the same keys and tables as the original floors. No floor object appears twice in a slot, is shared by two slots, or is one of the original floors. |
| `Seating.Timetable.constructor` | restam/bookings/bookings_restam.py:105-121 | The slot keys are exactly `0 .. SlotCount - 1` of the window's length in minutes. Every slot holds its own copy of every configured floor's layout. None of these copies is shared between slots or with `_floors`. |
| `Parties.ApplyMeals` | restam/bookings/bookings_restam.py:415-421 | After `modify_meals(delta)`, each meal of the delta has its old quantity (or 0) plus the delta, with no negativity check. Meals not in the delta keep their quantities, and no meal disappears. |
| `Parties.ApplyMealsCompose` | restam/bookings/bookings_restam.py:415-421 | Applying two deltas in turn is the same as applying their per-meal sum once, so `{a: x}` then `{a: y}` is `{a: x + y}`. |
| `Parties.ApplyMealsAllowsNegative` | restam/bookings/bookings_restam.py:420-421 | Removing three of a meal ordered once leaves -2. |
| `Parties.Party.ModifyMeals` | restam/bookings/bookings_restam.py:415-421 | The loop over the delta leaves the order equal to `ApplyMeals(old order, delta)`. |
| `Parties.Party.OverwriteAdditionalPartyNotes` | restam/bookings/bookings_restam.py:423-425 | Mode "w" replaces the notes and "a" appends to them. Any other mode leaves them as they were. |
| `Parties.Party.TimeEnd` | restam/bookings/bookings_restam.py:378-380 | The end of the stay is the start plus the length. It is not before the start exactly when the length is not negative. |
| `Parties.Party.StatusFlags` | restam/bookings/bookings_restam.py:382-384 | The `pending`, `complete` and `cancelled` getters (lines 382-384, 393-395 and 404-406) never hold together. One of them holds exactly when the status is 0, 1 or 2. |
| `Parties.Party.constructor` | restam/bookings/bookings_restam.py:358-368 | Stores every detail except `booked`. The status log is `[status]`. |
| `Parties.Party.SetPending` | restam/bookings/bookings_restam.py:382-391 | A truthy value makes the party pending and appends 0 to the log, even when it was already pending. A falsy value raises `ValueError` and changes nothing. |
| `Parties.Party.SetComplete` | restam/bookings/bookings_restam.py:393-402 | The same, with status 1. |
| `Parties.Party.SetCancelled` | restam/bookings/bookings_restam.py:404-413 | The same, with status 2. |
| `Ledger.Transaction.constructor` | restam/bookings/bookings_restam.py:53-55 | The ledger starts empty and the counter starts at 0. |
| `Ledger.Transaction.Add` | restam/bookings/bookings_restam.py:95-97 | The party is stored under the current counter value, a key that was not yet used. The counter then goes up by one, and the other entries are unchanged. |
| `Ledger.Transaction.Get` | restam/bookings/bookings_restam.py:99-101 | Returns the party stored under the number, or `KeyError` if there is none. |
| `Ledger.Transaction.StatusView` | restam/bookings/bookings_restam.py:72-93 | Holds exactly the entries whose party has the given status, each with its own party. |
| `Ledger.Transaction.Filter` | restam/bookings/bookings_restam.py:72-93 | The scan over the ledger in insertion order returns exactly `StatusView(status)`. |
| `Ledger.Transaction.PendingTransactions` | restam/bookings/bookings_restam.py:71-77 | Exactly the entries whose party is pending (status 0). |
| `Ledger.Transaction.CompletedTransactions` | restam/bookings/bookings_restam.py:79-85 | Exactly the entries whose party is complete (status 1). |
| `Ledger.Transaction.CancelledTransactions` | restam/bookings/bookings_restam.py:87-93 | Exactly the entries whose party is cancelled (status 2). |
| `Ledger.Transaction.ViewsPartition` | restam/bookings/bookings_restam.py:72-93 | When every status is 0, 1 or 2, the three views are pairwise disjoint and together cover the ledger. |
| `Restaurants.CheckIden` | restam/bookings/bookings_restam.py:32-47 | The guard passes exactly when `iden` is given as a keyword, is an int and is a key of the ledger. Otherwise the first failing check decides the `IdentityError`. |
| `Restaurants.Restaurant.constructor` | restam/bookings/bookings_restam.py:155-243 | Keeps the configuration and starts with an empty ledger. `_floors` holds one floor per configured floor, distinct objects with that floor's layout. The timetable has slot keys `0 .. SlotCount - 1` for the window's length in minutes. Each slot holds its own copy of every configured floor's layout. No floor object is shared within a slot, between slots, or with `_floors`. |
| `Restaurants.Restaurant.AddParty` | restam/bookings/bookings_restam.py:270-299 | Stores one new party under the next number, and ids are never reused. The party is pending with log `[0]` and stays `max_stay`, so `time_end` is `time_start + max_stay`. It keeps the given meals and details. Existing entries are unchanged. |
| `Restaurants.Restaurant.GetParty` | restam/bookings/bookings_restam.py:336-338 | Returns the guard's `IdentityError`, or else the party stored under `iden`. |
| `Restaurants.Restaurant.ModifyMeals` | restam/bookings/bookings_restam.py:307-317 | When the guard fails, it returns the `IdentityError` and touches no party. Otherwise only that party's order changes, to `ApplyMeals(old order, delta)`. |
| `Restaurants.Restaurant.OverwriteAdditionalPartyNotes` | restam/bookings/bookings_restam.py:319-328 | The guard comes first. Then a mode other than "w" or "a" raises `ValueError` and touches nothing. Otherwise only that party's notes change, replaced for "w" and appended for "a". |
| `Restaurants.Restaurant.CompleteParty` | restam/bookings/bookings_restam.py:343-345 | When the guard fails, it returns the error and touches nothing. Otherwise that party alone becomes complete and its log grows by 1. |
| `Restaurants.Restaurant.CancelParty` | restam/bookings/bookings_restam.py:346-348 | The same, with status cancelled and 2 logged. |
| `Restaurants.Restaurant.ReactivateParty` | restam/bookings/bookings_restam.py:349-351 | The same, with status pending and 0 logged. |

Each mutating `Restaurant` method also keeps the `Restaurant.Valid()` invariant. Under it, every ledger key is below
the counter, no party object is stored under two numbers, every status is 0, 1 or 2, and every log ends with its
party's current status. Under that invariant `Ledger.Transaction.ViewsPartition` applies to the restaurant's ledger.

## Findings

| source | as written | input that shows it | evidently intended | confidence | as-written member | corrected member |
|---|---|---|---|---|---|---|
| restam/bookings/bookings_restam.py:255 | alignment is tested on the raw HHMM difference `(time - opening_time) % interval` | opening 1800, closing 2300, interval 15: 1900 (moment 4 by `moment_to_time`) is rejected and 1905 is accepted as moment 4 | test alignment on the difference in minutes, as line 263 already counts | not executed; intent inferred from line 263 | `TimeSlots.RawAlignmentBreaksRoundTrip` | `TimeSlots.ClockMomentRoundTrip` |
| restam/bookings/bookings_restam.py:266-268 | `hour_add * 100 + min_add` is added to the opening time without carrying minutes past 59 | opening 1830, interval 15, moment 2 gives 1860 | carry into the hour, giving 1900 | not executed; 1860 is not a clock time | `TimeSlots.MomentToTimeDoesNotCarry` | `TimeSlots.ClockTimeRoundTrip` |

The corrected pair is `TimeSlots.ClockTimeToMoment` and `TimeSlots.ClockMomentToTime`. No other booking operation
converts times: `add_party` stores `time_start` as given. So the corrected pair is not called elsewhere in the model.

## Left out

- Loading configuration by `exec` of files (lines 172-174) is I/O that runs arbitrary code. The model starts from a `Config` value holding what those files set.
- The dynamic `type(...) is ...` checks of `Restaurant.__init__` and `add_party` (lines 178-234, 274-291) are enforced by Dafny's types. The value checks on `veg` and the allergen flags become the datatypes `VegClass` and `Option<bool>`.
- A meal's `price` is only type-checked and never used, so it is not modelled.
- `common_table_joins_config` is stored and never used, so it is not modelled.
- All `__str__`/`__repr__` formatting and the error `print`s are presentation only.
- The behaviourless stubs `__add_party_to_timetable`, `modify_past_meals`, `search_parties` and `hcf` are not modelled.
- `Transaction.__iter__` and the `transactions` property only expose the entries, so they are not modelled separately.
- The `__main__` block and `setup.py` are not modelled.
- Table reservation, conflict detection and seat allocation do not exist in this code, and the timetable is never written to, so none is modelled.
- `Restaurants.Restaurant.constructor` requires a non-zero interval. In Python, `range()` raises `ValueError` for a zero step while building the timetable, and a constructor here cannot fail.
- `Seating.Timetable.constructor` requires a non-zero interval, for the same reason.
- `Restaurants.Restaurant.AddParty` stores the meal order as a value. In Python, the party keeps a reference to the caller's dict, and that aliasing is not modelled. It works in both directions. Changes the caller makes to the dict show in the party. `Party.modify_meals` writes into the caller's dict.
- `Restaurants.Restaurant.ModifyMeals` promises that only the named party's order changes. In Python, two parties added with the same dict share one order, so a `modify_meals` on one of them changes both. The promise holds there only when no two parties were given the same dict.
- `check_iden_exists` calls the wrapped method with keyword arguments only, so any positional argument is silently dropped. Python raises `TypeError` only when the dropped argument was a required parameter, such as `meals_add` of `modify_meals` or `notes` of `overwrite_additional_party_notes`. Otherwise the call goes ahead without it: `complete_party(5, iden=0)` completes party 0, and a positional `mode` falls back to its default "w". The model passes every argument.
- The guard's `iden` is abstracted as missing, not an int, or an int. Python also accepts `True`/`False` as the ints 1/0.
- `int(x / y)` is modelled as exact truncating division. Float rounding for magnitudes beyond 2^53 is not modelled.
- Floor keys may be any hashable Python value. The model uses integers.
- Python dictionaries keep insertion order, and the model's maps do not. Order only affects printing, except for the ledger, whose keys are inserted in increasing order. The ledger's views are scanned in that order.
- `Ledger.Transaction.Add` requires the ledger invariant (keys are exactly the numbers handed out so far). In Python, outside code could alter `_transactions` through the `transactions` property, and the model assumes nothing else writes to it.
