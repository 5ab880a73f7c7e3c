/**
 * Conversion between clock times and timetable slots ("moments").
 *
 * Times are integers in HHMM form (1830 is half past six).  A moment is the
 * index of a slot of `interval` minutes counted from the opening time.
 * `TimeToMoment` and `MomentToTime` follow `Restaurant.time_to_moment` and
 * `Restaurant.moment_to_time` as written; `ClockTimeToMoment` and
 * `ClockMomentToTime` are the minute-based pair those two evidently intend.
 */
module TimeSlots {
  import opened Errors
  import opened PyArith

  /** Minutes since midnight of an HHMM time, as `divmod(t, 100)` splits it. */
  function Minutes(t: int): int {
    (t / 100) * 60 + t % 100
  }

  /** The HHMM form of a count of minutes, as `divmod(m, 60)` splits it. */
  function ToHHMM(mins: int): int {
    (mins / 60) * 100 + mins % 60
  }

  /** The minute field of an HHMM time is a real minute. */
  predicate IsClockTime(t: int) {
    t % 100 < 60
  }

  /** The conversion step of `time_to_moment`: whole intervals between opening and `time`. */
  function SlotOf(opening: int, interval: int, time: int): int
    requires interval != 0
  {
    TruncDiv(Minutes(time) - Minutes(opening), interval)
  }

  /**
   * `time_to_moment`: rejects a time outside opening hours, then a time whose
   * raw HHMM difference from opening is not a multiple of the interval
   * (dividing by a zero interval raises), then converts.
   */
  function TimeToMoment(opening: int, closing: int, interval: int, time: int): (r: Result<int>)
    ensures r == Err(ValueError(OutOfHours)) <==> time < opening || time > closing
    ensures r == Err(ZeroDivisionError) <==> opening <= time <= closing && interval == 0
    ensures r == Err(ValueError(Misaligned)) <==>
              opening <= time <= closing && interval != 0 && (time - opening) % Abs(interval) != 0
    ensures r.Ok? <==> opening <= time <= closing && interval != 0 && (time - opening) % Abs(interval) == 0
    ensures r.Ok? && interval > 0 && IsClockTime(opening) ==>
              var elapsed := Minutes(time) - Minutes(opening);
              0 <= r.value && r.value * interval <= elapsed < (r.value + 1) * interval
  {
    if !(time >= opening && time <= closing) then Err(ValueError(OutOfHours))
    else if interval == 0 then Err(ZeroDivisionError)
    else if FloorMod(time - opening, interval) != 0 then
      FloorModZeroIff(time - opening, interval);
      Err(ValueError(Misaligned))
    else
      FloorModZeroIff(time - opening, interval);
      if interval > 0 && IsClockTime(opening) then
        SlotOfBounds(opening, interval, time);
        Ok(SlotOf(opening, interval, time))
      else
        Ok(SlotOf(opening, interval, time))
  }

  /** From opening onwards, the slot index is the number of whole intervals elapsed. */
  lemma SlotOfBounds(opening: int, interval: int, time: int)
    requires interval > 0 && IsClockTime(opening) && opening <= time
    ensures var m, elapsed := SlotOf(opening, interval, time), Minutes(time) - Minutes(opening);
            0 <= m && m * interval <= elapsed < (m + 1) * interval
  {
    ElapsedNonNegative(opening, time);
    var elapsed := Minutes(time) - Minutes(opening);
    TruncDivNonNeg(elapsed, interval);
    var m := elapsed / interval;
    assert elapsed == interval * m + elapsed % interval;
    assert (m + 1) * interval == m * interval + interval;
  }

  /**
   * `moment_to_time`: opening plus `hour_add * 100 + min_add`, minutes not
   * carried into hours. The amount added, read as HHMM, is exactly the
   * moment's minutes, and its last two digits are those minutes modulo 60.
   */
  function MomentToTime(opening: int, interval: int, moment: int): (r: int)
    ensures Minutes(r - opening) == moment * interval
    ensures (r - opening) % 100 == (moment * interval) % 60
  {
    MinutesOfToHHMM(moment * interval);
    opening + ToHHMM(moment * interval)
  }

  /** Once the range check passes and the opening minute is a real minute, no time lies before opening. */
  lemma ElapsedNonNegative(opening: int, time: int)
    requires opening <= time && IsClockTime(opening)
    ensures Minutes(time) >= Minutes(opening)
  {
  }

  /** Adding whole hours and a minute offset that stays below 100 in HHMM form. */
  lemma MinutesShift(t: int, h: int, mm: int)
    requires 0 <= mm && t % 100 + mm < 100
    ensures Minutes(t + 100 * h + mm) == Minutes(t) + 60 * h + mm
  {
    DivModUnique(t + 100 * h + mm, 100, t / 100 + h, t % 100 + mm);
  }

  /** Moment 0 is the opening time, and the opening time is moment 0. */
  lemma OpeningIsMomentZero(opening: int, closing: int, interval: int)
    requires opening <= closing && interval != 0
    ensures MomentToTime(opening, interval, 0) == opening
    ensures TimeToMoment(opening, closing, interval, opening) == Ok(0)
  {
    assert ToHHMM(0) == 0;
    assert FloorMod(0, interval) == 0;
    assert SlotOf(opening, interval, opening) == TruncDiv(0, interval) == 0;
  }

  /**
   * The conversion step of `time_to_moment` undoes `moment_to_time` whenever
   * the opening minute plus the added minutes stay below 100 (in particular
   * whenever they stay below 60).
   */
  lemma SlotOfMomentToTime(opening: int, interval: int, moment: int)
    requires interval != 0
    requires opening % 100 + (moment * interval) % 60 < 100
    ensures SlotOf(opening, interval, MomentToTime(opening, interval, moment)) == moment
  {
    var x := moment * interval;
    MinutesShift(opening, x / 60, x % 60);
    assert Minutes(MomentToTime(opening, interval, moment)) - Minutes(opening) == x;
    TruncDivExact(moment, interval);
  }

  /**
   * As written, the round trip fails: with opening 1800, closing 2300 and a
   * 15-minute interval, moment 4 is 1900, which `time_to_moment` rejects
   * because 100 is not a multiple of 15, while 1905 is accepted as moment 4.
   */
  lemma RawAlignmentBreaksRoundTrip()
    ensures MomentToTime(1800, 15, 4) == 1900
    ensures TimeToMoment(1800, 2300, 15, 1900) == Err(ValueError(Misaligned))
    ensures TimeToMoment(1800, 2300, 15, 1905) == Ok(4)
  {
    assert SlotOf(1800, 15, 1905) == 4;
  }

  /** As written, minutes are not carried: two 15-minute slots after 1830 is 1860. */
  lemma MomentToTimeDoesNotCarry()
    ensures MomentToTime(1830, 15, 2) == 1860
    ensures !IsClockTime(MomentToTime(1830, 15, 2))
  {
  }

  /** `time_to_moment` with the alignment tested on minutes rather than on HHMM digits. */
  function ClockTimeToMoment(opening: int, closing: int, interval: int, time: int): (r: Result<int>)
    ensures r == Err(ValueError(OutOfHours)) <==> time < opening || time > closing
    ensures r == Err(ZeroDivisionError) <==> opening <= time <= closing && interval == 0
    ensures r == Err(ValueError(Misaligned)) <==>
              opening <= time <= closing && interval != 0
              && (Minutes(time) - Minutes(opening)) % Abs(interval) != 0
    ensures r.Ok? <==>
              opening <= time <= closing && interval != 0
              && (Minutes(time) - Minutes(opening)) % Abs(interval) == 0
  {
    if !(time >= opening && time <= closing) then Err(ValueError(OutOfHours))
    else if interval == 0 then Err(ZeroDivisionError)
    else
      FloorModZeroIff(Minutes(time) - Minutes(opening), interval);
      if FloorMod(Minutes(time) - Minutes(opening), interval) != 0 then Err(ValueError(Misaligned))
      else Ok(SlotOf(opening, interval, time))
  }

  /** `moment_to_time` with minutes carried into hours: always a clock time, the moment's minutes after opening. */
  function ClockMomentToTime(opening: int, interval: int, moment: int): (r: int)
    ensures IsClockTime(r)
    ensures Minutes(r) == Minutes(opening) + moment * interval
  {
    MinutesOfToHHMM(Minutes(opening) + moment * interval);
    ToHHMM(Minutes(opening) + moment * interval)
  }

  lemma MinutesOfToHHMM(mins: int)
    ensures Minutes(ToHHMM(mins)) == mins
  {
    MinutesShift(0, mins / 60, mins % 60);
  }

  lemma ToHHMMOfMinutes(t: int)
    requires IsClockTime(t)
    ensures ToHHMM(Minutes(t)) == t
  {
    DivModUnique(Minutes(t), 60, t / 100, t % 100);
  }

  lemma ToHHMMMonotone(a: int, b: int)
    requires a <= b
    ensures ToHHMM(a) <= ToHHMM(b)
  {
  }

  /** Every moment from 0 up to closing converts to a clock time that converts back to it. */
  lemma {:induction false} ClockMomentRoundTrip(opening: int, closing: int, interval: int, moment: int)
    requires interval > 0 && moment >= 0 && IsClockTime(opening)
    requires ClockMomentToTime(opening, interval, moment) <= closing
    ensures IsClockTime(ClockMomentToTime(opening, interval, moment))
    ensures ClockTimeToMoment(opening, closing, interval, ClockMomentToTime(opening, interval, moment)) == Ok(moment)
  {
    var elapsed := moment * interval;
    var t := ClockMomentToTime(opening, interval, moment);
    assert elapsed >= 0 by { MulMono(0, moment, interval); }
    ToHHMMOfMinutes(opening);
    ToHHMMMonotone(Minutes(opening), Minutes(opening) + elapsed);
    MinutesOfToHHMM(Minutes(opening) + elapsed);
    assert Minutes(t) - Minutes(opening) == elapsed;
    DivModUnique(elapsed, interval, moment, 0);
    TruncDivExact(moment, interval);
  }

  /** Every accepted clock time is the time of the moment it converts to. */
  lemma {:induction false} ClockTimeRoundTrip(opening: int, closing: int, interval: int, time: int)
    requires interval > 0 && IsClockTime(opening) && IsClockTime(time)
    requires ClockTimeToMoment(opening, closing, interval, time).Ok?
    ensures ClockTimeToMoment(opening, closing, interval, time).value >= 0
    ensures ClockMomentToTime(opening, interval, ClockTimeToMoment(opening, closing, interval, time).value) == time
  {
    var elapsed := Minutes(time) - Minutes(opening);
    assert elapsed % interval == 0;
    ElapsedNonNegative(opening, time);
    TruncDivNonNeg(elapsed, interval);
    var m := elapsed / interval;
    assert ClockTimeToMoment(opening, closing, interval, time) == Ok(m);
    assert elapsed == interval * m + elapsed % interval;
    assert m * interval == elapsed;
    ToHHMMOfMinutes(time);
  }
}
