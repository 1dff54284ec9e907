/**
 Google-shaped opening hours and the evaluator over them, given a meaning as intervals of the cyclic week.

 Times of day are counted in microseconds, as `datetime.time` does. Digits are the ASCII ones.
 */
module OpeningHours {
  import opened Basics

  const DAYS_IN_WEEK := 7
  const MINUTE: int := 60_000_000
  const DAY: int := 1440 * MINUTE

  type Weekday = d: int | 0 <= d < 7 witness 0
  type TimeOfDay = t: int | 0 <= t < 1440 * 60_000_000 witness 0

  /** One end of a period as stored: the day number and the raw "HHMM" text may be missing or nonsense. */
  datatype Mark = Mark(day: Option<int>, time: Option<string>)
  datatype Period = Period(open: Option<Mark>, close: Option<Mark>)

  predicate IsDigit(c: char) {
    '0' <= c <= '9'
  }

  function DigitValue(c: char): (v: int)
    requires IsDigit(c)
    ensures 0 <= v <= 9
  {
    c as int - '0' as int
  }

  function ParseHhmm(raw: Option<string>): Option<TimeOfDay> {
    if raw.None? || |raw.value| != 4 || exists i | 0 <= i < 4 :: !IsDigit(raw.value[i]) then None
    else
      var text := raw.value;
      var hour := 10 * DigitValue(text[0]) + DigitValue(text[1]);
      var minute := 10 * DigitValue(text[2]) + DigitValue(text[3]);
      if hour > 23 || minute > 59 then None else Some((60 * hour + minute) * MINUTE)
  }

  // ─── Days between ───

  function DayAfter(start: int, n: int): Weekday {
    (start + n) % DAYS_IN_WEEK
  }

  lemma NextDay(start: int, n: int)
    ensures (DayAfter(start, n) + 1) % DAYS_IN_WEEK == DayAfter(start, n + 1)
  {
  }

  /** How many days after `start` the weekday `day` comes next: 1 to 7. */
  function StepsTo(start: int, day: Weekday): (n: int)
    ensures 1 <= n <= DAYS_IN_WEEK && DayAfter(start, n) == day
    ensures forall m | 1 <= m < n :: DayAfter(start, m) != day
  {
    var offset := (day - start) % DAYS_IN_WEEK;
    if offset == 0 then DAYS_IN_WEEK else offset
  }

  /** Walking forward from `start`, `day` comes before `end`; an `end` that is no weekday never comes. */
  predicate DayIsBetween(day: Weekday, start: int, end: int) {
    0 <= end < DAYS_IN_WEEK ==> StepsTo(start, day) < StepsTo(start, end)
  }

  /** The loop stops at `day` or at `end`, whichever comes first, within seven turns whatever `end` is. */
  method FindDayBetween(day: Weekday, start: int, end: int) returns (found: bool)
    ensures found <==> DayIsBetween(day, start, end)
  {
    var cursor := (start + 1) % DAYS_IN_WEEK;
    ghost var n := 1;
    assert cursor == DayAfter(start, n);
    hide StepsTo, DayAfter;
    while cursor != end
      invariant 1 <= n <= StepsTo(start, day) && cursor == DayAfter(start, n)
      invariant forall m | 1 <= m < n :: DayAfter(start, m) != end
      decreases StepsTo(start, day) - n
    {
      if cursor == day {
        return true;
      }
      NextDay(start, n);
      cursor := (cursor + 1) % DAYS_IN_WEEK;
      n := n + 1;
    }
    return false;
  }

  /** The measure that ends the walk when `end` is a weekday: its distance ahead, taken in the cycle of seven. */
  lemma DistanceShrinks(cursor: Weekday, end: Weekday)
    requires cursor != end
    ensures 0 <= (end - DayAfter(cursor, 1)) % DAYS_IN_WEEK < (end - cursor) % DAYS_IN_WEEK
  {
  }

  // ─── Evaluation ───

  predicate PeriodCovers(period: Period, day: Weekday, time: TimeOfDay) {
    if period.open.None? then false else
      var openDay, openTime := period.open.value.day, ParseHhmm(period.open.value.time);
      if openDay.None? || openTime.None? then false
      else if period.close.None? then true else
        var closeDay, closeTime := period.close.value.day, ParseHhmm(period.close.value.time);
        if closeDay.None? || closeTime.None? then true
        else Covers(openDay.value, openTime.value, closeDay.value, closeTime.value, day, time)
  }

  predicate Covers(openDay: int, open: TimeOfDay, closeDay: int, close: TimeOfDay, day: Weekday, time: TimeOfDay) {
    if openDay == closeDay && open <= close then day == openDay && open <= time < close
    else if day == openDay then time >= open
    else if day == closeDay then time < close
    else DayIsBetween(day, openDay, closeDay)
  }

  /** Unknown or empty hours count as open; otherwise one period must cover the moment. */
  predicate OpenAt(hours: Option<seq<Period>>, day: Weekday, time: TimeOfDay) {
    hours.None? || hours.value == [] || exists i | 0 <= i < |hours.value| :: PeriodCovers(hours.value[i], day, time)
  }

  predicate HasReadableTime(mark: Option<Mark>) {
    mark.Some? && mark.value.day.Some? && ParseHhmm(mark.value.time).Some?
  }

  /** Without a readable opening a period is never open; with one, but no readable closing, it never closes. */
  lemma IncompletePeriods(period: Period)
    requires !HasReadableTime(period.open) || !HasReadableTime(period.close)
    ensures forall day, time :: PeriodCovers(period, day, time) <==> HasReadableTime(period.open)
  {
  }

  /** `pythonWeekday` counts from Monday, the periods count from Sunday. */
  method IsOpenAt(hours: Option<seq<Period>>, pythonWeekday: Weekday, time: TimeOfDay) returns (open: bool)
    ensures open <==> OpenAt(hours, DayAfter(pythonWeekday, 1), time)
    ensures hours.None? || hours.value == [] ==> open
  {
    if hours.None? || hours.value == [] {
      return true;
    }
    var day := (pythonWeekday + 1) % DAYS_IN_WEEK;
    assert day == DayAfter(pythonWeekday, 1);
    for i := 0 to |hours.value|
      invariant forall j | 0 <= j < i :: !PeriodCovers(hours.value[j], day, time)
    {
      if PeriodCovers(hours.value[i], day, time) {
        return true;
      }
    }
    return false;
  }

  // ─── The meaning of a period: a half-open interval of the cyclic week ───

  /** Microseconds since Sunday midnight. */
  function Instant(day: Weekday, time: TimeOfDay): int {
    day * DAY + time
  }

  predicate InWeekInterval(moment: int, open: int, close: int) {
    if open <= close then open <= moment < close else moment >= open || moment < close
  }

  /** Both ends are weekdays with readable times. */
  predicate IsRegular(period: Period) {
    && period.open.Some? && period.close.Some?
    && period.open.value.day.Some? && 0 <= period.open.value.day.value < DAYS_IN_WEEK
    && period.close.value.day.Some? && 0 <= period.close.value.day.value < DAYS_IN_WEEK
    && ParseHhmm(period.open.value.time).Some? && ParseHhmm(period.close.value.time).Some?
  }

  function Opens(period: Period): int
    requires IsRegular(period)
  {
    Instant(period.open.value.day.value, ParseHhmm(period.open.value.time).value)
  }

  function Closes(period: Period): int
    requires IsRegular(period)
  {
    Instant(period.close.value.day.value, ParseHhmm(period.close.value.time).value)
  }

  /** Opens and closes on one day but opens later than it closes: a window of almost the whole week. */
  predicate WrapsWholeWeek(period: Period)
    requires IsRegular(period)
  {
    period.open.value.day == period.close.value.day && Opens(period) > Closes(period)
  }

  /**
   The evaluator answers by the interval of the period, except for one stretch: of a period that opens and
   closes on the same day and opens later than it closes, the hours from midnight to closing on that day.
   */
  lemma PeriodExact(period: Period, day: Weekday, time: TimeOfDay)
    requires IsRegular(period)
    ensures PeriodCovers(period, day, time) == InWeekInterval(Instant(day, time), Opens(period), Closes(period))
       <==> !(WrapsWholeWeek(period) && day == period.open.value.day.value && Instant(day, time) < Closes(period))
  {
    var openDay, closeDay := period.open.value.day.value, period.close.value.day.value;
    hide ParseHhmm, Covers, InWeekInterval, Instant;
    CoversExact(openDay, ParseHhmm(period.open.value.time).value,
                closeDay, ParseHhmm(period.close.value.time).value, day, time);
  }

  lemma CoversExact(openDay: Weekday, open: TimeOfDay, closeDay: Weekday, close: TimeOfDay,
                    day: Weekday, time: TimeOfDay)
    ensures var o, c, now := Instant(openDay, open), Instant(closeDay, close), Instant(day, time);
      Covers(openDay, open, closeDay, close, day, time) == InWeekInterval(now, o, c)
      <==> !(openDay == closeDay && o > c && day == openDay && now < c)
  {
    hide Instant, DayIsBetween;
    InstantOrder(openDay, open, closeDay, close);
    InstantOrder(openDay, open, day, time);
    InstantOrder(day, time, closeDay, close);
    if day != openDay && day != closeDay {
      CyclicDays(day, openDay, closeDay);
    }
  }

  lemma InstantOrder(day: Weekday, time: TimeOfDay, otherDay: Weekday, otherTime: TimeOfDay)
    ensures Instant(day, time) < Instant(otherDay, otherTime)
       <==> day < otherDay || (day == otherDay && time < otherTime)
    ensures Instant(day, time) == Instant(otherDay, otherTime) <==> day == otherDay && time == otherTime
  {
  }

  /** Cyclic betweenness of weekdays in terms of their order within the week. */
  lemma CyclicDays(day: Weekday, start: Weekday, end: Weekday)
    requires day != start && day != end
    ensures DayIsBetween(day, start, end)
       <==> if start < end then start < day < end else day > start || day < end
  {
  }

  /** A period whose days differ and the same period with its ends exchanged share out the whole week. */
  lemma ExchangedEndsPartition(period: Period, day: Weekday, time: TimeOfDay)
    requires IsRegular(period) && period.open.value.day != period.close.value.day
    ensures PeriodCovers(period, day, time) <==> !PeriodCovers(Period(period.close, period.open), day, time)
  {
    hide PeriodCovers, ParseHhmm;
    PeriodExact(period, day, time);
    PeriodExact(Period(period.close, period.open), day, time);
  }

  /** Without irregular periods, and none that wraps the week, a place is open exactly in the union of intervals. */
  lemma OpenExactlyInUnion(periods: seq<Period>, day: Weekday, time: TimeOfDay)
    requires periods != []
    requires forall i | 0 <= i < |periods| :: IsRegular(periods[i]) && !WrapsWholeWeek(periods[i])
    ensures OpenAt(Some(periods), day, time)
       <==> exists i | 0 <= i < |periods| :: InWeekInterval(Instant(day, time), Opens(periods[i]), Closes(periods[i]))
  {
    forall i | 0 <= i < |periods|
      ensures PeriodCovers(periods[i], day, time)
         <==> InWeekInterval(Instant(day, time), Opens(periods[i]), Closes(periods[i]))
    {
      PeriodExact(periods[i], day, time);
    }
  }

  /** Monday 18:00 to Monday 02:00, asked on Monday at 01:00: inside the interval, yet reported closed. */
  lemma HoursLeftOut()
    ensures var period := Period(Some(Mark(Some(1), Some("1800"))), Some(Mark(Some(1), Some("0200"))));
      && IsRegular(period) && WrapsWholeWeek(period)
      && InWeekInterval(Instant(1, 60 * MINUTE), Opens(period), Closes(period))
      && !OpenAt(Some([period]), 1, 60 * MINUTE)
  {
    var period := Period(Some(Mark(Some(1), Some("1800"))), Some(Mark(Some(1), Some("0200"))));
    assert ParseHhmm(Some("1800")) == Some(1080 * MINUTE) && ParseHhmm(Some("0200")) == Some(120 * MINUTE);
    assert [period][0] == period;
    hide ParseHhmm;
    PeriodExact(period, 1, 60 * MINUTE);
  }
}
