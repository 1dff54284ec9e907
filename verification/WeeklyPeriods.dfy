/** The administration form's generator of weekly periods, measured against the evaluator of opening hours. */
module WeeklyPeriods {
  import opened Basics
  import opened OpeningHours

  /** A JavaScript value offered as a day. */
  datatype DayInput = Whole(day: int) | NotWhole
  datatype Refusal = InvalidChoice | LongerThanADay

  predicate ValidTime(text: string) {
    && |text| == 4 && (forall i | 0 <= i < 4 :: IsDigit(text[i]))
    && (text[0] in "01" || (text[0] == '2' && text[1] <= '3')) && text[2] <= '5'
  }

  /** The order of JavaScript strings. */
  predicate TextBelow(a: string, b: string) {
    b != "" && (a == "" || a[0] < b[0] || (a[0] == b[0] && TextBelow(a[1..], b[1..])))
  }

  function ChosenDays(days: seq<DayInput>): set<int> {
    set d | d in days && d.Whole? :: d.day
  }

  function DailyPeriod(day: int, open: string, close: string, nextDay: bool): Period {
    Period(Some(Mark(Some(day), Some(open))),
           Some(Mark(Some(if nextDay then (day + 1) % 7 else day), Some(close))))
  }

  function PeriodsOn(days: seq<int>, open: string, close: string, nextDay: bool): seq<Period> {
    seq(|days|, i requires 0 <= i < |days| => DailyPeriod(days[i], open, close, nextDay))
  }

  function Generate(days: seq<DayInput>, open: string, close: string, nextDay: bool): Reply<seq<Period>, Refusal> {
    if || days == [] || (exists d | d in days :: !d.Whole? || d.day < 0 || d.day > 6)
       || !ValidTime(open) || !ValidTime(close) || (!nextDay && !TextBelow(open, close))
    then Err(InvalidChoice)
    else if nextDay && TextBelow(open, close) then Err(LongerThanADay)
    else Ok(PeriodsOn(Sorted(ChosenDays(days)), open, close, nextDay))
  }

  // ─── Times as text and as numbers ───

  /** The form accepts exactly the texts that the evaluator can read. */
  lemma ValidTimeIsReadable(text: string)
    ensures ValidTime(text) <==> ParseHhmm(Some(text)).Some?
  {
  }

  /** Comparing two valid times as text compares them as times. */
  lemma TextOrderIsTimeOrder(a: string, b: string)
    requires ValidTime(a) && ValidTime(b)
    ensures ParseHhmm(Some(a)).Some? && ParseHhmm(Some(b)).Some?
    ensures TextBelow(a, b) <==> ParseHhmm(Some(a)).value < ParseHhmm(Some(b)).value
  {
    ValidTimeIsReadable(a);
    ValidTimeIsReadable(b);
    assert TextBelow(a, b) <==> FirstDifference(a, b) by {
      assert a[1..][1..] == a[2..] && a[2..][1..] == a[3..] && |a[3..][1..]| == 0;
      assert b[1..][1..] == b[2..] && b[2..][1..] == b[3..] && |b[3..][1..]| == 0;
      assert TextBelow(a[3..], b[3..]) <==> a[3] < b[3];
      assert TextBelow(a[2..], b[2..]) <==> a[2] < b[2] || (a[2] == b[2] && TextBelow(a[3..], b[3..]));
      assert TextBelow(a[1..], b[1..]) <==> a[1] < b[1] || (a[1] == b[1] && TextBelow(a[2..], b[2..]));
    }
  }

  predicate FirstDifference(a: string, b: string)
    requires |a| == 4 && |b| == 4
  {
    || a[0] < b[0]
    || (a[0] == b[0] && a[1] < b[1])
    || (a[0] == b[0] && a[1] == b[1] && a[2] < b[2])
    || (a[0] == b[0] && a[1] == b[1] && a[2] == b[2] && a[3] < b[3])
  }

  predicate Readable(open: string, close: string) {
    ParseHhmm(Some(open)).Some? && ParseHhmm(Some(close)).Some?
  }

  function Time(text: string): TimeOfDay
    requires ParseHhmm(Some(text)).Some?
  {
    ParseHhmm(Some(text)).value
  }

  /** What is accepted: real days, readable times, and a window of more than nothing and at most 24 hours. */
  lemma AcceptedExactly(days: seq<DayInput>, open: string, close: string, nextDay: bool)
    ensures Generate(days, open, close, nextDay).Ok?
       <==> && days != [] && (forall d | d in days :: d.Whole? && 0 <= d.day < DAYS_IN_WEEK)
            && Readable(open, close)
            && if nextDay then Time(close) <= Time(open) else Time(open) < Time(close)
  {
    hide ParseHhmm, ValidTime, TextBelow;
    ValidTimeIsReadable(open);
    ValidTimeIsReadable(close);
    if ValidTime(open) && ValidTime(close) {
      TextOrderIsTimeOrder(open, close);
    }
  }

  lemma AcceptedWindow(days: seq<DayInput>, open: string, close: string, nextDay: bool)
    requires Generate(days, open, close, nextDay).Ok?
    ensures ParseHhmm(Some(open)).Some? && ParseHhmm(Some(close)).Some? && Readable(open, close)
    ensures if nextDay then Time(close) <= Time(open) else Time(open) < Time(close)
  {
    hide Generate, ParseHhmm;
    AcceptedExactly(days, open, close, nextDay);
  }

  // ─── What an accepted choice means ───

  /** The chosen day's own window, or the part after midnight of the window opened on the day before. */
  predicate CoveredFrom(day: int, open: TimeOfDay, close: TimeOfDay, nextDay: bool, at: Weekday, time: TimeOfDay) {
    || (at == day && time >= open && (nextDay || time < close))
    || (nextDay && at == DayAfter(day, 1) && time < close)
  }

  lemma DailyPeriodMeaning(day: Weekday, open: string, close: string, nextDay: bool, at: Weekday, time: TimeOfDay)
    requires Readable(open, close)
    requires if nextDay then Time(close) <= Time(open) else Time(open) < Time(close)
    ensures PeriodCovers(DailyPeriod(day, open, close, nextDay), at, time)
       <==> CoveredFrom(day, Time(open), Time(close), nextDay, at, time)
  {
    hide ParseHhmm;
    if nextDay && at != day && at != (day + 1) % 7 {
      CyclicDays(at, day, (day + 1) % 7);
    }
  }

  /** An accepted choice makes one period for each listed day, and the list holds exactly the days given. */
  lemma GeneratedShape(days: seq<DayInput>, open: string, close: string, nextDay: bool)
    requires Generate(days, open, close, nextDay).Ok?
    ensures Generate(days, open, close, nextDay).value == PeriodsOn(Sorted(ChosenDays(days)), open, close, nextDay)
    ensures forall d :: d in Sorted(ChosenDays(days)) <==> Whole(d) in days
    ensures forall d | d in Sorted(ChosenDays(days)) :: 0 <= d < DAYS_IN_WEEK
    ensures Sorted(ChosenDays(days)) != []
  {
    hide ValidTime, TextBelow, PeriodsOn;
    assert days[0] in days && days[0].day in ChosenDays(days);
  }

  function OpenDays(periods: seq<Period>): seq<int>
    requires forall i | 0 <= i < |periods| :: IsRegular(periods[i])
  {
    seq(|periods|, i requires 0 <= i < |periods| && IsRegular(periods[i]) => periods[i].open.value.day.value)
  }

  lemma DailyPeriodIsRegular(day: Weekday, open: string, close: string, nextDay: bool)
    requires Readable(open, close)
    ensures IsRegular(DailyPeriod(day, open, close, nextDay))
  {
  }

  /** The periods are one for each distinct day, in weekday order, whichever order and repetition the days came in. */
  lemma OnePeriodPerDay(days: seq<DayInput>, open: string, close: string, nextDay: bool)
    requires Generate(days, open, close, nextDay).Ok?
    ensures var periods := Generate(days, open, close, nextDay).value;
      && (forall i | 0 <= i < |periods| :: IsRegular(periods[i]))
      && Increasing(OpenDays(periods))
      && forall d :: d in OpenDays(periods) <==> Whole(d) in days
  {
    AcceptedExactly(days, open, close, nextDay);
    GeneratedShape(days, open, close, nextDay);
    hide ParseHhmm, ValidTime, TextBelow, Generate, ChosenDays, IsRegular;
    var chosen := Sorted(ChosenDays(days));
    var periods := PeriodsOn(chosen, open, close, nextDay);
    forall i | 0 <= i < |periods| ensures IsRegular(periods[i]) {
      assert chosen[i] in chosen;
      DailyPeriodIsRegular(chosen[i], open, close, nextDay);
    }
    assert OpenDays(periods) == chosen;
  }

  const WEEK: int := 7 * DAY

  /** How long a period lasts, going forward round the week. */
  function Length(period: Period): int
    requires IsRegular(period)
  {
    (Closes(period) - Opens(period)) % WEEK
  }

  lemma DailyLength(day: Weekday, open: string, close: string, nextDay: bool)
    requires Readable(open, close) && IsRegular(DailyPeriod(day, open, close, nextDay))
    ensures Length(DailyPeriod(day, open, close, nextDay))
         == (if nextDay then DAY else 0) + Time(close) - Time(open)
         || !(if nextDay then Time(close) <= Time(open) else Time(open) < Time(close))
  {
    hide ParseHhmm;
    var period := DailyPeriod(day, open, close, nextDay);
    var length := (if nextDay then DAY else 0) + Time(close) - Time(open);
    assert Closes(period) - Opens(period) == length - (if nextDay && day == 6 then WEEK else 0);
  }

  /** Every window lasts from opening to closing time: more than nothing, and at most 24 hours. */
  lemma WindowsAreShort(days: seq<DayInput>, open: string, close: string, nextDay: bool, period: Period)
    requires Generate(days, open, close, nextDay).Ok?
    requires period in Generate(days, open, close, nextDay).value
    ensures Readable(open, close) && IsRegular(period)
    ensures 0 < Length(period) == (if nextDay then DAY else 0) + Time(close) - Time(open) <= DAY
  {
    AcceptedExactly(days, open, close, nextDay);
    GeneratedShape(days, open, close, nextDay);
    hide ParseHhmm, ValidTime, TextBelow, Generate, ChosenDays, IsRegular, Length, DailyPeriod;
    var chosen := Sorted(ChosenDays(days));
    var i :| 0 <= i < |chosen| && period == PeriodsOn(chosen, open, close, nextDay)[i];
    assert chosen[i] in chosen;
    DailyPeriodIsRegular(chosen[i], open, close, nextDay);
    DailyLength(chosen[i], open, close, nextDay);
  }

  /** No moment of the week lies in two of the periods. */
  lemma PeriodsAreDisjoint(days: seq<DayInput>, open: string, close: string, nextDay: bool, i: nat, j: nat,
                           at: Weekday, time: TimeOfDay)
    requires Generate(days, open, close, nextDay).Ok?
    requires var periods := Generate(days, open, close, nextDay).value;
      && i < |periods| && j < |periods|
      && PeriodCovers(periods[i], at, time) && PeriodCovers(periods[j], at, time)
    ensures i == j
  {
    AcceptedExactly(days, open, close, nextDay);
    GeneratedShape(days, open, close, nextDay);
    hide ParseHhmm, ValidTime, TextBelow, PeriodCovers, Generate, ChosenDays, DailyPeriod, DayAfter, Time;
    var chosen := Sorted(ChosenDays(days));
    assert chosen[i] in chosen && chosen[j] in chosen;
    DailyPeriodMeaning(chosen[i], open, close, nextDay, at, time);
    DailyPeriodMeaning(chosen[j], open, close, nextDay, at, time);
    DayBefore(chosen[i], at);
    DayBefore(chosen[j], at);
  }

  lemma OpenOnListedDays(listed: seq<int>, open: string, close: string, nextDay: bool, at: Weekday, time: TimeOfDay)
    requires listed != [] && forall d | d in listed :: 0 <= d < DAYS_IN_WEEK
    requires Readable(open, close)
    requires if nextDay then Time(close) <= Time(open) else Time(open) < Time(close)
    ensures OpenAt(Some(PeriodsOn(listed, open, close, nextDay)), at, time)
       <==> exists i | 0 <= i < |listed| :: CoveredFrom(listed[i], Time(open), Time(close), nextDay, at, time)
  {
    hide ParseHhmm, PeriodCovers, DailyPeriod, Time, CoveredFrom;
    var periods := PeriodsOn(listed, open, close, nextDay);
    forall i | 0 <= i < |listed|
      ensures PeriodCovers(periods[i], at, time)
         <==> CoveredFrom(listed[i], Time(open), Time(close), nextDay, at, time)
    {
      assert listed[i] in listed;
      DailyPeriodMeaning(listed[i], open, close, nextDay, at, time);
    }
  }

  lemma SomeListedDayCovers(listed: seq<int>, open: TimeOfDay, close: TimeOfDay, nextDay: bool,
                            at: Weekday, time: TimeOfDay)
    requires forall d | d in listed :: 0 <= d < DAYS_IN_WEEK
    ensures (exists i | 0 <= i < |listed| :: CoveredFrom(listed[i], open, close, nextDay, at, time))
       <==> || (at in listed && time >= open && (nextDay || time < close))
            || (nextDay && DayAfter(at, 6) in listed && time < close)
  {
    hide DayAfter;
    forall i | 0 <= i < |listed| ensures at == DayAfter(listed[i], 1) <==> listed[i] == DayAfter(at, 6) {
      assert listed[i] in listed;
      DayBefore(listed[i], at);
    }
    if at in listed {
      var i :| 0 <= i < |listed| && listed[i] == at;
      assert CoveredFrom(listed[i], open, close, nextDay, at, time) <== time >= open && (nextDay || time < close);
    }
    if DayAfter(at, 6) in listed {
      var i :| 0 <= i < |listed| && listed[i] == DayAfter(at, 6);
      assert CoveredFrom(listed[i], open, close, nextDay, at, time) <== nextDay && time < close;
    }
  }

  /**
   Asked about the generated periods, the evaluator says open exactly when the day was chosen and the time is
   in its window, or the day before was chosen, closes on the next day, and has not closed yet.
   */
  lemma OpenExactlyWhenChosen(days: seq<DayInput>, open: string, close: string, nextDay: bool,
                              at: Weekday, time: TimeOfDay)
    requires Generate(days, open, close, nextDay).Ok?
    ensures Readable(open, close)
    ensures OpenAt(Some(Generate(days, open, close, nextDay).value), at, time)
       <==> || (Whole(at) in days && time >= Time(open) && (nextDay || time < Time(close)))
            || (nextDay && Whole(DayAfter(at, 6)) in days && time < Time(close))
  {
    hide *;
    AcceptedWindow(days, open, close, nextDay);
    GeneratedShape(days, open, close, nextDay);
    var chosen := Sorted(ChosenDays(days));
    OpenOnListedDays(chosen, open, close, nextDay, at, time);
    SomeListedDayCovers(chosen, Time(open), Time(close), nextDay, at, time);
  }

  lemma DayBefore(day: Weekday, at: Weekday)
    ensures at == DayAfter(day, 1) <==> day == DayAfter(at, 6)
  {
  }
}
