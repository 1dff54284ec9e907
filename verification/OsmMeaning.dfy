/** What a rule of an OSM string says, and when the periods made from it say the same. */
module OsmMeaning {
  import opened Basics
  import opened OpeningHours
  import opened Text
  import opened OsmHours

  // ─── Days ───

  function FromMonday(day: Weekday): Weekday {
    (day + 6) % 7
  }

  /** Walking from the first day of the span round the week, the day comes no later than the last day. */
  predicate InSpan(day: Weekday, span: Span) {
    (FromMonday(day) - span.first) % 7 <= (span.last - span.first) % 7
  }

  predicate IsNamed(day: Weekday, spans: Option<seq<Span>>) {
    spans.None? || exists i | 0 <= i < |spans.value| :: InSpan(day, spans.value[i])
  }

  lemma SliceOfDays(from: nat, to: nat, day: int)
    requires from <= to <= 7
    ensures day in GOOGLE_DAYS[from..to] <==> 0 <= day < 7 && from <= FromMonday(day) < to
  {
    if day in GOOGLE_DAYS[from..to] {
      var k :| from <= k < to && GOOGLE_DAYS[from..to][k - from] == day;
      assert GOOGLE_DAYS[k] == day;
    }
    if 0 <= day < 7 && from <= FromMonday(day) < to {
      assert GOOGLE_DAYS[FromMonday(day)] == day;
      assert GOOGLE_DAYS[from..to][FromMonday(day) - from] == day;
    }
  }

  lemma SpanInOrder(day: Weekday, span: Span)
    ensures InSpan(day, span) <==> var k := FromMonday(day);
              if span.first <= span.last then span.first <= k <= span.last else k >= span.first || k <= span.last
  {
  }

  /** The slices of the Monday-first order hold exactly the days of the cyclic span. */
  lemma RangeIsCyclic(span: Span, day: int)
    ensures day in DayRange(span) <==> 0 <= day < 7 && InSpan(day, span)
  {
    if 0 <= day < 7 {
      SpanInOrder(day, span);
    }
    hide FromMonday, InSpan;
    if span.first <= span.last {
      SliceOfDays(span.first, span.last + 1, day);
    } else {
      SliceOfDays(span.first, 7, day);
      SliceOfDays(0, span.last + 1, day);
      assert GOOGLE_DAYS[span.first..] == GOOGLE_DAYS[span.first..7];
      assert GOOGLE_DAYS[..span.last + 1] == GOOGLE_DAYS[0..span.last + 1];
    }
  }

  lemma {:induction false} ListedExactly(spans: seq<Span>, day: int)
    ensures day in DaysListed(spans) <==> 0 <= day < 7 && exists i | 0 <= i < |spans| :: InSpan(day, spans[i])
  {
    hide DayRange, InSpan;
    if spans != [] {
      var init, last := spans[..|spans| - 1], spans[|spans| - 1];
      ListedExactly(init, day);
      RangeIsCyclic(last, day);
      assert forall i | 0 <= i < |init| :: init[i] == spans[i];
      if 0 <= day < 7 && InSpan(day, last) {
        assert InSpan(day, spans[|spans| - 1]);
      }
    }
  }

  /** The expanded list holds exactly the named days, each once and in the evaluator's order. */
  lemma DaysExactly(spans: Option<seq<Span>>)
    ensures Increasing(RuleDays(spans))
    ensures forall day: int :: day in RuleDays(spans) <==> 0 <= day < 7 && IsNamed(day, spans)
  {
    if spans.Some? {
      forall day: int ensures day in RuleDays(spans) <==> 0 <= day < 7 && IsNamed(day, spans) {
        ListedExactly(spans.value, day);
      }
    }
  }

  // ─── Times ───

  function Stated(hour: nat, minute: nat): int {
    (60 * hour + minute) * MINUTE
  }

  function Folded(hour: nat, minute: nat): (t: TimeOfDay)
    requires minute <= 59
  {
    (60 * (hour % 24) + minute) * MINUTE
  }

  lemma FoldedIs(hour: nat, minute: nat)
    requires hour <= 24 && minute <= 59
    ensures Folded(hour, minute) == if hour == 24 then Stated(hour, minute) - DAY else Stated(hour, minute)
  {
  }

  lemma HhmmReadsBack(hour: nat, minute: nat)
    requires hour <= 23 && minute <= 59
    ensures ParseHhmm(Some(Hhmm(hour, minute))) == Some((60 * hour + minute) * MINUTE)
  {
    var text := Hhmm(hour, minute);
    assert DigitValue(text[0]) == hour / 10 && DigitValue(text[1]) == hour % 10;
    assert DigitValue(text[2]) == minute / 10 && DigitValue(text[3]) == minute % 10;
  }

  // ─── Rules ───

  function DaysBefore(day: Weekday, n: nat): Weekday {
    (day - n) % DAYS_IN_WEEK
  }

  function Opening(times: Times): int {
    Stated(times.openHour, times.openMinute)
  }

  /** The closing time as stated, or the same time on the first later day on which it follows the opening. */
  function Closing(times: Times): int {
    var stated := Stated(times.closeHour, times.closeMinute);
    if stated >= Opening(times) then stated
    else if stated + DAY >= Opening(times) then stated + DAY
    else stated + 2 * DAY
  }

  /** The day `first` is named, and its window holds the moment `elapsed` after that day began. */
  predicate IsWithin(rule: Rule, first: Weekday, elapsed: int) {
    IsNamed(first, rule.spans) && Opening(rule.times) <= elapsed < Closing(rule.times)
  }

  /** What the rule says: the window of this day, of the day before or of the one before that is running. */
  predicate Says(rule: Rule, day: Weekday, time: TimeOfDay) {
    || IsWithin(rule, day, time)
    || IsWithin(rule, DaysBefore(day, 1), time + DAY)
    || IsWithin(rule, DaysBefore(day, 2), time + 2 * DAY)
  }

  /** What the evaluator makes of the rule's periods. */
  predicate RuleCovers(rule: Rule, day: Weekday, time: TimeOfDay)
    requires IsReadable(rule)
  {
    exists i | 0 <= i < |RulePeriods(rule)| :: PeriodCovers(RulePeriods(rule)[i], day, time)
  }

  predicate WindowCovers(listed: int, open: TimeOfDay, close: TimeOfDay, day: Weekday, time: TimeOfDay) {
    if day == listed then open <= time && (open > close || time < close) else open > close
  }

  lemma WindowMeaning(listed: Weekday, times: Times, day: Weekday, time: TimeOfDay)
    requires InRange(times)
    ensures PeriodCovers(Window(listed, times), day, time)
       <==> WindowCovers(listed, Folded(times.openHour, times.openMinute),
                         Folded(times.closeHour, times.closeMinute), day, time)
  {
    HhmmReadsBack(times.openHour % 24, times.openMinute);
    HhmmReadsBack(times.closeHour % 24, times.closeMinute);
    hide ParseHhmm, Hhmm, Folded, DayIsBetween;
    if day != listed {
      CyclicDays(day, listed, listed);
    }
  }

  lemma RuleCoversExactly(rule: Rule, day: Weekday, time: TimeOfDay)
    requires IsReadable(rule)
    ensures RuleCovers(rule, day, time)
       <==> exists d | d in RuleDays(rule.spans) ::
              WindowCovers(d, Folded(rule.times.openHour, rule.times.openMinute),
                           Folded(rule.times.closeHour, rule.times.closeMinute), day, time)
  {
    DaysExactly(rule.spans);
    hide Window, PeriodCovers, WindowCovers, Folded, RuleDays, IsNamed;
    var days := RuleDays(rule.spans);
    forall i | 0 <= i < |days|
      ensures PeriodCovers(RulePeriods(rule)[i], day, time)
         <==> WindowCovers(days[i], Folded(rule.times.openHour, rule.times.openMinute),
                           Folded(rule.times.closeHour, rule.times.closeMinute), day, time)
    {
      assert days[i] in RuleDays(rule.spans);
      WindowMeaning(days[i], rule.times, day, time);
    }
  }

  function FoldedOpening(times: Times): TimeOfDay
    requires InRange(times)
  {
    Folded(times.openHour, times.openMinute)
  }

  function FoldedClosing(times: Times): TimeOfDay
    requires InRange(times)
  {
    Folded(times.closeHour, times.closeMinute)
  }

  predicate NamesEveryDay(spans: Option<seq<Span>>) {
    forall day: Weekday :: IsNamed(day, spans)
  }

  /**
   With 24 folded to 00 the window does not close before it opens, and folding did no harm: the closing hour
   was below 24, or the opening moved by a day that makes no difference.
   */
  predicate IsPlain(rule: Rule)
    requires InRange(rule.times)
  {
    var opens, closes := FoldedOpening(rule.times), FoldedClosing(rule.times);
    && opens <= closes
    && if rule.times.openHour < 24 then rule.times.closeHour < 24 else opens == closes || NamesEveryDay(rule.spans)
  }

  /** The window of a rule whose folded times are in order. */
  lemma OrderedTimes(times: Times)
    requires InRange(times) && FoldedOpening(times) <= FoldedClosing(times)
    ensures var opens, closes := FoldedOpening(times), FoldedClosing(times);
      && (times.openHour < 24 && times.closeHour < 24 ==> Opening(times) == opens && Closing(times) == closes)
      && (times.openHour == 24 ==> Opening(times) == opens + DAY && Closing(times) == closes + DAY)
  {
    FoldedIs(times.openHour, times.openMinute);
    FoldedIs(times.closeHour, times.closeMinute);
    hide Folded, Stated;
  }

  lemma PlainRule(rule: Rule, day: Weekday, time: TimeOfDay)
    requires IsReadable(rule) && IsPlain(rule)
    ensures RuleCovers(rule, day, time) <==> Says(rule, day, time)
  {
    OrderedTimes(rule.times);
    RuleCoversExactly(rule, day, time);
    DaysExactly(rule.spans);
    hide RuleCovers, RuleDays, IsNamed, Folded, Opening, Closing, DaysBefore;
    assert day in RuleDays(rule.spans) <==> IsNamed(day, rule.spans);
  }

  /** Going back from a named day, some named day follows one that is not. */
  lemma {:induction false} FirstNamedDay(named: Weekday, unnamed: Weekday, spans: Option<seq<Span>>)
      returns (first: Weekday)
    requires IsNamed(named, spans) && !IsNamed(unnamed, spans)
    ensures IsNamed(first, spans) && !IsNamed(DaysBefore(first, 1), spans)
    decreases (named - unnamed) % DAYS_IN_WEEK
  {
    hide IsNamed;
    first := named;
    if IsNamed(DaysBefore(named, 1), spans) {
      first := FirstNamedDay(DaysBefore(named, 1), unnamed, spans);
    }
  }

  /** Where the evaluator and a rule that is not plain part company. */
  lemma NotPlainRule(rule: Rule) returns (day: Weekday, time: TimeOfDay)
    requires IsReadable(rule) && !IsPlain(rule)
    ensures RuleCovers(rule, day, time) != Says(rule, day, time)
  {
    hide RuleCovers, RuleDays, IsNamed, Folded, Stated, DayAfter;
    FoldedIs(rule.times.openHour, rule.times.openMinute);
    FoldedIs(rule.times.closeHour, rule.times.closeMinute);
    RuleNamesADay(rule);
    DaysExactly(rule.spans);
    var opens, closes := FoldedOpening(rule.times), FoldedClosing(rule.times);
    var listed := RuleDays(rule.spans)[0];
    assert listed in RuleDays(rule.spans);
    if opens > closes {
      day, time := (listed + 1) % DAYS_IN_WEEK, closes;
      assert WindowCovers(listed, opens, closes, day, time);
    } else if rule.times.openHour < 24 {
      day, time := listed, closes;
    } else {
      OrderedTimes(rule.times);
      var unnamed: Weekday :| !IsNamed(unnamed, rule.spans);
      var first := FirstNamedDay(listed, unnamed, rule.spans);
      day, time := first, opens;
      assert WindowCovers(first, opens, closes, day, time);
    }
    RuleCoversExactly(rule, day, time);
  }

  /** A rule and its periods agree at every moment of the week exactly when the rule is plain. */
  lemma RuleExact(rule: Rule)
    requires IsReadable(rule)
    ensures (forall day, time :: RuleCovers(rule, day, time) <==> Says(rule, day, time)) <==> IsPlain(rule)
  {
    if IsPlain(rule) {
      forall day, time ensures RuleCovers(rule, day, time) <==> Says(rule, day, time) {
        PlainRule(rule, day, time);
      }
    } else {
      var day, time := NotPlainRule(rule);
    }
  }

  /** When the folded times are out of order, any other named day opens the whole of this day. */
  lemma WrappedCovers(rule: Rule, day: Weekday, time: TimeOfDay)
    requires IsReadable(rule) && FoldedOpening(rule.times) > FoldedClosing(rule.times)
    ensures RuleCovers(rule, day, time)
       <==> || (IsNamed(day, rule.spans) && FoldedOpening(rule.times) <= time)
            || exists other: Weekday :: other != day && IsNamed(other, rule.spans)
  {
    RuleCoversExactly(rule, day, time);
    DaysExactly(rule.spans);
    hide RuleCovers, RuleDays, IsNamed, FoldedOpening, FoldedClosing;
    var opens, closes := FoldedOpening(rule.times), FoldedClosing(rule.times);
    if d :| d in RuleDays(rule.spans) && WindowCovers(d, opens, closes, day, time) {
      var other: Weekday := d;
      assert IsNamed(other, rule.spans);
    }
    if other: Weekday :| IsNamed(other, rule.spans) && (other != day || opens <= time) {
      assert other in RuleDays(rule.spans) && WindowCovers(other, opens, closes, day, time);
    }
  }

  /** Opening today, closing tomorrow, as in `18:00-02:00`. */
  predicate IsOvernight(times: Times) {
    times.openHour < 24 && times.closeHour < 24
    && Stated(times.closeHour, times.closeMinute) < Stated(times.openHour, times.openMinute)
  }

  /**
   In the hours between closing and opening an overnight rule says closed on every day, and the evaluator
   says open on each of them, except on the one named day of a rule that names only one.
   */
  lemma OvernightOpenTooLong(rule: Rule, day: Weekday, time: TimeOfDay)
    requires IsReadable(rule) && IsOvernight(rule.times)
    requires Stated(rule.times.closeHour, rule.times.closeMinute) <= time < Opening(rule.times)
    ensures !Says(rule, day, time)
    ensures RuleCovers(rule, day, time) <==> exists other: Weekday :: other != day && IsNamed(other, rule.spans)
  {
    hide RuleCovers, IsNamed, Folded, Stated;
    FoldedIs(rule.times.openHour, rule.times.openMinute);
    FoldedIs(rule.times.closeHour, rule.times.closeMinute);
    WrappedCovers(rule, day, time);
  }

  /** A window that closes at 24 o'clock is never read as stated: `Mo 18:00-24:00` is open all day on Tuesday. */
  lemma ClosingAtMidnight(rule: Rule, day: Weekday, time: TimeOfDay)
    requires IsReadable(rule) && rule.times.openHour < 24 && rule.times.closeHour == 24
    requires rule.times.closeMinute == 0 && rule.times.openHour + rule.times.openMinute > 0
    requires !IsNamed(day, rule.spans)
    ensures RuleCovers(rule, day, time) && !Says(rule, day, time)
  {
    hide RuleCovers, RuleDays, IsNamed, Folded;
    FoldedIs(rule.times.openHour, rule.times.openMinute);
    FoldedIs(rule.times.closeHour, rule.times.closeMinute);
    RuleNamesADay(rule);
    DaysExactly(rule.spans);
    var listed := RuleDays(rule.spans)[0];
    assert listed in RuleDays(rule.spans);
    WrappedCovers(rule, day, time);
  }

  // ─── Whole strings ───

  lemma {:induction false} AllPeriodsCover(rules: seq<Rule>, day: Weekday, time: TimeOfDay)
    requires forall i | 0 <= i < |rules| :: IsReadable(rules[i])
    ensures (exists k | 0 <= k < |AllPeriods(rules)| :: PeriodCovers(AllPeriods(rules)[k], day, time))
       <==> exists i | 0 <= i < |rules| :: RuleCovers(rules[i], day, time)
  {
    hide PeriodCovers, RulePeriods, IsReadable;
    if rules != [] {
      var init, last := rules[..|rules| - 1], rules[|rules| - 1];
      AllPeriodsCover(init, day, time);
      var before, own := AllPeriods(init), RulePeriods(last);
      assert AllPeriods(rules) == before + own;
      if k :| 0 <= k < |before| && PeriodCovers(before[k], day, time) {
        assert PeriodCovers(AllPeriods(rules)[k], day, time);
      }
      if k :| 0 <= k < |own| && PeriodCovers(own[k], day, time) {
        assert PeriodCovers(AllPeriods(rules)[|before| + k], day, time);
      }
      if i :| 0 <= i < |init| && RuleCovers(init[i], day, time) {
        assert RuleCovers(rules[i], day, time);
      }
      if RuleCovers(last, day, time) {
        assert RuleCovers(rules[|rules| - 1], day, time);
      }
    }
  }

  /** Evaluated on the periods of plain rules, a place is open exactly when some rule says so. */
  lemma OpenWhenSomeRuleSaysSo(rules: seq<Rule>, day: Weekday, time: TimeOfDay)
    requires rules != [] && forall i | 0 <= i < |rules| :: IsReadable(rules[i]) && IsPlain(rules[i])
    ensures OpenAt(Some(AllPeriods(rules)), day, time)
       <==> exists i | 0 <= i < |rules| :: Says(rules[i], day, time)
  {
    AllPeriodsCover(rules, day, time);
    RulesMakePeriods(rules);
    hide PeriodCovers, AllPeriods, Says, RuleCovers, IsReadable, IsPlain;
    forall i | 0 <= i < |rules| ensures RuleCovers(rules[i], day, time) <==> Says(rules[i], day, time) {
      PlainRule(rules[i], day, time);
    }
  }

  predicate IsMalformed(piece: string) {
    !IsBlank(piece) && ReadRule(Strip(piece)).None?
  }

  lemma {:induction false} PiecesReadExactly(pieces: seq<string>)
    ensures ReadPieces(pieces).None? <==> exists i | 0 <= i < |pieces| :: IsMalformed(pieces[i])
    ensures ReadPieces(pieces) == Some([]) <==> forall i | 0 <= i < |pieces| :: IsBlank(pieces[i])
    ensures ReadPieces(pieces).Some? ==>
              forall rule :: rule in ReadPieces(pieces).value <==> IsSpelled(rule, pieces)
  {
    hide IsBlank, Strip, ReadRule;
    if pieces != [] {
      PiecesReadExactly(pieces[1..]);
      assert forall i | 0 <= i < |pieces| - 1 :: pieces[1..][i] == pieces[i + 1];
      if i :| 0 <= i < |pieces[1..]| && IsMalformed(pieces[1..][i]) {
        assert IsMalformed(pieces[i + 1]);
      }
      forall rule { SpelledByTail(rule, pieces); }
    }
  }

  /** The piece is not blank and reads as this rule. */
  predicate Spells(piece: string, rule: Rule) {
    !IsBlank(piece) && ReadRule(Strip(piece)) == Some(rule)
  }

  predicate IsSpelled(rule: Rule, pieces: seq<string>) {
    exists i | 0 <= i < |pieces| :: Spells(pieces[i], rule)
  }

  lemma SpelledByTail(rule: Rule, pieces: seq<string>)
    requires pieces != []
    ensures IsSpelled(rule, pieces) <==> Spells(pieces[0], rule) || IsSpelled(rule, pieces[1..])
  {
    hide Spells;
    if i :| 0 <= i < |pieces| && Spells(pieces[i], rule) {
      assert i == 0 || pieces[i] == pieces[1..][i - 1];
    }
    if i :| 0 <= i < |pieces[1..]| && Spells(pieces[1..][i], rule) {
      assert pieces[1..][i] == pieces[i + 1];
    }
  }

  predicate IsSpecial(raw: string) {
    Strip(raw) in ALWAYS_TEXTS
  }

  function Pieces(raw: string): seq<string> {
    Split(Strip(raw), ';')
  }

  /** The hours are unknown exactly when nothing is written, every piece is blank, or one piece is malformed. */
  lemma UnknownExactly(raw: string)
    ensures Parse(Some(raw)).None?
       <==> || IsBlank(raw)
            || (!IsSpecial(raw) && forall i | 0 <= i < |Pieces(raw)| :: IsBlank(Pieces(raw)[i]))
            || (!IsSpecial(raw) && exists i | 0 <= i < |Pieces(raw)| :: IsMalformed(Pieces(raw)[i]))
  {
    PiecesReadExactly(Pieces(raw));
    hide ReadPieces, Split, Strip, AllPeriods, IsReadable, IsMalformed;
  }

  /** One malformed piece makes the whole text unknown, and a place with unknown hours counts as open. */
  lemma OneMalformedPiece(raw: string, i: nat, day: Weekday, time: TimeOfDay)
    requires !IsSpecial(raw) && i < |Pieces(raw)| && IsMalformed(Pieces(raw)[i])
    ensures Parse(Some(raw)) == None && OpenAt(Parse(Some(raw)), day, time)
  {
    UnknownExactly(raw);
    hide Parse, Split, Strip, IsMalformed;
  }

  /** The piece is a rule, and the rule says open. */
  predicate PieceSays(piece: string, day: Weekday, time: TimeOfDay) {
    !IsBlank(piece) && ReadRule(Strip(piece)).Some? && Says(ReadRule(Strip(piece)).value, day, time)
  }

  predicate PieceIsPlain(piece: string) {
    IsBlank(piece) || (ReadRule(Strip(piece)).Some? && InRange(ReadRule(Strip(piece)).value.times)
                       && IsPlain(ReadRule(Strip(piece)).value))
  }

  /** For any text whose rules are plain, translating and evaluating gives the union of what the rules say. */
  lemma TextMeansItsRules(raw: string, day: Weekday, time: TimeOfDay)
    requires !IsSpecial(raw) && Parse(Some(raw)).Some?
    requires forall i | 0 <= i < |Pieces(raw)| :: PieceIsPlain(Pieces(raw)[i])
    ensures OpenAt(Parse(Some(raw)), day, time)
       <==> exists i | 0 <= i < |Pieces(raw)| :: PieceSays(Pieces(raw)[i], day, time)
  {
    var pieces := Pieces(raw);
    PiecesReadExactly(pieces);
    RulesAreReadable(pieces);
    hide ReadPieces, Split, Strip, AllPeriods, IsPlain, ReadRule, Says, OpenAt;
    var rules := ReadPieces(pieces).value;
    forall i | 0 <= i < |rules| ensures IsPlain(rules[i]) {
      assert rules[i] in rules && IsSpelled(rules[i], pieces);
    }
    OpenWhenSomeRuleSaysSo(rules, day, time);
    if i :| 0 <= i < |rules| && Says(rules[i], day, time) {
      assert rules[i] in rules && IsSpelled(rules[i], pieces);
      var k :| 0 <= k < |pieces| && Spells(pieces[k], rules[i]);
      assert PieceSays(pieces[k], day, time);
    }
    if k :| 0 <= k < |pieces| && PieceSays(pieces[k], day, time) {
      var rule := ReadRule(Strip(pieces[k])).value;
      assert Spells(pieces[k], rule);
      assert IsSpelled(rule, pieces);
      assert rule in rules;
    }
  }

  /** The three texts for "always", with any white space around them, open the place at every moment of the week. */
  lemma AlwaysOpenTexts(text: string, before: string, after: string, day: Weekday, time: TimeOfDay)
    requires text == "24/7" || text == "24/7 open" || text == "Mo-Su 00:00-24:00"
    requires IsAllSpace(before) && IsAllSpace(after)
    ensures var hours := Parse(Some(before + text + after));
      && hours.Some? && hours.value != [] && OpenAt(hours, day, time)
      && exists i | 0 <= i < |hours.value| :: PeriodCovers(hours.value[i], day, time)
  {
    assert !IsSpace(text[0]) && !IsSpace(text[|text| - 1]);
    StripSurrounded(before, text, after);
    hide Strip, Split, ReadPieces;
    var hours := Parse(Some(before + text + after));
    assert PeriodCovers(hours.value[0], day, time);
  }
}
