/** Writing rules out in OSM's notation and translating them back. */
module OsmRoundTrip {
  import opened Basics
  import opened OpeningHours
  import opened Text
  import opened OsmHours
  import opened OsmMeaning

  const DAY_NAMES := ["Mo", "Tu", "We", "Th", "Fr", "Sa", "Su"]

  function SpanText(span: Span): string {
    if span.first == span.last then DAY_NAMES[span.first]
    else DAY_NAMES[span.first] + "-" + DAY_NAMES[span.last]
  }

  function SpanTexts(spans: seq<Span>): seq<string> {
    seq(|spans|, i requires 0 <= i < |spans| => SpanText(spans[i]))
  }

  function ClockText(hour: nat, minute: nat): string
    requires hour <= 99 && minute <= 99
  {
    TwoDigits(hour) + ":" + TwoDigits(minute)
  }

  function TimesText(times: Times): string
    requires InRange(times)
  {
    ClockText(times.openHour, times.openMinute) + "-" + ClockText(times.closeHour, times.closeMinute)
  }

  function RuleText(rule: Rule): string
    requires IsReadable(rule)
  {
    if rule.spans.None? then TimesText(rule.times)
    else Join(SpanTexts(rule.spans.value), ',') + " " + TimesText(rule.times)
  }

  /** The rules in order, a semicolon and a space between them. */
  function PieceTexts(rules: seq<Rule>): (pieces: seq<string>)
    requires forall i | 0 <= i < |rules| :: IsReadable(rules[i])
    ensures |pieces| == |rules|
  {
    seq(|rules|, i requires 0 <= i < |rules| && IsReadable(rules[i]) =>
      if i == 0 then RuleText(rules[i]) else " " + RuleText(rules[i]))
  }

  function RulesText(rules: seq<Rule>): string
    requires forall i | 0 <= i < |rules| :: IsReadable(rules[i])
  {
    Join(PieceTexts(rules), ';')
  }

  // ─── Times ───

  lemma DigitReadsBack(n: nat)
    requires n <= 9
    ensures IsDigit(Digit(n)) && DigitValue(Digit(n)) == n
  {
  }

  lemma ClockReadsBack(hour: nat, minute: nat, rest: string)
    requires hour <= 24 && minute <= 59
    ensures ReadClock(ClockText(hour, minute) + rest) == Some(Clock(hour, minute, rest))
  {
    var s := ClockText(hour, minute) + rest;
    DigitReadsBack(hour / 10);
    DigitReadsBack(hour % 10);
    DigitReadsBack(minute / 10);
    DigitReadsBack(minute % 10);
    hide Digit, IsDigit;
    assert s[..2] == TwoDigits(hour) && s[3..5] == TwoDigits(minute) && s[5..] == rest;
  }

  lemma TimesReadBack(times: Times)
    requires InRange(times)
    ensures ReadTimes(TimesText(times)) == Some(times)
  {
    hide ReadClock, ClockText;
    var closing := ClockText(times.closeHour, times.closeMinute);
    ClockReadsBack(times.openHour, times.openMinute, "-" + closing);
    ClockReadsBack(times.closeHour, times.closeMinute, "");
    assert TimesText(times) == ClockText(times.openHour, times.openMinute) + ("-" + closing);
    assert ("-" + closing)[1..] == closing && closing + "" == closing;
  }

  /** The ways to write a time: two digits for the hour, or one if it is below ten. */
  predicate IsClockText(s: string, hour: nat, minute: nat) {
    && hour <= 99 && minute <= 99
    && (s == ClockText(hour, minute) || (hour <= 9 && s == [Digit(hour)] + ":" + TwoDigits(minute)))
  }

  /** What is read is exactly what is written: a time in one of the two ways, and the rest. */
  lemma ClockExactly(s: string, clock: Clock)
    ensures ReadClock(s) == Some(clock)
       <==> |s| >= |clock.rest| && s[|s| - |clock.rest|..] == clock.rest
            && IsClockText(s[..|s| - |clock.rest|], clock.hour, clock.minute)
  {
    if ReadClock(s) == Some(clock) {
      ReadClockIsWritten(s);
    }
    if |s| >= |clock.rest| && s[|s| - |clock.rest|..] == clock.rest
       && IsClockText(s[..|s| - |clock.rest|], clock.hour, clock.minute) {
      assert s == s[..|s| - |clock.rest|] + clock.rest;
      WrittenClockIsRead(s[..|s| - |clock.rest|], clock.hour, clock.minute, clock.rest);
    }
  }

  lemma WrittenClockIsRead(text: string, hour: nat, minute: nat, rest: string)
    requires IsClockText(text, hour, minute)
    ensures ReadClock(text + rest) == Some(Clock(hour, minute, rest))
  {
    DigitReadsBack(hour / 10);
    DigitReadsBack(hour % 10);
    DigitReadsBack(minute / 10);
    DigitReadsBack(minute % 10);
    var s := text + rest;
    if text == ClockText(hour, minute) {
      hide Digit, IsDigit;
      assert s[..2] == TwoDigits(hour) && s[3..5] == TwoDigits(minute) && s[5..] == rest;
    } else {
      assert s[..1] == [Digit(hour)] && s[2..4] == TwoDigits(minute) && s[4..] == rest && s[1] == ':';
      assert !IsDigit(':');
    }
  }

  lemma ReadClockIsWritten(s: string)
    requires ReadClock(s).Some?
    ensures var clock := ReadClock(s).value;
      && |s| >= |clock.rest| && s[|s| - |clock.rest|..] == clock.rest
      && IsClockText(s[..|s| - |clock.rest|], clock.hour, clock.minute)
  {
    var clock := ReadClock(s).value;
    if DigitsAt(s, 0, 2) {
      DigitsAreWritten(s[..2]);
      DigitsAreWritten(s[3..5]);
      assert s[..5] == s[..2] + ":" + s[3..5];
    } else {
      DigitsAreWritten(s[2..4]);
      assert s[..4] == [Digit(clock.hour)] + ":" + s[2..4];
    }
  }

  lemma DigitsAreWritten(s: string)
    requires |s| == 2 && DigitsAt(s, 0, 2)
    ensures TwoDigits(TwoDigitValue(s)) == s
  {
  }

  /** A text is read as times exactly when it is an opening and a closing with a hyphen between, within range. */
  lemma TimesExactly(s: string, times: Times)
    ensures ReadTimes(s) == Some(times)
       <==> InRange(times) && exists opening, closing | IsClockText(opening, times.openHour, times.openMinute) &&
              IsClockText(closing, times.closeHour, times.closeMinute) :: s == opening + "-" + closing
  {
    hide ReadClock, IsClockText;
    if ReadTimes(s) == Some(times) {
      var first := ReadClock(s).value;
      ClockExactly(s, first);
      var opening, closing := s[..|s| - |first.rest|], first.rest[1..];
      ClockExactly(closing, ReadClock(closing).value);
      assert closing[..|closing|] == closing;
      assert first.rest == "-" + closing;
      assert s == opening + "-" + closing;
    }
    if InRange(times) && exists opening, closing | IsClockText(opening, times.openHour, times.openMinute) &&
         IsClockText(closing, times.closeHour, times.closeMinute) :: s == opening + "-" + closing {
      var opening, closing :|
        && IsClockText(opening, times.openHour, times.openMinute)
        && IsClockText(closing, times.closeHour, times.closeMinute)
        && s == opening + "-" + closing;
      WrittenClockIsRead(opening, times.openHour, times.openMinute, "-" + closing);
      WrittenClockIsRead(closing, times.closeHour, times.closeMinute, "");
      assert opening + ("-" + closing) == s && closing + "" == closing && ("-" + closing)[1..] == closing;
    }
  }

  // ─── Days ───

  lemma NameReadsBack(day: Weekday)
    ensures DayIndex(Lower(DAY_NAMES[day])) == Some(day)
    ensures |Lower(DAY_NAMES[day])| == 2
    ensures forall i | 0 <= i < 2 :: 'a' <= Lower(DAY_NAMES[day])[i] <= 'z'
  {
    if day == 0 { assert Lower(DAY_NAMES[day]) == "mo"; }
    else if day == 1 { assert Lower(DAY_NAMES[day]) == "tu"; }
    else if day == 2 { assert Lower(DAY_NAMES[day]) == "we"; }
    else if day == 3 { assert Lower(DAY_NAMES[day]) == "th"; }
    else if day == 4 { assert Lower(DAY_NAMES[day]) == "fr"; }
    else if day == 5 { assert Lower(DAY_NAMES[day]) == "sa"; }
    else { assert Lower(DAY_NAMES[day]) == "su"; }
  }

  /** Letters and the hyphen only: nothing that a later split would cut at. */
  predicate IsPlainChunk(s: string) {
    s != "" && forall i | 0 <= i < |s| :: 'a' <= s[i] <= 'z' || s[i] == '-'
  }

  lemma SpanReadsBack(span: Span)
    ensures ReadSpan(Lower(SpanText(span))) == Some(span)
    ensures IsPlainChunk(Lower(SpanText(span)))
  {
    var first, last := Lower(DAY_NAMES[span.first]), Lower(DAY_NAMES[span.last]);
    NameReadsBack(span.first);
    NameReadsBack(span.last);
    hide DayIndex;
    if span.first == span.last {
    } else {
      var text := Lower(SpanText(span));
      assert text == first + ['-'] + last;
      SplitAfterPiece(first, last, '-');
      SplitAfterPiece(last, "", '-');
      assert Split(text, '-') == [first] + [last];
      assert Split(text, '-')[1..] == [last];
      assert text[2] == '-';
    }
  }

  lemma {:induction false} ChunksReadBack(spans: seq<Span>)
    ensures ReadChunks(LowerEach(SpanTexts(spans))) == Some(spans)
  {
    if spans != [] {
      var chunks := LowerEach(SpanTexts(spans));
      assert chunks[1..] == LowerEach(SpanTexts(spans[1..]));
      ChunksReadBack(spans[1..]);
      SpanReadsBack(spans[0]);
      hide ReadSpan, SpanText;
      StripPadded(chunks[0]);
      assert [spans[0]] + spans[1..] == spans;
    }
  }

  lemma SpansReadBack(spans: seq<Span>)
    requires spans != []
    ensures ReadSpans(Join(SpanTexts(spans), ',')) == Some(spans)
  {
    hide ReadSpan, SpanText;
    var chunks := LowerEach(SpanTexts(spans));
    LowerJoin(SpanTexts(spans), ',');
    forall i | 0 <= i < |chunks| ensures ',' !in chunks[i] {
      SpanReadsBack(spans[i]);
    }
    SplitJoin(chunks, ',');
    ChunksReadBack(spans);
  }

  // ─── Rules ───

  /** Visible characters, and no semicolon. */
  predicate IsToken(s: string) {
    s != "" && forall i | 0 <= i < |s| :: '!' <= s[i] <= '~' && s[i] != ';'
  }

  lemma {:induction false} JoinOfTokens(pieces: seq<string>, separator: char)
    requires pieces != [] && forall i | 0 <= i < |pieces| :: IsToken(pieces[i])
    requires IsToken([separator])
    ensures IsToken(Join(pieces, separator))
  {
    if |pieces| > 1 {
      JoinOfTokens(pieces[1..], separator);
      assert [separator][0] == separator;
    }
  }

  lemma TimesAreToken(times: Times)
    requires InRange(times)
    ensures IsToken(TimesText(times)) && |TimesText(times)| == 11
  {
    ClockIsToken(times.openHour, times.openMinute);
    ClockIsToken(times.closeHour, times.closeMinute);
    hide ClockText;
  }

  lemma ClockIsToken(hour: nat, minute: nat)
    requires hour <= 99 && minute <= 99
    ensures IsToken(ClockText(hour, minute)) && |ClockText(hour, minute)| == 5
  {
  }

  lemma SpansAreToken(spans: seq<Span>)
    requires spans != []
    ensures IsToken(Join(SpanTexts(spans), ','))
  {
    forall i | 0 <= i < |spans| ensures IsToken(SpanTexts(spans)[i]) {
      SpanIsToken(spans[i]);
    }
    hide SpanText;
    assert IsToken([',']);
    JoinOfTokens(SpanTexts(spans), ',');
  }

  lemma SpanIsToken(span: Span)
    ensures IsToken(SpanText(span))
  {
    assert forall day: Weekday :: IsToken(DAY_NAMES[day]);
  }

  /** Translating a written rule gives the rule, and the text is safe inside a longer one. */
  lemma RuleReadsBack(rule: Rule)
    requires IsReadable(rule)
    ensures ReadRule(RuleText(rule)) == Some(rule)
    ensures ';' !in RuleText(rule) && |RuleText(rule)| >= 11
    ensures !IsSpace(RuleText(rule)[0]) && !IsSpace(RuleText(rule)[|RuleText(rule)| - 1])
    ensures RuleText(rule)[|RuleText(rule)| - 11..] == TimesText(rule.times)
  {
    hide ReadTimes, TimesText, ReadSpans, SpanTexts, Join;
    var times := TimesText(rule.times);
    TimesReadBack(rule.times);
    TimesAreToken(rule.times);
    FirstWord(times, "");
    if rule.spans.Some? {
      var spec := Join(SpanTexts(rule.spans.value), ',');
      SpansReadBack(rule.spans.value);
      SpansAreToken(rule.spans.value);
      FirstWord(spec, times);
      assert RuleText(rule) == spec + " " + times;
      assert RuleText(rule)[|spec| + 1..] == times;
    }
  }

  lemma {:induction false} PiecesReadBack(pieces: seq<string>, rules: seq<Rule>)
    requires |pieces| == |rules|
    requires forall i | 0 <= i < |pieces| :: Spells(pieces[i], rules[i])
    ensures ReadPieces(pieces) == Some(rules)
  {
    hide IsBlank, Strip, ReadRule;
    if pieces != [] {
      PiecesReadBack(pieces[1..], rules[1..]);
      assert Spells(pieces[0], rules[0]);
      assert [rules[0]] + rules[1..] == rules;
    }
  }

  lemma {:induction false} JoinEnds(pieces: seq<string>, separator: char)
    requires pieces != [] && forall i | 0 <= i < |pieces| :: pieces[i] != ""
    ensures var joined, last := Join(pieces, separator), pieces[|pieces| - 1];
      && |joined| >= |last| && joined[|joined| - |last|..] == last
      && joined[0] == pieces[0][0]
  {
    if |pieces| > 1 {
      JoinEnds(pieces[1..], separator);
    }
  }

  lemma PieceReadsBack(rules: seq<Rule>, i: nat)
    requires i < |rules| && forall j | 0 <= j < |rules| :: IsReadable(rules[j])
    ensures Spells(PieceTexts(rules)[i], rules[i]) && ';' !in PieceTexts(rules)[i] && |PieceTexts(rules)[i]| >= 11
    ensures PieceTexts(rules)[i][|PieceTexts(rules)[i]| - 11..] == TimesText(rules[i].times)
    ensures i == 0 ==> !IsSpace(PieceTexts(rules)[i][0])
  {
    RuleReadsBack(rules[i]);
    hide ReadRule, RuleText, TimesText;
    StripPadded(RuleText(rules[i]));
  }

  /** Any list of rules written out reads back as the same list, spans, order and repetitions included. */
  lemma RulesReadBack(rules: seq<Rule>)
    requires rules != [] && forall i | 0 <= i < |rules| :: IsReadable(rules[i])
    ensures ReadPieces(Pieces(RulesText(rules))) == Some(rules)
    ensures Strip(RulesText(rules)) == RulesText(rules) && |RulesText(rules)| >= 11
    ensures RulesText(rules)[|RulesText(rules)| - 11..] == TimesText(rules[|rules| - 1].times)
  {
    var pieces := PieceTexts(rules);
    forall i | 0 <= i < |rules|
      ensures Spells(pieces[i], rules[i]) && ';' !in pieces[i]
    {
      PieceReadsBack(rules, i);
    }
    hide Spells, TimesText, Strip, Join, Split, ReadPieces, RuleText, IsReadable;
    SplitJoin(pieces, ';');
    PiecesReadBack(pieces, rules);
    TextHasEnds(rules);
    StripPadded(RulesText(rules));
  }

  lemma TextHasEnds(rules: seq<Rule>)
    requires rules != [] && forall i | 0 <= i < |rules| :: IsReadable(rules[i])
    ensures var text := RulesText(rules);
      && |text| >= 11 && text[|text| - 11..] == TimesText(rules[|rules| - 1].times)
      && !IsSpace(text[0]) && !IsSpace(text[|text| - 1])
  {
    hide TimesText, Spells, RuleText, IsReadable, IsSpace, IsToken, PieceTexts, Join, InRange;
    var pieces, last := PieceTexts(rules), rules[|rules| - 1];
    forall i | 0 <= i < |rules| ensures pieces[i] != "" {
      PieceReadsBack(rules, i);
    }
    PieceReadsBack(rules, 0);
    PieceReadsBack(rules, |rules| - 1);
    RuleTimesInRange(last);
    TimesAreToken(last.times);
    JoinEnds(pieces, ';');
    LastOfSuffix(RulesText(rules), pieces[|rules| - 1], TimesText(last.times));
  }

  lemma LastOfSuffix(whole: string, suffix: string, times: string)
    requires |whole| >= |suffix| >= |times| == 11 && IsToken(times)
    requires whole[|whole| - |suffix|..] == suffix && suffix[|suffix| - 11..] == times
    ensures whole[|whole| - 11..] == times && !IsSpace(whole[|whole| - 1])
  {
    assert whole[|whole| - 11..] == suffix[|suffix| - 11..];
    assert whole[|whole| - 1] == times[10];
  }

  /** The texts that mean always open are too short, or end in times that are not those of a plain rule. */
  lemma PlainIsNotSpecial(text: string, rule: Rule)
    requires Strip(text) == text && |text| >= 11
    requires InRange(rule.times) && IsPlain(rule) && text[|text| - 11..] == TimesText(rule.times)
    ensures !IsSpecial(text)
  {
    hide TimesText, Strip, Folded, NamesEveryDay;
    if TimesText(rule.times) == "00:00-24:00" {
      MidnightText(rule.times);
    }
    assert "Mo-Su 00:00-24:00"[6..] == "00:00-24:00";
  }

  lemma MidnightText(times: Times)
    requires InRange(times) && TimesText(times) == "00:00-24:00"
    ensures times == Times(0, 0, 24, 0)
  {
    hide TimesText, ReadTimes;
    TimesReadBack(times);
    TimesReadBack(Times(0, 0, 24, 0));
    MidnightIsWritten();
  }

  lemma MidnightIsWritten()
    ensures TimesText(Times(0, 0, 24, 0)) == "00:00-24:00"
  {
    assert ClockText(0, 0) == "00:00" && ClockText(24, 0) == "24:00";
  }

  /**
   Writing any list of plain rules and translating it gives a place that is open exactly when one of the
   rules says so.
   */
  lemma WrittenRulesMeanThemselves(rules: seq<Rule>, day: Weekday, time: TimeOfDay)
    requires rules != [] && forall i | 0 <= i < |rules| :: IsReadable(rules[i]) && IsPlain(rules[i])
    ensures Parse(Some(RulesText(rules))) == Some(AllPeriods(rules))
    ensures OpenAt(Parse(Some(RulesText(rules))), day, time)
       <==> exists i | 0 <= i < |rules| :: Says(rules[i], day, time)
  {
    hide RulesText, ReadPieces, AllPeriods, Split, Says, Strip, TimesText, IsSpecial, OpenAt, IsPlain, IsReadable;
    RulesReadBack(rules);
    RuleTimesInRange(rules[|rules| - 1]);
    PlainIsNotSpecial(RulesText(rules), rules[|rules| - 1]);
    ParsedText(RulesText(rules), rules);
    OpenWhenSomeRuleSaysSo(rules, day, time);
  }

  lemma RuleTimesInRange(rule: Rule)
    requires IsReadable(rule)
    ensures InRange(rule.times)
  {
  }

  lemma ParsedText(text: string, rules: seq<Rule>)
    requires Strip(text) == text && text != "" && !IsSpecial(text)
    requires rules != [] && forall i | 0 <= i < |rules| :: IsReadable(rules[i])
    requires ReadPieces(Pieces(text)) == Some(rules)
    ensures Parse(Some(text)) == Some(AllPeriods(rules))
  {
    hide Strip, Split, ReadPieces, AllPeriods, IsReadable;
  }

  /** The rule written `Mo 18:00-HH:00`. */
  function LateMonday(closeHour: nat): Rule {
    Rule(Some([Span(0, 0)]), Times(18, 0, closeHour, 0))
  }

  /** "Mo 18:00-24:00" says nothing about Tuesdays, yet translates to a place that is open on Tuesday at noon. */
  lemma MidnightMisread()
    ensures ReadRule("Mo 18:00-24:00") == Some(LateMonday(24)) && !Says(LateMonday(24), 2, 720 * MINUTE)
    ensures OpenAt(Parse(Some("Mo 18:00-24:00")), 2, 720 * MINUTE)
  {
    ClockTexts();
    LateMondayIsOpen(24, "Mo 18:00-24:00", 2);
  }

  /** "Mo 18:00-02:00" ends on Tuesday at two, yet translates to a place that is open on Wednesday at noon. */
  lemma OvernightMisread()
    ensures ReadRule("Mo 18:00-02:00") == Some(LateMonday(2)) && !Says(LateMonday(2), 3, 720 * MINUTE)
    ensures OpenAt(Parse(Some("Mo 18:00-02:00")), 3, 720 * MINUTE)
  {
    ClockTexts();
    LateMondayIsOpen(2, "Mo 18:00-02:00", 3);
  }

  lemma ClockTexts()
    ensures ClockText(18, 0) == "18:00" && ClockText(24, 0) == "24:00" && ClockText(2, 0) == "02:00"
  {
  }

  /** The two closing hours above, at noon on a day that the rule does not reach. */
  lemma LateMondayIsOpen(closeHour: nat, text: string, day: Weekday)
    requires (closeHour == 24 && day == 2) || (closeHour == 2 && day == 3)
    requires text == "Mo 18:00-" + ClockText(closeHour, 0)
    ensures ReadRule(text) == Some(LateMonday(closeHour)) && !Says(LateMonday(closeHour), day, 720 * MINUTE)
    ensures OpenAt(Parse(Some(text)), day, 720 * MINUTE)
  {
    hide IsNamed, OpenAt, RuleCovers, Parse, AllPeriods, ReadRule, Says, ClockText;
    var rule := LateMonday(closeHour);
    LateMondayParses(closeHour, text);
    OnlyMonday(1);
    OnlyMonday(day);
    if closeHour == 24 {
      ClosingAtMidnight(rule, day, 720 * MINUTE);
    } else {
      OvernightOpenTooLong(rule, day, 720 * MINUTE);
    }
    OpenByRule(rule, day, 720 * MINUTE);
  }

  lemma LateMondayParses(closeHour: nat, text: string)
    requires closeHour <= 24 && text == "Mo 18:00-" + ClockText(closeHour, 0)
    ensures IsReadable(LateMonday(closeHour)) && ReadRule(text) == Some(LateMonday(closeHour))
    ensures Parse(Some(text)) == Some(AllPeriods([LateMonday(closeHour)]))
  {
    hide RuleText, RulesText, ReadPieces, AllPeriods, Split, Strip, ReadRule, TimesText, ClockText;
    var rule := LateMonday(closeHour);
    LateMondayText(closeHour);
    RuleReadsBack(rule);
    assert IsReadable([rule][0]);
    RulesReadBack([rule]);
    assert text[0] == 'M' && text[2] == ' ';
    ParsedText(text, [rule]);
  }

  lemma OnlyMonday(day: Weekday)
    ensures IsNamed(day, Some([Span(0, 0)])) <==> day == 1
  {
    assert InSpan(day, [Span(0, 0)][0]) <==> day == 1;
  }

  lemma OpenByRule(rule: Rule, day: Weekday, time: TimeOfDay)
    requires IsReadable(rule) && RuleCovers(rule, day, time)
    ensures OpenAt(Some(AllPeriods([rule])), day, time)
  {
    hide PeriodCovers, RuleCovers, AllPeriods, IsReadable;
    assert RuleCovers([rule][0], day, time);
    AllPeriodsCover([rule], day, time);
  }

  lemma LateMondayText(closeHour: nat)
    requires closeHour <= 24
    ensures IsReadable(LateMonday(closeHour))
    ensures RuleText(LateMonday(closeHour)) == "Mo 18:00-" + ClockText(closeHour, 0)
    ensures RulesText([LateMonday(closeHour)]) == RuleText(LateMonday(closeHour))
  {
    var rule := LateMonday(closeHour);
    ClockTexts();
    hide ClockText;
    assert SpanTexts([Span(0, 0)]) == ["Mo"];
    assert TimesText(rule.times) == "18:00-" + ClockText(closeHour, 0);
    assert PieceTexts([rule]) == [RuleText(rule)];
  }
}
