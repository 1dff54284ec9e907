/**
 The translator from OSM `opening_hours` strings to weekly periods.

 Reading is split from making periods: `ReadPieces` gives the rules a string spells out, `AllPeriods` the
 periods made from them. Digits are the ASCII ones.
 */
module OsmHours {
  import opened Basics
  import opened OpeningHours
  import opened Text

  /** Weekdays from `first` to `last`, counted from Monday and wrapping round the week. */
  datatype Span = Span(first: Weekday, last: Weekday)
  datatype Times = Times(openHour: nat, openMinute: nat, closeHour: nat, closeMinute: nat)
  datatype Rule = Rule(spans: Option<seq<Span>>, times: Times)

  /** The evaluator's numbers, Sunday being 0, for the days in Monday-first order. */
  const GOOGLE_DAYS: seq<int> := [1, 2, 3, 4, 5, 6, 0]
  const ALWAYS_TEXTS := ["24/7", "24/7 open", "Mo-Su 00:00-24:00"]
  const ALWAYS_OPEN := Period(Some(Mark(Some(0), Some("0000"))), None)

  // ─── Times ───

  datatype Clock = Clock(hour: nat, minute: nat, rest: string)

  predicate DigitsAt(s: string, from: nat, count: nat) {
    from + count <= |s| && forall i | from <= i < from + count :: IsDigit(s[i])
  }

  function TwoDigitValue(s: string): (v: nat)
    requires DigitsAt(s, 0, 2)
    ensures v <= 99
  {
    10 * DigitValue(s[0]) + DigitValue(s[1])
  }

  /** One or two digits, a colon, two digits, and whatever follows. */
  function ReadClock(s: string): Option<Clock> {
    if DigitsAt(s, 0, 2) && |s| >= 5 && s[2] == ':' && DigitsAt(s, 3, 2) then
      Some(Clock(TwoDigitValue(s[..2]), TwoDigitValue(s[3..5]), s[5..]))
    else if DigitsAt(s, 0, 1) && |s| >= 4 && s[1] == ':' && DigitsAt(s, 2, 2) then
      Some(Clock(DigitValue(s[0]), TwoDigitValue(s[2..4]), s[4..]))
    else None
  }

  predicate InRange(times: Times) {
    times.openHour <= 24 && times.closeHour <= 24 && times.openMinute <= 59 && times.closeMinute <= 59
  }

  function ReadTimes(s: string): Option<Times> {
    var opens := ReadClock(s);
    if opens.None? || opens.value.rest == "" || opens.value.rest[0] != '-' then None
    else
      var closes := ReadClock(opens.value.rest[1..]);
      if closes.None? || closes.value.rest != "" then None
      else
        var times := Times(opens.value.hour, opens.value.minute, closes.value.hour, closes.value.minute);
        if InRange(times) then Some(times) else None
  }

  function Digit(n: nat): char
    requires n <= 9
  {
    ('0' as int + n) as char
  }

  function TwoDigits(n: nat): string
    requires n <= 99
  {
    [Digit(n / 10), Digit(n % 10)]
  }

  function Hhmm(hour: nat, minute: nat): string
    requires hour <= 99 && minute <= 99
  {
    TwoDigits(hour) + TwoDigits(minute)
  }

  // ─── Days ───

  function DayIndex(name: string): Option<Weekday> {
    if name == "mo" then Some(0) else if name == "tu" then Some(1) else if name == "we" then Some(2)
    else if name == "th" then Some(3) else if name == "fr" then Some(4) else if name == "sa" then Some(5)
    else if name == "su" then Some(6) else None
  }

  function ReadSpan(chunk: string): Option<Span> {
    if '-' in chunk then
      var ends := Split(chunk, '-');
      var first, last := DayIndex(ends[0]), DayIndex(Join(ends[1..], '-'));
      if first.None? || last.None? then None else Some(Span(first.value, last.value))
    else
      var day := DayIndex(chunk);
      if day.None? then None else Some(Span(day.value, day.value))
  }

  function Prepend<T>(front: seq<T>, rest: Option<seq<T>>): Option<seq<T>> {
    if rest.None? then None else Some(front + rest.value)
  }

  lemma PrependLaws<T>(a: seq<T>, b: seq<T>, rest: Option<seq<T>>)
    ensures Prepend([], rest) == rest
    ensures Prepend(a, Prepend(b, rest)) == Prepend(a + b, rest)
  {
    if rest.Some? {
      assert [] + rest.value == rest.value;
      assert a + (b + rest.value) == a + b + rest.value;
    }
  }

  /** Blank chunks are passed over; one unknown chunk spoils the list. */
  function ReadChunks(chunks: seq<string>): Option<seq<Span>> {
    if chunks == [] then Some([])
    else if Strip(chunks[0]) == "" then ReadChunks(chunks[1..])
    else if ReadSpan(Strip(chunks[0])).None? then None
    else Prepend([ReadSpan(Strip(chunks[0])).value], ReadChunks(chunks[1..]))
  }

  function ReadSpans(spec: string): Option<seq<Span>> {
    var spans := ReadChunks(Split(Lower(spec), ','));
    if spans == Some([]) then None else spans
  }

  /** Monday-first days from `first` to `last`, as the evaluator's numbers. */
  function DayRange(span: Span): seq<int> {
    if span.first <= span.last then GOOGLE_DAYS[span.first..span.last + 1]
    else GOOGLE_DAYS[span.first..] + GOOGLE_DAYS[..span.last + 1]
  }

  function DaysListed(spans: seq<Span>): seq<int> {
    if spans == [] then [] else DaysListed(spans[..|spans| - 1]) + DayRange(spans[|spans| - 1])
  }

  function RuleDays(spans: Option<seq<Span>>): seq<int> {
    if spans.None? then [0, 1, 2, 3, 4, 5, 6] else Sorted(ToSet(DaysListed(spans.value)))
  }

  /** The loop over the chunks of a day specification; nothing when a chunk is unknown or no day is named. */
  method ExpandDaySpec(spec: Option<string>) returns (days: Option<seq<int>>)
    ensures spec.None? ==> days == Some(RuleDays(None))
    ensures spec.Some? ==> days == match ReadSpans(spec.value)
      case None => None
      case Some(spans) => Some(RuleDays(Some(spans)))
  {
    if spec.None? {
      return Some([0, 1, 2, 3, 4, 5, 6]);
    }
    var chunks := Split(Lower(spec.value), ',');
    var listed: seq<int> := [];
    ghost var spans: seq<Span> := [];
    PrependLaws(spans, spans, ReadChunks(chunks));
    assert chunks[0..] == chunks;
    hide Split, Lower, Strip, ReadSpan, DayRange, Sorted;
    for i := 0 to |chunks|
      invariant ReadChunks(chunks) == Prepend(spans, ReadChunks(chunks[i..]))
      invariant listed == DaysListed(spans)
    {
      assert chunks[i..][1..] == chunks[i + 1..];
      var chunk := Strip(chunks[i]);
      if chunk == "" {
        continue;
      }
      var span := ReadSpan(chunk);
      if span.None? {
        return None;
      }
      PrependLaws(spans, [span.value], ReadChunks(chunks[i + 1..]));
      spans := spans + [span.value];
      listed := listed + DayRange(span.value);
      assert spans[..|spans| - 1] + [span.value] == spans;
    }
    assert chunks[|chunks|..] == [] && spans + [] == spans;
    if listed == [] {
      SpansNameDays(spans);
      return None;
    }
    assert spans != [];
    days := Some(Sorted(ToSet(listed)));
  }

  lemma SpansNameDays(spans: seq<Span>)
    ensures DaysListed(spans) == [] <==> spans == []
  {
  }

  // ─── Rules ───

  function ReadRule(text: string): Option<Rule> {
    var parts := Words(text);
    if |parts| != 1 && |parts| != 2 then None
    else
      var times := ReadTimes(parts[|parts| - 1]);
      if times.None? then None
      else if |parts| == 1 then Some(Rule(None, times.value))
      else
        var spans := ReadSpans(parts[0]);
        if spans.None? then None else Some(Rule(Some(spans.value), times.value))
  }

  predicate IsBlank(piece: string) {
    Strip(piece) == ""
  }

  /** The rules that the pieces between semicolons spell out; nothing as soon as one piece is malformed. */
  function ReadPieces(pieces: seq<string>): Option<seq<Rule>> {
    if pieces == [] then Some([])
    else if IsBlank(pieces[0]) then ReadPieces(pieces[1..])
    else if ReadRule(Strip(pieces[0])).None? then None
    else Prepend([ReadRule(Strip(pieces[0])).value], ReadPieces(pieces[1..]))
  }

  /** Opening and closing on the same day, with the hour 24 folded to 00. */
  function Window(day: int, times: Times): Period
    requires InRange(times)
  {
    Period(Some(Mark(Some(day), Some(Hhmm(times.openHour % 24, times.openMinute)))),
           Some(Mark(Some(day), Some(Hhmm(times.closeHour % 24, times.closeMinute)))))
  }

  function Windows(days: seq<int>, times: Times): seq<Period>
    requires InRange(times)
  {
    seq(|days|, i requires 0 <= i < |days| => Window(days[i], times))
  }

  predicate IsReadable(rule: Rule) {
    InRange(rule.times) && (rule.spans.Some? ==> rule.spans.value != [])
  }

  function RulePeriods(rule: Rule): seq<Period>
    requires IsReadable(rule)
  {
    Windows(RuleDays(rule.spans), rule.times)
  }

  function AllPeriods(rules: seq<Rule>): seq<Period>
    requires forall i | 0 <= i < |rules| :: IsReadable(rules[i])
  {
    if rules == [] then [] else AllPeriods(rules[..|rules| - 1]) + RulePeriods(rules[|rules| - 1])
  }

  lemma AppendRule(rules: seq<Rule>, rule: Rule)
    requires IsReadable(rule) && forall i | 0 <= i < |rules| :: IsReadable(rules[i])
    ensures AllPeriods(rules + [rule]) == AllPeriods(rules) + RulePeriods(rule)
  {
    assert (rules + [rule])[..|rules|] == rules;
  }

  lemma RuleIsReadable(text: string)
    ensures ReadRule(text).Some? ==> IsReadable(ReadRule(text).value)
  {
  }

  lemma {:induction false} RulesAreReadable(pieces: seq<string>)
    ensures ReadPieces(pieces).Some? ==> forall i | 0 <= i < |ReadPieces(pieces).value| ::
              IsReadable(ReadPieces(pieces).value[i])
  {
    if pieces != [] {
      RulesAreReadable(pieces[1..]);
      RuleIsReadable(Strip(pieces[0]));
    }
  }

  function Parse(raw: Option<string>): Option<seq<Period>> {
    if raw.None? || IsBlank(raw.value) then None
    else if Strip(raw.value) in ALWAYS_TEXTS then Some([ALWAYS_OPEN])
    else
      var pieces := Split(Strip(raw.value), ';');
      RulesAreReadable(pieces);
      var rules := ReadPieces(pieces);
      if rules.None? || rules.value == [] then None else Some(AllPeriods(rules.value))
  }

  method ParseOsmRule(rule: string) returns (periods: Option<seq<Period>>)
    ensures ReadRule(rule).Some? ==> IsReadable(ReadRule(rule).value)
    ensures periods == match ReadRule(rule)
      case None => None
      case Some(read) => Some(RulePeriods(read))
  {
    RuleIsReadable(rule);
    hide Words, ReadTimes, ReadSpans, RuleDays, Windows, IsReadable, InRange;
    var parts := Words(rule);
    var daySpec: Option<string>, timeSpec: string;
    if |parts| == 1 {
      daySpec, timeSpec := None, parts[0];
    } else if |parts| == 2 {
      daySpec, timeSpec := Some(parts[0]), parts[1];
    } else {
      return None;
    }
    var times := ReadTimes(timeSpec);
    if times.None? {
      return None;
    }
    var days := ExpandDaySpec(daySpec);
    if days.None? {
      return None;
    }
    periods := Some(Windows(days.value, times.value));
  }

  /** The loop over the pieces between semicolons. */
  method CollectPeriods(pieces: seq<string>) returns (collected: Option<seq<Period>>)
    ensures ReadPieces(pieces).Some? ==> forall i | 0 <= i < |ReadPieces(pieces).value| ::
              IsReadable(ReadPieces(pieces).value[i])
    ensures collected == match ReadPieces(pieces)
      case None => None
      case Some(rules) => Some(AllPeriods(rules))
  {
    var periods: seq<Period> := [];
    ghost var rules: seq<Rule> := [];
    PrependLaws(rules, rules, ReadPieces(pieces));
    assert pieces[0..] == pieces;
    assert AllPeriods(rules) == [];
    hide Split, Strip, ReadRule, RulePeriods, IsReadable, AllPeriods;
    for i := 0 to |pieces|
      invariant forall j | 0 <= j < |rules| :: IsReadable(rules[j])
      invariant ReadPieces(pieces) == Prepend(rules, ReadPieces(pieces[i..]))
      invariant periods == AllPeriods(rules)
    {
      assert pieces[i..][1..] == pieces[i + 1..];
      var rule := Strip(pieces[i]);
      if rule == "" {
        continue;
      }
      var parsed := ParseOsmRule(rule);
      if parsed.None? {
        return None;
      }
      PrependLaws(rules, [ReadRule(rule).value], ReadPieces(pieces[i + 1..]));
      AppendRule(rules, ReadRule(rule).value);
      rules := rules + [ReadRule(rule).value];
      periods := periods + parsed.value;
    }
    assert pieces[|pieces|..] == [] && rules + [] == rules;
    collected := Some(periods);
  }

  method ParseOsmOpeningHours(raw: Option<string>) returns (hours: Option<seq<Period>>)
    ensures hours == Parse(raw)
  {
    assert Strip("") == "";
    hide Split, Strip, ReadPieces, AllPeriods, IsReadable;
    if raw.None? || raw.value == "" {
      return None;
    }
    var text := Strip(raw.value);
    if text == "" {
      return None;
    }
    if text in ALWAYS_TEXTS {
      return Some([ALWAYS_OPEN]);
    }
    var pieces := Split(text, ';');
    var collected := CollectPeriods(pieces);
    if collected.None? {
      return None;
    }
    RulesMakePeriods(ReadPieces(pieces).value);
    hours := if collected.value != [] then collected else None;
  }

  lemma RuleNamesADay(rule: Rule)
    requires IsReadable(rule)
    ensures RuleDays(rule.spans) != []
  {
    if rule.spans.Some? {
      SpansNameDays(rule.spans.value);
      assert DaysListed(rule.spans.value)[0] in ToSet(DaysListed(rule.spans.value));
    }
  }

  lemma RulesMakePeriods(rules: seq<Rule>)
    requires forall i | 0 <= i < |rules| :: IsReadable(rules[i])
    ensures AllPeriods(rules) == [] <==> rules == []
  {
    if rules != [] {
      RuleNamesADay(rules[|rules| - 1]);
    }
  }
}
