/** src/utils/dateUtils.ts: the `formatDate` guard and the cron describer
    `defineCron`, which turns a five-field cron expression into an English
    sentence. */
module DateUtils {
  import opened Wrappers
  import opened Text

  const NotAvailable := "N/A"
  const InvalidDate := "Invalid Date"
  const InvalidCron := "Invalid cron expression"

  // ---------------------------------------------------------------------------
  // formatDate

  /** `formatDate`: a missing or empty date shows as "N/A"; otherwise the date
      library's rendering, or "Invalid Date" when that library throws. The
      library itself (`parseISO` + `format`) is the parameter `render`, `None`
      standing for a thrown error. */
  function FormatDate(date: Option<string>, render: string -> Option<string>): (r: string)
    ensures date == None || date == Some("") ==> r == NotAvailable
    ensures date.Some? && date.value != "" && render(date.value).None? ==> r == InvalidDate
    ensures date.Some? && date.value != "" && render(date.value).Some? ==> r == render(date.value).value
  {
    match date
    case None => NotAvailable
    case Some(d) =>
      if d == "" then NotAvailable
      else match render(d)
        case None => InvalidDate
        case Some(text) => text
  }

  // ---------------------------------------------------------------------------
  // defineCron

  /** The five fields of a cron expression, in the order they are written. */
  datatype CronFields = CronFields(minute: string, hour: string, dayOfMonth: string,
                                   month: string, dayOfWeek: string)

  /** The fields an expression splits into on single spaces, or `None` when it
      does not split into exactly five. Fields are never range-checked. */
  function ParseCron(expression: string): (r: Option<CronFields>)
    ensures r.Some? <==> |Split(expression, ' ')| == 5
    ensures r.Some? ==> [r.value.minute, r.value.hour, r.value.dayOfMonth, r.value.month,
                         r.value.dayOfWeek] == Split(expression, ' ')
  {
    var parts := Split(expression, ' ');
    if |parts| != 5 then None
    else Some(CronFields(parts[0], parts[1], parts[2], parts[3], parts[4]))
  }

  function MinuteClause(minute: string): string {
    if minute == "*" then "every minute" else "at minute " + minute
  }

  function HourClause(hour: string): string {
    if hour == "*" then " of every hour" else " of hour " + hour
  }

  /** Day-of-month takes precedence over day-of-week; "every day" needs all
      three of day-of-month, month and day-of-week to be "*". */
  function DayClause(f: CronFields): string {
    if f.dayOfMonth == "*" && f.month == "*" && f.dayOfWeek == "*" then " every day"
    else if f.dayOfMonth != "*" then " on day " + f.dayOfMonth + " of the month"
    else if f.dayOfWeek != "*" then " on " + f.dayOfWeek + " of the week"
    else ""
  }

  function MonthClause(month: string): string {
    if month != "*" then " in month " + month else ""
  }

  /** The sentence for five fields, clause by clause as `defineCron` appends them. */
  function Describe(f: CronFields): string {
    "Runs " + MinuteClause(f.minute) + HourClause(f.hour) + DayClause(f) + MonthClause(f.month)
  }

  /** `defineCron`: "Invalid cron expression" unless the input splits into
      five fields, else a sentence starting "Runs ". It is never empty. */
  function DefineCron(expression: string): (r: string)
    ensures r != ""
    ensures ParseCron(expression).None? <==> r == InvalidCron
    ensures ParseCron(expression).Some? ==> StartsWith(r, "Runs ")
  {
    match ParseCron(expression)
    case None => InvalidCron
    case Some(f) => Describe(f)
  }

  /** An expression is rejected exactly when it does not hold four spaces: so
      "", "* * * *" and "* *  * * *" are rejected, while "1 2  3 4" (an empty
      third field) is described. */
  lemma CronInvalidIffNotFourSpaces(expression: string)
    ensures DefineCron(expression) == InvalidCron <==> Occurrences(expression, ' ') != 4
  {
    SplitLength(expression, ' ');
  }

  // ---------------------------------------------------------------------------
  // The sentence, word by word

  /** The same clauses as lists of space-free words. */
  function MinuteWords(minute: string): seq<string> {
    if minute == "*" then ["every", "minute"] else ["at", "minute", minute]
  }

  function HourWords(hour: string): seq<string> {
    if hour == "*" then ["of", "every", "hour"] else ["of", "hour", hour]
  }

  function DayWords(f: CronFields): seq<string> {
    if f.dayOfMonth == "*" && f.month == "*" && f.dayOfWeek == "*" then ["every", "day"]
    else if f.dayOfMonth != "*" then ["on", "day", f.dayOfMonth, "of", "the", "month"]
    else if f.dayOfWeek != "*" then ["on", f.dayOfWeek, "of", "the", "week"]
    else []
  }

  function MonthWords(month: string): seq<string> {
    if month != "*" then ["in", "month", month] else []
  }

  function SentenceWords(f: CronFields): seq<string> {
    ["Runs"] + MinuteWords(f.minute) + HourWords(f.hour) + DayWords(f) + MonthWords(f.month)
  }

  /** A clause made of words is the words joined by spaces, after a leading space. */
  function Spaced(words: seq<string>): string {
    if words == [] then "" else " " + Join(words, ' ')
  }

  lemma JoinPrefix(a: seq<string>, b: seq<string>)
    requires |a| >= 1
    ensures Join(a + b, ' ') == Join(a, ' ') + Spaced(b)
  {
    if b == [] {
      assert a + b == a;
    } else {
      JoinAppend(a, b, ' ');
    }
  }

  lemma Join3(a: string, b: string, c: string)
    ensures Join([a, b, c], ' ') == a + " " + b + " " + c
  {
    JoinCons(b, [c], ' ');
    assert [a] + [b, c] == [a, b, c];
    JoinCons(a, [b, c], ' ');
  }

  lemma MinuteClauseWords(minute: string)
    ensures "Runs " + MinuteClause(minute) == Join(["Runs"] + MinuteWords(minute), ' ')
  {
    if minute == "*" {
      Join3("Runs", "every", "minute");
    } else {
      Join3("at", "minute", minute);
      JoinCons("Runs", ["at", "minute", minute], ' ');
    }
  }

  lemma HourClauseWords(hour: string)
    ensures HourClause(hour) == Spaced(HourWords(hour))
  {
    if hour == "*" {
      Join3("of", "every", "hour");
    } else {
      Join3("of", "hour", hour);
    }
  }

  lemma MonthClauseWords(month: string)
    ensures MonthClause(month) == Spaced(MonthWords(month))
  {
    if month != "*" {
      Join3("in", "month", month);
    }
  }

  lemma OnDayOfMonthWords(dayOfMonth: string)
    ensures " on day " + dayOfMonth + " of the month"
         == Spaced(["on", "day", dayOfMonth, "of", "the", "month"])
  {
    Join3("of", "the", "month");
    assert [dayOfMonth] + ["of", "the", "month"] == [dayOfMonth, "of", "the", "month"];
    JoinCons(dayOfMonth, ["of", "the", "month"], ' ');
    assert ["day"] + [dayOfMonth, "of", "the", "month"] == ["day", dayOfMonth, "of", "the", "month"];
    JoinCons("day", [dayOfMonth, "of", "the", "month"], ' ');
    assert ["on"] + ["day", dayOfMonth, "of", "the", "month"] == ["on", "day", dayOfMonth, "of", "the", "month"];
    JoinCons("on", ["day", dayOfMonth, "of", "the", "month"], ' ');
  }

  lemma OnDayOfWeekWords(dayOfWeek: string)
    ensures " on " + dayOfWeek + " of the week" == Spaced(["on", dayOfWeek, "of", "the", "week"])
  {
    Join3("of", "the", "week");
    assert [dayOfWeek] + ["of", "the", "week"] == [dayOfWeek, "of", "the", "week"];
    JoinCons(dayOfWeek, ["of", "the", "week"], ' ');
    assert ["on"] + [dayOfWeek, "of", "the", "week"] == ["on", dayOfWeek, "of", "the", "week"];
    JoinCons("on", [dayOfWeek, "of", "the", "week"], ' ');
  }

  lemma DayClauseWords(f: CronFields)
    ensures DayClause(f) == Spaced(DayWords(f))
  {
    if f.dayOfMonth == "*" && f.month == "*" && f.dayOfWeek == "*" {
      assert ["every", "day"][1..] == ["day"];
    } else if f.dayOfMonth != "*" {
      OnDayOfMonthWords(f.dayOfMonth);
    } else if f.dayOfWeek != "*" {
      OnDayOfWeekWords(f.dayOfWeek);
    }
  }

  /** The sentence is its words joined by single spaces. */
  lemma DescribeIsJoinedWords(f: CronFields)
    ensures Describe(f) == Join(SentenceWords(f), ' ')
  {
    MinuteClauseWords(f.minute);
    HourClauseWords(f.hour);
    DayClauseWords(f);
    MonthClauseWords(f.month);
    var a := ["Runs"] + MinuteWords(f.minute);
    var b := a + HourWords(f.hour);
    var c := b + DayWords(f);
    JoinPrefix(a, HourWords(f.hour));
    JoinPrefix(b, DayWords(f));
    JoinPrefix(c, MonthWords(f.month));
  }

  predicate SpaceFree(words: seq<string>) {
    forall i :: 0 <= i < |words| ==> ' ' !in words[i]
  }

  lemma SpaceFreeAppend(a: seq<string>, b: seq<string>)
    requires SpaceFree(a) && SpaceFree(b)
    ensures SpaceFree(a + b)
  {
    forall i | 0 <= i < |a + b|
      ensures ' ' !in (a + b)[i]
    {
      if i >= |a| {
        assert (a + b)[i] == b[i - |a|];
      }
    }
  }

  lemma SentenceWordsSpaceFree(f: CronFields)
    requires ' ' !in f.minute && ' ' !in f.hour && ' ' !in f.dayOfMonth
    requires ' ' !in f.month && ' ' !in f.dayOfWeek
    ensures SpaceFree(SentenceWords(f))
  {
    var a := ["Runs"] + MinuteWords(f.minute);
    var b := a + HourWords(f.hour);
    var c := b + DayWords(f);
    SpaceFreeAppend(["Runs"], MinuteWords(f.minute));
    SpaceFreeAppend(a, HourWords(f.hour));
    SpaceFreeAppend(b, DayWords(f));
    SpaceFreeAppend(c, MonthWords(f.month));
  }

  /** Splitting a described expression on spaces gives back exactly its words:
      the fields, which hold no spaces, appear verbatim as single words. */
  lemma CronSentenceWords(expression: string)
    requires ParseCron(expression).Some?
    ensures Split(DefineCron(expression), ' ') == SentenceWords(ParseCron(expression).value)
  {
    var f := ParseCron(expression).value;
    var parts := Split(expression, ' ');
    assert [f.minute, f.hour, f.dayOfMonth, f.month, f.dayOfWeek] == parts;
    assert ' ' !in parts[0] && ' ' !in parts[1] && ' ' !in parts[2];
    assert ' ' !in parts[3] && ' ' !in parts[4];
    SentenceWordsSpaceFree(f);
    DescribeIsJoinedWords(f);
    assert DefineCron(expression) == Describe(f);
    SplitJoin(SentenceWords(f), ' ');
  }

  // ---------------------------------------------------------------------------
  // Reading a sentence back

  /** What a sentence can still say about its expression: day-of-week is
      dropped whenever day-of-month is not "*". */
  function Visible(f: CronFields): CronFields {
    f.(dayOfWeek := if f.dayOfMonth == "*" then f.dayOfWeek else "*")
  }

  function ReadMinute(w: seq<string>): Option<(string, seq<string>)> {
    if |w| >= 2 && w[0] == "every" && w[1] == "minute" then Some(("*", w[2..]))
    else if |w| >= 3 && w[0] == "at" && w[1] == "minute" then Some((w[2], w[3..]))
    else None
  }

  function ReadHour(w: seq<string>): Option<(string, seq<string>)> {
    if |w| >= 3 && w[0] == "of" && w[1] == "every" && w[2] == "hour" then Some(("*", w[3..]))
    else if |w| >= 3 && w[0] == "of" && w[1] == "hour" then Some((w[2], w[3..]))
    else None
  }

  function ReadMonth(w: seq<string>): Option<string> {
    if w == [] then Some("*")
    else if |w| == 3 && w[0] == "in" && w[1] == "month" then Some(w[2])
    else None
  }

  /** Day-of-month, month and day-of-week from the words after the hour clause. */
  function ReadDays(w: seq<string>): Option<(string, string, string)> {
    if w == ["every", "day"] then Some(("*", "*", "*"))
    else
      var (dayOfMonth, dayOfWeek, rest) :=
        if |w| >= 6 && w[0] == "on" && w[1] == "day" && w[3] == "of" && w[4] == "the" && w[5] == "month"
        then (w[2], "*", w[6..])
        else if |w| >= 5 && w[0] == "on" && w[2] == "of" && w[3] == "the" && w[4] == "week"
        then ("*", w[1], w[5..])
        else ("*", "*", w);
      match ReadMonth(rest)
      case None => None
      case Some(month) => Some((dayOfMonth, month, dayOfWeek))
  }

  function ReadWords(w: seq<string>): Option<CronFields> {
    if |w| == 0 || w[0] != "Runs" then None
    else match ReadMinute(w[1..])
      case None => None
      case Some((minute, afterMinute)) =>
        match ReadHour(afterMinute)
        case None => None
        case Some((hour, afterHour)) =>
          match ReadDays(afterHour)
          case None => None
          case Some((dayOfMonth, month, dayOfWeek)) =>
            Some(CronFields(minute, hour, dayOfMonth, month, dayOfWeek))
  }

  /** Reads a `defineCron` sentence back into the fields it mentions. */
  function ReadCronSentence(sentence: string): Option<CronFields> {
    ReadWords(Split(sentence, ' '))
  }

  lemma ReadDaysOfDayWords(f: CronFields)
    ensures ReadDays(DayWords(f) + MonthWords(f.month))
         == Some((f.dayOfMonth, f.month, Visible(f).dayOfWeek))
  {
    var d, mo := DayWords(f), MonthWords(f.month);
    if f.dayOfMonth == "*" && f.month == "*" && f.dayOfWeek == "*" {
      assert d + mo == ["every", "day"];
    } else if f.dayOfMonth != "*" {
      assert (d + mo)[6..] == mo;
    } else if f.dayOfWeek != "*" {
      assert (d + mo)[5..] == mo;
    } else {
      assert d + mo == mo;
    }
  }

  lemma ReadWordsOfSentenceWords(f: CronFields)
    ensures ReadWords(SentenceWords(f)) == Some(Visible(f))
  {
    var mw, hw, rest := MinuteWords(f.minute), HourWords(f.hour), DayWords(f) + MonthWords(f.month);
    var w := SentenceWords(f);
    assert w == ["Runs"] + (mw + (hw + rest));
    assert w[1..] == mw + (hw + rest);
    assert ReadMinute(mw + (hw + rest)) == Some((f.minute, hw + rest));
    assert ReadHour(hw + rest) == Some((f.hour, rest));
    ReadDaysOfDayWords(f);
  }

  lemma InvalidCronUnreadable()
    ensures ReadCronSentence(InvalidCron).None?
  {
    SplitFirst(InvalidCron, 7, ' ');
  }

  /** Round trip: a sentence reads back to the fields of its expression, with
      day-of-week given as "*" when day-of-month took precedence; the
      "Invalid cron expression" answer reads back as nothing. */
  lemma CronSentenceRoundTrip(expression: string)
    ensures ParseCron(expression).None? ==> ReadCronSentence(DefineCron(expression)).None?
    ensures ParseCron(expression).Some? ==>
      ReadCronSentence(DefineCron(expression)) == Some(Visible(ParseCron(expression).value))
  {
    if ParseCron(expression).Some? {
      CronSentenceWords(expression);
      ReadWordsOfSentenceWords(ParseCron(expression).value);
    } else {
      InvalidCronUnreadable();
    }
  }

  /** Two valid expressions get the same sentence exactly when they agree on
      every field the sentence shows: day-of-week only counts when
      day-of-month is "*". */
  lemma CronSameSentenceIffSameVisibleFields(e1: string, e2: string)
    requires ParseCron(e1).Some? && ParseCron(e2).Some?
    ensures DefineCron(e1) == DefineCron(e2)
        <==> Visible(ParseCron(e1).value) == Visible(ParseCron(e2).value)
  {
    var f1, f2 := ParseCron(e1).value, ParseCron(e2).value;
    CronSentenceRoundTrip(e1);
    CronSentenceRoundTrip(e2);
    if Visible(f1) == Visible(f2) {
      assert DayClause(f1) == DayClause(f2);
    }
  }

  lemma SentenceEnd(f: CronFields)
    ensures var w := SentenceWords(f);
      && |w| >= 6
      && (w[|w| - 2..] == ["every", "day"] <==>
            f.dayOfMonth == "*" && f.month == "*" && f.dayOfWeek == "*")
      && (f.month != "*" <==> w[|w| - 3..] == ["in", "month", f.month])
  {
    var p := ["Runs"] + MinuteWords(f.minute) + HourWords(f.hour);
    var w := SentenceWords(f);
    assert w == p + DayWords(f) + MonthWords(f.month);
    if f.dayOfMonth == "*" && f.month == "*" && f.dayOfWeek == "*" {
      assert w == p + ["every", "day"];
      assert w[|w| - 3..] == [p[|p| - 1], "every", "day"];
    } else if f.dayOfMonth != "*" && f.month == "*" {
      assert w == p + ["on", "day", f.dayOfMonth, "of", "the", "month"];
      assert w[|w| - 3..] == ["of", "the", "month"];
      assert w[|w| - 2..] == ["the", "month"];
    } else if f.dayOfMonth != "*" {
      assert w == (p + ["on", "day", f.dayOfMonth, "of", "the"]) + ["month", "in", "month", f.month];
      assert w[|w| - 3..] == ["in", "month", f.month];
      assert w[|w| - 2..] == ["month", f.month];
    } else if f.dayOfWeek != "*" && f.month == "*" {
      assert w == p + ["on", f.dayOfWeek, "of", "the", "week"];
      assert w[|w| - 3..] == ["of", "the", "week"];
      assert w[|w| - 2..] == ["the", "week"];
    } else if f.dayOfWeek != "*" {
      assert w == (p + ["on", f.dayOfWeek, "of", "the"]) + ["week", "in", "month", f.month];
      assert w[|w| - 3..] == ["in", "month", f.month];
      assert w[|w| - 2..] == ["month", f.month];
    } else {
      assert w == p + ["in", "month", f.month];
      assert w[|w| - 3..] == ["in", "month", f.month];
      assert w[|w| - 2..] == ["month", f.month];
    }
  }

  /** " every day" is the last clause exactly when day-of-month, month and
      day-of-week are all "*"; " in month <month>" is the last clause exactly
      when month is not "*". */
  lemma CronClosingClause(expression: string)
    requires ParseCron(expression).Some?
    ensures var f, w := ParseCron(expression).value, Split(DefineCron(expression), ' ');
      && |w| >= 6
      && (w[|w| - 2..] == ["every", "day"] <==>
            f.dayOfMonth == "*" && f.month == "*" && f.dayOfWeek == "*")
      && (f.month != "*" <==> w[|w| - 3..] == ["in", "month", f.month])
  {
    CronSentenceWords(expression);
    SentenceEnd(ParseCron(expression).value);
  }

  lemma SentenceStart(f: CronFields)
    ensures var w, k := SentenceWords(f), |MinuteWords(f.minute)| + 1;
      && |w| >= k + 3 && w[0] == "Runs"
      && (f.minute == "*" <==> w[1] == "every")
      && (f.minute != "*" ==> w[1..4] == ["at", "minute", f.minute])
      && (f.hour == "*" <==> w[k + 1] == "every")
      && (f.hour != "*" ==> w[k..k + 3] == ["of", "hour", f.hour])
  {
    var m, h := MinuteWords(f.minute), HourWords(f.hour);
    var w := SentenceWords(f);
    var rest := DayWords(f) + MonthWords(f.month);
    assert w == ["Runs"] + m + h + rest;
    assert w[1..|m| + 1] == m;
    assert w[|m| + 1..|m| + 4] == h;
  }

  /** The minute clause is "every minute" exactly for "*" and otherwise names
      the minute field verbatim; the hour clause, which follows it, likewise. */
  lemma CronMinuteAndHourClauses(expression: string)
    requires ParseCron(expression).Some?
    ensures var f, w := ParseCron(expression).value, Split(DefineCron(expression), ' ');
      var k := |MinuteWords(f.minute)| + 1;
      && |w| >= k + 3 && w[0] == "Runs"
      && (f.minute == "*" <==> w[1] == "every")
      && (f.minute != "*" ==> w[1..4] == ["at", "minute", f.minute])
      && (f.hour == "*" <==> w[k + 1] == "every")
      && (f.hour != "*" ==> w[k..k + 3] == ["of", "hour", f.hour])
  {
    CronSentenceWords(expression);
    SentenceStart(ParseCron(expression).value);
  }
}
