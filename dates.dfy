/** Calendar dates as Python's `datetime.date` has them, the part of
    `datetime.strptime` that the three accepted formats use, and
    `date.isoformat()`. */
module Dates {
  import opened Wrappers
  import opened Text
  import opened Decimal

  datatype Date = Date(year: int, month: int, day: int)

  predicate IsLeapYear(y: int) {
    y % 4 == 0 && (y % 100 != 0 || y % 400 == 0)
  }

  function DaysInMonth(y: int, m: int): (n: int)
    requires 1 <= m <= 12
    ensures 28 <= n <= 31
  {
    if m == 2 then (if IsLeapYear(y) then 29 else 28)
    else if m == 4 || m == 6 || m == 9 || m == 11 then 30
    else 31
  }

  /** The dates `datetime.date(year, month, day)` accepts: years 1 to 9999
      of the proleptic Gregorian calendar. */
  predicate IsCalendarDate(d: Date) {
    1 <= d.year <= 9999 && 1 <= d.month <= 12 && 1 <= d.day <= DaysInMonth(d.year, d.month)
  }

  type CalendarDate = d: Date | IsCalendarDate(d) witness Date(1, 1, 1)

  // ---------------------------------------------------------------------
  // Format strings

  /** One piece of a format string: `%d`, `%m`, `%Y` or a literal character. */
  datatype Directive = DayOfMonth | MonthNumber | Year4 | Literal(c: char)

  type Format = seq<Directive>

  /** strptime accepts one or two digits for `%d` and `%m`, four for `%Y`. */
  function MinWidth(d: Directive): nat {
    if d == Year4 then 4 else 1
  }

  function MaxWidth(d: Directive): nat {
    if d == Year4 then 4 else 2
  }

  /** The values the `%d` and `%m` patterns admit (01-31, 01-12). */
  predicate InRange(d: Directive, v: nat) {
    match d
    case DayOfMonth => 1 <= v <= 31
    case MonthNumber => 1 <= v <= 12
    case _ => true
  }

  function Store(acc: Date, d: Directive, v: int): Date {
    match d
    case DayOfMonth => acc.(day := v)
    case MonthNumber => acc.(month := v)
    case Year4 => acc.(year := v)
    case Literal(_) => acc
  }

  /** The fields strptime starts from before reading any directive. */
  const STRPTIME_DEFAULT := Date(1900, 1, 1)

  /** Matches the whole of `s` against `fmt`, collecting the numeric fields
      into `acc`. A numeric field reads the maximal run of digits and must
      have an admitted width and value; a literal must be present as is;
      nothing may remain at the end. */
  function MatchFrom(fmt: Format, s: string, acc: Date): Option<Date>
    decreases |fmt|
  {
    if fmt == [] then (if s == [] then Some(acc) else None)
    else if fmt[0].Literal? then
      if s != [] && s[0] == fmt[0].c then MatchFrom(fmt[1..], s[1..], acc) else None
    else
      var n := DigitRun(s);
      if MinWidth(fmt[0]) <= n <= MaxWidth(fmt[0]) && InRange(fmt[0], ValueOf(s[..n]))
      then MatchFrom(fmt[1..], s[n..], Store(acc, fmt[0], ValueOf(s[..n])))
      else None
  }

  /** `datetime.strptime(s, fmt).date()`: a textual match followed by the
      calendar check of `date(...)`; either failing is a `ValueError`. */
  function Strptime(fmt: Format, s: string): (r: Option<CalendarDate>)
    ensures r.Some? ==> MatchFrom(fmt, s, STRPTIME_DEFAULT) == Some(r.value)
    ensures r.None? ==> MatchFrom(fmt, s, STRPTIME_DEFAULT).None? || !IsCalendarDate(MatchFrom(fmt, s, STRPTIME_DEFAULT).value)
  {
    match MatchFrom(fmt, s, STRPTIME_DEFAULT)
    case Some(d) => if IsCalendarDate(d) then Some(d) else None
    case None => None
  }

  // ---------------------------------------------------------------------
  // Step lemmas for MatchFrom

  lemma MatchLiteralStep(fmt: Format, c: char, rest: string, acc: Date)
    requires fmt != [] && fmt[0] == Literal(c)
    ensures MatchFrom(fmt, [c] + rest, acc) == MatchFrom(fmt[1..], rest, acc)
  {
    assert ([c] + rest)[1..] == rest;
  }

  lemma MatchFieldStep(fmt: Format, a: string, rest: string, acc: Date)
    requires fmt != [] && !fmt[0].Literal?
    requires AllDigits(a) && (rest == [] || !IsDigit(rest[0]))
    requires MinWidth(fmt[0]) <= |a| <= MaxWidth(fmt[0]) && InRange(fmt[0], ValueOf(a))
    ensures MatchFrom(fmt, a + rest, acc) == MatchFrom(fmt[1..], rest, Store(acc, fmt[0], ValueOf(a)))
  {
    DigitRunOfPrefix(a, rest);
    assert (a + rest)[..|a|] == a;
    assert (a + rest)[|a|..] == rest;
  }

  /** A successful match of a format that starts with a numeric field read
      a digit run of admitted width, and the run is followed by what the
      next directive asks for. */
  lemma MatchFieldShape(fmt: Format, s: string, acc: Date)
    requires |fmt| >= 2 && !fmt[0].Literal? && fmt[1].Literal?
    requires MatchFrom(fmt, s, acc).Some?
    ensures MinWidth(fmt[0]) <= DigitRun(s) <= MaxWidth(fmt[0])
    ensures DigitRun(s) < |s| && s[DigitRun(s)] == fmt[1].c
  {
    var n := DigitRun(s);
    var next := Store(acc, fmt[0], ValueOf(s[..n]));
    assert MatchFrom(fmt[1..], s[n..], next).Some?;
    assert fmt[1..][0] == fmt[1];
  }

  // ---------------------------------------------------------------------
  // Rendering a date in a format (zero-padded), and isoformat

  function RenderDirective(d: Directive, date: CalendarDate): (r: string)
  {
    match d
    case DayOfMonth => ZeroPad(date.day, 2)
    case MonthNumber => ZeroPad(date.month, 2)
    case Year4 => ZeroPad(date.year, 4)
    case Literal(c) => [c]
  }

  /** `date.strftime(fmt)` for formats built from the directives above. */
  function Render(fmt: Format, date: CalendarDate): (r: string)
  {
    if fmt == [] then [] else RenderDirective(fmt[0], date) + Render(fmt[1..], date)
  }

  lemma AppendAssoc(a: string, b: string, c: string)
    ensures a + (b + c) == a + b + c
  {
  }

  /** Render of a five-directive format, spelled out. */
  lemma RenderUnfold(f: Format, d: CalendarDate)
    requires |f| == 5
    ensures Render(f, d) == RenderDirective(f[0], d) + RenderDirective(f[1], d) + RenderDirective(f[2], d)
                            + RenderDirective(f[3], d) + RenderDirective(f[4], d)
  {
    var r0, r1, r2, r3, r4 := RenderDirective(f[0], d), RenderDirective(f[1], d), RenderDirective(f[2], d),
                              RenderDirective(f[3], d), RenderDirective(f[4], d);
    assert f[4..][1..] == [];
    assert Render(f[4..], d) == r4 by {
      assert r4 + [] == r4;
    }
    assert f[3..][1..] == f[4..];
    assert Render(f[3..], d) == r3 + r4;
    assert f[2..][1..] == f[3..];
    assert Render(f[2..], d) == r2 + r3 + r4 by {
      AppendAssoc(r2, r3, r4);
    }
    assert f[1..][1..] == f[2..];
    assert Render(f[1..], d) == r1 + r2 + r3 + r4 by {
      AppendAssoc(r1, r2 + r3, r4);
      AppendAssoc(r1, r2, r3);
    }
    assert Render(f, d) == r0 + r1 + r2 + r3 + r4 by {
      AppendAssoc(r0, r1 + r2 + r3, r4);
      AppendAssoc(r0, r1 + r2, r3);
      AppendAssoc(r0, r1, r2);
    }
  }

  const ISO_FORMAT: Format := YearFirst('-')

  /** `date.isoformat()`: YYYY-MM-DD. */
  function IsoFormat(d: CalendarDate): (r: string)
    ensures |r| == 10 && r[4] == '-' && r[7] == '-'
    ensures AllDigits(r[..4]) && ValueOf(r[..4]) == d.year
    ensures AllDigits(r[5..7]) && ValueOf(r[5..7]) == d.month
    ensures AllDigits(r[8..]) && ValueOf(r[8..]) == d.day
  {
    var y, m, dd := ZeroPad(d.year, 4), ZeroPad(d.month, 2), ZeroPad(d.day, 2);
    assert (y + "-" + m + "-" + dd)[..4] == y;
    assert (y + "-" + m + "-" + dd)[5..7] == m;
    assert (y + "-" + m + "-" + dd)[8..] == dd;
    y + "-" + m + "-" + dd
  }

  lemma IsoFormatIsRender(d: CalendarDate)
    ensures IsoFormat(d) == Render(ISO_FORMAT, d)
  {
    RenderUnfold(ISO_FORMAT, d);
  }

  /** The day-first and year-first formats with separator `sep`. */
  function DayFirst(sep: char): Format {
    [DayOfMonth, Literal(sep), MonthNumber, Literal(sep), Year4]
  }

  function YearFirst(sep: char): Format {
    [Year4, Literal(sep), MonthNumber, Literal(sep), DayOfMonth]
  }

  /** Text with a two-digit day, a two-digit month and a four-digit year,
      day first ("31/02/2024") or year first ("2024-02-31"). */
  function DayFirstText(day: nat, month: nat, year: nat, sep: char): string
    requires day < 100 && month < 100 && year < 10000
  {
    ZeroPad(day, 2) + [sep] + ZeroPad(month, 2) + [sep] + ZeroPad(year, 4)
  }

  function YearFirstText(day: nat, month: nat, year: nat, sep: char): string
    requires day < 100 && month < 100 && year < 10000
  {
    ZeroPad(year, 4) + [sep] + ZeroPad(month, 2) + [sep] + ZeroPad(day, 2)
  }

  /** Such text matches its format and yields its three fields, whether or
      not they make a calendar date. */
  lemma MatchDayFirstText(day: nat, month: nat, year: nat, sep: char)
    requires 1 <= day <= 31 && 1 <= month <= 12 && year < 10000 && !IsDigit(sep)
    ensures MatchFrom(DayFirst(sep), DayFirstText(day, month, year, sep), STRPTIME_DEFAULT)
            == Some(Date(year, month, day))
  {
    var f := DayFirst(sep);
    var dd, mm, yy := ZeroPad(day, 2), ZeroPad(month, 2), ZeroPad(year, 4);
    assert DayFirstText(day, month, year, sep) == dd + ([sep] + (mm + ([sep] + (yy + []))));
    MatchFieldStep(f, dd, [sep] + (mm + ([sep] + (yy + []))), STRPTIME_DEFAULT);
    var a1 := STRPTIME_DEFAULT.(day := day);
    MatchLiteralStep(f[1..], sep, mm + ([sep] + (yy + [])), a1);
    assert f[1..][1..] == f[2..];
    MatchFieldStep(f[2..], mm, [sep] + (yy + []), a1);
    var a2 := a1.(month := month);
    assert f[2..][1..] == f[3..];
    MatchLiteralStep(f[3..], sep, yy + [], a2);
    MatchFieldStep(f[4..], yy, [], a2);
    assert f[4..][1..] == [];
  }

  lemma MatchYearFirstText(day: nat, month: nat, year: nat, sep: char)
    requires 1 <= day <= 31 && 1 <= month <= 12 && year < 10000 && !IsDigit(sep)
    ensures MatchFrom(YearFirst(sep), YearFirstText(day, month, year, sep), STRPTIME_DEFAULT)
            == Some(Date(year, month, day))
  {
    var f := YearFirst(sep);
    var dd, mm, yy := ZeroPad(day, 2), ZeroPad(month, 2), ZeroPad(year, 4);
    assert YearFirstText(day, month, year, sep) == yy + ([sep] + (mm + ([sep] + (dd + []))));
    MatchFieldStep(f, yy, [sep] + (mm + ([sep] + (dd + []))), STRPTIME_DEFAULT);
    var a1 := STRPTIME_DEFAULT.(year := year);
    MatchLiteralStep(f[1..], sep, mm + ([sep] + (dd + [])), a1);
    assert f[1..][1..] == f[2..];
    MatchFieldStep(f[2..], mm, [sep] + (dd + []), a1);
    var a2 := a1.(month := month);
    assert f[2..][1..] == f[3..];
    MatchLiteralStep(f[3..], sep, dd + [], a2);
    MatchFieldStep(f[4..], dd, [], a2);
    assert f[4..][1..] == [];
  }

  /** Rendering a date in these formats gives exactly that text, and the
      text parses back to the date. */
  lemma RenderDayFirst(d: CalendarDate, sep: char)
    requires !IsDigit(sep)
    ensures Render(DayFirst(sep), d) == DayFirstText(d.day, d.month, d.year, sep)
    ensures Strptime(DayFirst(sep), Render(DayFirst(sep), d)) == Some(d)
  {
    RenderUnfold(DayFirst(sep), d);
    MatchDayFirstText(d.day, d.month, d.year, sep);
  }

  lemma RenderYearFirst(d: CalendarDate, sep: char)
    requires !IsDigit(sep)
    ensures Render(YearFirst(sep), d) == YearFirstText(d.day, d.month, d.year, sep)
    ensures Strptime(YearFirst(sep), Render(YearFirst(sep), d)) == Some(d)
  {
    RenderUnfold(YearFirst(sep), d);
    MatchYearFirstText(d.day, d.month, d.year, sep);
  }
}
