/** The field normalizers of schemas/validators.py. Each returns the
    canonical value or fails with the `ValueError` message it would raise. */
module Validators {
  import opened Wrappers
  import opened Text
  import opened Decimal
  import opened Dates

  // ---------------------------------------------------------------------
  // validate_cnpj

  /** Keeps the digit characters of `v`, which must be exactly 14. */
  function ValidateCnpj(v: string): (r: Result<string, string>)
    ensures r.Success? <==> |Digits(v)| == 14
    ensures r.Success? ==> r.value == Digits(v)
    ensures r.Failure? ==> r.error == "CNPJ must contain exactly 14 numeric digits, received "
                                      + NatToString(|Digits(v)|)
  {
    var clean := Digits(v);
    if |clean| != 14 then
      Failure("CNPJ must contain exactly 14 numeric digits, received " + NatToString(|clean|))
    else Success(clean)
  }

  /** A validated CNPJ is a 14-digit string that validates to itself. */
  lemma ValidateCnpjIdempotent(v: string)
    requires ValidateCnpj(v).Success?
    ensures AllDigits(ValidateCnpj(v).value) && |ValidateCnpj(v).value| == 14
    ensures ValidateCnpj(ValidateCnpj(v).value) == ValidateCnpj(v)
  {
    DigitsIdempotent(v);
  }

  /** Punctuation, letters and spacing around the digits do not matter. */
  lemma ValidateCnpjIgnoresNonDigits(v: string, w: string)
    requires Digits(v) == Digits(w)
    ensures ValidateCnpj(v) == ValidateCnpj(w)
  {
  }

  // ---------------------------------------------------------------------
  // validate_cnpj_or_cpf

  /** None passes through; otherwise the digit characters, which must be
      11 (CPF) or 14 (CNPJ). */
  function ValidateCnpjOrCpf(v: Option<string>): (r: Result<Option<string>, string>)
    ensures v.None? ==> r == Success(None)
    ensures v.Some? ==> (r.Success? <==> |Digits(v.value)| in {11, 14})
    ensures v.Some? && r.Success? ==> r.value == Some(Digits(v.value))
    ensures v.Some? && r.Failure? ==>
      r.error == "CNPJ/CPF must contain exactly 11 (CPF) or 14 (CNPJ) numeric digits, received "
                 + NatToString(|Digits(v.value)|)
  {
    match v
    case None => Success(None)
    case Some(s) =>
      var clean := Digits(s);
      if |clean| != 11 && |clean| != 14 then
        Failure("CNPJ/CPF must contain exactly 11 (CPF) or 14 (CNPJ) numeric digits, received "
                + NatToString(|clean|))
      else Success(Some(clean))
  }

  lemma ValidateCnpjOrCpfIdempotent(v: Option<string>)
    requires ValidateCnpjOrCpf(v).Success?
    ensures ValidateCnpjOrCpf(ValidateCnpjOrCpf(v).value) == ValidateCnpjOrCpf(v)
  {
    if v.Some? {
      DigitsIdempotent(v.value);
    }
  }

  /** A 14-digit value is accepted by both tax-ID validators alike. */
  lemma CnpjAcceptedAsCnpjOrCpf(v: string)
    requires ValidateCnpj(v).Success?
    ensures ValidateCnpjOrCpf(Some(v)) == Success(Some(ValidateCnpj(v).value))
  {
  }

  // ---------------------------------------------------------------------
  // validate_uf

  /** None passes through; otherwise upper-case, then strip, and require
      exactly two characters. */
  function ValidateUf(v: Option<string>): (r: Result<Option<string>, string>)
    ensures v.None? ==> r == Success(None)
    ensures v.Some? ==> (r.Success? <==> |Strip(Upper(v.value))| == 2)
    ensures v.Some? && r.Success? ==> r.value == Some(Strip(Upper(v.value)))
    ensures v.Some? && r.Failure? ==> r.error == "UF must have exactly 2 characters"
  {
    match v
    case None => Success(None)
    case Some(s) =>
      var upper := Strip(Upper(s));
      if |upper| != 2 then Failure("UF must have exactly 2 characters") else Success(Some(upper))
  }

  /** A validated UF is two characters, has no lower-case letter and no
      surrounding whitespace, and validates to itself. */
  lemma ValidateUfIdempotent(v: Option<string>)
    requires ValidateUf(v).Success? && ValidateUf(v).value.Some?
    ensures var u := ValidateUf(v).value.value;
      |u| == 2 && NoLower(u) && !IsSpace(u[0]) && !IsSpace(u[1])
    ensures ValidateUf(ValidateUf(v).value) == ValidateUf(v)
  {
    var u := ValidateUf(v).value.value;
    UpperHasNoLower(v.value);
    StripKeepsNoLower(Upper(v.value));
    UpperOfNoLower(u);
    StripOfTrimmed(u);
  }

  // ---------------------------------------------------------------------
  // parse_date

  /** What `parse_date` is handed: a `date` already, or text. */
  datatype DateInput = AlreadyDate(date: CalendarDate) | DateText(text: string)

  /** "%d/%m/%Y" */
  const DMY_SLASH: Format := DayFirst('/')
  /** "%Y-%m-%d" */
  const YMD_DASH: Format := YearFirst('-')
  /** "%d-%m-%Y" */
  const DMY_DASH: Format := DayFirst('-')

  /** The formats in the order they are tried. */
  const DATE_FORMATS: seq<Format> := [DMY_SLASH, YMD_DASH, DMY_DASH]

  /** The first format of `formats` under which `s` parses, and its date. */
  function FirstMatch(formats: seq<Format>, s: string): (r: Option<CalendarDate>)
    ensures r.Some? <==> exists i :: 0 <= i < |formats| && Strptime(formats[i], s).Some?
    ensures r.Some? ==> exists i :: 0 <= i < |formats| && Strptime(formats[i], s) == r
                           && forall j :: 0 <= j < i ==> Strptime(formats[j], s).None?
  {
    if formats == [] then None
    else
      match Strptime(formats[0], s)
      case Some(d) => Some(d)
      case None =>
        var r := FirstMatch(formats[1..], s);
        assert forall i :: 1 <= i < |formats| ==> formats[i] == formats[1..][i - 1];
        if r.Some? then
          var i :| 0 <= i < |formats[1..]| && Strptime(formats[1..][i], s) == r
                   && forall j :: 0 <= j < i ==> Strptime(formats[1..][j], s).None?;
          assert Strptime(formats[i + 1], s) == r;
          r
        else r
  }

  /** A date passes through; text is parsed with the first matching format,
      and fails with its own text in the message when none matches. */
  function ParseDate(v: DateInput): (r: Result<CalendarDate, string>)
    ensures v.AlreadyDate? ==> r == Success(v.date)
    ensures v.DateText? ==>
      (r.Success? <==> exists i :: 0 <= i < |DATE_FORMATS| && Strptime(DATE_FORMATS[i], v.text).Some?)
    ensures v.DateText? && r.Success? ==>
      exists i :: 0 <= i < |DATE_FORMATS| && Strptime(DATE_FORMATS[i], v.text) == Some(r.value)
    ensures v.DateText? && r.Failure? ==> r.error == "Invalid date format: " + v.text
  {
    match v
    case AlreadyDate(d) => Success(d)
    case DateText(s) =>
      match FirstMatch(DATE_FORMATS, s)
      case Some(d) => Success(d)
      case None => Failure("Invalid date format: " + s)
  }

  /** No text matches two of the three formats: a day-first text has a one-
      or two-digit first field, a year-first text a four-digit one, and the
      two day-first formats differ in their separator. */
  lemma FormatsExclusive(s: string, i: int, j: int)
    requires 0 <= i < j < |DATE_FORMATS|
    requires MatchFrom(DATE_FORMATS[i], s, STRPTIME_DEFAULT).Some?
    ensures MatchFrom(DATE_FORMATS[j], s, STRPTIME_DEFAULT).None?
  {
    MatchFieldShape(DATE_FORMATS[i], s, STRPTIME_DEFAULT);
    if MatchFrom(DATE_FORMATS[j], s, STRPTIME_DEFAULT).Some? {
      MatchFieldShape(DATE_FORMATS[j], s, STRPTIME_DEFAULT);
      assert false;
    }
  }

  /** So the order of the formats never decides the result: whichever
      format parses the text gives the answer. */
  lemma ParseDateAnyFormat(s: string, i: int)
    requires 0 <= i < |DATE_FORMATS| && Strptime(DATE_FORMATS[i], s).Some?
    ensures ParseDate(DateText(s)) == Success(Strptime(DATE_FORMATS[i], s).value)
  {
    var r := ParseDate(DateText(s));
    var k :| 0 <= k < |DATE_FORMATS| && Strptime(DATE_FORMATS[k], s) == Some(r.value);
    if k < i {
      FormatsExclusive(s, k, i);
    } else if i < k {
      FormatsExclusive(s, i, k);
    }
  }

  /** The same calendar date written in any of the three formats parses to
      that date; so does its `isoformat()`. */
  lemma ParseDateOfRendered(d: CalendarDate)
    ensures ParseDate(DateText(Render(DMY_SLASH, d))) == Success(d)
    ensures ParseDate(DateText(Render(YMD_DASH, d))) == Success(d)
    ensures ParseDate(DateText(Render(DMY_DASH, d))) == Success(d)
    ensures ParseDate(DateText(IsoFormat(d))) == Success(d)
  {
    RenderDayFirst(d, '/');
    ParseDateAnyFormat(Render(DMY_SLASH, d), 0);
    RenderYearFirst(d, '-');
    ParseDateAnyFormat(Render(YMD_DASH, d), 1);
    RenderDayFirst(d, '-');
    ParseDateAnyFormat(Render(DMY_DASH, d), 2);
    IsoFormatIsRender(d);
  }

  /** Day-first text starts with its zero-padded day and the separator. */
  lemma DayFirstTextShape(day: nat, month: nat, year: nat, sep: char)
    requires day < 100 && month < 100 && year < 10000
    ensures var s := DayFirstText(day, month, year, sep);
      |s| == 10 && s == ZeroPad(day, 2) + s[2..] && s[2] == sep
  {
  }

  /** Text that starts with a two-digit run and a '/' matches neither of
      the dash formats. */
  lemma DashFormatsFail(s: string)
    requires DigitRun(s) == 2 && 2 < |s| && s[2] == '/'
    ensures MatchFrom(YMD_DASH, s, STRPTIME_DEFAULT).None?
    ensures MatchFrom(DMY_DASH, s, STRPTIME_DEFAULT).None?
  {
    if MatchFrom(YMD_DASH, s, STRPTIME_DEFAULT).Some? {
      MatchFieldShape(YMD_DASH, s, STRPTIME_DEFAULT);
      assert false;
    }
    if MatchFrom(DMY_DASH, s, STRPTIME_DEFAULT).Some? {
      MatchFieldShape(DMY_DASH, s, STRPTIME_DEFAULT);
      assert false;
    }
  }

  /** A day the month does not have (31/02/2024, 29/02/2023) is rejected,
      although its text fits "%d/%m/%Y": the calendar check fails and no
      other format fits. */
  lemma ImpossibleDateRejected(day: nat, month: nat, year: nat)
    requires 1 <= day <= 31 && 1 <= month <= 12 && year < 10000
    requires !IsCalendarDate(Date(year, month, day))
    ensures var s := DayFirstText(day, month, year, '/');
      ParseDate(DateText(s)) == Failure("Invalid date format: " + s)
  {
    var s := DayFirstText(day, month, year, '/');
    MatchDayFirstText(day, month, year, '/');
    assert Strptime(DMY_SLASH, s).None?;
    DayFirstTextShape(day, month, year, '/');
    DigitRunOfPrefix(ZeroPad(day, 2), s[2..]);
    DashFormatsFail(s);
    assert Strptime(YMD_DASH, s).None? && Strptime(DMY_DASH, s).None?;
    assert forall i :: 0 <= i < |DATE_FORMATS| ==> Strptime(DATE_FORMATS[i], s).None?;
  }

  /** The 31st of February 2024, written day first with '/', is rejected
      with the invalid-format message. */
  lemma FebruaryThirtyFirst()
    ensures !IsCalendarDate(Date(2024, 2, 31))
    ensures var s := DayFirstText(31, 2, 2024, '/');
      ParseDate(DateText(s)) == Failure("Invalid date format: " + s)
  {
    ImpossibleDateRejected(31, 2, 2024);
  }
}
