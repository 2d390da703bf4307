/** The annotated field types of schemas/types.py: each pairs a normalizer
    with the constraints the schema library checks, and turns one raw value
    of the candidate mapping into a field value or a failure reason. */
module FieldTypes {
  import opened Wrappers
  import opened Text
  import opened Decimal
  import opened Dates
  import opened Validators

  /** A raw value in the mapping the language model proposes. Money is a
      `real`; a present key may also hold JSON null. */
  datatype RawValue = Str(s: string) | Num(x: real) | DateValue(d: CalendarDate) | Null

  const NOT_A_STRING := "Input should be a valid string"
  const NOT_A_NUMBER := "Input should be a valid number"
  const NOT_A_DATE := "Input should be a valid date"
  const NEGATIVE := "Input should be greater than or equal to 0"

  /** How a `ValueError` raised inside a validator is reported. */
  function ValueErrorReason(msg: string): string {
    "Value error, " + msg
  }

  function TooShort(n: nat): string {
    "String should have at least " + NatToString(n) + " characters"
  }

  function TooLong(n: nat): string {
    "String should have at most " + NatToString(n) + " characters"
  }

  /** A plain `str` field: stored as given. */
  function CheckText(v: RawValue): (r: Result<string, string>)
    ensures r.Success? <==> v.Str?
    ensures r.Success? ==> r.value == v.s
    ensures r.Failure? ==> r.error == NOT_A_STRING
  {
    if v.Str? then Success(v.s) else Failure(NOT_A_STRING)
  }

  /** A `str | None` field: stored as given. */
  function CheckOptionalText(v: RawValue): (r: Result<Option<string>, string>)
    ensures r.Success? <==> v.Str? || v.Null?
    ensures v.Null? ==> r == Success(None)
    ensures v.Str? ==> r == Success(Some(v.s))
  {
    match v
    case Str(s) => Success(Some(s))
    case Null => Success(None)
    case _ => Failure(NOT_A_STRING)
  }

  /** CNPJ: a string of 14 to 18 characters, then `validate_cnpj`. */
  function CheckCnpj(v: RawValue): (r: Result<string, string>)
    ensures r.Success? <==> v.Str? && 14 <= |v.s| <= 18 && |Digits(v.s)| == 14
    ensures r.Success? ==> r.value == Digits(v.s) && AllDigits(r.value) && |r.value| == 14
    ensures v.Str? && 14 <= |v.s| <= 18 && r.Failure? ==> r.error == ValueErrorReason(ValidateCnpj(v.s).error)
  {
    match v
    case Str(s) =>
      if |s| < 14 then Failure(TooShort(14))
      else if |s| > 18 then Failure(TooLong(18))
      else
        (match ValidateCnpj(s)
         case Success(c) => Success(c)
         case Failure(e) => Failure(ValueErrorReason(e)))
    case _ => Failure(NOT_A_STRING)
  }

  /** The declared 14..18 bound holds of the raw text only: once validated
      the value is always 14 characters, so the bound says nothing more. */
  lemma CnpjBoundVacuousAfterValidation(v: RawValue)
    requires CheckCnpj(v).Success?
    ensures 14 <= |CheckCnpj(v).value| <= 18
    ensures CheckCnpj(Str(CheckCnpj(v).value)) == CheckCnpj(v)
  {
    DigitsIdempotent(v.s);
  }

  /** CNPJOrCPF: `validate_cnpj_or_cpf` runs before the `str | None` check;
      None is the default. */
  function CheckCnpjOrCpf(v: RawValue): (r: Result<Option<string>, string>)
    ensures v.Null? ==> r == Success(None)
    ensures r.Success? <==> v.Null? || (v.Str? && |Digits(v.s)| in {11, 14})
    ensures v.Str? && r.Success? ==> r.value == Some(Digits(v.s))
    ensures r.Success? && r.value.Some? ==> AllDigits(r.value.value) && |r.value.value| in {11, 14}
  {
    match v
    case Null => Success(None)
    case Str(s) =>
      (match ValidateCnpjOrCpf(Some(s))
       case Success(c) => Success(c)
       case Failure(e) => Failure(ValueErrorReason(e)))
    case _ => Failure(NOT_A_STRING)
  }

  /** UF: at most 2 characters as given, then `validate_uf`; None is the
      default. */
  function CheckUf(v: RawValue): (r: Result<Option<string>, string>)
    ensures v.Null? ==> r == Success(None)
    ensures r.Success? <==> v.Null? || (v.Str? && |v.s| <= 2 && |Strip(Upper(v.s))| == 2)
    ensures v.Str? && r.Success? ==> r.value == Some(Strip(Upper(v.s)))
    ensures v.Str? && |v.s| > 2 ==> r == Failure(TooLong(2))
  {
    match v
    case Null => Success(None)
    case Str(s) =>
      if |s| > 2 then Failure(TooLong(2))
      else
        (match ValidateUf(Some(s))
         case Success(u) => Success(u)
         case Failure(e) => Failure(ValueErrorReason(e)))
    case _ => Failure(NOT_A_STRING)
  }

  /** A stored UF is two upper-case-or-other characters without surrounding
      whitespace, so `max_length=2` holds of it too. */
  lemma UfCanonical(v: RawValue)
    requires CheckUf(v).Success? && CheckUf(v).value.Some?
    ensures var u := CheckUf(v).value.value;
      |u| == 2 && NoLower(u) && !IsSpace(u[0]) && !IsSpace(u[1])
  {
    ValidateUfIdempotent(Some(v.s));
  }

  /** InvoiceDate: `parse_date` runs before the `date` check, so a date and
      the three textual formats are all accepted. */
  function CheckInvoiceDate(v: RawValue): (r: Result<CalendarDate, string>)
    ensures v.DateValue? ==> r == Success(v.d)
    ensures v.Str? ==> (r.Success? <==> ParseDate(DateText(v.s)).Success?)
    ensures v.Str? && r.Success? ==> Success(r.value) == ParseDate(DateText(v.s))
    ensures v.Num? || v.Null? ==> r.Failure?
  {
    match v
    case DateValue(d) => ParseDate(AlreadyDate(d))
    case Str(s) =>
      (match ParseDate(DateText(s))
       case Success(d) => Success(d)
       case Failure(e) => Failure(ValueErrorReason(e)))
    case _ => Failure(NOT_A_DATE)
  }

  /** Currency: a number that is at least 0. */
  function CheckCurrency(v: RawValue): (r: Result<real, string>)
    ensures r.Success? <==> v.Num? && v.x >= 0.0
    ensures r.Success? ==> r.value == v.x
    ensures v.Num? && v.x < 0.0 ==> r == Failure(NEGATIVE)
  {
    match v
    case Num(x) => if x >= 0.0 then Success(x) else Failure(NEGATIVE)
    case _ => Failure(NOT_A_NUMBER)
  }

  /** CurrencyOptional: None (the default) or a number that is at least 0. */
  function CheckCurrencyOptional(v: RawValue): (r: Result<Option<real>, string>)
    ensures r.Success? <==> v.Null? || (v.Num? && v.x >= 0.0)
    ensures v.Null? ==> r == Success(None)
    ensures v.Num? && r.Success? ==> r.value == Some(v.x)
  {
    match v
    case Null => Success(None)
    case Num(x) => if x >= 0.0 then Success(Some(x)) else Failure(NEGATIVE)
    case _ => Failure(NOT_A_NUMBER)
  }
}
