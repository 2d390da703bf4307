/** How the display formatters of utils/formatters.py and the validators of
    schemas/validators.py undo each other. */
module RoundTrip {
  import opened Wrappers
  import opened Text
  import opened Validators
  import opened Formatters

  /** A stored CNPJ, once formatted for display, validates back to itself. */
  lemma CnpjRoundTrip(d: string)
    requires AllDigits(d) && |d| == 14
    ensures FormatCnpj(d).Success?
    ensures |FormatCnpj(d).value| == 18
    ensures ValidateCnpj(FormatCnpj(d).value) == Success(d)
  {
    DigitsOfDigits(d);
  }

  /** A stored CPF, once formatted for display, validates back to itself
      through the CNPJ-or-CPF validator. */
  lemma CpfRoundTrip(d: string)
    requires AllDigits(d) && |d| == 11
    ensures FormatCpf(d).Success?
    ensures |FormatCpf(d).value| == 14
    ensures ValidateCnpjOrCpf(Some(FormatCpf(d).value)) == Success(Some(d))
  {
    DigitsOfDigits(d);
  }

  /** Whatever the CNPJ-or-CPF validator keeps, the lenient dispatcher
      formats with the matching mask, and validating the display gives the
      stored value back. */
  lemma CnpjOrCpfDisplayRoundTrip(v: Option<string>)
    requires ValidateCnpjOrCpf(v).Success?
    ensures var stored := ValidateCnpjOrCpf(v).value;
      ValidateCnpjOrCpf(FormatCnpjOrCpf(stored)) == Success(stored)
  {
    var stored := ValidateCnpjOrCpf(v).value;
    if stored.Some? {
      DigitsOfDigits(stored.value);
    }
  }

  /** Validating first and then formatting gives the display the raw value
      would have had: the formatter normalizes on its own. */
  lemma FormatAfterValidate(v: string)
    requires ValidateCnpj(v).Success?
    ensures FormatCnpj(ValidateCnpj(v).value) == FormatCnpj(v)
  {
    DigitsIdempotent(v);
    assert IsMask(CNPJ_MASK);
    MaskDetermines(FormatCnpj(ValidateCnpj(v).value).value, FormatCnpj(v).value, CNPJ_MASK);
  }
}
