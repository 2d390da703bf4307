/** The display formatters of utils/formatters.py. They render canonical
    values for people; only the tax-ID formatters can fail. */
module Formatters {
  import opened Wrappers
  import opened Text
  import opened Decimal

  // ---------------------------------------------------------------------
  // Masks: 'N' stands for a digit, every other character is punctuation.

  const CNPJ_MASK := "NN.NNN.NNN/NNNN-NN"
  const CPF_MASK := "NNN.NNN.NNN-NN"

  /** `out` has the layout of `mask`: a digit where the mask has 'N', the
      mask's own character everywhere else. */
  predicate FitsMask(out: string, mask: string) {
    |out| == |mask| &&
    forall i :: 0 <= i < |mask| ==> if mask[i] == 'N' then IsDigit(out[i]) else out[i] == mask[i]
  }

  /** The punctuation of a mask is never a digit. */
  predicate IsMask(mask: string) {
    forall i :: 0 <= i < |mask| ==> !IsDigit(mask[i])
  }

  lemma FitsMaskAppend(a: string, m: string, b: string, n: string)
    requires FitsMask(a, m) && FitsMask(b, n)
    ensures FitsMask(a + b, m + n)
  {
    forall i | 0 <= i < |m + n|
      ensures if (m + n)[i] == 'N' then IsDigit((a + b)[i]) else (a + b)[i] == (m + n)[i]
    {
      if i >= |m| {
        assert (m + n)[i] == n[i - |m|] && (a + b)[i] == b[i - |m|];
      }
    }
  }

  /** A string that fits a mask is determined by the mask and its digits:
      two such strings with the same digits are equal. */
  lemma {:induction false} MaskDetermines(a: string, b: string, mask: string)
    requires IsMask(mask) && FitsMask(a, mask) && FitsMask(b, mask)
    requires Digits(a) == Digits(b)
    ensures a == b
  {
    if mask != [] {
      assert FitsMask(a[1..], mask[1..]) by {
        forall i | 0 <= i < |mask[1..]|
          ensures if mask[1..][i] == 'N' then IsDigit(a[1..][i]) else a[1..][i] == mask[1..][i]
        {
          assert mask[1..][i] == mask[i + 1];
        }
      }
      assert FitsMask(b[1..], mask[1..]) by {
        forall i | 0 <= i < |mask[1..]|
          ensures if mask[1..][i] == 'N' then IsDigit(b[1..][i]) else b[1..][i] == mask[1..][i]
        {
          assert mask[1..][i] == mask[i + 1];
        }
      }
      assert IsMask(mask[1..]) by {
        forall i | 0 <= i < |mask[1..]| ensures !IsDigit(mask[1..][i]) {
          assert mask[1..][i] == mask[i + 1];
        }
      }
      if mask[0] == 'N' {
        assert Digits(a) == [a[0]] + Digits(a[1..]);
        assert Digits(b) == [b[0]] + Digits(b[1..]);
        assert a[0] == Digits(a)[0] == Digits(b)[0] == b[0];
        assert Digits(a[1..]) == Digits(a)[1..];
        assert Digits(b[1..]) == Digits(b)[1..];
      } else {
        assert !IsDigit(a[0]) && !IsDigit(b[0]);
        assert Digits(a) == Digits(a[1..]);
        assert Digits(b) == Digits(b[1..]);
      }
      MaskDetermines(a[1..], b[1..], mask[1..]);
      assert a == [a[0]] + a[1..];
      assert b == [b[0]] + b[1..];
    }
  }

  /** Digits laid into consecutive 'N' slots, separated by punctuation. */
  lemma DigitGroup(g: string, slots: string)
    requires AllDigits(g) && |g| == |slots| && forall i :: 0 <= i < |slots| ==> slots[i] == 'N'
    ensures FitsMask(g, slots) && Digits(g) == g
  {
    DigitsOfDigits(g);
  }

  lemma Punctuation(p: char)
    requires !IsDigit(p) && p != 'N'
    ensures FitsMask([p], [p]) && Digits([p]) == []
  {
  }

  // ---------------------------------------------------------------------
  // format_cnpj, format_cpf

  lemma CnpjLayout(c: string)
    requires AllDigits(c) && |c| == 14
    ensures var out := c[..2] + "." + c[2..5] + "." + c[5..8] + "/" + c[8..12] + "-" + c[12..];
      FitsMask(out, CNPJ_MASK) && Digits(out) == c
  {
    CnpjFits(c);
    CnpjDigits(c);
  }

  /** A separator and a group of digits extend a fitting prefix to the
      mask extended by the same separator and as many slots. */
  lemma FitsStep(o: string, k: string, p: char, g: string, slots: string)
    requires FitsMask(o, k) && !IsDigit(p) && p != 'N'
    requires AllDigits(g) && |g| == |slots| && forall i :: 0 <= i < |slots| ==> slots[i] == 'N'
    ensures FitsMask(o + [p] + g, k + [p] + slots)
  {
    Punctuation(p);
    FitsMaskAppend(o, k, [p], [p]);
    DigitGroup(g, slots);
    FitsMaskAppend(o + [p], k + [p], g, slots);
  }

  lemma CnpjFits(c: string)
    requires AllDigits(c) && |c| == 14
    ensures FitsMask(c[..2] + "." + c[2..5] + "." + c[5..8] + "/" + c[8..12] + "-" + c[12..], CNPJ_MASK)
  {
    var g1, g2, g3, g4, g5 := c[..2], c[2..5], c[5..8], c[8..12], c[12..];
    DigitGroup(g1, "NN");
    FitsStep(g1, "NN", '.', g2, "NNN");
    var o2, k2 := g1 + "." + g2, "NN" + "." + "NNN";
    FitsStep(o2, k2, '.', g3, "NNN");
    var o3, k3 := o2 + "." + g3, k2 + "." + "NNN";
    FitsStep(o3, k3, '/', g4, "NNNN");
    var o4, k4 := o3 + "/" + g4, k3 + "/" + "NNNN";
    FitsStep(o4, k4, '-', g5, "NN");
    assert k4 + "-" + "NN" == CNPJ_MASK;
  }

  lemma CpfFits(c: string)
    requires AllDigits(c) && |c| == 11
    ensures FitsMask(c[..3] + "." + c[3..6] + "." + c[6..9] + "-" + c[9..], CPF_MASK)
  {
    var g1, g2, g3, g4 := c[..3], c[3..6], c[6..9], c[9..];
    DigitGroup(g1, "NNN");
    FitsStep(g1, "NNN", '.', g2, "NNN");
    var o2, k2 := g1 + "." + g2, "NNN" + "." + "NNN";
    FitsStep(o2, k2, '.', g3, "NNN");
    var o3, k3 := o2 + "." + g3, k2 + "." + "NNN";
    FitsStep(o3, k3, '-', g4, "NN");
    assert k3 + "-" + "NN" == CPF_MASK;
  }

  /** A separator and a group of digits add exactly that group. */
  lemma DigitsStep(o: string, p: char, g: string)
    requires !IsDigit(p) && AllDigits(g)
    ensures Digits(o + [p] + g) == Digits(o) + g
  {
    DigitsAppend(o, [p]);
    DigitsAppend(o + [p], g);
    DigitsOfDigits(g);
  }

  lemma CnpjDigits(c: string)
    requires AllDigits(c) && |c| == 14
    ensures Digits(c[..2] + "." + c[2..5] + "." + c[5..8] + "/" + c[8..12] + "-" + c[12..]) == c
  {
    var g1, g2, g3, g4, g5 := c[..2], c[2..5], c[5..8], c[8..12], c[12..];
    DigitsOfDigits(g1);
    var o2 := g1 + "." + g2;
    DigitsStep(g1, '.', g2);
    var o3 := o2 + "." + g3;
    DigitsStep(o2, '.', g3);
    var o4 := o3 + "/" + g4;
    DigitsStep(o3, '/', g4);
    DigitsStep(o4, '-', g5);
    assert g1 + g2 + g3 + g4 + g5 == c;
  }

  lemma CpfLayout(c: string)
    requires AllDigits(c) && |c| == 11
    ensures var out := c[..3] + "." + c[3..6] + "." + c[6..9] + "-" + c[9..];
      FitsMask(out, CPF_MASK) && Digits(out) == c
  {
    CpfFits(c);
    CpfDigits(c);
  }

  lemma CpfDigits(c: string)
    requires AllDigits(c) && |c| == 11
    ensures Digits(c[..3] + "." + c[3..6] + "." + c[6..9] + "-" + c[9..]) == c
  {
    var g1, g2, g3, g4 := c[..3], c[3..6], c[6..9], c[9..];
    DigitsOfDigits(g1);
    var o2 := g1 + "." + g2;
    DigitsStep(g1, '.', g2);
    var o3 := o2 + "." + g3;
    DigitsStep(o2, '.', g3);
    DigitsStep(o3, '-', g4);
    assert g1 + g2 + g3 + g4 == c;
  }

  /** XX.XXX.XXX/XXXX-XX from the 14 digits of `cnpj`; any other digit
      count is an error. The result re-strips to the same digits. */
  function FormatCnpj(cnpj: string): (r: Result<string, string>)
    ensures r.Success? <==> |Digits(cnpj)| == 14
    ensures r.Success? ==> FitsMask(r.value, CNPJ_MASK) && Digits(r.value) == Digits(cnpj)
    ensures r.Failure? ==> r.error == "CNPJ must have 14 digits, received " + NatToString(|Digits(cnpj)|)
  {
    var c := Digits(cnpj);
    if |c| != 14 then Failure("CNPJ must have 14 digits, received " + NatToString(|c|))
    else
      CnpjLayout(c);
      Success(c[..2] + "." + c[2..5] + "." + c[5..8] + "/" + c[8..12] + "-" + c[12..])
  }

  /** XXX.XXX.XXX-XX from the 11 digits of `cpf`; any other digit count is
      an error. The result re-strips to the same digits. */
  function FormatCpf(cpf: string): (r: Result<string, string>)
    ensures r.Success? <==> |Digits(cpf)| == 11
    ensures r.Success? ==> FitsMask(r.value, CPF_MASK) && Digits(r.value) == Digits(cpf)
    ensures r.Failure? ==> r.error == "CPF must have 11 digits, received " + NatToString(|Digits(cpf)|)
  {
    var c := Digits(cpf);
    if |c| != 11 then Failure("CPF must have 11 digits, received " + NatToString(|c|))
    else
      CpfLayout(c);
      Success(c[..3] + "." + c[3..6] + "." + c[6..9] + "-" + c[9..])
  }

  // ---------------------------------------------------------------------
  // format_cnpj_or_cpf

  /** The lenient dispatcher: None stays None, 14 digits are formatted as a
      CNPJ, 11 as a CPF, and any other value is returned as it was given. */
  function FormatCnpjOrCpf(value: Option<string>): (r: Option<string>)
    ensures value.None? ==> r.None?
    ensures value.Some? && |Digits(value.value)| == 14 ==>
      r.Some? && FitsMask(r.value, CNPJ_MASK) && Digits(r.value) == Digits(value.value)
    ensures value.Some? && |Digits(value.value)| == 11 ==>
      r.Some? && FitsMask(r.value, CPF_MASK) && Digits(r.value) == Digits(value.value)
    ensures value.Some? && |Digits(value.value)| != 11 && |Digits(value.value)| != 14 ==> r == value
  {
    match value
    case None => None
    case Some(v) =>
      var clean := Digits(v);
      DigitsIdempotent(v);
      if |clean| == 14 then Some(FormatCnpj(clean).value)
      else if |clean| == 11 then Some(FormatCpf(clean).value)
      else value
  }

  /** Handing the dispatcher the raw value is the same as handing the strict
      formatter the raw value, whenever the digit count is one it accepts. */
  lemma FormatCnpjOrCpfDispatch(v: string)
    ensures |Digits(v)| == 14 ==> FormatCnpjOrCpf(Some(v)) == Some(FormatCnpj(v).value)
    ensures |Digits(v)| == 11 ==> FormatCnpjOrCpf(Some(v)) == Some(FormatCpf(v).value)
  {
    assert IsMask(CNPJ_MASK) && IsMask(CPF_MASK);
    if |Digits(v)| == 14 {
      MaskDetermines(FormatCnpjOrCpf(Some(v)).value, FormatCnpj(v).value, CNPJ_MASK);
    } else if |Digits(v)| == 11 {
      MaskDetermines(FormatCnpjOrCpf(Some(v)).value, FormatCpf(v).value, CPF_MASK);
    }
  }

  /** Formatting an already formatted value changes nothing. */
  lemma FormatCnpjOrCpfIdempotent(value: Option<string>)
    ensures FormatCnpjOrCpf(FormatCnpjOrCpf(value)) == FormatCnpjOrCpf(value)
  {
    assert IsMask(CNPJ_MASK) && IsMask(CPF_MASK);
    var once := FormatCnpjOrCpf(value);
    if value.Some? {
      var n := |Digits(value.value)|;
      if n == 14 {
        MaskDetermines(FormatCnpjOrCpf(once).value, once.value, CNPJ_MASK);
      } else if n == 11 {
        MaskDetermines(FormatCnpjOrCpf(once).value, once.value, CPF_MASK);
      }
    }
  }

  // ---------------------------------------------------------------------
  // format_currency

  type Cents = c: nat | c < 100

  /** A non-negative amount split into its integer part and its cents. */
  datatype Amount = Amount(units: nat, cents: Cents)

  /** Digits with a '.' exactly at every fourth position counted from the
      right end, as thousands separators, and never a '.' in front. */
  predicate Grouped(g: string) {
    && (g != [] ==> g[0] != '.')
    && forall i :: 0 <= i < |g| ==> (g[i] == '.' <==> (|g| - i) % 4 == 0) && (g[i] == '.' || IsDigit(g[i]))
  }

  lemma GroupedStep(head: string, tail: string)
    requires head != [] && Grouped(head) && |tail| == 3 && AllDigits(tail)
    ensures Grouped(head + "." + tail)
  {
    var r := head + "." + tail;
    forall i | 0 <= i < |r| ensures (r[i] == '.' <==> (|r| - i) % 4 == 0) && (r[i] == '.' || IsDigit(r[i])) {
      if i < |head| {
        assert r[i] == head[i];
        assert |r| - i == (|head| - i) + 4;
      } else if i > |head| {
        assert r[i] == tail[i - |head| - 1];
      }
    }
  }

  /** Inserting a dot before the last three digits keeps the digits. */
  lemma GroupedDigits(head: string, s: string)
    requires |s| > 3 && AllDigits(s) && Digits(head) == s[..|s| - 3]
    ensures Digits(head + "." + s[|s| - 3..]) == s
  {
    var tail := s[|s| - 3..];
    assert AllDigits(tail);
    DigitsAppend(head + ".", tail);
    DigitsAppend(head, ".");
    assert Digits(".") == [] by {
      assert "."[1..] == [] && !IsDigit('.');
    }
    DigitsOfDigits(tail);
    calc {
      Digits(head + "." + tail);
      Digits(head) + Digits(".") + Digits(tail);
      s[..|s| - 3] + tail;
      { assert s == s[..|s| - 3] + tail; }
      s;
    }
  }

  /** `f"{n:,}".replace(",", ".")` applied to the digits `s` of n. */
  function GroupThousands(s: string): (r: string)
    requires AllDigits(s)
    ensures Grouped(r) && Digits(r) == s
    decreases |s|
  {
    if |s| <= 3 then
      DigitsOfDigits(s);
      s
    else
      var head, tail := GroupThousands(s[..|s| - 3]), s[|s| - 3..];
      GroupedStep(head, tail);
      GroupedDigits(head, s);
      head + "." + tail
  }

  /** A grouped string of at most three characters is plain digits. */
  lemma ShortGroupedIsDigits(g: string)
    requires Grouped(g) && |g| <= 3
    ensures AllDigits(g) && Digits(g) == g
  {
    forall i | 0 <= i < |g| ensures IsDigit(g[i]) {
      assert (|g| - i) % 4 != 0;
    }
    DigitsOfDigits(g);
  }

  /** A longer grouped string is a grouped head, a dot and three digits. */
  lemma LongGroupedSplits(g: string)
    requires Grouped(g) && |g| > 3
    ensures |g| > 4 && g[|g| - 4] == '.'
    ensures Grouped(g[..|g| - 4]) && g[..|g| - 4] != [] && IsDigit(g[0])
    ensures AllDigits(g[|g| - 3..]) && |g[|g| - 3..]| == 3
    ensures g == g[..|g| - 4] + "." + g[|g| - 3..]
  {
    assert (|g| - (|g| - 4)) % 4 == 0;
    assert g[0] != '.' && IsDigit(g[0]);
    assert |g| % 4 != 0;
    var head := g[..|g| - 4];
    forall i | 0 <= i < |head|
      ensures (head[i] == '.' <==> (|head| - i) % 4 == 0) && (head[i] == '.' || IsDigit(head[i]))
    {
      assert head[i] == g[i];
      assert |g| - i == (|head| - i) + 4;
    }
    forall j | |g| - 3 <= j < |g| ensures IsDigit(g[j]) {
      assert (|g| - j) % 4 != 0;
    }
  }

  /** There is only one grouped string for each digit sequence: the one
      `GroupThousands` builds. */
  lemma {:induction false} GroupedUnique(g: string)
    requires Grouped(g)
    ensures AllDigits(Digits(g)) && g == GroupThousands(Digits(g))
    decreases |g|
  {
    if |g| <= 3 {
      ShortGroupedIsDigits(g);
    } else {
      LongGroupedSplits(g);
      var head, tail := g[..|g| - 4], g[|g| - 3..];
      GroupedUnique(head);
      var d := Digits(head);
      assert d != [] by {
        assert Digits(head) == [head[0]] + Digits(head[1..]);
      }
      DigitsOfDigits(tail);
      GroupedDigits(head, d + tail);
      assert (d + tail)[..|d + tail| - 3] == d;
      assert (d + tail)[|d + tail| - 3..] == tail;
      DigitsAppend(head + ".", tail);
      DigitsAppend(head, ".");
      assert Digits(".") == [] by {
        assert "."[1..] == [] && !IsDigit('.');
      }
      assert Digits(g) == d + tail;
    }
  }

  /** What the display of an amount consists of: the prefix "R$ ", the
      integer part grouped in thousands, a comma, and two digits of cents. */
  predicate DisplaysAmount(text: string, a: Amount) {
    |text| >= 7 && text[..3] == "R$ " && text[|text| - 3] == ','
    && AllDigits(text[|text| - 2..]) && ValueOf(text[|text| - 2..]) == a.cents
    && Grouped(text[3..|text| - 3]) && Digits(text[3..|text| - 3]) == NatToString(a.units)
  }

  /** None stays None; an amount becomes "R$ " + thousands + "," + cents. */
  function FormatCurrency(value: Option<Amount>): (r: Option<string>)
    ensures value.None? <==> r.None?
    ensures value.Some? ==> DisplaysAmount(r.value, value.value)
  {
    match value
    case None => None
    case Some(a) =>
      var integerStr := GroupThousands(NatToString(a.units));
      var decimalStr := ZeroPad(a.cents, 2);
      var text := "R$ " + integerStr + "," + decimalStr;
      assert text[..3] == "R$ ";
      assert text[3..|text| - 3] == integerStr;
      assert text[|text| - 2..] == decimalStr;
      Some(text)
  }

  /** Only one text displays a given amount, and it is the formatter's
      output: the display is fixed, not merely constrained. */
  lemma DisplayDetermined(text: string, a: Amount)
    requires DisplaysAmount(text, a)
    ensures FormatCurrency(Some(a)) == Some(text)
  {
    var g, c := text[3..|text| - 3], text[|text| - 2..];
    assert g == GroupThousands(NatToString(a.units)) by {
      GroupedUnique(g);
    }
    assert c == ZeroPad(a.cents, 2) by {
      ValueOfInjective(c, ZeroPad(a.cents, 2));
    }
    assert text == "R$ " + g + "," + c by {
      assert text == text[..3] + g + [text[|text| - 3]] + c;
    }
  }

  /** Two amounts with the same display are the same amount. */
  lemma FormatCurrencyInjective(a: Amount, b: Amount)
    requires FormatCurrency(Some(a)) == FormatCurrency(Some(b))
    ensures a == b
  {
    NatToStringInjective(a.units, b.units);
  }

  /** 1234 and 50 cents display as "R$ 1.234,50". */
  lemma FormatCurrencyExample()
    ensures FormatCurrency(Some(Amount(1234, 50))) == Some("R$ 1.234,50")
  {
    assert NatToString(1234) == "1234" by {
      assert NatToString(1) == "1";
      assert NatToString(12) == NatToString(1) + [DigitChar(2)];
      assert NatToString(123) == NatToString(12) + [DigitChar(3)];
      assert NatToString(1234) == NatToString(123) + [DigitChar(4)];
    }
    assert GroupThousands("1234") == "1.234" by {
      assert "1234"[..1] == "1" && "1234"[1..] == "234";
    }
    assert ZeroPad(50, 2) == "50" by {
      ZeroPadTwo(50);
    }
    assert "R$ " + "1.234" + "," + "50" == "R$ 1.234,50";
  }
}
