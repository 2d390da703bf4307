/** The `InvoiceData` record of schemas/models.py and the all-or-nothing
    validation that turns a raw mapping into one. */
module Models {
  import opened Wrappers
  import opened Text
  import opened Dates
  import opened FieldTypes
  import opened Validators

  /** A validated invoice. Required fields are plain values; optional ones
      are `Option`s, `None` when absent. */
  datatype InvoiceData = InvoiceData(
    descricaoServico: string,
    valorServico: real,
    numeroNota: string,
    dataEmissao: CalendarDate,
    valorTotal: real,
    cnpjPrestador: string,
    nomePrestador: Option<string>,
    serieNota: Option<string>,
    chaveAcesso: Option<string>,
    cnpjDestinatario: Option<string>,
    nomeDestinatario: Option<string>,
    municipioEmissao: Option<string>,
    ufEmissao: Option<string>,
    valorImpostos: Option<real>)

  /** What every validated record satisfies. */
  predicate Valid(d: InvoiceData) {
    && d.valorServico >= 0.0
    && d.valorTotal >= 0.0
    && AllDigits(d.cnpjPrestador) && |d.cnpjPrestador| == 14
    && (d.cnpjDestinatario.Some? ==>
          AllDigits(d.cnpjDestinatario.value) && |d.cnpjDestinatario.value| in {11, 14})
    && (d.ufEmissao.Some? ==>
          var u := d.ufEmissao.value;
          |u| == 2 && NoLower(u) && !IsSpace(u[0]) && !IsSpace(u[1]))
    && (d.valorImpostos.Some? ==> d.valorImpostos.value >= 0.0)
  }

  /** The records the schema admits; the agent's structured output has
      this type, because it is built by the same validation. */
  type ValidInvoice = d: InvoiceData | Valid(d)
    witness InvoiceData("", 0.0, "", Date(1900, 1, 1), 0.0, "00000000000000",
                        None, None, None, None, None, None, None, None)

  /** The fields, in declaration order. */
  datatype Field =
    | DescricaoServico | ValorServico | NumeroNota | DataEmissao | ValorTotal
    | CnpjPrestador | NomePrestador | SerieNota | ChaveAcesso | CnpjDestinatario
    | NomeDestinatario | MunicipioEmissao | UfEmissao | ValorImpostos

  const FIELDS: seq<Field> := [
    DescricaoServico, ValorServico, NumeroNota, DataEmissao, ValorTotal,
    CnpjPrestador, NomePrestador, SerieNota, ChaveAcesso, CnpjDestinatario,
    NomeDestinatario, MunicipioEmissao, UfEmissao, ValorImpostos]

  /** The key under which a field appears in the raw mapping. */
  function Name(f: Field): string {
    match f
    case DescricaoServico => "descricao_servico"
    case ValorServico => "valor_servico"
    case NumeroNota => "numero_nota"
    case DataEmissao => "data_emissao"
    case ValorTotal => "valor_total"
    case CnpjPrestador => "cnpj_prestador"
    case NomePrestador => "nome_prestador"
    case SerieNota => "serie_nota"
    case ChaveAcesso => "chave_acesso"
    case CnpjDestinatario => "cnpj_destinatario"
    case NomeDestinatario => "nome_destinatario"
    case MunicipioEmissao => "municipio_emissao"
    case UfEmissao => "uf_emissao"
    case ValorImpostos => "valor_impostos"
  }

  /** The fields declared without a default. */
  predicate IsRequired(f: Field) {
    f in {DescricaoServico, ValorServico, NumeroNota, DataEmissao, ValorTotal, CnpjPrestador}
  }

  type RawRecord = map<string, RawValue>

  datatype FieldError = FieldError(field: Field, reason: string)

  const MISSING := "Field required"

  function Lookup(raw: RawRecord, f: Field): Option<RawValue> {
    if Name(f) in raw then Some(raw[Name(f)]) else None
  }

  // A field without a default reports a missing key; one whose default is
  // None takes the default.

  function TextField(v: Option<RawValue>): Result<string, string> {
    if v.None? then Failure(MISSING) else CheckText(v.value)
  }

  function CurrencyField(v: Option<RawValue>): Result<real, string> {
    if v.None? then Failure(MISSING) else CheckCurrency(v.value)
  }

  function DateField(v: Option<RawValue>): Result<CalendarDate, string> {
    if v.None? then Failure(MISSING) else CheckInvoiceDate(v.value)
  }

  function CnpjField(v: Option<RawValue>): Result<string, string> {
    if v.None? then Failure(MISSING) else CheckCnpj(v.value)
  }

  function OptionalTextField(v: Option<RawValue>): Result<Option<string>, string> {
    if v.None? then Success(None) else CheckOptionalText(v.value)
  }

  function CnpjOrCpfField(v: Option<RawValue>): Result<Option<string>, string> {
    if v.None? then Success(None) else CheckCnpjOrCpf(v.value)
  }

  function UfField(v: Option<RawValue>): Result<Option<string>, string> {
    if v.None? then Success(None) else CheckUf(v.value)
  }

  function OptionalCurrencyField(v: Option<RawValue>): Result<Option<real>, string> {
    if v.None? then Success(None) else CheckCurrencyOptional(v.value)
  }

  function ReasonOf<T>(r: Result<T, string>): Option<string> {
    if r.Failure? then Some(r.error) else None
  }

  /** Why one field of the raw mapping fails, or None when it passes. */
  function FieldReason(f: Field, raw: RawRecord): Option<string> {
    var v := Lookup(raw, f);
    match f
    case DescricaoServico => ReasonOf(TextField(v))
    case ValorServico => ReasonOf(CurrencyField(v))
    case NumeroNota => ReasonOf(TextField(v))
    case DataEmissao => ReasonOf(DateField(v))
    case ValorTotal => ReasonOf(CurrencyField(v))
    case CnpjPrestador => ReasonOf(CnpjField(v))
    case NomePrestador => ReasonOf(OptionalTextField(v))
    case SerieNota => ReasonOf(OptionalTextField(v))
    case ChaveAcesso => ReasonOf(OptionalTextField(v))
    case CnpjDestinatario => ReasonOf(CnpjOrCpfField(v))
    case NomeDestinatario => ReasonOf(OptionalTextField(v))
    case MunicipioEmissao => ReasonOf(OptionalTextField(v))
    case UfEmissao => ReasonOf(UfField(v))
    case ValorImpostos => ReasonOf(OptionalCurrencyField(v))
  }

  /** One error per failing field of `fs`, in order. */
  function Collect(fs: seq<Field>, raw: RawRecord): (r: seq<FieldError>)
    ensures |r| <= |fs|
    ensures forall e :: e in r ==> e.field in fs && FieldReason(e.field, raw) == Some(e.reason)
    ensures forall f :: f in fs && FieldReason(f, raw).Some? ==> FieldError(f, FieldReason(f, raw).value) in r
  {
    if fs == [] then []
    else
      var rest := Collect(fs[1..], raw);
      match FieldReason(fs[0], raw)
      case Some(why) => [FieldError(fs[0], why)] + rest
      case None => rest
  }

  /** Every field of the raw mapping passes. */
  predicate AllPass(raw: RawRecord) {
    && TextField(Lookup(raw, DescricaoServico)).Success?
    && CurrencyField(Lookup(raw, ValorServico)).Success?
    && TextField(Lookup(raw, NumeroNota)).Success?
    && DateField(Lookup(raw, DataEmissao)).Success?
    && CurrencyField(Lookup(raw, ValorTotal)).Success?
    && CnpjField(Lookup(raw, CnpjPrestador)).Success?
    && OptionalTextField(Lookup(raw, NomePrestador)).Success?
    && OptionalTextField(Lookup(raw, SerieNota)).Success?
    && OptionalTextField(Lookup(raw, ChaveAcesso)).Success?
    && CnpjOrCpfField(Lookup(raw, CnpjDestinatario)).Success?
    && OptionalTextField(Lookup(raw, NomeDestinatario)).Success?
    && OptionalTextField(Lookup(raw, MunicipioEmissao)).Success?
    && UfField(Lookup(raw, UfEmissao)).Success?
    && OptionalCurrencyField(Lookup(raw, ValorImpostos)).Success?
  }

  lemma PassingFieldHasNoReason(raw: RawRecord, f: Field)
    requires AllPass(raw)
    ensures FieldReason(f, raw).None?
  {
  }

  /** FIELDS lists every field. */
  lemma FieldsComplete(f: Field)
    ensures f in FIELDS
  {
    match f
    case DescricaoServico => assert FIELDS[0] == f;
    case ValorServico => assert FIELDS[1] == f;
    case NumeroNota => assert FIELDS[2] == f;
    case DataEmissao => assert FIELDS[3] == f;
    case ValorTotal => assert FIELDS[4] == f;
    case CnpjPrestador => assert FIELDS[5] == f;
    case NomePrestador => assert FIELDS[6] == f;
    case SerieNota => assert FIELDS[7] == f;
    case ChaveAcesso => assert FIELDS[8] == f;
    case CnpjDestinatario => assert FIELDS[9] == f;
    case NomeDestinatario => assert FIELDS[10] == f;
    case MunicipioEmissao => assert FIELDS[11] == f;
    case UfEmissao => assert FIELDS[12] == f;
    case ValorImpostos => assert FIELDS[13] == f;
  }

  lemma RequiredTextAndDatePass(raw: RawRecord)
    requires forall f :: f in FIELDS ==> FieldReason(f, raw).None?
    ensures TextField(Lookup(raw, DescricaoServico)).Success?
    ensures CurrencyField(Lookup(raw, ValorServico)).Success?
    ensures TextField(Lookup(raw, NumeroNota)).Success?
    ensures DateField(Lookup(raw, DataEmissao)).Success?
  {
    FieldsComplete(DescricaoServico);
    assert FieldReason(DescricaoServico, raw).None?;
    FieldsComplete(ValorServico);
    assert FieldReason(ValorServico, raw).None?;
    FieldsComplete(NumeroNota);
    assert FieldReason(NumeroNota, raw).None?;
    FieldsComplete(DataEmissao);
    assert FieldReason(DataEmissao, raw).None?;
  }

  lemma AmountsAndNamesPass(raw: RawRecord)
    requires forall f :: f in FIELDS ==> FieldReason(f, raw).None?
    ensures CurrencyField(Lookup(raw, ValorTotal)).Success?
    ensures CnpjField(Lookup(raw, CnpjPrestador)).Success?
    ensures OptionalTextField(Lookup(raw, NomePrestador)).Success?
    ensures OptionalTextField(Lookup(raw, SerieNota)).Success?
  {
    FieldsComplete(ValorTotal);
    assert FieldReason(ValorTotal, raw).None?;
    FieldsComplete(CnpjPrestador);
    assert FieldReason(CnpjPrestador, raw).None?;
    FieldsComplete(NomePrestador);
    assert FieldReason(NomePrestador, raw).None?;
    FieldsComplete(SerieNota);
    assert FieldReason(SerieNota, raw).None?;
  }

  lemma KeyAndRecipientPass(raw: RawRecord)
    requires forall f :: f in FIELDS ==> FieldReason(f, raw).None?
    ensures OptionalTextField(Lookup(raw, ChaveAcesso)).Success?
    ensures CnpjOrCpfField(Lookup(raw, CnpjDestinatario)).Success?
    ensures OptionalTextField(Lookup(raw, NomeDestinatario)).Success?
  {
    FieldsComplete(ChaveAcesso);
    assert FieldReason(ChaveAcesso, raw).None?;
    FieldsComplete(CnpjDestinatario);
    assert FieldReason(CnpjDestinatario, raw).None?;
    FieldsComplete(NomeDestinatario);
    assert FieldReason(NomeDestinatario, raw).None?;
  }

  lemma PlaceAndTaxPass(raw: RawRecord)
    requires forall f :: f in FIELDS ==> FieldReason(f, raw).None?
    ensures OptionalTextField(Lookup(raw, MunicipioEmissao)).Success?
    ensures UfField(Lookup(raw, UfEmissao)).Success?
    ensures OptionalCurrencyField(Lookup(raw, ValorImpostos)).Success?
  {
    FieldsComplete(MunicipioEmissao);
    assert FieldReason(MunicipioEmissao, raw).None?;
    FieldsComplete(UfEmissao);
    assert FieldReason(UfEmissao, raw).None?;
    FieldsComplete(ValorImpostos);
    assert FieldReason(ValorImpostos, raw).None?;
  }

  lemma NoReasonMeansPass(raw: RawRecord)
    requires forall f :: f in FIELDS ==> FieldReason(f, raw).None?
    ensures AllPass(raw)
  {
    RequiredTextAndDatePass(raw);
    AmountsAndNamesPass(raw);
    KeyAndRecipientPass(raw);
    PlaceAndTaxPass(raw);
  }

  lemma AllPassIff(raw: RawRecord)
    ensures AllPass(raw) <==> forall f :: f in FIELDS ==> FieldReason(f, raw).None?
  {
    if AllPass(raw) {
      forall f | f in FIELDS
        ensures FieldReason(f, raw).None?
      {
        PassingFieldHasNoReason(raw, f);
      }
    } else if forall f :: f in FIELDS ==> FieldReason(f, raw).None? {
      NoReasonMeansPass(raw);
    }
  }

  /** Builds the record; every field is known to pass. */
  function Build(raw: RawRecord): (d: InvoiceData)
    requires AllPass(raw)
  {
    InvoiceData(
      TextField(Lookup(raw, DescricaoServico)).value,
      CurrencyField(Lookup(raw, ValorServico)).value,
      TextField(Lookup(raw, NumeroNota)).value,
      DateField(Lookup(raw, DataEmissao)).value,
      CurrencyField(Lookup(raw, ValorTotal)).value,
      CnpjField(Lookup(raw, CnpjPrestador)).value,
      OptionalTextField(Lookup(raw, NomePrestador)).value,
      OptionalTextField(Lookup(raw, SerieNota)).value,
      OptionalTextField(Lookup(raw, ChaveAcesso)).value,
      CnpjOrCpfField(Lookup(raw, CnpjDestinatario)).value,
      OptionalTextField(Lookup(raw, NomeDestinatario)).value,
      OptionalTextField(Lookup(raw, MunicipioEmissao)).value,
      UfField(Lookup(raw, UfEmissao)).value,
      OptionalCurrencyField(Lookup(raw, ValorImpostos)).value)
  }

  lemma BuildValid(raw: RawRecord)
    requires AllPass(raw)
    ensures Valid(Build(raw))
  {
    var u := UfField(Lookup(raw, UfEmissao));
    if u.value.Some? {
      UfCanonical(Lookup(raw, UfEmissao).value);
    }
  }

  /** Constructing `InvoiceData` from a raw mapping: either every field
      passes and a valid record results, or the errors name exactly the
      failing fields and no record results. */
  function Validate(raw: RawRecord): (r: Result<InvoiceData, seq<FieldError>>)
    ensures r.Success? <==> forall f :: f in FIELDS ==> FieldReason(f, raw).None?
    ensures r.Success? ==> Valid(r.value)
    ensures r.Failure? ==> r.error != []
    ensures r.Failure? ==> forall e :: e in r.error ==> FieldReason(e.field, raw) == Some(e.reason)
    ensures r.Failure? ==> forall f :: f in FIELDS && FieldReason(f, raw).Some? ==>
      FieldError(f, FieldReason(f, raw).value) in r.error
  {
    var errors := Collect(FIELDS, raw);
    AllPassIff(raw);
    if errors != [] then
      assert errors[0] in errors;
      Failure(errors)
    else
      BuildValid(raw);
      Success(Build(raw))
  }

  /** The text a raw value holds, if any. */
  function TextOf(v: Option<RawValue>): Option<string> {
    if v.Some? && v.value.Str? then Some(v.value.s) else None
  }

  /** A mapping that lacks a field without a default is rejected, and the
      errors name that field. */
  lemma MissingRequiredFieldRejected(raw: RawRecord, f: Field)
    requires IsRequired(f) && Name(f) !in raw
    ensures Validate(raw).Failure?
    ensures FieldError(f, MISSING) in Validate(raw).error
  {
    FieldsComplete(f);
  }

  /** Absent optional fields take the value None. */
  lemma AbsentOptionalIsNone(raw: RawRecord)
    requires Validate(raw).Success?
    ensures var d := Validate(raw).value;
      && (Name(NomePrestador) !in raw ==> d.nomePrestador == None)
      && (Name(SerieNota) !in raw ==> d.serieNota == None)
      && (Name(ChaveAcesso) !in raw ==> d.chaveAcesso == None)
      && (Name(CnpjDestinatario) !in raw ==> d.cnpjDestinatario == None)
      && (Name(NomeDestinatario) !in raw ==> d.nomeDestinatario == None)
      && (Name(MunicipioEmissao) !in raw ==> d.municipioEmissao == None)
      && (Name(UfEmissao) !in raw ==> d.ufEmissao == None)
      && (Name(ValorImpostos) !in raw ==> d.valorImpostos == None)
  {
    AllPassIff(raw);
  }

  /** The free-text fields are stored exactly as given. */
  lemma FreeTextStoredAsGiven(raw: RawRecord)
    requires Validate(raw).Success?
    ensures var d := Validate(raw).value;
      && Lookup(raw, DescricaoServico) == Some(Str(d.descricaoServico))
      && Lookup(raw, NumeroNota) == Some(Str(d.numeroNota))
      && d.nomePrestador == TextOf(Lookup(raw, NomePrestador))
      && d.serieNota == TextOf(Lookup(raw, SerieNota))
      && d.chaveAcesso == TextOf(Lookup(raw, ChaveAcesso))
      && d.nomeDestinatario == TextOf(Lookup(raw, NomeDestinatario))
      && d.municipioEmissao == TextOf(Lookup(raw, MunicipioEmissao))
  {
    AllPassIff(raw);
  }

  /** The normalized fields hold their normalizers' results: CNPJs as bare
      digits, the state code upper-cased and stripped, the date parsed. */
  lemma NormalizedFieldsStored(raw: RawRecord)
    requires Validate(raw).Success?
    ensures var d := Validate(raw).value;
      && Lookup(raw, CnpjPrestador).Some? && Lookup(raw, CnpjPrestador).value.Str?
      && d.cnpjPrestador == Digits(Lookup(raw, CnpjPrestador).value.s)
      && d.cnpjDestinatario == (if TextOf(Lookup(raw, CnpjDestinatario)).Some?
                               then Some(Digits(TextOf(Lookup(raw, CnpjDestinatario)).value)) else None)
      && d.ufEmissao == (if TextOf(Lookup(raw, UfEmissao)).Some?
                        then Some(Strip(Upper(TextOf(Lookup(raw, UfEmissao)).value))) else None)
      && Lookup(raw, ValorServico) == Some(Num(d.valorServico))
      && Lookup(raw, ValorTotal) == Some(Num(d.valorTotal))
      && d.valorImpostos == (if Lookup(raw, ValorImpostos).Some? && Lookup(raw, ValorImpostos).value.Num?
                            then Some(Lookup(raw, ValorImpostos).value.x) else None)
      && Lookup(raw, DataEmissao).Some?
      && (match Lookup(raw, DataEmissao).value
          case Str(s) => ParseDate(DateText(s)) == Success(d.dataEmissao)
          case DateValue(x) => x == d.dataEmissao
          case _ => false)
  {
    AllPassIff(raw);
  }

  /** A state code that is longer than 2 characters as given, or that is
      not 2 characters once upper-cased and stripped, sinks the record and
      the errors name `uf_emissao`. */
  lemma BadUfRejected(raw: RawRecord, s: string)
    requires Lookup(raw, UfEmissao) == Some(Str(s))
    requires |s| > 2 || |Strip(Upper(s))| != 2
    ensures Validate(raw).Failure?
    ensures exists e :: e in Validate(raw).error && e.field == UfEmissao
  {
    FieldsComplete(UfEmissao);
    assert FieldReason(UfEmissao, raw).Some?;
  }
}
