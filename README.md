# Invoice extraction: a Dafny model

The repository reads a Brazilian service invoice (NFS-e) from a PDF. It sends
the text to a language-model agent, and checks the proposed fields against a
typed record, `InvoiceData`. Several normalizers run along the way:

- CNPJ and CPF taxpayer numbers are reduced to their digits and counted;
- the state code (UF) is upper-cased and stripped;
- the issue date is accepted in three textual formats.

For display, the digits get their punctuation back and amounts are written in
Brazilian currency style. Each failure on the way in becomes a `ValueError`
whose message names the part that failed.

This project models that logic in Dafny and proves what it promises:

- `text.dfy`, `decimal.dfy`: ASCII character classes, the digit filter,
  upper/lower case, whitespace stripping, substring search and decimal
  rendering.
- `dates.dfy`: dates, Gregorian validity, and a model of `strptime` for the
  three formats used.
- `validators.dfy`: `validate_cnpj`, `validate_cnpj_or_cpf`, `validate_uf`,
  `parse_date`.
- `formatters.dfy`: `format_cnpj`, `format_cpf`, `format_cnpj_or_cpf`,
  `format_currency`.
- `roundtrip.dfy`: formatting for display, then validating again, gives back
  the stored value.
- `field_types.dfy`: the annotated field types. Each is a function from one
  raw value to a field value or a failure reason.
- `models.dfy`: the `InvoiceData` record, its invariant, and all-or-nothing
  validation of a raw mapping.
- `extraction.dfy`: `extract_invoice_data`, covering the text threshold, the
  hand-off to the agent, and the ordered exception handlers.

All of the core is pure, so the model uses datatypes, functions and lemmas. The
one loop in the core is the format loop of `parse_date`. It stops at the first
match and updates nothing, so it becomes recursion over the format list
(`FirstMatch`).

Where the code and its description differ, the model follows the code:

- `descricao_servico` and `numero_nota` are plain `str` fields with no length
  bound, so an empty string is accepted.
- `extract_invoice_data` documents that it raises `FileNotFoundError`. In the
  code, that error is raised inside the `try` block and caught by the generic
  handler, so it leaves as a `ValueError` (`Extraction.FailureMessages`).

Notes on the model:

- `strptime` is modelled field by field. A numeric field reads the longest run
  of ASCII digits, then its width (1–2 for day and month, exactly 4 for the
  year) and its range are checked. A literal separator must match exactly, and
  no text may follow. The fields start from 1900-01-01 and the result must be a
  Gregorian date. Each of the three formats separates its fields with a
  non-digit, so reading the longest run means the same as the library's
  pattern match.
- The raw mapping is `map<string, RawValue>`, where a value is a string, a
  number (`real`), a date or null. Keys that name no field are ignored, as the
  schema library does by default.
- The PDF reader and the agent are collaborators. They appear only through
  what they return:
  - `ReadOutcome`: extracted text, a missing file, or a read failure;
  - `AgentOutcome`: a record, a schema error, an HTTP error, an agent-run error,
    or any other error. The record has type `Models.ValidInvoice`, the records
    that satisfy `Models.Valid`, because the agent's output is built by the
    same schema validation.

## Model

| member | source | states |
|---|---|---|
| Validators.ValidateCnpj | schemas/validators.py:10-16 | succeeds exactly when the input holds 14 ASCII digits; the result is those digits in order; otherwise the error names the digit count found |
| Validators.ValidateCnpjIdempotent | schemas/validators.py:10-16 | a validated CNPJ is 14 digits and validates to itself |
| Validators.ValidateCnpjIgnoresNonDigits | schemas/validators.py:11 | two inputs with the same digit subsequence validate identically, so punctuation is irrelevant |
| Validators.ValidateCnpjOrCpf | schemas/validators.py:19-39 | None passes through; otherwise succeeds exactly when the digit count is 11 or 14, keeping the digits, with the count in the error |
| Validators.ValidateCnpjOrCpfIdempotent | schemas/validators.py:19-39 | validating an accepted value again gives the same result |
| Validators.CnpjAcceptedAsCnpjOrCpf | schemas/validators.py:10-39 | anything the CNPJ validator accepts, the CNPJ-or-CPF validator accepts with the same digits |
| Validators.ValidateUf | schemas/validators.py:42-48 | None passes through; otherwise succeeds exactly when the upper-cased, stripped text has 2 characters, and returns that text |
| Validators.ValidateUfIdempotent | schemas/validators.py:42-48 | an accepted UF is 2 characters, has no lower-case letter, has no surrounding whitespace, and validates to itself |
| Dates.Strptime | schemas/validators.py:58 | a date comes back exactly when the textual match of the format, starting from the default fields, gives a Gregorian date, and it is that date |
| Dates.MatchDayFirstText | schemas/validators.py:55 | zero-padded day-first text matches its format and yields its day, month and year, whether or not they form a real date |
| Dates.MatchYearFirstText | schemas/validators.py:55 | the same for the year-first format |
| Dates.RenderDayFirst | schemas/validators.py:55-58 | writing a date day first gives the zero-padded text, and strptime reads it back to the same date |
| Dates.RenderYearFirst | schemas/validators.py:55-58 | the same for year first |
| Dates.IsoFormat | schemas/models.py:35 | isoformat is 10 characters, YYYY-MM-DD, whose digit groups have the date's year, month and day as values |
| Dates.IsoFormatIsRender | schemas/models.py:35 | isoformat is the year-first format with '-' as separator |
| Validators.FirstMatch | schemas/validators.py:56-60 | finds a date exactly when some format in the list matches, and the date found comes from the first format that matches |
| Validators.ParseDate | schemas/validators.py:51-61 | a date passes through; text succeeds exactly when one of d/m/Y, Y-m-d, d-m-Y matches, and the result comes from a matching format; otherwise the error is "Invalid date format: " followed by the input |
| Validators.FormatsExclusive | schemas/validators.py:55-60 | no text matches two of the three formats, so the order in which they are tried does not change the result |
| Validators.ParseDateAnyFormat | schemas/validators.py:55-60 | whichever format matches, parse_date returns that format's date |
| Validators.ParseDateOfRendered | schemas/validators.py:51-61 | every date written in any of the three formats, or by isoformat, parses back to itself |
| Validators.ImpossibleDateRejected | schemas/validators.py:57-61 | day-first text whose fields are in range but do not form a calendar date is rejected with "Invalid date format: " + text |
| Validators.DashFormatsFail | schemas/validators.py:55-60 | text that starts with a two-digit run followed by '/' matches neither Y-m-d nor d-m-Y |
| Validators.FebruaryThirtyFirst | schemas/validators.py:57-61 | 31 February 2024 is not a calendar date, and its day-first text is rejected with the invalid-format message |
| Formatters.FormatCnpj | utils/formatters.py:8-27 | succeeds exactly when the input has 14 digits; the result fits NN.NNN.NNN/NNNN-NN and keeps the same digits; otherwise the error names the count |
| Formatters.FormatCpf | utils/formatters.py:30-49 | succeeds exactly when the input has 11 digits; the result fits NNN.NNN.NNN-NN and keeps the same digits; otherwise the error names the count |
| Formatters.MaskDetermines | utils/formatters.py:27 | two strings that fit the same punctuation mask and have the same digits are equal, so the layout fixes the output |
| Formatters.FormatCnpjOrCpf | utils/formatters.py:52-72 | None stays None; 14 digits give the CNPJ layout and 11 give the CPF layout, with the same digits; any other value is returned unchanged |
| Formatters.FormatCnpjOrCpfDispatch | utils/formatters.py:64-69 | on 14 or 11 digits the dispatcher agrees with the strict formatter applied to the raw value |
| Formatters.FormatCnpjOrCpfIdempotent | utils/formatters.py:52-72 | formatting a formatted value again changes nothing |
| Formatters.GroupThousands | utils/formatters.py:93 | the result has '.' at every fourth position from the right and nowhere else, never in front, and its digits are the input |
| Formatters.GroupedUnique | utils/formatters.py:93 | every string grouped that way is the grouping of its own digits, so the grouping of a number is unique |
| Formatters.FormatCurrency | utils/formatters.py:75-98 | None stays None; an amount becomes "R$ ", the integer part grouped in thousands, ',' and two cents digits, with those parts having the amount's values |
| Formatters.DisplayDetermined | utils/formatters.py:84-98 | any text with the shape of an amount's display is exactly the formatter's output for that amount |
| Formatters.FormatCurrencyInjective | utils/formatters.py:75-98 | different amounts give different displays |
| Formatters.FormatCurrencyExample | utils/formatters.py:93-98 | 1234 and 50 cents display as "R$ 1.234,50" |
| RoundTrip.CnpjRoundTrip | utils/formatters.py:8-27 | a 14-digit CNPJ formats to 18 characters that validate back to the same digits |
| RoundTrip.CpfRoundTrip | utils/formatters.py:30-49 | an 11-digit CPF formats to 14 characters that the CNPJ-or-CPF validator takes back to the same digits |
| RoundTrip.CnpjOrCpfDisplayRoundTrip | utils/formatters.py:52-72 | whatever the CNPJ-or-CPF validator keeps, its display validates back to it |
| RoundTrip.FormatAfterValidate | utils/formatters.py:20-27 | formatting a validated CNPJ gives the same display as formatting the raw input |
| FieldTypes.CheckText | schemas/models.py:16 | a string is stored as given, and anything else is rejected |
| FieldTypes.CheckOptionalText | schemas/models.py:22 | a string is stored as given, null becomes None, and anything else is rejected |
| FieldTypes.CheckCnpj | schemas/types.py:19-27 | accepted exactly when the input is a string of 14 to 18 characters holding 14 digits; the stored value is those digits; a validator failure carries its message |
| FieldTypes.CnpjBoundVacuousAfterValidation | schemas/types.py:24-25 | an accepted CNPJ meets the 14..18 bound and passes the type again unchanged |
| FieldTypes.CheckCnpjOrCpf | schemas/types.py:29-36 | null is None; a string is accepted exactly when it has 11 or 14 digits, and is stored as those digits |
| FieldTypes.CheckUf | schemas/types.py:38-46 | null is None; a string is accepted exactly when it has at most 2 characters and 2 once upper-cased and stripped, and is stored normalized; a longer input is rejected by the length bound |
| FieldTypes.UfCanonical | schemas/types.py:38-46 | a stored UF is 2 characters, with no lower-case letter and no surrounding whitespace |
| FieldTypes.CheckInvoiceDate | schemas/types.py:48-54 | a date is accepted as is; text is accepted exactly when parse_date accepts it, with parse_date's date; other values are rejected |
| FieldTypes.CheckCurrency | schemas/types.py:56-62 | accepted exactly when the input is a number of at least 0, and stored unchanged |
| FieldTypes.CheckCurrencyOptional | schemas/types.py:64-71 | null is None; a number is accepted exactly when it is at least 0 |
| Models.Collect | schemas/models.py:15-29 | one error per failing field, naming the field and its reason, and no error for a passing field |
| Models.Validate | schemas/models.py:15-29 | a record is produced exactly when every field passes, and it satisfies the record invariant; otherwise the errors name exactly the failing fields |
| Models.BuildValid | schemas/models.py:17-29 | a record built from passing fields satisfies the invariant: non-negative amounts, a 14-digit CNPJ, an 11- or 14-digit recipient if present, a canonical 2-character UF if present |
| Models.AllPassIff | schemas/models.py:15-29 | every field passes exactly when no field has a failure reason |
| Models.FieldsComplete | schemas/models.py:16-29 | the field list holds all fourteen fields |
| Models.MissingRequiredFieldRejected | schemas/models.py:16-21 | a mapping that lacks a field without a default is rejected, with "Field required" for that field |
| Models.AbsentOptionalIsNone | schemas/models.py:22-29 | each absent optional field is None in the record |
| Models.FreeTextStoredAsGiven | schemas/models.py:16-27 | the description, number, names, series, access key and city are stored exactly as given |
| Models.NormalizedFieldsStored | schemas/models.py:17-28 | the CNPJs are stored as bare digits, the UF upper-cased and stripped, the date as parse_date returns it, the two required amounts unchanged, and a present numeric valor_impostos as that number (None otherwise) |
| Models.BadUfRejected | schemas/models.py:28 | a UF over 2 characters, or not 2 after normalization, rejects the record with an error naming uf_emissao |
| Extraction.TryBody | services/extraction_service.py:59-71 | a missing file, a read failure and insufficient text each raise their error; otherwise the agent's outcome decides; a record comes back unchanged |
| Extraction.Handle | services/extraction_service.py:72-95 | each message prefix belongs to exactly one handler: validation, rate limit, other HTTP, agent run, or generic; the caught message ends the text |
| Extraction.PrefixesDisjoint | services/extraction_service.py:72-95 | no message starts with two of the five handler prefixes |
| Extraction.OnlyPrefix | services/extraction_service.py:72-95 | a message built on one handler's prefix starts with that prefix and with none of the other four |
| Extraction.ExtractInvoiceData | services/extraction_service.py:40-95 | succeeds exactly when the text is sufficient and the agent gives a record, which is returned unchanged; every failure is a ValueError carrying the handler's message |
| Extraction.InsufficientTextSkipsAgent | services/extraction_service.py:63-95 | empty text, or text under 50 characters once stripped, fails the same way whatever the agent, with the generic prefix before the insufficient-text message |
| Extraction.AgentSeesOnlyTheText | services/extraction_service.py:61-70 | the agent is consulted only on sufficient text, with the unstripped extracted text, so agents that agree on it give the same result |
| Extraction.HttpErrorClassified | services/extraction_service.py:76-91 | an HTTP error gets the rate-limit message exactly when its message contains "429" or, lower-cased, "rate_limit", and the API message otherwise; it never gets the agent-execution message |
| Extraction.FailureMessages | services/extraction_service.py:56-95 | a missing file, a read failure, a schema error, an HTTP error, an agent error and any other error each become a ValueError with their handler's prefix and message |
| Extraction.FailureHasOnePrefix | services/extraction_service.py:72-95 | every failure message starts with one of the five prefixes and ends with the message that was caught |
| Extraction.ReturnedRecordIsAgentOutput | services/extraction_service.py:63-71 | a record comes back only from text of at least 50 stripped characters, and it satisfies the record invariant: digits-only tax ids, a canonical UF and non-negative amounts |

## Left out

- Reading the PDF (repositories/pdf_repository.py), including the joining of page texts, is file I/O. It is modelled only through its three outcomes and their messages.
- The agent itself is left out: how it is created (it writes the environment and builds a Groq client), the prompt, the network call, its retries and concurrency. It is modelled only through its outcome.
- The command-line entry point, batch processing and settings are left out. They only call the modelled functions, or do I/O.
- Unicode is not modelled. Digits are only '0'–'9', case conversion covers only ASCII letters, and whitespace is only the ASCII characters that strip removes.
- Formatters.FormatCurrency: takes the integer part and cents below 100 as given. It does not model the float split (`int`, `round`), which can produce 100 cents, or negative amounts.
- Dates.Strptime: rejects a day padded with a space (" 5/12/2024"), which the library's `%d` accepts; `%m` has no space-padded form, so months agree. It also does not model case-insensitive matching of literals, which makes no difference for '/' and '-'.
- FieldTypes.CheckCnpjOrCpf: a value that is neither a string nor null makes the source validator raise TypeError, which escapes the schema library. The model reports it as a field error instead. The same applies to FieldTypes.CheckInvoiceDate for a number or null.
- FieldTypes.CheckCurrency: numeric strings, integers given as text, and NaN or infinity are not modelled; money is a `real`.
- FieldTypes.CheckCnpj: the length bounds are checked on the raw string before the validator runs. Where the schema library really applies them is a library detail. After validation the bound always holds (`FieldTypes.CnpjBoundVacuousAfterValidation`).
- FieldTypes.CheckUf: the `max_length=2` bound is likewise checked on the raw string. Here it is not vacuous: it rejects " SP" or "sp ", which the validator alone would turn into "SP". Checked after the validator, the bound would accept them.
- The wording of the schema library's own messages, and how it aggregates and renders several errors into one string, are approximated. The validators' own messages are exact.
- Models.Validate: only field-level behaviour is modelled. The JSON encoder set-up and alias handling of the record are left out.
- Extraction.ExtractInvoiceData: exception chaining (`from e`) and the async execution are left out.
