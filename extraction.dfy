/** `extract_invoice_data` of services/extraction_service.py: read the
    PDF's text, refuse text too short to hold an invoice, hand the rest to
    the extraction agent, and turn every failure into a `ValueError` whose
    message says which handler caught it. The PDF reader and the agent are
    collaborators the model does not see; they are given as outcomes. */
module Extraction {
  import opened Wrappers
  import opened Text
  import opened Models

  /** What reading the PDF gives (repositories/pdf_repository.py): its text,
      a missing file, or a failure inside the PDF library. */
  datatype ReadOutcome = Extracted(text: string) | NotFound(path: string) | ReadFailed(detail: string)

  /** What one run of the extraction agent on a text gives. */
  datatype AgentOutcome =
    | Output(record: ValidInvoice)
    | SchemaRejected(detail: string)
    | HttpFailed(detail: string)
    | RunFailed(detail: string)
    | Crashed(detail: string)

  /** The exception classes that can leave the `try` block. */
  datatype ExceptionClass =
    | FileNotFoundError | ValueError | ValidationError | ModelHttpError | AgentRunError | OtherException

  datatype Raised = Raised(cls: ExceptionClass, message: string)

  /** `ModelHTTPError` is a subclass of `AgentRunError`, so an `except
      AgentRunError` clause also catches it. */
  predicate IsAgentRunError(c: ExceptionClass) {
    c == ModelHttpError || c == AgentRunError
  }

  /** The only exception class that leaves the function. */
  datatype ExtractionError = ValueErrorRaised(message: string)

  const MIN_TEXT := 50
  const INSUFFICIENT_TEXT := "Could not extract sufficient text from PDF. The file may be corrupted or be an image."
  const VALIDATION_PREFIX := "Validation error for extracted data: "
  const RATE_LIMIT_PREFIX := "Rate limit reached on Groq API. " + "Please wait a few minutes before trying again. " + "Error: "
  const API_PREFIX := "Error communicating with Groq API: "
  const AGENT_PREFIX := "Error during agent execution: "
  const GENERIC_PREFIX := "Error extracting data from PDF: "

  /** The handlers' prefixes, in the order of the `except` clauses. */
  const PREFIXES: seq<string> := [VALIDATION_PREFIX, RATE_LIMIT_PREFIX, API_PREFIX, AGENT_PREFIX, GENERIC_PREFIX]

  predicate StartsWith(s: string, p: string) {
    |p| <= |s| && s[..|p|] == p
  }

  /** The text is empty, or shorter than `MIN_TEXT` once stripped. */
  predicate Insufficient(text: string) {
    text == [] || |Strip(text)| < MIN_TEXT
  }

  /** The body of the `try` block: what it returns or the exception it
      raises. The agent is consulted only once the text is long enough. */
  function TryBody(read: ReadOutcome, agent: string -> AgentOutcome): (r: Result<InvoiceData, Raised>)
    ensures read.NotFound? ==> r == Failure(Raised(FileNotFoundError, "PDF file not found: " + read.path))
    ensures read.ReadFailed? ==> r == Failure(Raised(ValueError, "Error reading PDF file: " + read.detail))
    ensures read.Extracted? && Insufficient(read.text) ==> r == Failure(Raised(ValueError, INSUFFICIENT_TEXT))
    ensures r.Success? <==> read.Extracted? && !Insufficient(read.text) && agent(read.text).Output?
    ensures r.Success? ==> r.value == agent(read.text).record
  {
    match read
    case NotFound(path) => Failure(Raised(FileNotFoundError, "PDF file not found: " + path))
    case ReadFailed(detail) => Failure(Raised(ValueError, "Error reading PDF file: " + detail))
    case Extracted(text) =>
      if Insufficient(text) then Failure(Raised(ValueError, INSUFFICIENT_TEXT))
      else
        match agent(text)
        case Output(record) => Success(record)
        case SchemaRejected(detail) => Failure(Raised(ValidationError, detail))
        case HttpFailed(detail) => Failure(Raised(ModelHttpError, detail))
        case RunFailed(detail) => Failure(Raised(AgentRunError, detail))
        case Crashed(detail) => Failure(Raised(OtherException, detail))
  }

  /** The rate-limit test applied to an HTTP error's message. */
  predicate IsRateLimit(msg: string) {
    Contains(msg, "429") || Contains(Lower(msg), "rate_limit")
  }

  /** The `except` clauses, tried in source order; each re-raises as a
      `ValueError`. The prefix of the message tells which clause ran, and
      the original message follows it unchanged. */
  function Handle(e: Raised): (r: string)
    ensures StartsWith(r, VALIDATION_PREFIX) <==> e.cls == ValidationError
    ensures StartsWith(r, RATE_LIMIT_PREFIX) <==> e.cls == ModelHttpError && IsRateLimit(e.message)
    ensures StartsWith(r, API_PREFIX) <==> e.cls == ModelHttpError && !IsRateLimit(e.message)
    ensures StartsWith(r, AGENT_PREFIX) <==> e.cls == AgentRunError
    ensures StartsWith(r, GENERIC_PREFIX) <==> e.cls in {FileNotFoundError, ValueError, OtherException}
    ensures |e.message| <= |r| && r[|r| - |e.message|..] == e.message
  {
    var m := e.message;
    if e.cls == ValidationError then
      OnlyPrefix(0, m);
      VALIDATION_PREFIX + m
    else if e.cls == ModelHttpError then
      if IsRateLimit(m) then
        OnlyPrefix(1, m);
        RATE_LIMIT_PREFIX + m
      else
        OnlyPrefix(2, m);
        API_PREFIX + m
    else if IsAgentRunError(e.cls) then
      OnlyPrefix(3, m);
      AGENT_PREFIX + m
    else
      OnlyPrefix(4, m);
      GENERIC_PREFIX + m
  }

  /** `extract_invoice_data` as a whole. */
  function ExtractInvoiceData(read: ReadOutcome, agent: string -> AgentOutcome): (r: Result<InvoiceData, ExtractionError>)
    ensures r.Success? <==> read.Extracted? && !Insufficient(read.text) && agent(read.text).Output?
    ensures r.Success? ==> r.value == agent(read.text).record
    ensures r.Failure? ==> r.error == ValueErrorRaised(Handle(TryBody(read, agent).error))
  {
    match TryBody(read, agent)
    case Success(record) => Success(record)
    case Failure(e) => Failure(ValueErrorRaised(Handle(e)))
  }

  // ---------------------------------------------------------------------
  // The prefixes tell the handlers apart

  lemma Clash(p: string, q: string, i: nat, s: string)
    requires i < |p| && i < |q| && p[i] != q[i]
    ensures !(StartsWith(s, p) && StartsWith(s, q))
  {
    if |p| <= |s| && |q| <= |s| {
      assert s[..|p|][i] == s[i];
      assert s[..|q|][i] == s[i];
    }
  }

  lemma StartsWithConcat(p: string, m: string)
    ensures StartsWith(p + m, p)
  {
    assert (p + m)[..|p|] == p;
  }

  /** No message starts with two of the five prefixes: the first three
      differ in their first character, the last three in their seventh. */
  lemma PrefixesDisjoint(i: nat, j: nat, s: string)
    requires i < j < |PREFIXES|
    ensures !(StartsWith(s, PREFIXES[i]) && StartsWith(s, PREFIXES[j]))
  {
    assert VALIDATION_PREFIX[0] == 'V';
    assert RATE_LIMIT_PREFIX[0] == 'R';
    assert API_PREFIX[0] == 'E' && API_PREFIX[6] == 'c';
    assert AGENT_PREFIX[0] == 'E' && AGENT_PREFIX[6] == 'd';
    assert GENERIC_PREFIX[0] == 'E' && GENERIC_PREFIX[6] == 'e';
    if i <= 1 {
      Clash(PREFIXES[i], PREFIXES[j], 0, s);
    } else {
      Clash(PREFIXES[i], PREFIXES[j], 6, s);
    }
  }

  /** A message built on the k-th prefix starts with that prefix only. */
  lemma OnlyPrefix(k: nat, m: string)
    requires k < |PREFIXES|
    ensures StartsWith(PREFIXES[k] + m, VALIDATION_PREFIX) <==> k == 0
    ensures StartsWith(PREFIXES[k] + m, RATE_LIMIT_PREFIX) <==> k == 1
    ensures StartsWith(PREFIXES[k] + m, API_PREFIX) <==> k == 2
    ensures StartsWith(PREFIXES[k] + m, AGENT_PREFIX) <==> k == 3
    ensures StartsWith(PREFIXES[k] + m, GENERIC_PREFIX) <==> k == 4
  {
    var s := PREFIXES[k] + m;
    StartsWithConcat(PREFIXES[k], m);
    forall j | 0 <= j < |PREFIXES| && j != k
      ensures !StartsWith(s, PREFIXES[j])
    {
      if j < k {
        PrefixesDisjoint(j, k, s);
      } else {
        PrefixesDisjoint(k, j, s);
      }
    }
    assert PREFIXES[0] == VALIDATION_PREFIX && PREFIXES[1] == RATE_LIMIT_PREFIX;
    assert PREFIXES[2] == API_PREFIX && PREFIXES[3] == AGENT_PREFIX && PREFIXES[4] == GENERIC_PREFIX;
  }

  // ---------------------------------------------------------------------
  // Properties of extract_invoice_data

  /** Text that is empty or shorter than 50 characters once stripped fails
      before the agent is consulted: any two agents give the same result,
      the generic handler's message around the insufficient-text error. */
  lemma InsufficientTextSkipsAgent(text: string, a1: string -> AgentOutcome, a2: string -> AgentOutcome)
    requires Insufficient(text)
    ensures ExtractInvoiceData(Extracted(text), a1) == ExtractInvoiceData(Extracted(text), a2)
    ensures ExtractInvoiceData(Extracted(text), a1) == Failure(ValueErrorRaised(GENERIC_PREFIX + INSUFFICIENT_TEXT))
  {
  }

  /** The agent is consulted only on sufficient text, and only with the
      extracted text itself, unstripped: two agents that agree on it give
      the same result. */
  lemma AgentSeesOnlyTheText(read: ReadOutcome, a1: string -> AgentOutcome, a2: string -> AgentOutcome)
    requires read.Extracted? && !Insufficient(read.text) ==> a1(read.text) == a2(read.text)
    ensures ExtractInvoiceData(read, a1) == ExtractInvoiceData(read, a2)
  {
    assert TryBody(read, a1) == TryBody(read, a2);
  }

  /** An HTTP error gets the rate-limit message exactly when its message
      mentions 429 or, in any case, rate_limit, and the plain API message
      otherwise; it never gets the agent-execution message, although its
      class is a subclass of the one that clause catches. */
  lemma HttpErrorClassified(text: string, agent: string -> AgentOutcome)
    requires !Insufficient(text) && agent(text).HttpFailed?
    ensures var r := ExtractInvoiceData(Extracted(text), agent);
      var msg := agent(text).detail;
      && r.Failure?
      && (StartsWith(r.error.message, RATE_LIMIT_PREFIX) <==> IsRateLimit(msg))
      && (StartsWith(r.error.message, API_PREFIX) <==> !IsRateLimit(msg))
      && !StartsWith(r.error.message, AGENT_PREFIX)
  {
    var e := Raised(ModelHttpError, agent(text).detail);
    assert TryBody(Extracted(text), agent) == Failure(e);
    var h := Handle(e);
    assert ExtractInvoiceData(Extracted(text), agent) == Failure(ValueErrorRaised(h));
  }

  /** Each collaborator failure reaches the caller as a `ValueError` with
      the message of the handler that caught it; a missing file, despite
      being a `FileNotFoundError` inside, is one of them. */
  lemma FailureMessages(read: ReadOutcome, agent: string -> AgentOutcome)
    ensures var r := ExtractInvoiceData(read, agent);
      && (read.NotFound? ==> r == Failure(ValueErrorRaised(GENERIC_PREFIX + ("PDF file not found: " + read.path))))
      && (read.ReadFailed? ==> r == Failure(ValueErrorRaised(GENERIC_PREFIX + ("Error reading PDF file: " + read.detail))))
      && (read.Extracted? && !Insufficient(read.text) ==>
            match agent(read.text)
            case Output(record) => r == Success(record)
            case SchemaRejected(d) => r == Failure(ValueErrorRaised(VALIDATION_PREFIX + d))
            case HttpFailed(d) =>
              r == Failure(ValueErrorRaised(if IsRateLimit(d) then RATE_LIMIT_PREFIX + d else API_PREFIX + d))
            case RunFailed(d) => r == Failure(ValueErrorRaised(AGENT_PREFIX + d))
            case Crashed(d) => r == Failure(ValueErrorRaised(GENERIC_PREFIX + d)))
  {
  }

  /** Every failure message starts with exactly one handler's prefix and
      ends with the message of the exception that was caught. */
  lemma FailureHasOnePrefix(read: ReadOutcome, agent: string -> AgentOutcome)
    requires !read.Extracted? || Insufficient(read.text) || !agent(read.text).Output?
    ensures var m := ExtractInvoiceData(read, agent).error.message;
      && (StartsWith(m, VALIDATION_PREFIX) || StartsWith(m, RATE_LIMIT_PREFIX) || StartsWith(m, API_PREFIX)
          || StartsWith(m, AGENT_PREFIX) || StartsWith(m, GENERIC_PREFIX))
      && |TryBody(read, agent).error.message| <= |m|
      && m[|m| - |TryBody(read, agent).error.message|..] == TryBody(read, agent).error.message
  {
    var e := TryBody(read, agent).error;
    assert ExtractInvoiceData(read, agent).error.message == Handle(e);
  }

  /** A record comes back only from sufficient text, and it is the agent's
      output unchanged, so it satisfies the schema's invariant: digits-only
      tax ids, a canonical UF, non-negative amounts. */
  lemma ReturnedRecordIsAgentOutput(read: ReadOutcome, agent: string -> AgentOutcome)
    requires ExtractInvoiceData(read, agent).Success?
    ensures read.Extracted? && |Strip(read.text)| >= MIN_TEXT
    ensures Valid(ExtractInvoiceData(read, agent).value)
  {
  }
}
