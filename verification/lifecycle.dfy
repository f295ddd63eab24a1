/**
 * The page's request lifecycle: the state held by the component
 * (`loading`, `result`, `error`, `lastSubmittedData`) and one pure
 * transition per handler, each returning the new state and the effect the
 * handler starts (a request to the scoring service or a file read).
 */
module Lifecycle {
  import opened Wrappers
  import opened Strings
  import opened JsValues
  import opened Normalizer
  import opened Input

  /** The component state the handlers change. */
  datatype Session = Session(
    loading: bool,
    result: Option<Value>,
    error: Option<string>,
    lastSubmitted: Option<Transaction>)

  /** The state on page load: idle, nothing shown, nothing remembered. */
  const Initial := Session(false, None, None, None)

  /** What a handler sets going, besides changing the state. */
  datatype Effect = NoEffect | SendRequest(payload: Transaction) | ReadFile(file: FileInfo)

  datatype Step = Step(session: Session, effect: Effect)

  /**
   * How an issued request ends: a success response with its parsed JSON body,
   * a non-success status with its body text (None when reading the text
   * failed), the 15-second abort, a `TypeError` from `fetch`, any other
   * `Error`, or a thrown value that is not an `Error`.
   */
  datatype Outcome =
    | Responded(body: Value)
    | HttpError(status: nat, bodyText: Option<string>)
    | Aborted
    | FetchTypeError(message: string)
    | Thrown(message: string)
    | NonErrorThrown

  /** `JSON.parse` of a file's text: a syntax error or the parsed object. */
  datatype JsonParse = SyntaxError | Document(data: map<string, Value>)

  const TimeoutMessage := "\U{26A0}\U{FE0F} Request timed out. The server might be slow or unreachable."
  const NetworkMessage := "\U{26A0}\U{FE0F} Network Error \U{2014} Please try again or check your connection."
  const UnexpectedMessage := "An unexpected error occurred"
  const UnknownBodyText := "Unknown error"
  const NotJsonMessage := "Please upload a JSON file"
  const InvalidJsonMessage := "Invalid JSON format. Please check your file."
  const EmptyReadMessage := "Failed to read file"
  const ReadErrorMessage := "Error reading file"

  /** The message of the error thrown for a non-success status, e.g. `API error (500): boom`. */
  function ApiErrorMessage(status: nat, bodyText: Option<string>): string {
    "API error (" + Decimal(status) + "): " + (match bodyText case Some(t) => t case None => UnknownBodyText)
  }

  /**
   * The synchronous part of `sendApiRequest`: raise the loading flag, clear
   * the previous result and error, then normalise. A record that normalises
   * is remembered and sent; otherwise the normaliser's message is shown and
   * nothing is sent.
   */
  function Submit(s: Session, data: map<string, Value>, parse: string -> Num): (r: Step)
    ensures r.effect.SendRequest? <==> Normalize(data, parse).Success?
    ensures r.effect.SendRequest? ==>
      && r.effect.payload == Normalize(data, parse).value
      && r.session == Session(true, None, None, Some(r.effect.payload))
    ensures !r.effect.SendRequest? ==>
      && r.effect.NoEffect?
      && r.session == Session(false, None, Some(Normalize(data, parse).error), s.lastSubmitted)
  {
    var entered := s.(loading := true, error := None, result := None);
    match Normalize(data, parse)
    case Success(t) => Step(entered.(lastSubmitted := Some(t)), SendRequest(t))
    case Failure(e) => Step(entered.(error := Some(e), loading := false), NoEffect)
  }

  /** The `catch` of `sendApiRequest`: which message each failed outcome shows. */
  function FailureMessage(o: Outcome): (msg: string)
    requires !o.Responded?
    ensures o.Aborted? ==> msg == TimeoutMessage
    ensures o.FetchTypeError? ==> (msg == NetworkMessage <==> Contains(o.message, "fetch") || o.message == NetworkMessage)
    ensures o.FetchTypeError? && msg != NetworkMessage ==> msg == o.message
    ensures o.Thrown? ==> msg == o.message
    ensures o.NonErrorThrown? ==> msg == UnexpectedMessage
    ensures o.HttpError? ==>
      var prefix := "API error (" + Decimal(o.status) + "): ";
      var detail := if o.bodyText.Some? then o.bodyText.value else UnknownBodyText;
      StartsWith(msg, prefix) && EndsWith(msg, detail) && |msg| == |prefix| + |detail|
  {
    match o
    case HttpError(status, text) =>
      ApiErrorMessage(status, text)
    case Aborted => TimeoutMessage
    case FetchTypeError(message) => if Contains(message, "fetch") then NetworkMessage else message
    case Thrown(message) => message
    case NonErrorThrown => UnexpectedMessage
  }

  /**
   * The asynchronous end of `sendApiRequest`: a success stores the parsed body
   * (a JSON `null` body clears the result, whatever it held), a failure stores
   * its message, and either way loading stops.
   */
  function Complete(s: Session, o: Outcome): (r: Session)
    ensures !r.loading && r.lastSubmitted == s.lastSubmitted
    ensures o.Responded? ==> r.error == s.error && r.result == (if o.body == Null then None else Some(o.body))
    ensures !o.Responded? ==> r.result == s.result && r.error == Some(FailureMessage(o))
  {
    match o
    case Responded(body) => s.(result := if body == Null then None else Some(body), loading := false)
    case _ => s.(error := Some(FailureMessage(o)), loading := false)
  }

  /** `handleRetry`: resend the remembered record, if there is one. */
  function Retry(s: Session, parse: string -> Num): (r: Step)
    ensures s.lastSubmitted.None? ==> r == Step(s, NoEffect)
    ensures s.lastSubmitted.Some? ==>
      && r.effect == SendRequest(s.lastSubmitted.value)
      && r.session == Session(true, None, None, s.lastSubmitted)
  {
    match s.lastSubmitted
    case None => Step(s, NoEffect)
    case Some(t) =>
      NormalizeEncodeRoundTrip(t, Upper, parse);
      Submit(s, Encode(t, Upper), parse)
  }

  /** `resetAll`: clear the result and the error; the remembered record and the loading flag stay. */
  function Reset(s: Session): (r: Session)
    ensures r.result.None? && r.error.None?
    ensures r.loading == s.loading && r.lastSubmitted == s.lastSubmitted
  {
    s.(result := None, error := None)
  }

  /**
   * The manual form's submit: ignored while a request is in flight (the
   * button is disabled) or while a field is invalid; otherwise the form's
   * upper-case object goes through `sendApiRequest`.
   */
  function SubmitForm(s: Session, form: FormValues, parse: string -> Num): (r: Step)
    ensures s.loading || !FormValid(form, parse) ==> r == Step(s, NoEffect)
    ensures !s.loading && FormValid(form, parse) ==>
      && r.effect == SendRequest(FromForm(form, parse))
      && r.session == Session(true, None, None, Some(FromForm(form, parse)))
  {
    if s.loading || !FormValid(form, parse) then
      Step(s, NoEffect)
    else
      FormSubmissionNormalizes(form, parse);
      Submit(s, FormToRaw(form, parse), parse)
  }

  /** `handleFileChange` and `handleDrop`: read the first file if it looks like JSON, else complain. */
  function ChooseFile(s: Session, file: Option<FileInfo>): (r: Step)
    ensures r.effect.ReadFile? <==> file.Some? && AcceptsFile(file.value)
    ensures r.effect.ReadFile? ==> r.effect.file == file.value && r.session == s
    ensures file.Some? && !AcceptsFile(file.value) ==>
      r.effect.NoEffect? && r.session == s.(error := Some(NotJsonMessage))
    ensures file.None? ==> r == Step(s, NoEffect)
  {
    match file
    case None => Step(s, NoEffect)
    case Some(f) => if AcceptsFile(f) then Step(s, ReadFile(f)) else Step(s.(error := Some(NotJsonMessage)), NoEffect)
  }

  /**
   * The reader's `onload`: an empty text counts as a failed read, text that
   * is not JSON shows the format message, and a parsed object goes through
   * `sendApiRequest`.
   */
  function FileLoaded(s: Session, text: string, parseJson: string -> JsonParse, parse: string -> Num): (r: Step)
    ensures text == "" ==> r == Step(s.(error := Some(EmptyReadMessage), loading := false), NoEffect)
    ensures text != "" && parseJson(text).SyntaxError? ==>
      r == Step(s.(error := Some(InvalidJsonMessage), loading := false), NoEffect)
    ensures r.effect.SendRequest? <==>
      text != "" && parseJson(text).Document? && Normalize(parseJson(text).data, parse).Success?
    ensures r.effect.SendRequest? ==> r.effect.payload == Normalize(parseJson(text).data, parse).value
    ensures text != "" && parseJson(text).Document? ==> r == Submit(s, parseJson(text).data, parse)
    ensures text != "" && parseJson(text).Document? && Normalize(parseJson(text).data, parse).Failure? ==>
      r == Step(Session(false, None, Some(Normalize(parseJson(text).data, parse).error), s.lastSubmitted), NoEffect)
    ensures r.effect.SendRequest? ==> r.session == Session(true, None, None, Some(r.effect.payload))
  {
    if text == "" then
      Step(s.(error := Some(EmptyReadMessage), loading := false), NoEffect)
    else
      match parseJson(text)
      case SyntaxError => Step(s.(error := Some(InvalidJsonMessage), loading := false), NoEffect)
      case Document(data) => Submit(s, data, parse)
  }

  /** The reader's `onerror`. */
  function FileReadFailed(s: Session): (r: Session)
    ensures r.error == Some(ReadErrorMessage) && !r.loading
    ensures r.result == s.result && r.lastSubmitted == s.lastSubmitted
  {
    s.(error := Some(ReadErrorMessage), loading := false)
  }

  /** Everything that can happen to the page. */
  datatype Event =
    | FormSubmitted(form: FormValues)
    | FileChosen(file: Option<FileInfo>)
    | FileRead(text: string)
    | FileReadError
    | RequestEnded(outcome: Outcome)
    | RetryClicked
    | ResetClicked

  /** The engine's number and JSON parsers, which the model leaves uninterpreted. */
  datatype Parsers = Parsers(number: string -> Num, json: string -> JsonParse)

  /** One event, dispatched to its handler. */
  function Next(s: Session, e: Event, p: Parsers): (r: Step)
    ensures r.effect.SendRequest? ==> r.session.lastSubmitted == Some(r.effect.payload)
    ensures r.effect.SendRequest? ==> r.session.loading && r.session.result.None? && r.session.error.None?
    ensures !r.effect.SendRequest? ==> r.session.lastSubmitted == s.lastSubmitted
    ensures r.effect.ReadFile? ==> e.FileChosen? && AcceptsFile(r.effect.file)
  {
    match e
    case FormSubmitted(form) => SubmitForm(s, form, p.number)
    case FileChosen(file) => ChooseFile(s, file)
    case FileRead(text) => FileLoaded(s, text, p.json, p.number)
    case FileReadError => Step(FileReadFailed(s), NoEffect)
    case RequestEnded(o) => Step(Complete(s, o), NoEffect)
    case RetryClicked => Retry(s, p.number)
    case ResetClicked => Step(Reset(s), NoEffect)
  }

  /** A run of events: the final state and the payloads sent, in order. */
  datatype Trace = Trace(session: Session, sent: seq<Transaction>)

  /** The page's handlers, as one step function from state and event to the step taken. */
  function Page(p: Parsers): (Session, Event) -> Step {
    (s, e) => Next(s, e, p)
  }

  /** Running a sequence of events through a step function, collecting the payloads sent. */
  function Run(s: Session, events: seq<Event>, next: (Session, Event) -> Step): Trace
    decreases |events|
  {
    if |events| == 0 then
      Trace(s, [])
    else
      var step := next(s, events[0]);
      var rest := Run(step.session, events[1..], next);
      if step.effect.SendRequest? then Trace(rest.session, [step.effect.payload] + rest.sent) else rest
  }

  /** A sent payload becomes the remembered record; a step that sends nothing leaves the record alone. */
  predicate KeepsSlot(s: Session, step: Step) {
    if step.effect.SendRequest? then step.session.lastSubmitted == Some(step.effect.payload)
    else step.session.lastSubmitted == s.lastSubmitted
  }

  /** Every handler of the page keeps the slot. */
  lemma PageKeepsSlot(p: Parsers)
    ensures forall s, e :: KeepsSlot(s, Page(p)(s, e))
  {
    forall s, e
      ensures KeepsSlot(s, Page(p)(s, e))
    {
      var step := Next(s, e, p);
      assert step.effect.SendRequest? ==> step.session.lastSubmitted == Some(step.effect.payload);
    }
  }

  /**
   * With handlers that keep the slot, the remembered record is a single slot
   * overwritten by each request: after any run of events it is the last
   * payload sent, or the starting one if nothing was sent.
   */
  lemma {:induction false} RunRemembersLastSent(s: Session, events: seq<Event>, next: (Session, Event) -> Step)
    requires forall s', e :: KeepsSlot(s', next(s', e))
    ensures var r := Run(s, events, next);
      && (|r.sent| == 0 ==> r.session.lastSubmitted == s.lastSubmitted)
      && (|r.sent| > 0 ==> r.session.lastSubmitted == Some(r.sent[|r.sent| - 1]))
    decreases |events|
  {
    if |events| > 0 {
      var step := next(s, events[0]);
      assert KeepsSlot(s, step);
      RunRemembersLastSent(step.session, events[1..], next);
    }
  }

  /** The page's own runs remember the last payload sent. */
  lemma PageRunRemembersLastSent(s: Session, events: seq<Event>, p: Parsers)
    ensures var r := Run(s, events, Page(p));
      && (|r.sent| == 0 ==> r.session.lastSubmitted == s.lastSubmitted)
      && (|r.sent| > 0 ==> r.session.lastSubmitted == Some(r.sent[|r.sent| - 1]))
  {
    PageKeepsSlot(p);
    RunRemembersLastSent(s, events, Page(p));
  }

  /** While a request is in flight no verdict is on display. */
  predicate NoResultWhileLoading(s: Session) {
    s.loading ==> s.result.None?
  }

  /** Every handler keeps "no verdict while loading". */
  lemma NextKeepsNoResultWhileLoading(s: Session, e: Event, p: Parsers)
    requires NoResultWhileLoading(s)
    ensures NoResultWhileLoading(Next(s, e, p).session)
  {
    match e
    case FileRead(text) =>
      if text != "" && p.json(text).Document? {
        assert Next(s, e, p) == Submit(s, p.json(text).data, p.number);
      }
    case _ =>
  }

  /** Starting from a state that shows no verdict while loading, no run of the page's events ever shows one. */
  lemma {:induction false} RunKeepsNoResultWhileLoading(s: Session, events: seq<Event>, p: Parsers)
    requires NoResultWhileLoading(s)
    ensures NoResultWhileLoading(Run(s, events, Page(p)).session)
    decreases |events|
  {
    if |events| > 0 {
      NextKeepsNoResultWhileLoading(s, events[0], p);
      assert Page(p)(s, events[0]) == Next(s, events[0], p);
      RunKeepsNoResultWhileLoading(Next(s, events[0], p).session, events[1..], p);
    }
  }

  /**
   * From page load, every run shows no verdict while loading and remembers
   * the last payload sent, or nothing if none was sent.
   */
  lemma {:induction false} RunsFromPageLoad(events: seq<Event>, p: Parsers)
    ensures var r := Run(Initial, events, Page(p));
      && NoResultWhileLoading(r.session)
      && (|r.sent| == 0 <==> r.session.lastSubmitted.None?)
      && (|r.sent| > 0 ==> r.session.lastSubmitted == Some(r.sent[|r.sent| - 1]))
  {
    RunKeepsNoResultWhileLoading(Initial, events, p);
    PageRunRemembersLastSent(Initial, events, p);
  }

  /**
   * A request that was sent and then ended leaves loading off, the record
   * remembered, and stores either the response body as the result (nothing
   * for a JSON `null` body) or the failure's message as the error, with the
   * other one cleared.
   */
  lemma SubmitThenComplete(s: Session, data: map<string, Value>, parse: string -> Num, o: Outcome)
    requires Submit(s, data, parse).effect.SendRequest?
    ensures var r := Complete(Submit(s, data, parse).session, o);
      && !r.loading
      && r.lastSubmitted == Some(Normalize(data, parse).value)
      && (o.Responded? ==> r.error.None? && (r.result.Some? <==> o.body != Null))
      && (o.Responded? && o.body != Null ==> r.result == Some(o.body))
      && (!o.Responded? ==> r.result.None? && r.error == Some(FailureMessage(o)))
      && (o.Aborted? ==> r.error == Some(TimeoutMessage))
      && (o.FetchTypeError? && Contains(o.message, "fetch") ==> r.error == Some(NetworkMessage))
  {
  }

  /** After a failed request, retry sends exactly the record that failed. */
  lemma RetryAfterFailureResendsSameRecord(s: Session, data: map<string, Value>, parse: string -> Num, o: Outcome)
    requires Submit(s, data, parse).effect.SendRequest? && !o.Responded?
    ensures var failed := Complete(Submit(s, data, parse).session, o);
      && failed.error.Some?
      && Retry(failed, parse).effect == SendRequest(Normalize(data, parse).value)
      && Retry(failed, parse).session.lastSubmitted == failed.lastSubmitted
  {
  }

  /**
   * The retry button is shown inside the error box, which renders only for a
   * non-empty error message, whenever a record is remembered.
   */
  predicate RetryOffered(s: Session) {
    s.error.Some? && s.error.value != "" && s.lastSubmitted.Some?
  }

  /**
   * Reset hides the retry button but does not forget the record: any event
   * after it that shows a non-empty error offers a retry, of the record sent
   * before the reset when the event itself sent nothing. A rejected file is
   * one such event.
   */
  lemma ResetKeepsRetryableRecord(s: Session, e: Event, p: Parsers, bad: FileInfo)
    requires s.lastSubmitted.Some? && !AcceptsFile(bad)
    ensures !RetryOffered(Reset(s))
    ensures var step := Next(Reset(s), e, p);
      step.session.error.Some? && step.session.error.value != "" ==>
        && RetryOffered(step.session)
        && (!step.effect.SendRequest? ==> step.session.lastSubmitted == s.lastSubmitted)
    ensures var after := ChooseFile(Reset(s), Some(bad)).session;
      RetryOffered(after) && after.lastSubmitted == s.lastSubmitted
  {
  }

  /** Rejecting a file does not clear a verdict already shown: verdict and error are then both on display. */
  lemma RejectedFileLeavesVerdict(s: Session, bad: FileInfo)
    requires s.result.Some? && !AcceptsFile(bad)
    ensures var after := ChooseFile(s, Some(bad)).session;
      after.result == s.result && after.error == Some(NotJsonMessage)
  {
  }

  /**
   * Only the form's button is disabled while loading: a file read that ends
   * during a request starts a second request.
   */
  lemma UploadWhileLoadingSendsAgain(s: Session, form: FormValues, text: string, p: Parsers)
    requires s.loading && text != "" && p.json(text).Document?
    requires Normalize(p.json(text).data, p.number).Success?
    ensures Next(s, FormSubmitted(form), p) == Step(s, NoEffect)
    ensures Next(s, FileRead(text), p).effect.SendRequest?
  {
  }
}
