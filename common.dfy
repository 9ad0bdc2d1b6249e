/** Vocabulary shared by the session controller, the router and the form
    stores: optional values, the JavaScript truthiness test the code applies
    to the stored token, the abstract outcome of one HTTP request, how the
    promise an action returns settles, and the validation-error handler that
    every form store repeats in its `catch`. */
module Common {

  datatype Option<+T> = None | Some(value: T)

  /** Truthiness of a value that is either `null` (None) or a string:
      `null` and `""` are falsy, every other string is truthy. */
  predicate Truthy(v: Option<string>) {
    v.Some? && v.value != ""
  }

  /** The `errors` member of a validation-failure body: field name to its messages. */
  type ErrorBag = map<string, seq<string>>

  const NoErrors: ErrorBag := map[]

  /** What one request through the shared HTTP client comes back with: a
      successful response and its body, a response with an error status and
      the `errors` member of its body, or no response at all (the request
      never reached the server or its answer never arrived). */
  datatype Response<+T> =
    | Ok(payload: T)
    | HttpError(status: int, errors: ErrorBag)
    | NoResponse

  /** The status of the validation failures the form stores handle. */
  const UnprocessableStatus := 422

  /** Why the promise an action returns is rejected: with the request's own
      error (the chain has no `catch`), or with the TypeError a `catch` handler
      throws when it reads `error.response.status` of an error that has no
      response. */
  datatype Reason = OriginalError | TypeErrorInCatch

  /** How the promise an action returns settles. */
  datatype Settled = Fulfilled | Rejected(reason: Reason)

  /** A store action behind a re-entrancy guard either returns before it sends
      anything, or sends its request and settles. */
  datatype Submission = Skipped | Sent(settled: Settled)

  /** What the stores' shared `catch` handler does with a failed request:
      deposit the 422 body's errors, ignore any other status, or throw because
      there is no response to read a status from. */
  datatype Caught = SetErrors(bag: ErrorBag) | Ignored | Threw

  function CatchValidation<T>(resp: Response<T>): (c: Caught)
    requires !resp.Ok?
    ensures c.Threw? <==> resp.NoResponse?
    ensures c.SetErrors? <==> resp.HttpError? && resp.status == UnprocessableStatus
    ensures c.SetErrors? ==> c.bag == resp.errors
  {
    if resp.NoResponse? then Threw
    else if resp.status == UnprocessableStatus then SetErrors(resp.errors)
    else Ignored
  }

  /** The store's `errors` after the `catch` handler ran on `c`. */
  function ErrorsAfter(errors: Option<ErrorBag>, c: Caught): Option<ErrorBag> {
    if c.SetErrors? then Some(c.bag) else errors
  }

  /** How `request.then(..).catch(handler).finally(..)` settles once the
      request failed and the handler did `c`. */
  function SettledAfter(c: Caught): Settled {
    if c.Threw? then Rejected(TypeErrorInCatch) else Fulfilled
  }
}
