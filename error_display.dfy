/** What the error panel of src/components/ErrorDisplay.tsx decides: the status class of the
    error, the message it shows and which hint blocks it renders below the message. */
module ErrorDisplay {
  import opened Wrappers
  import opened Text
  import opened VideoTypes
  import VideoQueries

  const DefaultTitle := "Error Loading Videos"
  const UnknownError := "An unknown error occurred"

  /** The four causes the 403 block lists, in order. */
  const Causes403: seq<string> := [
    "API key restrictions in Google Cloud Console",
    "YouTube Data API v3 not enabled",
    "Daily quota limit exceeded (10,000 units/day)",
    "Domain not allowed in HTTP referrer restrictions"
  ]

  /** The hint blocks under the message. */
  datatype Hint = Forbidden403 | BadRequest400 | SeeConsole

  predicate Is403Error(err: Option<Failure>)
  {
    HasStatus(err, 403)
  }

  predicate Is400Error(err: Option<Failure>)
  {
    HasStatus(err, 400)
  }

  /** `err?.message || err?.response?.data?.error?.message || 'An unknown error occurred'`. */
  function ErrorMessage(err: Option<Failure>): (m: string)
    ensures m != ""
    ensures err.Some? && Truthy(err.value.message) ==> m == err.value.message.value
    ensures (err.Some? && !Truthy(err.value.message) && err.value.response.Some? &&
             Truthy(err.value.response.value.errorMessage))
      ==> m == err.value.response.value.errorMessage.value
    ensures (!(err.Some? && Truthy(err.value.message)) &&
             !(err.Some? && err.value.response.Some? && Truthy(err.value.response.value.errorMessage)))
      ==> m == UnknownError
    ensures m != UnknownError ==>
      (err.Some? && Truthy(err.value.message) && m == err.value.message.value) ||
      (err.Some? && err.value.response.Some? && Truthy(err.value.response.value.errorMessage) &&
       m == err.value.response.value.errorMessage.value)
  {
    if err.Some? && Truthy(err.value.message) then err.value.message.value
    else if err.Some? && err.value.response.Some? && Truthy(err.value.response.value.errorMessage) then
      err.value.response.value.errorMessage.value
    else UnknownError
  }

  /** The `title` prop with its default. */
  function Title(title: Option<string>): string
  {
    if title.Some? then title.value else DefaultTitle
  }

  /** The hint blocks rendered, in page order. */
  function Hints(err: Option<Failure>): seq<Hint>
  {
    (if Is403Error(err) then [Forbidden403] else []) +
    (if Is400Error(err) then [BadRequest400] else []) +
    (if !Is403Error(err) && !Is400Error(err) then [SeeConsole] else [])
  }

  /** The panel: title, message and hint blocks. */
  datatype Panel = Panel(title: string, message: string, hints: seq<Hint>)

  function Render(err: Option<Failure>, title: Option<string>): Panel
  {
    Panel(Title(title), ErrorMessage(err), Hints(err))
  }

  // ---------------------------------------------------------------- properties

  /** Each block appears exactly when its condition holds: the 403 block iff the error is a 403,
      the 400 block iff it is a 400, the console hint iff it is neither. So the console hint
      appears exactly when no status block does; a 403 alone shows neither the 400 block nor
      the hint. */
  lemma HintsChosen(err: Option<Failure>)
    ensures Forbidden403 in Hints(err) <==> Is403Error(err)
    ensures BadRequest400 in Hints(err) <==> Is400Error(err)
    ensures SeeConsole in Hints(err) <==> !Is403Error(err) && !Is400Error(err)
    ensures (Forbidden403 in Hints(err) || BadRequest400 in Hints(err)) != (SeeConsole in Hints(err))
    ensures 1 <= |Hints(err)| <= 2
  {
    if Is403Error(err) && Is400Error(err) {
      assert Hints(err) == [Forbidden403, BadRequest400];
    } else if Is403Error(err) {
      assert Hints(err) == [Forbidden403];
    } else if Is400Error(err) {
      assert Hints(err) == [BadRequest400];
    } else {
      assert Hints(err) == [SeeConsole];
    }
  }

  /** An error whose own status is 403 while its response says 400 gets both blocks. */
  lemma BothBlocks(message: Option<string>)
    ensures Hints(Some(Failure(message, Some(403), Some(ErrorResponse(Some(400), None))))) == [Forbidden403, BadRequest400]
  {
  }

  /** A missing error is neither a 403 nor a 400, reads as an unknown error and gets the console
      hint alone. */
  lemma NoError(title: Option<string>)
    ensures !Is403Error(None) && !Is400Error(None)
    ensures Render(None, title) == Panel(Title(title), UnknownError, [SeeConsole])
  {
  }

  /** The message prefers the error's own message, then the API's message, then the fallback,
      whatever statuses the error carries: a 403 from the API shows the API's explanation. */
  lemma MessageFallback(m: string, apiMessage: string, status: Option<int>, apiStatus: Option<int>)
    requires m != "" && apiMessage != ""
    ensures ErrorMessage(Some(Failure(Some(m), status, Some(ErrorResponse(apiStatus, Some(apiMessage)))))) == m
    ensures ErrorMessage(Some(Failure(Some(""), status, Some(ErrorResponse(apiStatus, Some(apiMessage)))))) == apiMessage
    ensures ErrorMessage(Some(Failure(None, status, Some(ErrorResponse(apiStatus, Some(apiMessage)))))) == apiMessage
    ensures ErrorMessage(Some(Failure(None, status, Some(ErrorResponse(apiStatus, Some("")))))) == UnknownError
    ensures ErrorMessage(Some(Failure(None, status, None))) == UnknownError
    ensures Is403Error(Some(Failure(None, None, Some(ErrorResponse(Some(403), Some(apiMessage))))))
  {
  }

  /** Without a title the panel reads "Error Loading Videos". */
  lemma DefaultTitleShown(err: Option<Failure>)
    ensures Render(err, None).title == "Error Loading Videos"
  {
  }

  /** The console hint is shown exactly for the errors the query hooks would have retried after
      a first failure: the statuses that stop retries are the ones that get their own block. */
  lemma HintMatchesRetry(err: Option<Failure>)
    ensures SeeConsole in Hints(err) <==> VideoQueries.Retry(0, err)
  {
  }
}
