/**
 * Rules both pages follow: how a request can end, how a caught value becomes
 * the page's error text, the snackbar, and which of spinner, error text and
 * content a page renders.
 */
module Shared {
  import opened RotationTypes

  /** A value caught by a handler's `catch`: an `Error` object or anything else. */
  datatype Thrown = ErrorObject(message: string) | NonError

  /**
   * How a request ends, as the handler sees it: a successful status with a
   * parsed body, a failing status with its status text, or a rejection
   * (network failure, unparsable body) carrying the thrown value.
   */
  datatype Response<+T> = Ok(payload: T) | NotOk(statusText: string) | Rejected(thrown: Thrown)

  /** The transient notification: whether it is shown, and its text. */
  datatype Snackbar = Snackbar(open: bool, message: string)

  const ClosedSnackbar := Snackbar(false, "")

  /** The text shown when the caught value is not an `Error`. */
  const UnknownErrorMessage: string := "不明なエラーが発生しました"

  /** The text every handler records for a caught value: an `Error`'s own message, else the fallback. */
  function ErrorMessage(t: Thrown): (m: string)
    ensures t.ErrorObject? ==> m == t.message
    ensures t.NonError? ==> m == UnknownErrorMessage
  {
    match t
    case ErrorObject(msg) => msg
    case NonError => UnknownErrorMessage
  }

  /**
   * What a failed request throws: a failing status throws a new `Error`
   * whose message is the handler's prefix followed by the status text; a
   * rejection passes its own value on.
   */
  function Raised<T>(r: Response<T>, prefix: string): (t: Thrown)
    requires !r.Ok?
    ensures r.NotOk? ==> t == ErrorObject(prefix + r.statusText)
    ensures r.Rejected? ==> t == r.thrown
  {
    if r.NotOk? then ErrorObject(prefix + r.statusText) else r.thrown
  }

  /**
   * The page error text a failed request leaves behind: the handler's
   * prefix followed by the status text for a failing status, the thrown
   * value's text for a rejection.
   */
  function FailureMessage<T>(r: Response<T>, prefix: string): (m: string)
    requires !r.Ok?
    ensures r.NotOk? ==> m == prefix + r.statusText
    ensures r.Rejected? && r.thrown.ErrorObject? ==> m == r.thrown.message
    ensures r.Rejected? && r.thrown.NonError? ==> m == UnknownErrorMessage
  {
    ErrorMessage(Raised(r, prefix))
  }

  /** A failing status is reported with its status text at the end, after the handler's prefix. */
  lemma FailureMessageNamesStatus<T>(r: Response<T>, prefix: string)
    requires r.NotOk?
    ensures |FailureMessage(r, prefix)| == |prefix| + |r.statusText|
    ensures FailureMessage(r, prefix)[..|prefix|] == prefix
    ensures FailureMessage(r, prefix)[|prefix|..] == r.statusText
  {
  }

  /** JavaScript truthiness of a nullable string: `null` and `""` are false. */
  predicate Truthy(s: Option<string>) {
    s.Some? && s.value != ""
  }

  /** What a page renders: only a spinner, only the error text, or its content. */
  datatype Screen<+C> = Spinner | ErrorText(message: string) | Content(content: C)

  /** The render priority of both pages: loading first, then a (truthy) error, then content. */
  function Choose<C>(loading: bool, error: Option<string>, content: C): (s: Screen<C>)
    ensures s.Spinner? <==> loading
    ensures s.ErrorText? <==> !loading && Truthy(error)
    ensures s.ErrorText? ==> error == Some(s.message)
    ensures s.Content? <==> !loading && !Truthy(error)
    ensures s.Content? ==> s.content == content
  {
    if loading then Spinner
    else if Truthy(error) then ErrorText(error.value)
    else Content(content)
  }
}
