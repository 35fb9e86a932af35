/** The `catch (err: unknown)` block shared by the sign-in and sign-up
    forms (BloggerWebApp/src/Pages/Login.tsx and Register.tsx): a thrown
    error becomes the text shown in the form's alert. */
module ErrorText {
  import opened Text
  import opened Models

  /** The browser's message for a request that never reached the server. */
  const FailedToFetch := "Failed to fetch"
  const NetworkError := "Network error."

  /** A message mentioning "Failed to fetch" is replaced by "Network error.";
      any other non-empty message is shown as it is; an empty message or a
      thrown value that is not an `Error` gives the form's fallback text. */
  function CatchMessage(err: Thrown, fallback: string): (shown: string)
    ensures fallback != "" ==> shown != ""
    ensures err.ErrorObject? && Includes(err.message, FailedToFetch) ==> shown == NetworkError
    ensures err.ErrorObject? && !Includes(err.message, FailedToFetch) && err.message != "" ==> shown == err.message
    ensures (err.ErrorObject? ==> err.message == "") ==> shown == fallback
  {
    match err
    case ErrorObject(m) =>
      if Includes(m, FailedToFetch) then NetworkError
      else if m != "" then m
      else fallback
    case OtherValue => fallback
  }

  /** The shown text never carries the browser's raw "Failed to fetch". */
  lemma CatchHidesFetchFailure(err: Thrown, fallback: string)
    requires !Includes(fallback, FailedToFetch)
    ensures !Includes(CatchMessage(err, fallback), FailedToFetch)
  {
    ShorterExcludes(NetworkError, FailedToFetch);
  }
}
