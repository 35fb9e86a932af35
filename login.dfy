/** The sign-in page, BloggerWebApp/src/Pages/Login.tsx: `handleSubmit`
    sends the credentials, maps every way the request can fail to the
    message shown, and on success caches the user in session storage. */
module Login {
  import opened Text
  import opened Models
  import opened ErrorText
  import Session

  const LoginFailed := "Login failed."
  const UnexpectedResponse := "Unexpected server response."

  /** How the `try` block ends: the user from the reply, or a thrown value. */
  datatype Completion = SignedIn(user: Identity) | Threw(err: Thrown)

  /** The `try` block: a rejected `fetch` throws its error; a failure reply
      throws its `message`, "Login failed." when it has none, or
      "Unexpected server response." when its body does not parse; a success
      reply whose body does not parse throws the parser's error. */
  function Attempt(reply: Reply<LoginJson>): (c: Completion)
    ensures c.SignedIn? <==> reply.Response? && IsOk(reply.status) && reply.body.Json?
    ensures c.SignedIn? ==> c.user == reply.body.value.user
    ensures c.Threw? ==> c.err.ErrorObject?
    ensures reply.Response? && !IsOk(reply.status) && reply.body.Malformed? ==>
      c == Threw(ErrorObject(UnexpectedResponse))
    ensures reply.Response? && !IsOk(reply.status) && reply.body.Json? ==>
      c == Threw(ErrorObject(if reply.body.value.message != "" then reply.body.value.message else LoginFailed))
  {
    match reply
    case FetchFailed(message) => Threw(ErrorObject(message))
    case Response(status, body) =>
      if !IsOk(status) then
        var message := if body.Json? then body.value.message else UnexpectedResponse;
        Threw(ErrorObject(if message != "" then message else LoginFailed))
      else
        match body
        case Json(data) => SignedIn(data.user)
        case Malformed(parseError) => Threw(ErrorObject(parseError))
  }

  /** The message a failed sign-in shows is never empty and never the
      browser's raw "Failed to fetch". */
  lemma FailureTextShown(reply: Reply<LoginJson>)
    requires Attempt(reply).Threw?
    ensures CatchMessage(Attempt(reply).err, LoginFailed) != ""
    ensures !Includes(CatchMessage(Attempt(reply).err, LoginFailed), FailedToFetch)
  {
    ShorterExcludes(LoginFailed, FailedToFetch);
    CatchHidesFetchFailure(Attempt(reply).err, LoginFailed);
  }

  /** A refusal with a message shows that message, unless it mentions
      "Failed to fetch". */
  lemma ServerMessageShown(status: int, message: string, user: Identity)
    requires !IsOk(status) && message != "" && !Includes(message, FailedToFetch)
    ensures CatchMessage(Attempt(Response(status, Json(LoginJson(message, user)))).err, LoginFailed) == message
  {
  }

  /** The state of the sign-in page. */
  class LoginPage {
    var form: Credentials
    var error: string
    var loading: bool

    constructor ()
      ensures form == Credentials("", "") && error == "" && !loading
    {
      form := Credentials("", "");
      error := "";
      loading := false;
    }

    /** `handleChange`: typing into either field. */
    method Type(typed: Credentials)
      modifies this
      ensures form == typed && error == old(error) && loading == old(loading)
    {
      form := typed;
    }

    /** `handleSubmit` up to the request: the error is cleared and
        `loading` set before the credentials go out, as typed. */
    method Submit() returns (sent: Credentials)
      modifies this
      ensures error == "" && loading && form == old(form)
      ensures sent == form
    {
      error := "";
      loading := true;
      sent := form;
    }

    /** The rest of `handleSubmit`: on success the user is cached and the
        page leads home; on failure the caught error is shown. `loading` is
        cleared either way (the `finally` block). */
    method Settle(reply: Reply<LoginJson>, storage: Session.SessionStorage) returns (route: Option<string>)
      modifies this, storage
      ensures !loading && form == old(form)
      ensures Attempt(reply).SignedIn? ==>
        && storage.entries == old(storage.entries)[Session.UserKey := Attempt(reply).user]
        && route == Some("/") && error == old(error)
      ensures Attempt(reply).Threw? ==>
        && storage.entries == old(storage.entries)
        && route == None && error == CatchMessage(Attempt(reply).err, LoginFailed)
    {
      var c := Attempt(reply);
      route := None;
      match c {
        case SignedIn(user) =>
          storage.SetItem(Session.UserKey, user);
          route := Some("/");
        case Threw(err) =>
          error := CatchMessage(err, LoginFailed);
      }
      loading := false;
    }
  }
}
