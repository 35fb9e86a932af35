/** The sign-up page, BloggerWebApp/src/Pages/Register.tsx: its password
    policy, the stop-at-first-failure validation of `handleSubmit`, the
    register-then-login request sequence and the live form feedback. */
module Register {
  import opened Text
  import opened Models
  import opened PasswordPolicy
  import opened ErrorText

  /** The sign-up wording of each rule. */
  function SignUpMessage(rule: Rule): string {
    match rule
    case MinLength => "Password must be at least 6 characters long"
    case HasLower => "Password must contain at least one lowercase letter"
    case HasUpper => "Password must contain at least one uppercase letter"
    case HasDigit => "Password must contain at least one digit"
    case HasSpecial => "Password must contain at least one special character"
  }

  /** The messages `validatePassword` returns for `password`. */
  function SignUpErrors(password: string): seq<string> {
    Describe(FailedRules(password), SignUpMessage)
  }

  /** The list holds one message per broken rule, in the checking order,
      none twice, and is empty exactly for a strong password. */
  lemma SignUpErrorsMeaning(password: string)
    ensures SignUpErrors(password) == [] <==> Strong(password)
    ensures |SignUpErrors(password)| <= 5
    ensures forall r :: SignUpMessage(r) in SignUpErrors(password) <==> !Passes(password, r)
    ensures forall i, j :: 0 <= i < j < |SignUpErrors(password)| ==> SignUpErrors(password)[i] != SignUpErrors(password)[j]
  {
    FailedRulesEmptyIffStrong(password);
    FailedRulesExact(password);
    DescribeDistinct(FailedRules(password), SignUpMessage);
    var rules := FailedRules(password);
    forall r ensures SignUpMessage(r) in SignUpErrors(password) <==> !Passes(password, r) {
      if SignUpMessage(r) in SignUpErrors(password) {
        var i :| 0 <= i < |rules| && SignUpErrors(password)[i] == SignUpMessage(r);
        assert rules[i] == r;
      }
      if !Passes(password, r) {
        var i :| 0 <= i < |rules| && rules[i] == r;
        assert SignUpErrors(password)[i] == SignUpMessage(r);
      }
    }
  }

  /** `validatePassword`: one `push` per broken rule, in a chain of `if`s.
      The ghost `rules` records which rules have been pushed so far. */
  method ValidatePassword(password: string) returns (errors: seq<string>)
    ensures errors == SignUpErrors(password)
    ensures errors == [] <==> Strong(password)
  {
    errors := [];
    ghost var rules: seq<Rule> := [];
    DescribePush(errors, rules, password, MinLength, SignUpMessage);
    if Utf16Length(password) < 6 {
      errors := errors + [SignUpMessage(MinLength)];
    }
    rules := rules + Entry(password, MinLength);
    DescribePush(errors, rules, password, HasLower, SignUpMessage);
    if !Test(LowerLetter, password) {
      errors := errors + [SignUpMessage(HasLower)];
    }
    rules := rules + Entry(password, HasLower);
    DescribePush(errors, rules, password, HasUpper, SignUpMessage);
    if !Test(UpperLetter, password) {
      errors := errors + [SignUpMessage(HasUpper)];
    }
    rules := rules + Entry(password, HasUpper);
    DescribePush(errors, rules, password, HasDigit, SignUpMessage);
    if !Test(DecimalDigit, password) {
      errors := errors + [SignUpMessage(HasDigit)];
    }
    rules := rules + Entry(password, HasDigit);
    DescribePush(errors, rules, password, HasSpecial, SignUpMessage);
    if !Test(NonAlphanumeric, password) {
      errors := errors + [SignUpMessage(HasSpecial)];
    }
    rules := rules + Entry(password, HasSpecial);
    assert [] + Entry(password, MinLength) == Entry(password, MinLength);
    FailedRulesUnfold(password);
    FailedRulesEmptyIffStrong(password);
  }

  /** The four fields of the sign-up form, as typed. */
  datatype RegisterForm = RegisterForm(
    username: string,
    displayName: string,
    password: string,
    confirmPassword: string)

  /** The JSON body of `POST /auth/register`. */
  datatype RegisterBody = RegisterBody(
    username: string,
    displayName: string,
    password: string,
    confirmPassword: string)

  const UsernameRequired := "Username cannot be empty or contain spaces."
  const DisplayNameRequired := "Display name cannot be empty."
  const PasswordsDiffer := "Passwords do not match."
  const RegistrationFailed := "Registration failed."
  const UnexpectedResponse := "Unexpected server response."

  /** The validation chain of `handleSubmit`: the first failing check sets
      the error; a form that passes them all is sent with every field
      trimmed. The password rules see the password as typed, while the
      match check and the request see it trimmed. */
  function CheckSubmission(form: RegisterForm): (r: Result<RegisterBody>)
    ensures r.Ok? ==> r.value == RegisterBody(Trim(form.username), Trim(form.displayName),
                                              Trim(form.password), Trim(form.confirmPassword))
    ensures r.Err? ==> r.message != ""
  {
    var passwordErrors := SignUpErrors(form.password);
    if Trim(form.username) == [] then Err(UsernameRequired)
    else if Trim(form.displayName) == [] then Err(DisplayNameRequired)
    else if |passwordErrors| > 0 then
      JoinStartsWithFirst(passwordErrors, ". ");
      Err(Join(passwordErrors, ". "))
    else if Trim(form.password) != Trim(form.confirmPassword) then Err(PasswordsDiffer)
    else Ok(RegisterBody(Trim(form.username), Trim(form.displayName),
                         Trim(form.password), Trim(form.confirmPassword)))
  }

  /** Which check stops the submission: a blank username, then a blank
      display name, then a weak password (all its messages joined), then a
      confirmation that differs once both are trimmed. A form passing all
      four is accepted. */
  lemma CheckSubmissionOrder(form: RegisterForm)
    ensures CheckSubmission(form).Ok? <==>
      && !AllWhiteSpace(form.username)
      && !AllWhiteSpace(form.displayName)
      && Strong(form.password)
      && Trim(form.password) == Trim(form.confirmPassword)
    ensures AllWhiteSpace(form.username) ==> CheckSubmission(form) == Err(UsernameRequired)
    ensures !AllWhiteSpace(form.username) && AllWhiteSpace(form.displayName) ==>
      CheckSubmission(form) == Err(DisplayNameRequired)
    ensures !AllWhiteSpace(form.username) && !AllWhiteSpace(form.displayName) && !Strong(form.password) ==>
      CheckSubmission(form) == Err(Join(SignUpErrors(form.password), ". "))
    ensures (&& !AllWhiteSpace(form.username) && !AllWhiteSpace(form.displayName) && Strong(form.password)
             && Trim(form.password) != Trim(form.confirmPassword)) ==> CheckSubmission(form) == Err(PasswordsDiffer)
  {
    TrimEmptyIffBlank(form.username);
    TrimEmptyIffBlank(form.displayName);
    FailedRulesEmptyIffStrong(form.password);
  }

  /** "abcDE1 " keeps all five rules: its trailing space is the special character. */
  lemma TypedIsStrong()
    ensures Strong("abcDE1 ")
  {
    var typed := "abcDE1 ";
    assert InClass(typed[0], LowerLetter) && InClass(typed[3], UpperLetter);
    assert InClass(typed[5], DecimalDigit) && InClass(typed[6], NonAlphanumeric);
    assert Utf16Length(typed[6..]) == 1;
  }

  /** Trimming "abcDE1 " leaves "abcDE1". */
  lemma TrimDropsTrailingSpace()
    ensures Trim("abcDE1 ") == "abcDE1" && Trim("abcDE1") == "abcDE1"
  {
    var typed := "abcDE1 ";
    var sent := "abcDE1";
    assert !IsWhiteSpace(typed[5]);
    assert TrimStart(typed) == typed;
    assert typed[..6] == sent;
    assert TrimEnd(typed) == TrimEnd(typed[..6]);
    TrimFixpoint(sent);
  }

  /** "abcDE1" has no special character. */
  lemma SentIsWeak()
    ensures !Strong("abcDE1")
  {
    var sent := "abcDE1";
    forall i | 0 <= i < |sent| ensures !InClass(sent[i], NonAlphanumeric) {
    }
  }

  /** A trailing space counts as the special character, yet the request
      carries the trimmed password, which has none. */
  lemma TrailingSpaceIsSpecialButNotSent()
    ensures var form := RegisterForm("ann", "Ann", "abcDE1 ", "abcDE1");
      && CheckSubmission(form).Ok?
      && CheckSubmission(form).value.password == "abcDE1"
      && !Strong(CheckSubmission(form).value.password)
  {
    TypedIsStrong();
    TrimDropsTrailingSpace();
    SentIsWeak();
    var form := RegisterForm("ann", "Ann", "abcDE1 ", "abcDE1");
    assert !IsWhiteSpace(form.username[0]) && !IsWhiteSpace(form.displayName[0]);
    CheckSubmissionOrder(form);
  }

  /** `disabled={loading || hasPasswordErrors}`: the policy only counts once
      something has been typed into the password field. */
  function SubmitDisabled(loading: bool, password: string): (disabled: bool)
    ensures disabled <==> loading || (password != "" && !Strong(password))
  {
    SignUpErrorsMeaning(password);
    var passwordErrors := if password != "" then SignUpErrors(password) else [];
    loading || |passwordErrors| > 0
  }

  /** The "Passwords do not match" hint under the confirmation field. */
  function MismatchHint(form: RegisterForm): (shown: bool)
    ensures form.confirmPassword == "" ==> !shown
    ensures Trim(form.password) == Trim(form.confirmPassword) ==> !shown
  {
    form.confirmPassword != "" && Trim(form.password) != Trim(form.confirmPassword)
  }

  /** Once the earlier checks pass, the hint foretells the submit error,
      and a non-empty confirmation that submit rejects as different shows it. */
  lemma MismatchHintAgreesWithSubmit(form: RegisterForm)
    requires !AllWhiteSpace(form.username) && !AllWhiteSpace(form.displayName) && Strong(form.password)
    ensures MismatchHint(form) ==> CheckSubmission(form) == Err(PasswordsDiffer)
    ensures form.confirmPassword != "" && CheckSubmission(form) == Err(PasswordsDiffer) ==> MismatchHint(form)
  {
    CheckSubmissionOrder(form);
  }

  /** The button is enabled for an empty password, but submitting it is
      refused with all five rules. */
  lemma EmptyPasswordEnabledButRefused(username: string, displayName: string)
    requires !AllWhiteSpace(username) && !AllWhiteSpace(displayName)
    ensures !SubmitDisabled(false, "")
    ensures CheckSubmission(RegisterForm(username, displayName, "", "")) ==
      Err(Join(Describe(CheckOrder, SignUpMessage), ". "))
  {
    EmptyBreaksAll();
    FailedRulesEmptyIffStrong("");
    CheckSubmissionOrder(RegisterForm(username, displayName, "", ""));
  }

  /** How the awaited requests of `handleSubmit` end. */
  datatype Completion = Failed(err: Thrown) | Registered(route: string)

  /** After a successful registration the page signs in; a refused sign-in
      still counts as registered and leads to the sign-in page. Any thrown
      error ends the flow. */
  function Complete(registerReply: Reply<ServerMessage>, loginReply: Reply<LoginJson>): (c: Completion)
    ensures c.Registered? ==> registerReply.Response? && IsOk(registerReply.status) && loginReply.Response?
    ensures c.Registered? ==> (c.route == "/" <==> IsOk(loginReply.status))
    ensures c.Registered? ==> (c.route == "/login" <==> !IsOk(loginReply.status))
    ensures registerReply.Response? && !IsOk(registerReply.status) ==>
      c == Failed(ErrorObject(
        if registerReply.body.Json? && registerReply.body.value.message != ""
        then registerReply.body.value.message
        else if registerReply.body.Json? then RegistrationFailed else UnexpectedResponse))
    ensures c.Failed? ==> c.err.ErrorObject?
  {
    match registerReply
    case FetchFailed(m) => Failed(ErrorObject(m))
    case Response(status, body) =>
      if !IsOk(status) then
        match body
        case Malformed(_) => Failed(ErrorObject(UnexpectedResponse))
        case Json(data) => Failed(ErrorObject(if data.message != "" then data.message else RegistrationFailed))
      else
        match loginReply
        case FetchFailed(m) => Failed(ErrorObject(m))
        case Response(loginStatus, loginBody) =>
          if !IsOk(loginStatus) then Registered("/login")
          else
            match loginBody
            case Malformed(parseError) => Failed(ErrorObject(parseError))
            case Json(_) => Registered("/")
  }

  /** The state of the sign-up page. */
  class RegisterPage {
    var form: RegisterForm
    var error: string
    var loading: bool
    var success: bool

    constructor ()
      ensures form == RegisterForm("", "", "", "") && error == "" && !loading && !success
    {
      form := RegisterForm("", "", "", "");
      error := "";
      loading := false;
      success := false;
    }

    /** `handleSubmit` up to its first `await`: a failed check sets the
        error and returns before `loading` is set or anything is sent. */
    method Submit() returns (sent: Option<RegisterBody>)
      modifies this
      ensures form == old(form) && success == old(success)
      ensures CheckSubmission(form).Err? ==>
        sent == None && error == CheckSubmission(form).message && loading == old(loading)
      ensures CheckSubmission(form).Ok? ==>
        sent == Some(CheckSubmission(form).value) && error == "" && loading
    {
      match CheckSubmission(form) {
        case Err(message) =>
          error := message;
          sent := None;
        case Ok(body) =>
          error := "";
          loading := true;
          sent := Some(body);
      }
    }

    /** The rest of `handleSubmit`, once the registration request settles:
        the sign-in request is sent only after a successful registration,
        and `loading` is cleared whatever happens. */
    method Settle(registerReply: Reply<ServerMessage>, loginReply: Reply<LoginJson>)
      returns (loginSent: Option<Credentials>, route: Option<string>)
      modifies this
      ensures form == old(form) && !loading
      ensures loginSent.Some? <==> registerReply.Response? && IsOk(registerReply.status)
      ensures loginSent.Some? ==> loginSent.value == Credentials(Trim(form.username), Trim(form.password))
      ensures Complete(registerReply, loginReply).Registered? ==>
        success && error == old(error) && route == Some(Complete(registerReply, loginReply).route)
      ensures Complete(registerReply, loginReply).Failed? ==>
        success == old(success) && route == None
        && error == CatchMessage(Complete(registerReply, loginReply).err, RegistrationFailed)
        && error != ""
    {
      loginSent := None;
      route := None;
      if registerReply.Response? && IsOk(registerReply.status) {
        loginSent := Some(Credentials(Trim(form.username), Trim(form.password)));
      }
      var c := Complete(registerReply, loginReply);
      match c {
        case Failed(err) =>
          error := CatchMessage(err, RegistrationFailed);
        case Registered(target) =>
          success := true;
          route := Some(target);
      }
      loading := false;
    }
  }
}
