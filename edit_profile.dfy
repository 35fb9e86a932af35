/** The profile page, BloggerWebApp/src/Pages/EditProfile.tsx: its variant
    of the password policy (every rule skipped for an empty password), the
    stop-at-first-failure validation of `handleSubmit`, the prefill from
    the current user and the outcome of the update request. */
module EditProfile {
  import opened Text
  import opened Models
  import opened PasswordPolicy
  import Register

  /** The profile wording of each rule. */
  function ProfileMessage(rule: Rule): string {
    match rule
    case MinLength => "At least 6 characters"
    case HasLower => "One lowercase letter"
    case HasUpper => "One uppercase letter"
    case HasDigit => "One digit"
    case HasSpecial => "One special character"
  }

  /** The messages the profile `validatePassword` returns: none for an
      empty password, otherwise one per broken rule. */
  function ProfileErrors(password: string): seq<string> {
    if password == "" then [] else Describe(FailedRules(password), ProfileMessage)
  }

  /** An empty password gets no complaint; any other one gets one message
      per broken rule, in the checking order, none twice, and none at all
      exactly when it is strong. */
  lemma ProfileErrorsMeaning(password: string)
    ensures password == "" ==> ProfileErrors(password) == []
    ensures password != "" ==> (ProfileErrors(password) == [] <==> Strong(password))
    ensures |ProfileErrors(password)| <= 5
    ensures forall r :: ProfileMessage(r) in ProfileErrors(password) <==> password != "" && !Passes(password, r)
    ensures forall i, j :: 0 <= i < j < |ProfileErrors(password)| ==>
      ProfileErrors(password)[i] != ProfileErrors(password)[j]
  {
    if password != "" {
      FailedRulesEmptyIffStrong(password);
      FailedRulesExact(password);
      DescribeDistinct(FailedRules(password), ProfileMessage);
      var rules := FailedRules(password);
      forall r ensures ProfileMessage(r) in ProfileErrors(password) <==> !Passes(password, r) {
        if ProfileMessage(r) in ProfileErrors(password) {
          var i :| 0 <= i < |rules| && ProfileErrors(password)[i] == ProfileMessage(r);
          assert rules[i] == r;
        }
        if !Passes(password, r) {
          var i :| 0 <= i < |rules| && rules[i] == r;
          assert ProfileErrors(password)[i] == ProfileMessage(r);
        }
      }
    }
  }

  /** For a non-empty password both pages complain about the same rules in
      the same order; only the wording differs. */
  lemma SameRulesAsSignUp(password: string)
    requires password != ""
    ensures |ProfileErrors(password)| == |Register.SignUpErrors(password)|
    ensures forall i :: 0 <= i < |ProfileErrors(password)| ==>
      exists r :: ProfileErrors(password)[i] == ProfileMessage(r) && Register.SignUpErrors(password)[i] == Register.SignUpMessage(r)
  {
    var rules := FailedRules(password);
    forall i | 0 <= i < |ProfileErrors(password)|
      ensures exists r :: ProfileErrors(password)[i] == ProfileMessage(r) && Register.SignUpErrors(password)[i] == Register.SignUpMessage(r)
    {
      assert ProfileErrors(password)[i] == ProfileMessage(rules[i]);
    }
  }

  /** One guarded `if (pw && ...) errors.push(...)` step: nothing is pushed
      for an empty password, the rule's message otherwise when it is broken. */
  lemma GuardedPush(errors: seq<string>, rules: seq<Rule>, password: string, rule: Rule)
    requires errors == (if password == "" then [] else Describe(rules, ProfileMessage))
    ensures (if password != "" && !Passes(password, rule) then errors + [ProfileMessage(rule)] else errors)
      == (if password == "" then [] else Describe(rules + Entry(password, rule), ProfileMessage))
  {
    if password != "" {
      DescribePush(errors, rules, password, rule, ProfileMessage);
    }
  }

  /** `validatePassword`: five `if`s, each guarded by `pw &&`. The ghost
      `rules` records which rules have been looked at so far. */
  method ValidatePassword(pw: string) returns (errors: seq<string>)
    ensures errors == ProfileErrors(pw)
  {
    errors := [];
    ghost var rules: seq<Rule> := [];
    GuardedPush(errors, rules, pw, MinLength);
    if pw != "" && Utf16Length(pw) < 6 {
      errors := errors + [ProfileMessage(MinLength)];
    }
    rules := rules + Entry(pw, MinLength);
    GuardedPush(errors, rules, pw, HasLower);
    if pw != "" && !Test(LowerLetter, pw) {
      errors := errors + [ProfileMessage(HasLower)];
    }
    rules := rules + Entry(pw, HasLower);
    GuardedPush(errors, rules, pw, HasUpper);
    if pw != "" && !Test(UpperLetter, pw) {
      errors := errors + [ProfileMessage(HasUpper)];
    }
    rules := rules + Entry(pw, HasUpper);
    GuardedPush(errors, rules, pw, HasDigit);
    if pw != "" && !Test(DecimalDigit, pw) {
      errors := errors + [ProfileMessage(HasDigit)];
    }
    rules := rules + Entry(pw, HasDigit);
    GuardedPush(errors, rules, pw, HasSpecial);
    if pw != "" && !Test(NonAlphanumeric, pw) {
      errors := errors + [ProfileMessage(HasSpecial)];
    }
    rules := rules + Entry(pw, HasSpecial);
    assert [] + Entry(pw, MinLength) == Entry(pw, MinLength);
    FailedRulesUnfold(pw);
  }

  /** The four fields of the profile form; the same record is the body of
      `PUT /auth/editprofile`. */
  datatype ProfileForm = ProfileForm(
    username: string,
    displayName: string,
    password: string,
    confirmPassword: string)

  const EmptyForm := ProfileForm("", "", "", "")

  const UsernameRequired := "Username cannot be empty"
  const DisplayNameRequired := "Display name cannot be empty"
  const PasswordsDiffer := "Passwords do not match"
  const UpdateFailed := "Update failed"

  /** The validation chain of `handleSubmit`. The password checks run only
      when one of the two password fields is filled in; the match is
      checked first, on the fields as typed. A form that passes is sent as
      it is, untrimmed. */
  function CheckProfile(form: ProfileForm): (r: Result<ProfileForm>)
    ensures r.Ok? ==> r.value == form
    ensures r.Err? ==> r.message != ""
  {
    if Trim(form.username) == [] then Err(UsernameRequired)
    else if Trim(form.displayName) == [] then Err(DisplayNameRequired)
    else if form.password != "" || form.confirmPassword != "" then
      if form.password != form.confirmPassword then Err(PasswordsDiffer)
      else
        var pwErrors := ProfileErrors(form.password);
        if |pwErrors| > 0 then
          assert pwErrors[0] != "";
          Err(Join(pwErrors, ", "))
        else Ok(form)
    else Ok(form)
  }

  /** Which check stops the submission: a blank username, then a blank
      display name, then (only when a password field is filled in) two
      different password fields, then a weak password with its messages
      joined by ", ". Leaving both password fields empty keeps the
      current password. */
  lemma CheckProfileOrder(form: ProfileForm)
    ensures CheckProfile(form).Ok? <==>
      && !AllWhiteSpace(form.username)
      && !AllWhiteSpace(form.displayName)
      && form.password == form.confirmPassword
      && (form.password == "" || Strong(form.password))
    ensures AllWhiteSpace(form.username) ==> CheckProfile(form) == Err(UsernameRequired)
    ensures !AllWhiteSpace(form.username) && AllWhiteSpace(form.displayName) ==>
      CheckProfile(form) == Err(DisplayNameRequired)
    ensures (&& !AllWhiteSpace(form.username) && !AllWhiteSpace(form.displayName)
             && form.password != form.confirmPassword) ==> CheckProfile(form) == Err(PasswordsDiffer)
    ensures (&& !AllWhiteSpace(form.username) && !AllWhiteSpace(form.displayName)
             && form.password == form.confirmPassword && form.password != "" && !Strong(form.password)) ==>
      CheckProfile(form) == Err(Join(ProfileErrors(form.password), ", "))
  {
    TrimEmptyIffBlank(form.username);
    TrimEmptyIffBlank(form.displayName);
    ProfileErrorsMeaning(form.password);
  }

  /** Filling in only the confirmation is a mismatch, not a policy failure. */
  lemma ConfirmationAloneIsMismatch(username: string, displayName: string)
    requires !AllWhiteSpace(username) && !AllWhiteSpace(displayName)
    ensures CheckProfile(ProfileForm(username, displayName, "", "x")) == Err(PasswordsDiffer)
  {
    CheckProfileOrder(ProfileForm(username, displayName, "", "x"));
  }

  /** Names are checked trimmed but sent as typed: " ann " is accepted and
      sent with its spaces. */
  lemma NamesSentUntrimmed()
    ensures CheckProfile(ProfileForm(" ann ", "Ann", "", "")) == Ok(ProfileForm(" ann ", "Ann", "", ""))
  {
    var form := ProfileForm(" ann ", "Ann", "", "");
    assert !IsWhiteSpace(form.username[1]) && !IsWhiteSpace(form.displayName[0]);
    CheckProfileOrder(form);
  }

  /** The prefill effect: the names come from the current user, the display
      name falling back to the user name when empty; the password fields
      keep what was typed. Without a current user nothing changes. */
  function Prefill(form: ProfileForm, currentUser: Option<Identity>): (r: ProfileForm)
    ensures r.password == form.password && r.confirmPassword == form.confirmPassword
    ensures currentUser.None? ==> r == form
    ensures currentUser.Some? ==> r.username == currentUser.value.userName
    ensures currentUser.Some? && currentUser.value.displayName != "" ==> r.displayName == currentUser.value.displayName
    ensures currentUser.Some? && currentUser.value.displayName == "" ==> r.displayName == currentUser.value.userName
  {
    match currentUser
    case None => form
    case Some(user) =>
      form.(username := user.userName,
            displayName := if user.displayName != "" then user.displayName else user.userName)
  }

  /** The effect may run again for the same user without changing the form. */
  lemma PrefillIdempotent(form: ProfileForm, currentUser: Option<Identity>)
    ensures Prefill(Prefill(form, currentUser), currentUser) == Prefill(form, currentUser)
  {
  }

  /** A prefilled display name is empty only when the user has neither a
      display name nor a user name. */
  lemma PrefilledDisplayNameFilled(form: ProfileForm, user: Identity)
    ensures Prefill(form, Some(user)).displayName == "" <==> user.displayName == "" && user.userName == ""
  {
  }

  /** The form fields `handleChange` can set, by their `name` attribute. */
  datatype Field = Username | DisplayName | Password | ConfirmPassword

  /** `formData[name]`. */
  function FieldValue(form: ProfileForm, field: Field): string {
    match field
    case Username => form.username
    case DisplayName => form.displayName
    case Password => form.password
    case ConfirmPassword => form.confirmPassword
  }

  /** `{ ...prev, [name]: value }`: the named field takes the value and the
      others keep theirs. */
  function WithField(form: ProfileForm, field: Field, value: string): (r: ProfileForm)
    ensures FieldValue(r, field) == value
    ensures forall other :: other != field ==> FieldValue(r, other) == FieldValue(form, other)
  {
    match field
    case Username => form.(username := value)
    case DisplayName => form.(displayName := value)
    case Password => form.(password := value)
    case ConfirmPassword => form.(confirmPassword := value)
  }

  /** The update request succeeds when the reply is a 2xx response whose
      body parses; anything else rejects and reaches `onError`. */
  predicate UpdateSucceeded(reply: Reply<ServerMessage>) {
    reply.Response? && IsOk(reply.status) && reply.body.Json?
  }

  /** The state of the profile page. */
  class ProfilePage {
    var form: ProfileForm
    var errorMsg: string
    var success: bool

    constructor ()
      ensures form == EmptyForm && errorMsg == "" && !success
    {
      form := EmptyForm;
      errorMsg := "";
      success := false;
    }

    /** The prefill effect, run when the current user becomes known. */
    method UserLoaded(currentUser: Option<Identity>)
      modifies this
      ensures form == Prefill(old(form), currentUser)
      ensures errorMsg == old(errorMsg) && success == old(success)
    {
      if currentUser.Some? {
        var user := currentUser.value;
        form := form.(username := user.userName,
                      displayName := if user.displayName != "" then user.displayName else user.userName);
      }
    }

    /** `handleChange`: one field takes the typed value. */
    method Change(field: Field, value: string)
      modifies this
      ensures form == WithField(old(form), field, value)
      ensures errorMsg == old(errorMsg) && success == old(success)
    {
      form := WithField(form, field, value);
    }

    /** `handleSubmit` up to the mutation: a failed check sets the message
        and sends nothing; a passing form is sent unchanged. */
    method Submit() returns (sent: Option<ProfileForm>)
      modifies this
      ensures form == old(form) && success == old(success)
      ensures CheckProfile(form).Err? ==> sent == None && errorMsg == CheckProfile(form).message
      ensures CheckProfile(form).Ok? ==> sent == Some(form) && errorMsg == ""
    {
      errorMsg := "";
      var checked := CheckProfile(form);
      if checked.Err? {
        errorMsg := checked.message;
        sent := None;
      } else {
        sent := Some(form);
      }
    }

    /** The mutation's callbacks: success shows the confirmation and leads
        home; any failure shows the same fixed text, whatever the server said. */
    method Settle(reply: Reply<ServerMessage>) returns (route: Option<string>)
      modifies this
      ensures form == old(form)
      ensures UpdateSucceeded(reply) ==> success && errorMsg == old(errorMsg) && route == Some("/")
      ensures !UpdateSucceeded(reply) ==> errorMsg == UpdateFailed && success == old(success) && route == None
    {
      if UpdateSucceeded(reply) {
        success := true;
        route := Some("/");
      } else {
        errorMsg := UpdateFailed;
        route := None;
      }
    }
  }
}
