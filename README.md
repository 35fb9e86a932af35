# Blog web app: a verified model of its client-side logic

This project models the logic of a small blog front end written in React
and TypeScript. The front end has two generations:

- the current app under `BloggerWebApp/src`;
- an older one under `src`.

Most of the front end is rendering. The parts that decide something are
modelled here:

- the password policy of the sign-up and profile forms;
- the submit chains of the sign-up, profile, sign-in, add-post and
  edit-post pages;
- the session-storage cache of the signed-in identity, and how the
  `GET /Auth/me` reply is classified;
- the two rules that decide who may edit a post and who sees "Manage Users";
- the administrator's user table: normalisation, the edit dialog, the
  two-step save, deletion and the add-user form;
- the shared error slot of the post mutations, and the counters for
  invalidation and `onDone`;
- the post forms of both generations;
- the row buttons and delete-confirmation dialogs of both post lists, with the callbacks their parents pass;
- the add-versus-update dispatch of the older app.

Network replies are inputs. A reply either reaches the client, with a
status and a body that may or may not parse, or `fetch` rejects with a
message. Navigation is a returned route. The clock is a parameter.

Modelling choices:

- **Strings.** Strings are sequences of Unicode scalar values.
  `Text.Utf16Length` gives JavaScript's `.length`, which counts UTF-16 code
  units. `Text.Trim` follows the WhiteSpace and LineTerminator productions
  of sections 12.2 and 12.3 of ECMA-262 (2023).
- **Regular expressions.** The password checks use the ASCII classes
  `[a-z]`, `[A-Z]`, `\d` and `[^A-Za-z0-9]`.
- **Classes and functions.** State that a handler updates in place is a
  class with `modifies` clauses. Examples are a page's fields, session
  storage and a mutation hook's error slot. Each handler is a method
  proved against a pure function. The properties the source promises are
  lemmas about those functions.

## Model

| member | source | states |
|---|---|---|
| Text.Trim | BloggerWebApp/src/Pages/Register.tsx:58-66 | `trim()` never lengthens a string. A non-empty result starts and ends with a non-whitespace character. |
| Text.TrimIsMiddle | BloggerWebApp/src/Pages/Register.tsx:90-93 | The trimmed string is a contiguous middle of the input. Everything cut off before and after it is whitespace. |
| Text.TrimEmptyIffBlank | BloggerWebApp/src/Pages/EditProfile.tsx:56-64 | `!s.trim()` holds exactly when every character of `s` is whitespace. |
| Text.TrimFixpoint | BloggerWebApp/src/Pages/Register.tsx:90-93 | Trimming leaves a string unchanged iff it is empty or both ends are not whitespace. |
| Text.TrimIdempotent | BloggerWebApp/src/Pages/Register.tsx:90-93 | Trimming a trimmed value changes nothing. |
| Text.Utf16Length | BloggerWebApp/src/Pages/Register.tsx:35 | `.length` is at least the number of characters and at most twice that. |
| Text.Utf16LengthBmp | BloggerWebApp/src/Pages/Register.tsx:35 | For characters of the Basic Multilingual Plane, `.length` is the number of characters. |
| Text.JoinLength | BloggerWebApp/src/Pages/Register.tsx:70 | `join(sep)` adds one separator between consecutive parts and no more. |
| Text.JoinStartsWithFirst | BloggerWebApp/src/Pages/EditProfile.tsx:74 | A joined message list starts with its first message. |
| Text.NatToStringRoundTrip | BloggerWebApp/src/Services/AuthService.ts:19 | The decimal text of a status is all digits and reads back as the same number. |
| Text.IntToStringInjective | BloggerWebApp/src/Pages/ViewPost.tsx:23 | Different numbers have different decimal texts, so templated routes and messages name one number each. |
| ErrorText.CatchMessage | BloggerWebApp/src/Pages/Login.tsx:49-58 | The `catch` block maps a message containing "Failed to fetch" to "Network error.". Any other non-empty message is shown as it is. An empty message or a non-`Error` value gives the fallback. The result is non-empty when the fallback is. |
| ErrorText.CatchHidesFetchFailure | BloggerWebApp/src/Pages/Register.tsx:131-140 | The shown text never contains "Failed to fetch" if the fallback does not. |
| PasswordPolicy.TestIffOccurs | BloggerWebApp/src/Pages/Register.tsx:38-49 | `/[class]/.test(s)` holds iff some character of `s` is in the class. |
| PasswordPolicy.FailingMembers | BloggerWebApp/src/Pages/Register.tsx:35-49 | A rule is listed iff it is checked and broken. |
| PasswordPolicy.FailingKeepsOrder | BloggerWebApp/src/Pages/Register.tsx:35-49 | The broken rules keep the order in which they are checked. |
| PasswordPolicy.FailedRulesExact | BloggerWebApp/src/Pages/Register.tsx:35-49 | The list is exactly the broken rules, each once, in the order length, lowercase, uppercase, digit, special. So it has at most five entries. |
| PasswordPolicy.FailedRules | BloggerWebApp/src/Pages/Register.tsx:32-52 | At most five rules are reported, and the length rule is reported iff the password has fewer than six code units. |
| PasswordPolicy.FailedRulesEmptyIffStrong | BloggerWebApp/src/Pages/Register.tsx:32-52 | No rule is broken iff the password has six or more code units, a lowercase letter, an uppercase letter, a digit and a non-alphanumeric character. |
| PasswordPolicy.FailedRulesUnfold | BloggerWebApp/src/Pages/Register.tsx:35-49 | The list is the five `if … push` steps concatenated in source order. |
| PasswordPolicy.EmptyBreaksAll | BloggerWebApp/src/Pages/Register.tsx:35-49 | The empty password breaks all five rules. |
| PasswordPolicy.OnlyLengthFails | BloggerWebApp/src/Pages/Register.tsx:35-49 | The rules are independent: "aB1!" breaks only the length rule. |
| PasswordPolicy.Describe | BloggerWebApp/src/Pages/Register.tsx:35-49 | There is one message per broken rule, in the same positions. |
| PasswordPolicy.DescribePush | BloggerWebApp/src/Pages/Register.tsx:35-37 | One guarded `push` extends the message list by that rule's entry. |
| PasswordPolicy.DescribeDistinct | BloggerWebApp/src/Pages/Register.tsx:35-49 | With one distinct wording per rule, the message list has no duplicates. |
| Register.SignUpErrorsMeaning | BloggerWebApp/src/Pages/Register.tsx:32-52 | The sign-up messages are empty iff the password is strong. A rule's message is present iff the rule is broken. There are at most five messages, with no duplicates. |
| Register.ValidatePassword | BloggerWebApp/src/Pages/Register.tsx:32-52 | The `push` chain returns exactly the sign-up messages of the broken rules. It is empty iff the password is strong. |
| Register.CheckSubmission | BloggerWebApp/src/Pages/Register.tsx:58-77 | An accepted form sends the trimmed username, display name, password and confirmation. A refused form gets a non-empty message. |
| Register.CheckSubmissionOrder | BloggerWebApp/src/Pages/Register.tsx:58-77 | A form is accepted iff its names are not blank, the untrimmed password is strong and the trimmed passwords agree. Otherwise the first failing check decides the message: blank username, blank display name, the policy messages joined with ". ", then the mismatch. |
| Register.TrailingSpaceIsSpecialButNotSent | BloggerWebApp/src/Pages/Register.tsx:68-93 | "abcDE1 " passes the policy because its space is the special character. The request then sends "abcDE1", which would fail it. |
| Register.TypedIsStrong | BloggerWebApp/src/Pages/Register.tsx:68-72 | "abcDE1 " is strong: the space counts as the special character. |
| Register.TrimDropsTrailingSpace | BloggerWebApp/src/Pages/Register.tsx:82-93 | Trimming "abcDE1 " gives "abcDE1", which trimming leaves as it is. |
| Register.SentIsWeak | BloggerWebApp/src/Pages/Register.tsx:82-93 | "abcDE1" is not strong: it has no special character. |
| Register.SubmitDisabled | BloggerWebApp/src/Pages/Register.tsx:146-147 | The button is disabled iff loading, or the password is non-empty and not strong. |
| Register.MismatchHint | BloggerWebApp/src/Pages/Register.tsx:231-236 | No hint shows while the confirmation is empty, or when the trimmed password and confirmation are equal. |
| Register.MismatchHintAgreesWithSubmit | BloggerWebApp/src/Pages/Register.tsx:74-77 | Once the earlier checks pass, the live mismatch hint predicts the submit mismatch error. The converse holds when the confirmation is non-empty. |
| Register.EmptyPasswordEnabledButRefused | BloggerWebApp/src/Pages/Register.tsx:68-72 | An empty password leaves the button enabled. `handleSubmit` would refuse it with all five policy messages, but the browser's required-field check stops the submit before `handleSubmit` runs. |
| Register.Complete | BloggerWebApp/src/Pages/Register.tsx:97-130 | A refused registration throws the reply's message: "Registration failed." if it has none, "Unexpected server response." if the body does not parse. After registering, a refused sign-in leads to "/login" and a successful one to "/". |
| Register.RegisterPage.Submit | BloggerWebApp/src/Pages/Register.tsx:54-95 | A refused form sets the message and returns before `loading` is set or anything is sent. An accepted form clears the message, sets `loading` and sends the trimmed body. |
| Register.RegisterPage.constructor | BloggerWebApp/src/Pages/Register.tsx:14-23 | The page starts with an empty form, no error, not loading and no success. |
| Register.RegisterPage.Settle | BloggerWebApp/src/Pages/Register.tsx:97-143 | The sign-in request goes out only after the registration succeeded, with the trimmed credentials. Success sets `success` and the route. Failure shows the caught message with fallback "Registration failed.". `loading` ends false. |
| EditProfile.ProfileErrorsMeaning | BloggerWebApp/src/Pages/EditProfile.tsx:41-49 | The empty password gets no message. Any other password gets none iff it is strong, one message per broken rule, at most five, without duplicates. |
| EditProfile.SameRulesAsSignUp | BloggerWebApp/src/Pages/EditProfile.tsx:43-47 | For a non-empty password the profile list and the sign-up list name the same rules, position by position. |
| EditProfile.ValidatePassword | BloggerWebApp/src/Pages/EditProfile.tsx:41-49 | The `pw &&`-guarded `push` chain returns exactly the profile messages. |
| EditProfile.CheckProfile | BloggerWebApp/src/Pages/EditProfile.tsx:56-79 | An accepted form is sent exactly as typed. A refused one gets a non-empty message. |
| EditProfile.CheckProfileOrder | BloggerWebApp/src/Pages/EditProfile.tsx:56-77 | A form is accepted iff the names are not blank and either both password fields are empty, or they are equal and strong. Otherwise the first failure decides: blank username, blank display name, untrimmed mismatch, then the policy messages joined with ", ". |
| EditProfile.ConfirmationAloneIsMismatch | BloggerWebApp/src/Pages/EditProfile.tsx:66-70 | Password "" with confirmation "x" gives "Passwords do not match". |
| EditProfile.NamesSentUntrimmed | BloggerWebApp/src/Pages/EditProfile.tsx:56-79 | Names are tested trimmed but sent as typed. |
| EditProfile.Prefill | BloggerWebApp/src/Pages/EditProfile.tsx:26-34 | A known user sets the username and the display name; the display name falls back to the user name. The password fields are untouched. With no user the form is unchanged. PrefillIdempotent and PrefilledDisplayNameFilled state what this guarantees. |
| EditProfile.PrefillIdempotent | BloggerWebApp/src/Pages/EditProfile.tsx:26-34 | Running the effect again for the same user changes nothing. |
| EditProfile.PrefilledDisplayNameFilled | BloggerWebApp/src/Pages/EditProfile.tsx:31 | The prefilled display name is empty only when both of the user's names are empty. |
| EditProfile.WithField | BloggerWebApp/src/Pages/EditProfile.tsx:36-39 | `handleChange` sets the named field and leaves every other field as it was. |
| EditProfile.ProfilePage.Submit | BloggerWebApp/src/Pages/EditProfile.tsx:52-79 | A refused form sets the message and sends nothing. An accepted form clears the message and sends the form. |
| EditProfile.ProfilePage.constructor | BloggerWebApp/src/Pages/EditProfile.tsx:17-24 | The form starts empty, with no error and no success. |
| EditProfile.ProfilePage.UserLoaded | BloggerWebApp/src/Pages/EditProfile.tsx:26-34 | When the current user arrives, the form becomes `Prefill` of the old form. The error and success flags stay. |
| EditProfile.ProfilePage.Change | BloggerWebApp/src/Pages/EditProfile.tsx:36-39 | `handleChange` sets the named field as `WithField` says. The error and success flags stay. |
| EditProfile.ProfilePage.Settle | BloggerWebApp/src/Pages/EditProfile.tsx:79-88 | Success sets `success` and leads to "/". Any failure shows "Update failed". |
| Session.FetchCurrentUser | BloggerWebApp/src/Services/AuthService.ts:9-22 | 401 yields "Not authenticated". Any other non-2xx status `s` yields "Error s". A 2xx reply with a body yields that user, and only such a reply succeeds. |
| Session.NotAuthenticatedOnlyFor401 | BloggerWebApp/src/Services/AuthService.ts:15-20 | Among replies that reach the server, "Not authenticated" comes from 401 and from no other status. |
| Session.StatusErrorIsNotUnauthenticated | BloggerWebApp/src/Services/AuthService.ts:15-20 | No "Error <status>" text equals "Not authenticated". |
| Session.InitialData | BloggerWebApp/src/Queries/useCurrentUser.ts:6-14 | The query starts from the stored "user" entry when there is one, and from nothing otherwise. ConfirmedIdentitySeedsNextLoad ties this to what a confirmed reply stores. |
| Session.StoredSummary | BloggerWebApp/src/Queries/useCurrentUser.ts:15-21 | A confirmed identity is stored as its id, user name and a one-element role list. That role is the first role, or "" when there are none. The display name is not stored. |
| Session.SessionAfter | BloggerWebApp/src/Queries/useCurrentUser.ts:15-26 | A confirmed identity with roles replaces the entry with its summary, and one without roles changes nothing. "Not authenticated" removes the entry, and any other error leaves the store as it was. |
| Session.OnlyUserKeyChanges | BloggerWebApp/src/Queries/useCurrentUser.ts:17-24 | No key other than "user" is written or removed. |
| Session.ClearedOnlyBy401 | BloggerWebApp/src/Queries/useCurrentUser.ts:22-26 | A failed reply from the server removes the stored user iff its status is 401. |
| Session.ConfirmedIdentitySeedsNextLoad | BloggerWebApp/src/Queries/useCurrentUser.ts:6-21 | After a confirmation, the next load starts from the stored summary, which holds exactly one role. |
| Session.SessionStorage.Refresh | BloggerWebApp/src/Queries/useCurrentUser.ts:11-26 | One run of the query classifies the reply, then runs `onSuccess` or `onError` on the store. |
| Session.SessionStorage.OnSuccess | BloggerWebApp/src/Queries/useCurrentUser.ts:15-21 | `onSuccess` leaves the store as `SessionAfter` of the confirmed identity. |
| Session.SessionStorage.OnError | BloggerWebApp/src/Queries/useCurrentUser.ts:22-26 | `onError` leaves the store as `SessionAfter` of the error. |
| ViewPost.NoUserNoControls | BloggerWebApp/src/Pages/ViewPost.tsx:82-83 | Without a current user, Edit and Delete are hidden. |
| ViewPost.IsAuthorOrAdmin | BloggerWebApp/src/Pages/ViewPost.tsx:82-83 | Edit and Delete show only for a signed-in user, and always for the post's author. |
| ViewPost.NonAuthorWithoutAdminRefused | BloggerWebApp/src/Pages/ViewPost.tsx:82-83 | A signed-in user who is not the author and has no "Admin" role gets no Edit or Delete. With IsAuthorOrAdmin and AdminMayActOnAnyPost this gives both directions of the rule. |
| ViewPost.RolelessJudgedByAuthorship | BloggerWebApp/src/Pages/ViewPost.tsx:83 | A user without a roles field sees the controls iff their id is the post's `authorId`. |
| ViewPost.AuthorNameIrrelevant | BloggerWebApp/src/Pages/ViewPost.tsx:83 | The displayed `author` plays no part in the decision. |
| ViewPost.AdminMayActOnAnyPost | BloggerWebApp/src/Pages/ViewPost.tsx:83 | A user holding "Admin" anywhere in their roles sees the controls on every post. |
| ViewPost.EditRouteInjective | BloggerWebApp/src/Pages/ViewPost.tsx:23 | Different post ids give different edit routes. |
| ViewPost.EditRoute | BloggerWebApp/src/Pages/ViewPost.tsx:22-24 | The edit route lies under "/post/". |
| ViewPost.ViewPostPage.constructor | BloggerWebApp/src/Pages/ViewPost.tsx:10-19 | The page keeps the route's id and starts with the dialog closed. |
| ViewPost.ViewPostPage.DeleteClick | BloggerWebApp/src/Pages/ViewPost.tsx:25 | Delete opens the confirmation. |
| ViewPost.ViewPostPage.DeleteSucceeded | BloggerWebApp/src/Pages/ViewPost.tsx:30-32 | A successful delete leads to "/". |
| ViewPost.ViewPostPage.Edit | BloggerWebApp/src/Pages/ViewPost.tsx:22-24 | Edit leads to `/post/{id}/edit` only when there is a post id. |
| ViewPost.ViewPostPage.DeleteConfirm | BloggerWebApp/src/Pages/ViewPost.tsx:26-35 | Confirming always closes the dialog. The delete is issued for the post id only when there is one. |
| ViewPost.ViewPostPage.DeleteCancel | BloggerWebApp/src/Pages/ViewPost.tsx:36 | Cancel closes the dialog without deleting. |
| Home.DeriveUser | BloggerWebApp/src/Pages/Home.tsx:27-34 | There is a derived user iff there is a current user. The display name falls back to the user name. The role is the first role, or "User" when roles are missing, empty or the first is "". |
| Home.FirstRole | BloggerWebApp/src/Pages/Home.tsx:27-34 | There is a first role iff the role list exists and is not empty, and it is one of the user's roles. |
| Home.ShowsManageUsers | BloggerWebApp/src/Pages/Home.tsx:103-112 | "Manage Users" appears only for a derived user, and never for one whose role is "User". |
| Home.ManageUsersIffFirstRoleAdmin | BloggerWebApp/src/Pages/Home.tsx:32-103 | "Manage Users" shows iff the first role is exactly "Admin". |
| Home.HomeAdminIsPostAdmin | BloggerWebApp/src/Pages/Home.tsx:103 | Whoever sees "Manage Users" may also edit and delete every post. |
| Home.AdminRulesDisagree | BloggerWebApp/src/Pages/Home.tsx:32-103 | With roles ["User", "Admin"], a user may edit anyone's post yet does not see "Manage Users". |
| Home.WithAuthor | BloggerWebApp/src/Pages/Home.tsx:42-48 | `handleAddPost` keeps title and content and sets the author to the user's id, or "" with no user. |
| Home.TypedAuthorIgnored | BloggerWebApp/src/Pages/Home.tsx:43-46 | Whatever author was typed is overwritten. |
| Home.HomePage.CloseForm | BloggerWebApp/src/Pages/Home.tsx:37-53 | Closing the form, like `onDone`, sets `formOpen` false and clears the selected post. |
| Home.HomePage.constructor | BloggerWebApp/src/Pages/Home.tsx:35-36 | The form starts closed with nothing selected. |
| Home.HomePage.AddPost | BloggerWebApp/src/Pages/Home.tsx:42-48 | The payload handed to the add mutation is `WithAuthor` of the draft and the derived user, so a typed author is dropped. |
| Home.HomePage.Logout | BloggerWebApp/src/Pages/Home.tsx:55-62 | Once the logout request is answered, whatever its status, the stored user is removed and the page reloads, so the next load starts without one. If the request is rejected, the handler throws: the stored user stays and nothing reloads. |
| PostMutations.FailureTextsDistinct | BloggerWebApp/src/Queries/usePostMutations.ts:19-44 | Each kind of mutation has its own failure text. |
| PostMutations.Step | BloggerWebApp/src/Queries/usePostMutations.ts:12-45 | A success clears the slot and invalidates once. It calls `onDone` only for add and update, and only if given. A failure sets that kind's text and does nothing else. LastOutcomeDecides and InvalidationsCountSuccesses state what sequences of steps do. |
| PostMutations.LastOutcomeDecides | BloggerWebApp/src/Queries/usePostMutations.ts:8-44 | After any sequence of outcomes, the slot holds what the last outcome left. |
| PostMutations.InvalidationsCountSuccesses | BloggerWebApp/src/Queries/usePostMutations.ts:13-39 | The list is invalidated once per success, of any kind. |
| PostMutations.DoneCallsCountAddAndUpdate | BloggerWebApp/src/Queries/usePostMutations.ts:14-27 | `onDone` runs once per successful add or update, and never without an `onDone`. |
| PostMutations.FailuresChangeOnlyTheMessage | BloggerWebApp/src/Queries/usePostMutations.ts:17-45 | A run of failures neither invalidates nor calls `onDone`. |
| PostMutations.MutationFeedback.Settle | BloggerWebApp/src/Queries/usePostMutations.ts:6-46 | Each callback changes the hook's state exactly as `Step` says. The slot starts empty. |
| PostMutations.MessageAfter | BloggerWebApp/src/Queries/usePostMutations.ts:12-45 | A success leaves no message. A failure leaves the failure text of its kind. |
| PostMutations.MutationFeedback.constructor | BloggerWebApp/src/Queries/usePostMutations.ts:6-8 | The slot starts empty and the counters at zero. |
| PostMutations.MutationFeedback.AddOrUpdateSucceeded | BloggerWebApp/src/Queries/usePostMutations.ts:12-29 | An add or update success changes the state as `Step` says. |
| PostMutations.MutationFeedback.DeleteSucceeded | BloggerWebApp/src/Queries/usePostMutations.ts:38-41 | A delete success changes the state as `Step` says. |
| PostMutations.MutationFeedback.Failed | BloggerWebApp/src/Queries/usePostMutations.ts:17-45 | A failure of any kind changes the state as `Step` says. |
| LegacyPostMutations.Step | src/Queries/usePostMutations.ts:8-29 | Success invalidates once. It calls `onDone` for add and update if given, never for delete. Failure changes nothing. AgreesWithErrorSlotVersion compares it with the newer hook. |
| LegacyPostMutations.AgreesWithErrorSlotVersion | src/Queries/usePostMutations.ts:8-29 | Over any sequence, the older hook invalidates and calls `onDone` exactly as the current one does. |
| LegacyPostMutations.FailuresChangeNothing | src/Queries/usePostMutations.ts:8-29 | Failures leave the counters as they were. |
| LegacyPostMutations.MutationCounts.constructor | src/Queries/usePostMutations.ts:5-7 | The counters start at zero. |
| LegacyPostMutations.MutationCounts.Settle | src/Queries/usePostMutations.ts:8-29 | Each settled mutation changes the counters exactly as `Step` says. |
| Login.Attempt | BloggerWebApp/src/Pages/Login.tsx:27-48 | Only a 2xx reply whose body parses signs in, with that body's user. A refusal throws its message: "Login failed." without one, "Unexpected server response." when the body does not parse. |
| Login.FailureTextShown | BloggerWebApp/src/Pages/Login.tsx:49-58 | A failed sign-in shows a non-empty text that never contains "Failed to fetch". |
| Login.ServerMessageShown | BloggerWebApp/src/Pages/Login.tsx:38-54 | A refusal with a message shows exactly that message, unless it mentions "Failed to fetch". |
| Login.LoginPage.Submit | BloggerWebApp/src/Pages/Login.tsx:22-36 | The error is cleared and `loading` set before the credentials go out as typed. |
| Login.LoginPage.constructor | BloggerWebApp/src/Pages/Login.tsx:7-13 | The page starts with empty credentials, no error and not loading. |
| Login.LoginPage.Type | BloggerWebApp/src/Pages/Login.tsx:15-20 | Typing sets the credentials only. |
| Login.LoginPage.Settle | BloggerWebApp/src/Pages/Login.tsx:38-61 | Success stores the user under "user" and leads to "/". Failure shows the caught message with fallback "Login failed." and leaves storage alone. `loading` ends false either way. |
| AddPost.NewPostFor | BloggerWebApp/src/Pages/AddPost.tsx:36-49 | A post is sent iff title and content are non-empty and someone is signed in. It keeps title and content as typed, with the user's id as both `author` and `authorId`. |
| AddPost.BlankTitleAccepted | BloggerWebApp/src/Pages/AddPost.tsx:39 | The guard tests truthiness, so a title of one space passes. |
| AddPost.RedirectFor | BloggerWebApp/src/Pages/AddPost.tsx:22-26 | A visitor is sent to "/login" iff nobody is signed in. RedirectedCannotSubmit states the consequence for the submit handler. |
| AddPost.RedirectedCannotSubmit | BloggerWebApp/src/Pages/AddPost.tsx:22-39 | A redirected visitor can never send a post. |
| AddPost.AddPostPage.Submit | BloggerWebApp/src/Pages/AddPost.tsx:36-49 | The submit handler sends what `NewPostFor` gives. |
| AddPost.SentPostOwnedBySender | BloggerWebApp/src/Pages/AddPost.tsx:36-49 | A post that is sent belongs to the signed-in user: its `authorId` is their id. |
| AddPost.AddPostPage.constructor | BloggerWebApp/src/Pages/AddPost.tsx:17-20 | The form starts with an empty title and content. |
| AddPost.AddPostPage.Type | BloggerWebApp/src/Pages/AddPost.tsx:28-34 | Typing sets the form to what was typed. |
| AddPost.AddPostPage.Done | BloggerWebApp/src/Pages/AddPost.tsx:15-53 | Success and Cancel both lead to "/". |
| EditPost.Prefill | BloggerWebApp/src/Pages/EditPost.tsx:26-33 | A loaded post sets exactly title and content. Before it loads the form is unchanged. UntouchedSaveSendsSamePost states the round trip through UpdatedPost. |
| EditPost.UpdatedPost | BloggerWebApp/src/Pages/EditPost.tsx:43-54 | A post is sent iff title and content are non-empty and the post has loaded. It is the loaded post with only title and content replaced. |
| EditPost.UntouchedSaveSendsSamePost | BloggerWebApp/src/Pages/EditPost.tsx:26-54 | Saving a prefilled form untouched sends the loaded post unchanged. |
| EditPost.PostRoute | BloggerWebApp/src/Pages/EditPost.tsx:56-69 | There is a route back to `/post/{id}` iff there is a post id. |
| EditPost.PostRouteInjective | BloggerWebApp/src/Pages/EditPost.tsx:59-67 | Different ids lead to different post pages. |
| EditPost.EditPostPage.Loaded | BloggerWebApp/src/Pages/EditPost.tsx:26-33 | The effect applies `Prefill`. |
| EditPost.EditPostPage.constructor | BloggerWebApp/src/Pages/EditPost.tsx:14-24 | The page keeps the route's id, starts with an empty form and has no post loaded. |
| EditPost.EditPostPage.Type | BloggerWebApp/src/Pages/EditPost.tsx:35-41 | Typing changes the form and leaves the loaded post as it is. |
| EditPost.EditPostPage.Submit | BloggerWebApp/src/Pages/EditPost.tsx:43-56 | The submit handler sends what `UpdatedPost` gives. |
| EditPost.EditPostPage.Back | BloggerWebApp/src/Pages/EditPost.tsx:56-69 | Success and Cancel navigate only when there is a post id. |
| ManageUsers.Normalize | BloggerWebApp/src/Pages/ManageUsers.tsx:40-45 | id and username are kept. An empty display name becomes the username, and an empty role becomes "User". NormalizeIdempotent and NormalizedRowsFilled state what this guarantees. |
| ManageUsers.NormalizeAll | BloggerWebApp/src/Pages/ManageUsers.tsx:40-45 | The list keeps its length and order, and each row is normalised. |
| ManageUsers.NormalizedRowsFilled | BloggerWebApp/src/Pages/ManageUsers.tsx:43-44 | Every stored row has a role, and has a display name whenever it has a username. |
| ManageUsers.NormalizeIdempotent | BloggerWebApp/src/Pages/ManageUsers.tsx:40-45 | Normalising twice equals normalising once. |
| ManageUsers.HasChangesMeaning | BloggerWebApp/src/Pages/ManageUsers.tsx:178-182 | `hasChanges` is false with nobody selected. Otherwise it is true iff the username, display name or role differs from the selected user's. |
| ManageUsers.HasChanges | BloggerWebApp/src/Pages/ManageUsers.tsx:178-182 | Changes exist only with a user selected, and the selected user's own fields count as no change. |
| ManageUsers.OpenedHasNoChanges | BloggerWebApp/src/Pages/ManageUsers.tsx:65-182 | Right after the dialog opens, nothing counts as changed. |
| ManageUsers.SaveRun | BloggerWebApp/src/Pages/ManageUsers.tsx:81-119 | The profile request goes first. The role request follows iff the profile succeeded and the role was edited. The save succeeds iff every sent request did, and the list is fetched again iff it succeeds. Errors start with "Failed to update user: ". |
| ManageUsers.RoleRefusalText | BloggerWebApp/src/Pages/ManageUsers.tsx:107-117 | A refused role change shows "Failed to update user: Failed to update role: <status>". |
| ManageUsers.DeleteRun | BloggerWebApp/src/Pages/ManageUsers.tsx:121-141 | One delete request. The list is fetched again iff it succeeded, and errors start with "Failed to delete user: ". |
| ManageUsers.AddRun | BloggerWebApp/src/Pages/ManageUsers.tsx:143-176 | Nothing is sent iff a required field is empty, the same condition that disables the button, and the required-fields message is shown. Otherwise one create request is sent. It succeeds iff the reply is 2xx, and only then is the list fetched again. |
| ManageUsers.AddDisabled | BloggerWebApp/src/Pages/ManageUsers.tsx:226 | The blank form is disabled. Filling the user name, display name and password enables it. |
| ManageUsers.CreateRefusalText | BloggerWebApp/src/Pages/ManageUsers.tsx:162-174 | A refusal with a message shows it after "Failed to create user: ". One without a message repeats that prefix before the status. |
| ManageUsers.ManageUsersPage.UsersFetched | BloggerWebApp/src/Pages/ManageUsers.tsx:33-51 | A parsed 2xx list replaces the table, normalised. Anything else keeps the table and shows "Failed to fetch users". |
| ManageUsers.ManageUsersPage.constructor | BloggerWebApp/src/Pages/ManageUsers.tsx:25-55 | The page starts with an empty table, blank forms, the dialog closed and the snackbar hidden. Mounting sends one fetch of the list. |
| ManageUsers.ManageUsersPage.Edit | BloggerWebApp/src/Pages/ManageUsers.tsx:271-285 | Typing in the edit dialog sets the edit fields only. |
| ManageUsers.ManageUsersPage.EditNewUser | BloggerWebApp/src/Pages/ManageUsers.tsx:197-219 | Typing in the add-user form sets that form only. |
| ManageUsers.ManageUsersPage.CloseSnackbar | BloggerWebApp/src/Pages/ManageUsers.tsx:61-63 | Only `open` changes. |
| ManageUsers.ManageUsersPage.OpenEditDialog | BloggerWebApp/src/Pages/ManageUsers.tsx:65-73 | Selects the user, copies their three fields and opens the dialog. Save is then disabled. |
| ManageUsers.ManageUsersPage.CloseEditDialog | BloggerWebApp/src/Pages/ManageUsers.tsx:75-79 | Closes the dialog, clears the selection and resets the fields to "", "" and "User". |
| ManageUsers.ManageUsersPage.SaveChanges | BloggerWebApp/src/Pages/ManageUsers.tsx:81-119 | Does nothing with nobody selected. Otherwise it sends `SaveRun`'s requests. Success reports, closes the dialog and refetches. Failure reports the error and keeps the dialog. |
| ManageUsers.ManageUsersPage.DeleteUser | BloggerWebApp/src/Pages/ManageUsers.tsx:121-141 | Does nothing with nobody selected. Otherwise it behaves as `DeleteRun` says, with the same close-on-success rule. |
| ManageUsers.ManageUsersPage.AddUser | BloggerWebApp/src/Pages/ManageUsers.tsx:143-176 | Behaves as `AddRun` says. Success resets the form to empty fields with `isAdmin` false; a failure keeps it. |
| PostForm.DraftOf | BloggerWebApp/src/Components/PostForm.tsx:19-29 | Opening with a post copies its title, author and content. Opening without one resets them to "". UntouchedEditSendsSamePost states the round trip through SubmissionOf. |
| PostForm.SubmissionOf | BloggerWebApp/src/Components/PostForm.tsx:31-45 | A submission happens iff all three fields are non-empty. Edit mode sends the original post with only title, author and content replaced. New mode sends exactly the three fields. |
| PostForm.UntouchedEditSendsSamePost | BloggerWebApp/src/Components/PostForm.tsx:19-41 | Submitting an untouched edit sends the post unchanged. |
| PostForm.FreshFormRefused | BloggerWebApp/src/Components/PostForm.tsx:27-32 | A freshly reset form cannot be submitted. |
| PostForm.PostFormDialog.HandleSubmit | BloggerWebApp/src/Components/PostForm.tsx:31-45 | `onSubmit` is called once with `SubmissionOf`, or not at all. `onClose` is never called. |
| PostForm.PostFormDialog.constructor | BloggerWebApp/src/Components/PostForm.tsx:12-29 | The dialog starts with the fields of `DraftOf` its post, and no call made. |
| PostForm.PostFormDialog.Sync | BloggerWebApp/src/Components/PostForm.tsx:19-29 | When `post` or `open` changes, the fields become `DraftOf` the new post. No call is made. |
| PostForm.PostFormDialog.Type | BloggerWebApp/src/Components/PostForm.tsx:56-72 | Typing sets the fields only. |
| PostForm.PostFormDialog.Cancel | BloggerWebApp/src/Components/PostForm.tsx:76 | Cancel calls `onClose` once and keeps the fields. |
| LegacyPostForm.IdFor | src/Components/PostForm.tsx:36 | The id is the post's own, or the clock's when there is no post or its id is 0. ZeroIdTakesClock and UntouchedEditKeepsPost state the consequences. |
| LegacyPostForm.SubmittedFor | src/Components/PostForm.tsx:31-43 | A submission happens iff all three fields are non-empty. It carries the typed fields, `IdFor`'s id, and the dates of the existing post or "". |
| LegacyPostForm.ZeroIdTakesClock | src/Components/PostForm.tsx:36 | A post whose id is 0 is resubmitted under the clock's value. |
| LegacyPostForm.UntouchedEditKeepsPost | src/Components/PostForm.tsx:19-38 | Submitting an untouched edit of a post with a non-zero id keeps its id, fields and dates. |
| LegacyPostForm.LegacyPostFormDialog.HandleSubmit | src/Components/PostForm.tsx:31-43 | A valid submit calls `onSubmit` once and then `onClose`. An invalid one calls neither. |
| LegacyPostForm.LegacyPostFormDialog.constructor | src/Components/PostForm.tsx:12-29 | The dialog starts with the fields of `DraftOf` its post, and no call made. |
| LegacyPostForm.LegacyPostFormDialog.Sync | src/Components/PostForm.tsx:19-29 | When `post` or `open` changes, the fields become `DraftOf` the new post. No call is made. |
| LegacyPostForm.LegacyPostFormDialog.Type | src/Components/PostForm.tsx:54-70 | Typing sets the fields only. |
| PostList.OnRowClick | BloggerWebApp/src/Components/PostList.tsx:83-85 | View and Edit call the parent's matching callback with that row's id. Delete opens the confirmation and never calls the parent. |
| PostList.ClickThrowsIffCallbackMissing | BloggerWebApp/src/Components/PostList.tsx:36-85 | A View or Edit click throws exactly when the parent did not pass that callback. A Delete click opens the confirmation for that row. |
| PostList.HomeRowButtonsThrow | BloggerWebApp/src/Pages/Home.tsx:133-135 | The home page passes no callbacks, so its View and Edit buttons throw. |
| PostList.DeleteRow | BloggerWebApp/src/Components/PostList.tsx:40-51 | Delete and then confirm calls `onDelete` with the row's id and closes the dialog. Without `onDelete` the confirmation throws and stays open, which is the home page's case. |
| PostList.DeleteDialog.DeleteClick | BloggerWebApp/src/Components/PostList.tsx:40-43 | Records the post and opens the dialog. |
| PostList.DeleteDialog.constructor | BloggerWebApp/src/Components/PostList.tsx:37-38 | The dialog starts closed with no post waiting. |
| PostList.DeleteDialog.DeleteConfirm | BloggerWebApp/src/Components/PostList.tsx:45-51 | With a recorded post and an `onDelete`, deletes its id once, then closes and clears. Without `onDelete` the call throws first, so the dialog stays open on the post. With no recorded post, nothing is sent and the dialog is closed. |
| PostList.DeleteDialog.DeleteCancel | BloggerWebApp/src/Components/PostList.tsx:53-56 | Closes and clears without deleting. |
| LegacyPostList.OnEditClick | src/Components/PostList.tsx:59 | Edit passes the whole post record. LegacyApp.EditRowThenResubmit follows it into the form and back out as an update. |
| LegacyPostList.OnDeleteClick | src/Components/PostList.tsx:60 | Delete asks to confirm the whole post record. LegacyApp.DeleteRow follows it to the delete request. |
| LegacyPostList.DeleteDialog.DeleteConfirm | src/Components/PostList.tsx:21-27 | With a recorded post, deletes its id once, then closes and clears. With none, nothing is sent and the dialog is closed. |
| LegacyPostList.DeleteDialog.constructor | src/Components/PostList.tsx:13-14 | The dialog starts closed with no post waiting. |
| LegacyPostList.DeleteDialog.DeleteClick | src/Components/PostList.tsx:16-19 | Records the post and opens the dialog. |
| LegacyPostList.DeleteDialog.DeleteCancel | src/Components/PostList.tsx:29-32 | Closes and clears without deleting. |
| LegacyApp.Dispatch | src/App.tsx:63 | A submission is an update iff a post is selected, and an add otherwise, carrying the submitted post. EditThenAddUpdates shows a stale selection turning "Add Post" into an update. |
| LegacyApp.App.ClickAdd | src/App.tsx:55 | "Add Post" opens the form and keeps the selection. |
| LegacyApp.App.constructor | src/App.tsx:12-13 | The app starts with nothing selected and the form closed. |
| LegacyApp.App.Submit | src/App.tsx:37-63 | The form's submission goes to the update mutation iff a post is selected, and to the add mutation otherwise, as `Dispatch` says. |
| LegacyApp.App.Delete | src/App.tsx:45-47 | The list's `onDelete` sends one delete request for the id. |
| LegacyApp.App.Edit | src/App.tsx:58 | Choosing Edit sets the selection only. |
| LegacyApp.App.Close | src/App.tsx:62 | Closing leaves the selection as it is. |
| LegacyApp.App.MutationSucceeded | src/App.tsx:18-34 | Each success invalidates the list once. |
| LegacyApp.EditThenAddUpdates | src/App.tsx:55-63 | Edit followed by "Add Post" and a submit sends an update, not an add. |
| LegacyApp.EditRowThenResubmit | src/App.tsx:55-64 | Edit on a list row, "Add Post" and an untouched submit send the row back as an update, with its own fields and dates. The id is the row's, or the clock's for id 0. An incomplete row sends nothing. |
| LegacyApp.DeleteRow | src/App.tsx:45-58 | Delete on a list row, then confirming, sends one delete request for that row's id. |

## Left out

- HTTP plumbing. The request functions of both `Services/PostService.ts` files and of `Queries/useUpdateProfile.ts` are not part of this model. Their replies enter as inputs.
- The react-query library: caching, refetching, `enabled` and the timing of callbacks. Invalidation is a counter. The `useCurrentUser` callbacks are passed through a type cast, and whether the library calls them is not visible. They are modelled as the transitions they are written to perform.
- Requests in flight at the same time. Their outcomes are modelled as a sequence of events in the order they settle.
- `formatDateForDisplay` in the pages and lists. It depends on `Date` parsing and the local time zone.
- `Date.now()` in the older post form is the parameter `now`.
- `parseInt` of the route's id. The id is given as an optional integer, so a `NaN` id is not modelled.
- Rendering, MUI widgets, the router table and `PostViewDialog.tsx`.
- `console.error` calls.
- `setTimeout` delays. Navigation is returned as a route with no delay.
- `window.location.reload` after sign-out. Whether it happens is returned as a flag.
- Native form validation. Register, Login, EditProfile, AddPost and EditPost mark their fields `required` inside a `<form>` without `noValidate`. The browser therefore blocks a submit with an empty required field before `handleSubmit` runs. The submit handlers are modelled on every input, the empty ones included.
- Lone surrogates. Strings are sequences of Unicode scalar values, while a JavaScript string is a sequence of UTF-16 code units that may hold an unpaired surrogate. No operation modelled here depends on one.
- `BloggerWebApp/src/Models/Post.ts` holds only record types. They are the datatypes of `Models`.
- `vite.config.ts` is build configuration.
- JSON. `JSON.stringify` followed by `JSON.parse` is taken to give back the same record.
- Missing values. A missing or `null` `displayName`, `role` or `message` is modelled as "". Each page tests these only for truthiness, where both are falsy. A missing `roles` list is kept apart from an empty one. Every other field is taken to be present, as the types in `Models/Post.ts` and `Services/AuthService.ts` declare.
- ViewPost.IsAuthorOrAdmin: `authorId` is taken to be present. The page compares `currentUser?.id === post.authorId`, so for a post without `authorId` a signed-out visitor would see Edit and Delete (`undefined === undefined`). The model does not show that case.
- Login.LoginPage.Settle: a successful reply without a `user` field would store the text "undefined". This model always has a user in a parsed sign-in body.
- Register.RegisterPage.Settle: the sign-up page writes the signed-in user to `localStorage`. Every reader of the identity uses `sessionStorage`, so that write has no effect here and is not modelled.
- ManageUsers.ManageUsersPage.SaveChanges, DeleteUser and AddUser: the text "Unknown error" is for a rejection that is not an `Error`. `fetch` rejects with a `TypeError`, so every failure here carries a message and that branch is not modelled.
- The home page's post form: the page renders its post form with `formOpen`, which nothing ever sets to true. The form therefore never opens there. The page's form handlers are modelled, but no sequence of events reaches them.
- EditProfile.ProfilePage.Settle: the update request's own error text is never shown. The page always shows "Update failed", which is what the model states.
