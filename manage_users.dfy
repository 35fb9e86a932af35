/** The administrator's user page, BloggerWebApp/src/Pages/ManageUsers.tsx:
    the normalised user list, the edit dialog, the two-step save, deletion,
    the add-user form and its guard, and the snackbar that reports each
    outcome.

    The replies of the backend are inputs. The requests the page sends are
    recorded in order, so that a model of the page can say which request
    was sent, and when. */
module ManageUsers {
  import opened Text
  import opened Models

  /** A row of the user table. */
  datatype User = User(id: string, username: string, displayName: string, role: string)

  /** `data.map(...)` on one record: a missing display name becomes the
      user name, a missing role becomes "User". */
  function Normalize(u: User): (r: User)
    ensures r.id == u.id && r.username == u.username
    ensures r.displayName == (if u.displayName != "" then u.displayName else u.username)
    ensures r.role == (if u.role != "" then u.role else "User")
  {
    User(
      u.id,
      u.username,
      if u.displayName != "" then u.displayName else u.username,
      if u.role != "" then u.role else "User")
  }

  /** The list `fetchUsers` stores: every record normalised, same length,
      same order. */
  function NormalizeAll(users: seq<User>): (r: seq<User>)
    ensures |r| == |users|
    ensures forall i :: 0 <= i < |users| ==> r[i] == Normalize(users[i])
  {
    seq(|users|, i requires 0 <= i < |users| => Normalize(users[i]))
  }

  /** Every stored row has a role, and a display name whenever it has a
      user name. */
  lemma NormalizedRowsFilled(users: seq<User>, i: nat)
    requires i < |users|
    ensures NormalizeAll(users)[i].role != ""
    ensures NormalizeAll(users)[i].username != "" ==> NormalizeAll(users)[i].displayName != ""
  {
  }

  /** Normalising a normalised list changes nothing. */
  lemma NormalizeIdempotent(users: seq<User>)
    ensures NormalizeAll(NormalizeAll(users)) == NormalizeAll(users)
  {
    var once := NormalizeAll(users);
    forall i | 0 <= i < |users|
      ensures NormalizeAll(once)[i] == once[i]
    {
      assert once[i] == Normalize(users[i]);
    }
  }

  /** The fields of the edit dialog. */
  datatype EditData = EditData(username: string, displayName: string, role: string)

  /** The edit data with nobody selected. */
  const BlankEdit := EditData("", "", "User")

  /** What `openEditDialog` copies out of the selected user. */
  function EditOf(u: User): EditData {
    EditData(u.username, u.displayName, u.role)
  }

  /** `hasChanges`, which enables Save: a user is selected and one of the
      three fields differs from theirs. */
  function HasChanges(current: Option<User>, edit: EditData): (changed: bool)
    ensures changed ==> current.Some?
    ensures current.Some? && edit == EditData(current.value.username, current.value.displayName, current.value.role) ==> !changed
  {
    current.Some? && EditOf(current.value) != edit
  }

  /** Save is disabled with nobody selected; with a user selected it is
      enabled exactly when a field was edited. */
  lemma HasChangesMeaning(current: Option<User>, edit: EditData)
    ensures current.None? ==> !HasChanges(current, edit)
    ensures current.Some? ==> (HasChanges(current, edit) <==>
      edit.username != current.value.username || edit.displayName != current.value.displayName
      || edit.role != current.value.role)
  {
  }

  /** Right after the dialog opens nothing counts as changed. */
  lemma OpenedHasNoChanges(u: User)
    ensures !HasChanges(Some(u), EditOf(u))
  {
  }

  /** The add-user form. */
  datatype NewUser = NewUser(username: string, displayName: string, password: string, isAdmin: bool)

  const BlankNewUser := NewUser("", "", "", false)

  /** The Add User button is disabled while a required field is empty. */
  function AddDisabled(n: NewUser): (disabled: bool)
    ensures n == BlankNewUser ==> disabled
    ensures n.username != "" && n.displayName != "" && n.password != "" ==> !disabled
  {
    n.username == "" || n.displayName == "" || n.password == ""
  }

  datatype Severity = Success | Error

  /** The snackbar state. */
  datatype Snackbar = Snackbar(open: bool, message: string, severity: Severity)

  /** The requests the page sends. */
  datatype Request =
    | FetchAll
    | UpdateProfile(id: string, username: string, displayName: string)
    | UpdateRole(id: string, role: string)
    | DeleteAccount(id: string)
    | CreateAccount(user: NewUser)

  const FetchFailedText := "Failed to fetch users"
  const UpdatedText := "User updated successfully"
  const DeletedText := "User deleted successfully"
  const CreatedText := "User created successfully"
  const RequiredText := "Username, display name, and password are required"

  /** `response.ok` of a reply that reached the server. */
  predicate Succeeded(reply: Reply<ServerMessage>) {
    reply.Response? && IsOk(reply.status)
  }

  /** The message of the error a failed step throws: the rejection's own
      message, or "Failed to <action>: <status>". */
  function StepError(action: string, reply: Reply<ServerMessage>): string {
    match reply
    case FetchFailed(message) => message
    case Response(status, _) => "Failed to " + action + ": " + IntToString(status)
  }

  /** What one handler does with its replies: the requests it sends, in
      order, and the error text it shows, if it fails. */
  datatype Run = Run(sent: seq<Request>, failure: Option<string>)

  /** `handleSaveChanges` for a selected user: the profile request first;
      the role request only after the profile succeeded and only if the role
      was edited; the list is fetched again only when everything succeeded.
      Each error is shown behind "Failed to update user: ". */
  function SaveRun(u: User, edit: EditData, profile: Reply<ServerMessage>, role: Reply<ServerMessage>): (r: Run)
    ensures r.sent != [] && r.sent[0] == UpdateProfile(u.id, edit.username, edit.displayName)
    ensures UpdateRole(u.id, edit.role) in r.sent <==> Succeeded(profile) && edit.role != u.role
    ensures forall i :: 1 <= i < |r.sent| ==> r.sent[i] == UpdateRole(u.id, edit.role) || r.sent[i] == FetchAll
    ensures r.failure.None? <==> Succeeded(profile) && (edit.role == u.role || Succeeded(role))
    ensures FetchAll in r.sent <==> r.failure.None?
    ensures r.failure.Some? ==> StartsWith(r.failure.value, "Failed to update user: ")
  {
    var first := [UpdateProfile(u.id, edit.username, edit.displayName)];
    if !Succeeded(profile) then
      Run(first, Some("Failed to update user: " + StepError("update user", profile)))
    else if edit.role == u.role then
      Run(first + [FetchAll], None)
    else if !Succeeded(role) then
      Run(first + [UpdateRole(u.id, edit.role)], Some("Failed to update user: " + StepError("update role", role)))
    else
      Run(first + [UpdateRole(u.id, edit.role), FetchAll], None)
  }

  /** The prefix is written twice: a refused role change reads
      "Failed to update user: Failed to update role: <status>". */
  lemma RoleRefusalText(u: User, edit: EditData, status: int, body: Body<ServerMessage>)
    requires edit.role != u.role && !IsOk(status)
    ensures SaveRun(u, edit, Response(200, body), Response(status, body)).failure
      == Some("Failed to update user: Failed to update role: " + IntToString(status))
  {
    var n := IntToString(status);
    assert "Failed to " + "update role" + ": " == "Failed to update role: ";
    assert "Failed to update user: " + ("Failed to update role: " + n)
      == "Failed to update user: Failed to update role: " + n;
  }

  /** `handleDeleteUser` for a selected user: one request, and the list is
      fetched again only on success. */
  function DeleteRun(u: User, reply: Reply<ServerMessage>): (r: Run)
    ensures r.sent != [] && r.sent[0] == DeleteAccount(u.id)
    ensures r.failure.None? <==> Succeeded(reply)
    ensures r.sent == (if Succeeded(reply) then [DeleteAccount(u.id), FetchAll] else [DeleteAccount(u.id)])
    ensures r.failure.Some? ==> StartsWith(r.failure.value, "Failed to delete user: ")
  {
    if Succeeded(reply) then Run([DeleteAccount(u.id), FetchAll], None)
    else Run([DeleteAccount(u.id)], Some("Failed to delete user: " + StepError("delete user", reply)))
  }

  /** The error `handleAddUser` throws for a refused or failed request: the
      reply's `message` when it has one, else "Failed to create user: <status>";
      a body that does not parse counts as having no message. */
  function CreateError(reply: Reply<ServerMessage>): string {
    match reply
    case FetchFailed(message) => message
    case Response(status, body) =>
      if body.Json? && body.value.message != "" then body.value.message
      else "Failed to create user: " + IntToString(status)
  }

  /** `handleAddUser`: refused without a request while a required field is
      empty; otherwise one create request, and the list is fetched again
      only on success. */
  function AddRun(n: NewUser, reply: Reply<ServerMessage>): (r: Run)
    ensures r.sent == [] <==> AddDisabled(n)
    ensures AddDisabled(n) ==> r.failure == Some(RequiredText)
    ensures !AddDisabled(n) ==> r.sent[0] == CreateAccount(n)
    ensures r.failure.None? <==> !AddDisabled(n) && Succeeded(reply)
    ensures FetchAll in r.sent <==> r.failure.None?
  {
    if AddDisabled(n) then Run([], Some(RequiredText))
    else if Succeeded(reply) then Run([CreateAccount(n), FetchAll], None)
    else Run([CreateAccount(n)], Some("Failed to create user: " + CreateError(reply)))
  }

  /** A refusal that carries a message shows it behind the prefix; one
      without repeats the prefix. */
  lemma CreateRefusalText(n: NewUser, status: int, message: string)
    requires !AddDisabled(n) && !IsOk(status)
    ensures message != "" ==>
      AddRun(n, Response(status, Json(ServerMessage(message)))).failure == Some("Failed to create user: " + message)
    ensures message == "" ==>
      AddRun(n, Response(status, Json(ServerMessage(message)))).failure
        == Some("Failed to create user: Failed to create user: " + IntToString(status))
  {
    var n := IntToString(status);
    assert "Failed to create user: " + ("Failed to create user: " + n)
      == "Failed to create user: Failed to create user: " + n;
  }

  /** The page's state. The dialog is open exactly while a user is selected. */
  class ManageUsersPage {
    var users: seq<User>
    var newUser: NewUser
    var editDialogOpen: bool
    var currentEditUser: Option<User>
    var editData: EditData
    var snackbar: Snackbar
    var requests: seq<Request>

    predicate Valid()
      reads this
    {
      editDialogOpen <==> currentEditUser.Some?
    }

    /** The initial state; the mount effect fetches the list. */
    constructor ()
      ensures Valid()
      ensures users == [] && newUser == BlankNewUser && !editDialogOpen
      ensures currentEditUser.None? && editData == BlankEdit
      ensures snackbar == Snackbar(false, "", Success) && requests == [FetchAll]
    {
      users := [];
      newUser := BlankNewUser;
      editDialogOpen := false;
      currentEditUser := None;
      editData := BlankEdit;
      snackbar := Snackbar(false, "", Success);
      requests := [FetchAll];
    }

    /** A `fetchUsers` reply: a parsed list replaces the table, normalised;
        anything else leaves the table and reports the failure. */
    method UsersFetched(reply: Reply<seq<User>>)
      modifies this
      ensures reply.Response? && IsOk(reply.status) && reply.body.Json? ==>
        users == NormalizeAll(reply.body.value) && snackbar == old(snackbar)
      ensures !(reply.Response? && IsOk(reply.status) && reply.body.Json?) ==>
        users == old(users) && snackbar == Snackbar(true, FetchFailedText, Error)
      ensures newUser == old(newUser) && editDialogOpen == old(editDialogOpen)
      ensures currentEditUser == old(currentEditUser) && editData == old(editData)
      ensures requests == old(requests)
    {
      if reply.Response? && IsOk(reply.status) && reply.body.Json? {
        users := NormalizeAll(reply.body.value);
      } else {
        snackbar := Snackbar(true, FetchFailedText, Error);
      }
    }

    /** `handleSnackbarClose`: only `open` changes. */
    method CloseSnackbar()
      modifies this
      ensures snackbar == old(snackbar).(open := false)
      ensures users == old(users) && newUser == old(newUser) && editDialogOpen == old(editDialogOpen)
      ensures currentEditUser == old(currentEditUser) && editData == old(editData)
      ensures requests == old(requests)
    {
      snackbar := snackbar.(open := false);
    }

    /** `openEditDialog`: select the user and copy their fields. */
    method OpenEditDialog(u: User)
      modifies this
      ensures Valid()
      ensures editDialogOpen && currentEditUser == Some(u) && editData == EditOf(u)
      ensures !HasChanges(currentEditUser, editData)
      ensures users == old(users) && newUser == old(newUser) && snackbar == old(snackbar)
      ensures requests == old(requests)
    {
      currentEditUser := Some(u);
      editData := EditData(u.username, u.displayName, u.role);
      editDialogOpen := true;
    }

    /** `closeEditDialog`: deselect and reset the fields. */
    method CloseEditDialog()
      modifies this
      ensures Valid()
      ensures !editDialogOpen && currentEditUser.None? && editData == BlankEdit
      ensures !HasChanges(currentEditUser, editData)
      ensures users == old(users) && newUser == old(newUser) && snackbar == old(snackbar)
      ensures requests == old(requests)
    {
      editDialogOpen := false;
      currentEditUser := None;
      editData := BlankEdit;
    }

    /** Typing in the edit dialog or choosing a role. */
    method Edit(data: EditData)
      modifies this
      ensures editData == data
      ensures users == old(users) && newUser == old(newUser) && snackbar == old(snackbar)
      ensures editDialogOpen == old(editDialogOpen) && currentEditUser == old(currentEditUser)
      ensures requests == old(requests)
    {
      editData := data;
    }

    /** Typing in the add-user form or ticking Admin Role. */
    method EditNewUser(n: NewUser)
      modifies this
      ensures newUser == n
      ensures users == old(users) && editData == old(editData) && snackbar == old(snackbar)
      ensures editDialogOpen == old(editDialogOpen) && currentEditUser == old(currentEditUser)
      ensures requests == old(requests)
    {
      newUser := n;
    }

    /** `handleSaveChanges`: nothing without a selection; otherwise the
        requests of `SaveRun`, then success closes the dialog, failure
        keeps it open with the error shown. */
    method SaveChanges(profile: Reply<ServerMessage>, role: Reply<ServerMessage>)
      requires Valid()
      modifies this
      ensures Valid()
      ensures users == old(users) && newUser == old(newUser)
      ensures old(currentEditUser).None? ==> !editDialogOpen
      ensures old(currentEditUser).None? ==>
        && snackbar == old(snackbar) && requests == old(requests)
        && editDialogOpen == old(editDialogOpen) && currentEditUser == old(currentEditUser) && editData == old(editData)
      ensures old(currentEditUser).Some? ==>
        requests == old(requests) + SaveRun(old(currentEditUser).value, old(editData), profile, role).sent
      ensures old(currentEditUser).Some? && SaveRun(old(currentEditUser).value, old(editData), profile, role).failure.None? ==>
        && snackbar == Snackbar(true, UpdatedText, Success)
        && !editDialogOpen && currentEditUser.None? && editData == BlankEdit
      ensures old(currentEditUser).Some? && SaveRun(old(currentEditUser).value, old(editData), profile, role).failure.Some? ==>
        && snackbar == Snackbar(true, SaveRun(old(currentEditUser).value, old(editData), profile, role).failure.value, Error)
        && editDialogOpen == old(editDialogOpen) && currentEditUser == old(currentEditUser) && editData == old(editData)
    {
      if currentEditUser.None? {
        return;
      }
      var u := currentEditUser.value;
      requests := requests + [UpdateProfile(u.id, editData.username, editData.displayName)];
      if !Succeeded(profile) {
        snackbar := Snackbar(true, "Failed to update user: " + StepError("update user", profile), Error);
        return;
      }
      if editData.role != u.role {
        requests := requests + [UpdateRole(u.id, editData.role)];
        if !Succeeded(role) {
          snackbar := Snackbar(true, "Failed to update user: " + StepError("update role", role), Error);
          return;
        }
      }
      snackbar := Snackbar(true, UpdatedText, Success);
      CloseEditDialog();
      requests := requests + [FetchAll];
    }

    /** `handleDeleteUser`: nothing without a selection; otherwise the
        requests of `DeleteRun`, with the same close-on-success rule. */
    method DeleteUser(reply: Reply<ServerMessage>)
      requires Valid()
      modifies this
      ensures Valid()
      ensures users == old(users) && newUser == old(newUser)
      ensures old(currentEditUser).None? ==> !editDialogOpen
      ensures old(currentEditUser).None? ==>
        && snackbar == old(snackbar) && requests == old(requests)
        && editDialogOpen == old(editDialogOpen) && currentEditUser == old(currentEditUser) && editData == old(editData)
      ensures old(currentEditUser).Some? ==>
        requests == old(requests) + DeleteRun(old(currentEditUser).value, reply).sent
      ensures old(currentEditUser).Some? && Succeeded(reply) ==>
        && snackbar == Snackbar(true, DeletedText, Success)
        && !editDialogOpen && currentEditUser.None? && editData == BlankEdit
      ensures old(currentEditUser).Some? && !Succeeded(reply) ==>
        && snackbar == Snackbar(true, DeleteRun(old(currentEditUser).value, reply).failure.value, Error)
        && editDialogOpen == old(editDialogOpen) && currentEditUser == old(currentEditUser) && editData == old(editData)
    {
      if currentEditUser.None? {
        return;
      }
      var u := currentEditUser.value;
      requests := requests + [DeleteAccount(u.id)];
      if !Succeeded(reply) {
        snackbar := Snackbar(true, "Failed to delete user: " + StepError("delete user", reply), Error);
        return;
      }
      snackbar := Snackbar(true, DeletedText, Success);
      CloseEditDialog();
      requests := requests + [FetchAll];
    }

    /** `handleAddUser`: the requests of `AddRun`; success resets the form,
        anything else keeps it and shows the error. */
    method AddUser(reply: Reply<ServerMessage>)
      modifies this
      ensures requests == old(requests) + AddRun(old(newUser), reply).sent
      ensures AddRun(old(newUser), reply).failure.None? ==>
        snackbar == Snackbar(true, CreatedText, Success) && newUser == BlankNewUser
      ensures AddRun(old(newUser), reply).failure.Some? ==>
        snackbar == Snackbar(true, AddRun(old(newUser), reply).failure.value, Error) && newUser == old(newUser)
      ensures users == old(users) && editData == old(editData)
      ensures editDialogOpen == old(editDialogOpen) && currentEditUser == old(currentEditUser)
    {
      if newUser.username == "" || newUser.displayName == "" || newUser.password == "" {
        snackbar := Snackbar(true, RequiredText, Error);
        return;
      }
      requests := requests + [CreateAccount(newUser)];
      if !Succeeded(reply) {
        snackbar := Snackbar(true, "Failed to create user: " + CreateError(reply), Error);
        return;
      }
      snackbar := Snackbar(true, CreatedText, Success);
      newUser := BlankNewUser;
      requests := requests + [FetchAll];
    }
  }
}
