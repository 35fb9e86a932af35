/** The home page, BloggerWebApp/src/Pages/Home.tsx: the user record derived
    from the current identity, the rule that shows "Manage Users", the
    author injected into a new post, and the form and logout handlers. */
module Home {
  import opened Models
  import ViewPost
  import Session

  /** The page's own user record. */
  datatype HomeUser = HomeUser(id: string, userName: string, displayName: string, role: string)

  /** The first role, when there is a role list and it is not empty. */
  function FirstRole(roles: Option<seq<string>>): (first: Option<string>)
    ensures first.Some? <==> roles.Some? && roles.value != []
    ensures first.Some? ==> first.value in roles.value
  {
    if roles.Some? && roles.value != [] then Some(roles.value[0]) else None
  }

  /** The derived `user`: none without a current identity; otherwise the
      display name falls back to the user name and the role is the first
      role, or "User" when there is none or it is empty. */
  function DeriveUser(currentUser: Option<Identity>): (user: Option<HomeUser>)
    ensures user.Some? <==> currentUser.Some?
    ensures user.Some? ==> user.value.id == currentUser.value.id && user.value.userName == currentUser.value.userName
    ensures user.Some? && currentUser.value.displayName != "" ==> user.value.displayName == currentUser.value.displayName
    ensures user.Some? && currentUser.value.displayName == "" ==> user.value.displayName == currentUser.value.userName
    ensures user.Some? ==> user.value.role != ""
    ensures user.Some? && FirstRole(currentUser.value.roles).Some? && FirstRole(currentUser.value.roles).value != "" ==>
      user.value.role == FirstRole(currentUser.value.roles).value
    ensures user.Some? ==> (user.value.role == "User" <==>
      FirstRole(currentUser.value.roles) in {None, Some(""), Some("User")})
  {
    match currentUser
    case None => None
    case Some(u) =>
      var first := FirstRole(u.roles);
      Some(HomeUser(
        u.id,
        u.userName,
        if u.displayName != "" then u.displayName else u.userName,
        if first.Some? && first.value != "" then first.value else "User"))
  }

  /** "Manage Users" is shown only to a user whose derived role is "Admin". */
  function ShowsManageUsers(user: Option<HomeUser>): (shown: bool)
    ensures shown ==> user.Some?
    ensures user.Some? && user.value.role == "User" ==> !shown
  {
    user.Some? && user.value.role == "Admin"
  }

  /** The button shows exactly when the first role is "Admin". */
  lemma ManageUsersIffFirstRoleAdmin(currentUser: Option<Identity>)
    ensures ShowsManageUsers(DeriveUser(currentUser)) <==>
      currentUser.Some? && FirstRole(currentUser.value.roles) == Some("Admin")
  {
  }

  /** Whoever sees "Manage Users" may also edit and delete every post. */
  lemma HomeAdminIsPostAdmin(currentUser: Option<Identity>, post: Post)
    requires ShowsManageUsers(DeriveUser(currentUser))
    ensures ViewPost.IsAuthorOrAdmin(currentUser, post)
  {
    ManageUsersIffFirstRoleAdmin(currentUser);
    assert currentUser.value.roles.value[0] == "Admin";
  }

  /** The converse fails: the post page looks for "Admin" anywhere in the
      role list, the home page only at its head. */
  lemma AdminRulesDisagree()
    ensures var user := Some(Identity("u1", "ann", "", Some(["User", "Admin"])));
      var post := Post(1, "t", "bob", "u2", "c", "", "");
      ViewPost.IsAuthorOrAdmin(user, post) && !ShowsManageUsers(DeriveUser(user))
  {
    var roles := ["User", "Admin"];
    assert roles[1] == "Admin";
    assert FirstRole(Some(roles)) == Some("User");
  }

  /** `handleAddPost`: the post keeps its title and content, and its author
      becomes the signed-in user's id, or "" without one. */
  function WithAuthor(draft: Draft, user: Option<HomeUser>): (payload: Draft)
    ensures payload.title == draft.title && payload.content == draft.content
    ensures user.None? ==> payload.author == ""
    ensures user.Some? ==> payload.author == user.value.id
  {
    draft.(author := if user.Some? && user.value.id != "" then user.value.id else "")
  }

  /** Whatever was typed as the author never reaches the request. */
  lemma TypedAuthorIgnored(draft: Draft, typed: string, user: Option<HomeUser>)
    ensures WithAuthor(draft.(author := typed), user) == WithAuthor(draft, user)
  {
  }

  /** The form state of the page. */
  class HomePage {
    var formOpen: bool
    var selectedPostId: Option<int>

    constructor ()
      ensures !formOpen && selectedPostId.None?
    {
      formOpen := false;
      selectedPostId := None;
    }

    /** `handleCloseForm`, and the `onDone` the page gives its mutations:
        both close the form and forget the selection. */
    method CloseForm()
      modifies this
      ensures !formOpen && selectedPostId.None?
    {
      formOpen := false;
      selectedPostId := None;
    }

    /** `handleAddPost`: the payload sent to the add mutation. */
    method AddPost(draft: Draft, currentUser: Option<Identity>) returns (payload: Draft)
      ensures payload == WithAuthor(draft, DeriveUser(currentUser))
    {
      var user := DeriveUser(currentUser);
      payload := draft.(author := if user.Some? && user.value.id != "" then user.value.id else "");
    }

    /** `handleLogout`: the cached identity goes, and the page reloads,
        once the logout request is answered, whatever its status. A
        rejected request throws out of the handler first, so the stored
        identity stays and nothing reloads. */
    method Logout(storage: Session.SessionStorage, reply: Reply<ServerMessage>) returns (reloaded: bool)
      modifies storage
      ensures reply.FetchFailed? ==> storage.entries == old(storage.entries) && !reloaded
      ensures reply.Response? ==> storage.entries == old(storage.entries) - {Session.UserKey}
      ensures reply.Response? ==> Session.InitialData(storage.entries).None? && reloaded
    {
      if reply.FetchFailed? {
        return false;
      }
      storage.RemoveItem(Session.UserKey);
      reloaded := true;
    }
  }
}
