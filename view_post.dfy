/** The single-post page, BloggerWebApp/src/Pages/ViewPost.tsx: who may
    edit or delete the post, and the delete-confirmation dialog and edit
    navigation, both guarded by the post id taken from the route. */
module ViewPost {
  import opened Text
  import opened Models

  /** `isAuthorOrAdmin`: a signed-in user who wrote the post, or whose role
      list holds "Admin" anywhere. */
  function IsAuthorOrAdmin(currentUser: Option<Identity>, post: Post): (allowed: bool)
    ensures allowed ==> currentUser.Some?
    ensures currentUser.Some? && currentUser.value.id == post.authorId ==> allowed
  {
    currentUser.Some? &&
    (currentUser.value.id == post.authorId ||
     (currentUser.value.roles.Some? && "Admin" in currentUser.value.roles.value))
  }

  /** Nobody signed in never gets the controls. */
  lemma NoUserNoControls(post: Post)
    ensures !IsAuthorOrAdmin(None, post)
  {
  }

  /** A signed-in user who did not write the post and holds no "Admin"
      role gets no controls. */
  lemma NonAuthorWithoutAdminRefused(user: Identity, post: Post)
    requires user.id != post.authorId
    requires user.roles.None? || "Admin" !in user.roles.value
    ensures !IsAuthorOrAdmin(Some(user), post)
  {
  }

  /** A user without a role list is judged by authorship alone. */
  lemma RolelessJudgedByAuthorship(user: Identity, post: Post)
    requires user.roles.None?
    ensures IsAuthorOrAdmin(Some(user), post) <==> user.id == post.authorId
  {
  }

  /** Ownership is decided by `authorId`; the displayed `author` plays no part. */
  lemma AuthorNameIrrelevant(currentUser: Option<Identity>, post: Post, shownAuthor: string)
    ensures IsAuthorOrAdmin(currentUser, post.(author := shownAuthor)) == IsAuthorOrAdmin(currentUser, post)
  {
  }

  /** An administrator may act on every post, whoever wrote it. */
  lemma AdminMayActOnAnyPost(user: Identity, post: Post)
    requires user.roles.Some? && "Admin" in user.roles.value
    ensures IsAuthorOrAdmin(Some(user), post)
  {
  }

  /** The route of the edit page of post `id`. */
  function EditRoute(id: int): (route: string)
    ensures StartsWith(route, "/post/")
  {
    "/post/" + IntToString(id) + "/edit"
  }

  /** Different posts have different edit routes. */
  lemma EditRouteInjective(m: int, n: int)
    requires EditRoute(m) == EditRoute(n)
    ensures m == n
  {
    CancelAffixes("/post/", IntToString(m), IntToString(n), "/edit");
    IntToStringInjective(m, n);
  }

  /** The state of the page that the handlers change. `postId` is the
      route's id as `parseInt` read it, or `None` without one. */
  class ViewPostPage {
    const postId: Option<int>
    var openDeleteDialog: bool

    constructor (postId: Option<int>)
      ensures this.postId == postId && !openDeleteDialog
    {
      this.postId := postId;
      openDeleteDialog := false;
    }

    /** `handleEdit`: go to the edit page, if there is a post id. */
    method Edit() returns (route: Option<string>)
      ensures postId.Some? ==> route == Some(EditRoute(postId.value))
      ensures postId.None? ==> route == None
    {
      if postId.Some? {
        route := Some(EditRoute(postId.value));
      } else {
        route := None;
      }
    }

    /** `handleDeleteClick`. */
    method DeleteClick()
      modifies this
      ensures openDeleteDialog
    {
      openDeleteDialog := true;
    }

    /** `handleDeleteConfirm`: the dialog always closes; the delete request
        goes out only with a post id. */
    method DeleteConfirm() returns (deleted: Option<int>)
      modifies this
      ensures !openDeleteDialog
      ensures deleted == postId
    {
      openDeleteDialog := false;
      deleted := None;
      if postId.Some? {
        deleted := Some(postId.value);
      }
    }

    /** `handleDeleteCancel`: the dialog closes and nothing is deleted. */
    method DeleteCancel()
      modifies this
      ensures !openDeleteDialog
    {
      openDeleteDialog := false;
    }

    /** The `onSuccess` of the delete request leads home. */
    method DeleteSucceeded() returns (route: string)
      ensures route == "/"
    {
      route := "/";
    }
  }
}
