/** The post table of BloggerWebApp/src/Components/PostList.tsx: the row
    buttons and the delete-confirmation dialog. */
module PostList {
  import opened Models

  /** The buttons of a row. */
  datatype RowButton = ViewButton | EditButton | DeleteButton

  /** The callbacks the list takes from its parent. */
  datatype Callback = OnView | OnEdit | OnDelete

  /** What a click does: call a parent callback with a post id, open the
      confirmation for a row, or throw because the parent did not pass the
      callback (calling `undefined` is a TypeError). */
  datatype Effect = Calls(callback: Callback, postId: int) | Confirms(post: PostPreview) | ThrowsTypeError

  /** The callback a View or Edit button calls. */
  function CallbackOf(button: RowButton): Callback {
    match button
    case ViewButton => OnView
    case EditButton => OnEdit
    case DeleteButton => OnDelete
  }

  /** A click on `button` in the row of `row`, with `given` the callbacks
      the parent passed: View and Edit call theirs with the row's id;
      Delete opens the confirmation without calling the parent. */
  function OnRowClick(row: PostPreview, button: RowButton, given: set<Callback>): (e: Effect)
    ensures e.Confirms? <==> button == DeleteButton
    ensures e.Calls? ==> e.callback == CallbackOf(button) && e.postId == row.id
  {
    match button
    case ViewButton => if OnView in given then Calls(OnView, row.id) else ThrowsTypeError
    case EditButton => if OnEdit in given then Calls(OnEdit, row.id) else ThrowsTypeError
    case DeleteButton => Confirms(row)
  }

  /** A View or Edit click fails exactly when its callback is missing, and
      a Delete click never reaches the parent. */
  lemma ClickThrowsIffCallbackMissing(row: PostPreview, button: RowButton, given: set<Callback>)
    ensures OnRowClick(row, button, given).ThrowsTypeError? <==>
      button != DeleteButton && CallbackOf(button) !in given
    ensures button == DeleteButton ==> OnRowClick(row, button, given) == Confirms(row)
  {
  }

  /** The home page renders the list without any callback, so its View and
      Edit buttons throw. */
  lemma HomeRowButtonsThrow(row: PostPreview)
    ensures OnRowClick(row, ViewButton, {}) == ThrowsTypeError
    ensures OnRowClick(row, EditButton, {}) == ThrowsTypeError
  {
  }

  /** The confirmation dialog: `openDeleteDialog` and `postToDelete`. */
  class DeleteDialog {
    var openDeleteDialog: bool
    var postToDelete: Option<PostPreview>

    /** The dialog is open exactly while a post waits for confirmation. */
    predicate Valid()
      reads this
    {
      openDeleteDialog <==> postToDelete.Some?
    }

    constructor ()
      ensures Valid() && !openDeleteDialog && postToDelete.None?
    {
      openDeleteDialog := false;
      postToDelete := None;
    }

    /** `handleDeleteClick`: remember the row and open the dialog. */
    method DeleteClick(post: PostPreview)
      modifies this
      ensures Valid() && openDeleteDialog && postToDelete == Some(post)
    {
      postToDelete := Some(post);
      openDeleteDialog := true;
    }

    /** `handleDeleteConfirm`, with `onDeleteGiven` telling whether the
        parent passed `onDelete`: with a remembered row, `onDelete` gets its
        id once and the dialog closes and forgets it. Without `onDelete` the
        call throws before the dialog closes, so nothing changes. Without a
        remembered row nothing happens, and the dialog is already closed. */
    method DeleteConfirm(onDeleteGiven: bool) returns (deleted: Option<int>)
      requires Valid()
      modifies this
      ensures Valid()
      ensures old(postToDelete).Some? && onDeleteGiven ==>
        deleted == Some(old(postToDelete).value.id) && !openDeleteDialog && postToDelete.None?
      ensures old(postToDelete).Some? && !onDeleteGiven ==>
        deleted.None? && openDeleteDialog && postToDelete == old(postToDelete)
      ensures old(postToDelete).None? ==>
        deleted.None? && !openDeleteDialog && postToDelete.None?
    {
      deleted := None;
      if postToDelete.Some? && onDeleteGiven {
        deleted := Some(postToDelete.value.id);
        openDeleteDialog := false;
        postToDelete := None;
      }
    }

    /** `handleDeleteCancel`, also the dialog's `onClose`: close and forget. */
    method DeleteCancel()
      modifies this
      ensures Valid() && !openDeleteDialog && postToDelete.None?
    {
      openDeleteDialog := false;
      postToDelete := None;
    }
  }

  /** Delete on a row, then Delete in the confirmation: `onDelete` gets the
      row's id, or, when the parent did not pass it, the click throws and
      the confirmation stays open on that row. */
  method DeleteRow(row: PostPreview, given: set<Callback>) returns (deleted: Option<int>, dialogOpen: bool)
    ensures OnDelete in given ==> deleted == Some(row.id) && !dialogOpen
    ensures OnDelete !in given ==> deleted.None? && dialogOpen
  {
    var dialog := new DeleteDialog();
    var effect := OnRowClick(row, DeleteButton, given);
    dialog.DeleteClick(effect.post);
    deleted := dialog.DeleteConfirm(OnDelete in given);
    dialogOpen := dialog.openDeleteDialog;
  }
}
