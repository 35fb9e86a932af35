/** The post table of the earlier client, src/Components/PostList.tsx: the
    same delete-confirmation dialog over full posts, and an Edit button
    that hands the parent the whole post. */
module LegacyPostList {
  import opened Models

  /** What a row button does: Edit passes the whole record, Delete asks
      for confirmation of that row. */
  datatype RowAction = EditPost(post: Post) | AskDelete(post: Post)

  function OnEditClick(row: Post): (a: RowAction)
    ensures a.EditPost? && a.post == row
  {
    EditPost(row)
  }

  function OnDeleteClick(row: Post): (a: RowAction)
    ensures a.AskDelete? && a.post == row
  {
    AskDelete(row)
  }

  /** The confirmation dialog: `openDeleteDialog` and `postToDelete`. */
  class DeleteDialog {
    var openDeleteDialog: bool
    var postToDelete: Option<Post>

    /** The dialog is open exactly while a post waits for confirmation. */
    predicate Valid()
      reads this
    {
      openDeleteDialog <==> postToDelete.Some?
    }

    constructor ()
      ensures Valid() && !openDeleteDialog && postToDelete.None?
    {
      openDeleteDialog := false;
      postToDelete := None;
    }

    /** `handleDeleteClick`: remember the row and open the dialog. */
    method DeleteClick(post: Post)
      modifies this
      ensures Valid() && openDeleteDialog && postToDelete == Some(post)
    {
      postToDelete := Some(post);
      openDeleteDialog := true;
    }

    /** `handleDeleteConfirm`: with a remembered row, `onDelete` gets its id
        once and the dialog closes and forgets it; without one nothing happens,
        and the dialog is already closed. */
    method DeleteConfirm() returns (deleted: Option<int>)
      requires Valid()
      modifies this
      ensures Valid()
      ensures old(postToDelete).Some? ==>
        deleted == Some(old(postToDelete).value.id) && !openDeleteDialog && postToDelete.None?
      ensures old(postToDelete).None? ==>
        deleted.None? && !openDeleteDialog && postToDelete.None?
    {
      deleted := None;
      if postToDelete.Some? {
        deleted := Some(postToDelete.value.id);
        openDeleteDialog := false;
        postToDelete := None;
      }
    }

    /** `handleDeleteCancel`, also the dialog's `onClose`: close and forget. */
    method DeleteCancel()
      modifies this
      ensures Valid() && !openDeleteDialog && postToDelete.None?
    {
      openDeleteDialog := false;
      postToDelete := None;
    }
  }
}
