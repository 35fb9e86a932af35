/** The root component of the earlier client, src/App.tsx: the selected
    post and the dialog's `open` flag, the choice between the add and the
    update mutation on submit, and the list refreshes their successes cause. */
module LegacyApp {
  import opened Models
  import PostForm
  import LegacyPostForm
  import LegacyPostList

  /** The requests the page sends. */
  datatype Request =
    | AddRequest(post: LegacyPostForm.Submitted)
    | UpdateRequest(post: LegacyPostForm.Submitted)
    | DeleteRequest(id: int)

  /** `onSubmit={selectedPost ? handleUpdatePost : handleAddPost}`. */
  function Dispatch(selectedPost: Option<Post>, submitted: LegacyPostForm.Submitted): (r: Request)
    ensures r.UpdateRequest? <==> selectedPost.Some?
    ensures r.AddRequest? <==> selectedPost.None?
    ensures !r.DeleteRequest? && r.post == submitted
  {
    if selectedPost.Some? then UpdateRequest(submitted) else AddRequest(submitted)
  }

  class App {
    var selectedPost: Option<Post>
    var open: bool
    var invalidations: nat

    constructor ()
      ensures selectedPost.None? && !open && invalidations == 0
    {
      selectedPost := None;
      open := false;
      invalidations := 0;
    }

    /** The "Add Post" button opens the dialog and keeps the selection. */
    method ClickAdd()
      modifies this
      ensures open && selectedPost == old(selectedPost) && invalidations == old(invalidations)
    {
      open := true;
    }

    /** `onEdit={setSelectedPost}`: only the selection changes. */
    method Edit(post: Post)
      modifies this
      ensures selectedPost == Some(post) && open == old(open) && invalidations == old(invalidations)
    {
      selectedPost := Some(post);
    }

    /** The dialog's `onClose`: it closes and the selection stays. */
    method Close()
      modifies this
      ensures !open && selectedPost == old(selectedPost) && invalidations == old(invalidations)
    {
      open := false;
    }

    /** The dialog's `onSubmit`. */
    method Submit(submitted: LegacyPostForm.Submitted) returns (request: Request)
      ensures request == Dispatch(selectedPost, submitted)
    {
      if selectedPost.Some? {
        request := UpdateRequest(submitted);
      } else {
        request := AddRequest(submitted);
      }
    }

    /** `handleDeletePost`, the list's `onDelete`. */
    method Delete(id: int) returns (request: Request)
      ensures request == DeleteRequest(id)
    {
      request := DeleteRequest(id);
    }

    /** The `onSuccess` of any of the three mutations refreshes the list. */
    method MutationSucceeded()
      modifies this
      ensures invalidations == old(invalidations) + 1
      ensures selectedPost == old(selectedPost) && open == old(open)
    {
      invalidations := invalidations + 1;
    }
  }

  /** Choosing Edit on a row and then "Add Post" still updates the row:
      nothing clears the selection. */
  method EditThenAddUpdates(row: Post, submitted: LegacyPostForm.Submitted) returns (request: Request)
    ensures request == UpdateRequest(submitted)
  {
    var app := new App();
    app.Edit(row);
    app.Close();
    app.ClickAdd();
    request := app.Submit(submitted);
  }

  /** Edit on a row of the list, then "Add Post", then submitting the form
      untouched: the selection reaches the form through its effect, and the
      row goes back as an update under its own id (the clock's for id 0)
      with its own fields and dates. An incomplete row submits nothing. */
  method EditRowThenResubmit(row: Post, now: int) returns (request: Option<Request>)
    ensures PostForm.Filled(PostForm.DraftOf(Some(row))) ==>
      request == Some(UpdateRequest(LegacyPostForm.Submitted(
        LegacyPostForm.IdFor(Some(row), now), row.title, row.author, row.content,
        row.createdDate, row.lastModifiedDate)))
    ensures !PostForm.Filled(PostForm.DraftOf(Some(row))) ==> request.None?
  {
    var app := new App();
    var form := new LegacyPostForm.LegacyPostFormDialog(app.selectedPost);
    var action := LegacyPostList.OnEditClick(row);
    app.Edit(action.post);
    form.Sync(app.selectedPost);
    app.ClickAdd();
    form.Sync(app.selectedPost);
    form.HandleSubmit(now);
    if form.calls != [] && form.calls[0].SubmitCall? {
      var sent := app.Submit(form.calls[0].post);
      request := Some(sent);
    } else {
      request := None;
    }
  }

  /** Delete on a row of the list, then Delete in the confirmation: the
      page sends one delete request for that row's id. */
  method DeleteRow(row: Post) returns (request: Request)
    ensures request == DeleteRequest(row.id)
  {
    var dialog := new LegacyPostList.DeleteDialog();
    var action := LegacyPostList.OnDeleteClick(row);
    dialog.DeleteClick(action.post);
    var deleted := dialog.DeleteConfirm();
    var app := new App();
    request := app.Delete(deleted.value);
  }
}
