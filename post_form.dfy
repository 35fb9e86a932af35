/** The post dialog of BloggerWebApp/src/Components/PostForm.tsx: the
    effect that fills its three fields from the post being edited (or
    clears them), and `handleSubmit`, which sends either the edited post or
    the new post's fields. */
module PostForm {
  import opened Models

  /** The effect on `[post, open]`: the fields of the post, or all empty. */
  function DraftOf(post: Option<Post>): (d: Draft)
    ensures post.Some? ==> d == Draft(post.value.title, post.value.author, post.value.content)
    ensures post.None? ==> d == Draft("", "", "")
  {
    match post
    case Some(p) => Draft(p.title, p.author, p.content)
    case None => Draft("", "", "")
  }

  /** All three fields are filled in (non-empty strings are truthy). */
  predicate Filled(d: Draft) {
    d.title != "" && d.author != "" && d.content != ""
  }

  /** What `onSubmit` receives. */
  datatype Submission = Edited(post: Post) | Created(draft: Draft)

  /** `handleSubmit`: nothing for an incomplete form; otherwise the edited
      post with its three text fields replaced, or the bare fields of a
      new post. */
  function SubmissionOf(d: Draft, post: Option<Post>): (s: Option<Submission>)
    ensures s.Some? <==> Filled(d)
    ensures s.Some? && post.Some? ==> s.value.Edited? && DraftOf(Some(s.value.post)) == d
    ensures s.Some? && post.Some? ==> (&& s.value.post.id == post.value.id
                                       && s.value.post.authorId == post.value.authorId
                                       && s.value.post.createdDate == post.value.createdDate
                                       && s.value.post.lastModifiedDate == post.value.lastModifiedDate)
    ensures s.Some? && post.None? ==> s.value == Created(d)
  {
    if !Filled(d) then None
    else match post
      case Some(p) => Some(Edited(p.(title := d.title, author := d.author, content := d.content)))
      case None => Some(Created(d))
  }

  /** Opening a complete post and submitting it untouched sends the post back unchanged. */
  lemma UntouchedEditSendsSamePost(p: Post)
    requires Filled(DraftOf(Some(p)))
    ensures SubmissionOf(DraftOf(Some(p)), Some(p)) == Some(Edited(p))
  {
  }

  /** A fresh form cannot be submitted before something is typed. */
  lemma FreshFormRefused()
    ensures SubmissionOf(DraftOf(None), None).None?
  {
  }

  /** The calls the form makes on its parent. */
  datatype FormCall = SubmitCall(submission: Submission) | CloseCall

  /** The dialog's state: the fields, the `post` prop it was opened with,
      and the calls made so far. */
  class PostFormDialog {
    var draft: Draft
    var post: Option<Post>
    var calls: seq<FormCall>

    constructor (post: Option<Post>)
      ensures this.post == post && draft == DraftOf(post) && calls == []
    {
      this.post := post;
      draft := DraftOf(post);
      calls := [];
    }

    /** The effect, run when `post` or `open` changes. */
    method Sync(newPost: Option<Post>)
      modifies this
      ensures post == newPost && draft == DraftOf(newPost) && calls == old(calls)
    {
      post := newPost;
      if newPost.Some? {
        draft := Draft(newPost.value.title, newPost.value.author, newPost.value.content);
      } else {
        draft := Draft("", "", "");
      }
    }

    /** Typing into one of the fields. */
    method Type(d: Draft)
      modifies this
      ensures draft == d && post == old(post) && calls == old(calls)
    {
      draft := d;
    }

    /** `handleSubmit`: at most one `onSubmit`, and never `onClose`. */
    method HandleSubmit()
      modifies this
      ensures draft == old(draft) && post == old(post)
      ensures SubmissionOf(draft, post).Some? ==> calls == old(calls) + [SubmitCall(SubmissionOf(draft, post).value)]
      ensures SubmissionOf(draft, post).None? ==> calls == old(calls)
      ensures CloseCall !in calls[|old(calls)|..]
    {
      if draft.title == "" || draft.author == "" || draft.content == "" {
        return;
      }
      if post.Some? {
        var edited := post.value.(title := draft.title, author := draft.author, content := draft.content);
        calls := calls + [SubmitCall(Edited(edited))];
      } else {
        calls := calls + [SubmitCall(Created(draft))];
      }
    }

    /** The Cancel button and the dialog's backdrop call `onClose`. */
    method Cancel()
      modifies this
      ensures draft == old(draft) && post == old(post) && calls == old(calls) + [CloseCall]
    {
      calls := calls + [CloseCall];
    }
  }
}
