/** The post dialog of the earlier client, src/Components/PostForm.tsx: the
    same prefill effect as the current dialog, and a `handleSubmit` that
    always builds a full record (an id from the clock for a new post) and
    then closes the dialog. */
module LegacyPostForm {
  import opened Models
  import PostForm

  /** The record `onSubmit` receives: the three typed fields, an id and the
      two dates. It carries no `authorId`. */
  datatype Submitted = Submitted(
    id: int,
    title: string,
    author: string,
    content: string,
    createdDate: string,
    lastModifiedDate: string)

  /** `post?.id || Date.now()`: the post's id unless there is no post or
      its id is 0, which is falsy. */
  function IdFor(post: Option<Post>, now: int): (id: int)
    ensures post.Some? && post.value.id != 0 ==> id == post.value.id
    ensures post.None? || post.value.id == 0 ==> id == now
  {
    if post.Some? && post.value.id != 0 then post.value.id else now
  }

  /** `handleSubmit`'s record: nothing for an incomplete form; otherwise the
      typed fields, the id, and the dates of the post being edited or "". */
  function SubmittedFor(d: Draft, post: Option<Post>, now: int): (s: Option<Submitted>)
    ensures s.Some? <==> PostForm.Filled(d)
    ensures s.Some? ==> s.value.id == IdFor(post, now)
    ensures s.Some? ==> s.value.title == d.title && s.value.author == d.author && s.value.content == d.content
    ensures s.Some? && post.Some? ==>
      s.value.createdDate == post.value.createdDate && s.value.lastModifiedDate == post.value.lastModifiedDate
    ensures s.Some? && post.None? ==> s.value.createdDate == "" && s.value.lastModifiedDate == ""
  {
    if !PostForm.Filled(d) then None
    else
      Some(Submitted(
        IdFor(post, now), d.title, d.author, d.content,
        if post.Some? then post.value.createdDate else "",
        if post.Some? then post.value.lastModifiedDate else ""))
  }

  /** Editing a post whose id is 0 submits it under the clock's value instead. */
  lemma ZeroIdTakesClock(p: Post, d: Draft, now: int)
    requires p.id == 0 && PostForm.Filled(d)
    ensures SubmittedFor(d, Some(p), now).value.id == now
  {
  }

  /** Opening a complete post with a non-zero id and submitting it untouched
      sends back its fields, whatever the clock says. */
  lemma UntouchedEditKeepsPost(p: Post, now: int)
    requires p.id != 0 && PostForm.Filled(PostForm.DraftOf(Some(p)))
    ensures SubmittedFor(PostForm.DraftOf(Some(p)), Some(p), now)
      == Some(Submitted(p.id, p.title, p.author, p.content, p.createdDate, p.lastModifiedDate))
  {
  }

  /** The calls the form makes on its parent. */
  datatype FormCall = SubmitCall(post: Submitted) | CloseCall

  /** The dialog's state: the fields, the `post` prop and the calls made so far. */
  class LegacyPostFormDialog {
    var draft: Draft
    var post: Option<Post>
    var calls: seq<FormCall>

    constructor (post: Option<Post>)
      ensures this.post == post && draft == PostForm.DraftOf(post) && calls == []
    {
      this.post := post;
      draft := PostForm.DraftOf(post);
      calls := [];
    }

    /** The effect, run when `post` or `open` changes. */
    method Sync(newPost: Option<Post>)
      modifies this
      ensures post == newPost && draft == PostForm.DraftOf(newPost) && calls == old(calls)
    {
      post := newPost;
      if newPost.Some? {
        draft := Draft(newPost.value.title, newPost.value.author, newPost.value.content);
      } else {
        draft := Draft("", "", "");
      }
    }

    /** Typing into one of the fields. */
    method Type(d: Draft)
      modifies this
      ensures draft == d && post == old(post) && calls == old(calls)
    {
      draft := d;
    }

    /** `handleSubmit` with the clock reading `now`: an incomplete form makes
        no call; a complete one calls `onSubmit` once and then `onClose`. */
    method HandleSubmit(now: int)
      modifies this
      ensures draft == old(draft) && post == old(post)
      ensures SubmittedFor(draft, post, now).None? ==> calls == old(calls)
      ensures SubmittedFor(draft, post, now).Some? ==>
        calls == old(calls) + [SubmitCall(SubmittedFor(draft, post, now).value), CloseCall]
    {
      if draft.title == "" || draft.author == "" || draft.content == "" {
        return;
      }
      var postToSubmit := Submitted(
        if post.Some? && post.value.id != 0 then post.value.id else now,
        draft.title, draft.author, draft.content,
        if post.Some? then post.value.createdDate else "",
        if post.Some? then post.value.lastModifiedDate else "");
      calls := calls + [SubmitCall(postToSubmit)];
      calls := calls + [CloseCall];
    }
  }
}
