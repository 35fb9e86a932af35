/** The edit-post page, BloggerWebApp/src/Pages/EditPost.tsx: the prefill
    from the loaded post, the submit guard, the updated post and the
    navigation back to the post, guarded by the route's post id. */
module EditPost {
  import opened Text
  import opened Models

  /** The effect on `post`: a loaded post fills in its title and content;
      before it loads the fields are left alone. */
  function Prefill(form: PostText, post: Option<Post>): (r: PostText)
    ensures post.Some? ==> r == PostText(post.value.title, post.value.content)
    ensures post.None? ==> r == form
  {
    if post.Some? then PostText(post.value.title, post.value.content) else form
  }

  /** `handleSubmit`: nothing when the title or the content is empty or the
      post has not loaded; otherwise the loaded post with only its title
      and content replaced. */
  function UpdatedPost(form: PostText, post: Option<Post>): (p: Option<Post>)
    ensures p.Some? <==> form.title != "" && form.content != "" && post.Some?
    ensures p.Some? ==> p.value.title == form.title && p.value.content == form.content
    ensures p.Some? ==> (&& p.value.id == post.value.id
                         && p.value.author == post.value.author
                         && p.value.authorId == post.value.authorId
                         && p.value.createdDate == post.value.createdDate
                         && p.value.lastModifiedDate == post.value.lastModifiedDate)
  {
    if form.title == "" || form.content == "" || post.None? then None
    else Some(post.value.(title := form.title, content := form.content))
  }

  /** Saving a prefilled form untouched sends the loaded post back as it was. */
  lemma UntouchedSaveSendsSamePost(form: PostText, p: Post)
    requires p.title != "" && p.content != ""
    ensures UpdatedPost(Prefill(form, Some(p)), Some(p)) == Some(p)
  {
  }

  /** The post's own page. */
  function PostRoute(postId: Option<int>): (route: Option<string>)
    ensures route.Some? <==> postId.Some?
    ensures route.Some? ==> StartsWith(route.value, "/post/")
  {
    if postId.Some? then Some("/post/" + IntToString(postId.value)) else None
  }

  /** Different posts have different pages. */
  lemma PostRouteInjective(m: int, n: int)
    requires PostRoute(Some(m)) == PostRoute(Some(n))
    ensures m == n
  {
    CancelAffixes("/post/", IntToString(m), IntToString(n), "");
    IntToStringInjective(m, n);
  }

  /** The state of the page. `postId` is the route's id as `parseInt` read
      it, or `None` without one. */
  class EditPostPage {
    const postId: Option<int>
    var form: PostText
    var post: Option<Post>

    constructor (postId: Option<int>)
      ensures this.postId == postId && form == PostText("", "") && post.None?
    {
      this.postId := postId;
      form := PostText("", "");
      post := None;
    }

    /** The post query settles; the effect prefills the form. */
    method Loaded(loaded: Option<Post>)
      modifies this
      ensures post == loaded && form == Prefill(old(form), loaded)
    {
      post := loaded;
      if loaded.Some? {
        form := PostText(loaded.value.title, loaded.value.content);
      }
    }

    /** Typing into the title or the content. */
    method Type(text: PostText)
      modifies this
      ensures form == text && post == old(post)
    {
      form := text;
    }

    /** `handleSubmit`: the post sent to the update mutation, if any. */
    method Submit() returns (sent: Option<Post>)
      ensures sent == UpdatedPost(form, post)
    {
      if form.title == "" || form.content == "" || post.None? {
        return None;
      }
      sent := Some(post.value.(title := form.title, content := form.content));
    }

    /** The update's `onSuccess`, and Cancel: back to the post, if there is an id. */
    method Back() returns (route: Option<string>)
      ensures route == PostRoute(postId)
    {
      route := None;
      if postId.Some? {
        route := Some("/post/" + IntToString(postId.value));
      }
    }
  }
}
