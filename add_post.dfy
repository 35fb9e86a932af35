/** The new-post page, BloggerWebApp/src/Pages/AddPost.tsx: the submit
    guard, the request built from the signed-in user, and the redirect of
    a visitor who is not signed in. */
module AddPost {
  import opened Models

  /** The body of the add request. */
  datatype NewPost = NewPost(title: string, content: string, author: string, authorId: string)

  /** `handleSubmit`: nothing when the title or the content is empty or
      nobody is signed in; otherwise the fields as typed, with the user's id
      as both `author` and `authorId`. */
  function NewPostFor(form: PostText, currentUser: Option<Identity>): (p: Option<NewPost>)
    ensures p.Some? <==> form.title != "" && form.content != "" && currentUser.Some?
    ensures p.Some? ==> p.value.title == form.title && p.value.content == form.content
    ensures p.Some? ==> p.value.author == currentUser.value.id && p.value.authorId == currentUser.value.id
  {
    if form.title == "" || form.content == "" || currentUser.None? then None
    else Some(NewPost(form.title, form.content, currentUser.value.id, currentUser.value.id))
  }

  /** The guard tests truthiness, not content: a title of one space passes. */
  lemma BlankTitleAccepted(content: string, user: Identity)
    requires content != ""
    ensures NewPostFor(PostText(" ", content), Some(user)).Some?
  {
  }

  /** The sent post always counts as its author's own post. */
  lemma SentPostOwnedBySender(form: PostText, currentUser: Option<Identity>)
    requires NewPostFor(form, currentUser).Some?
    ensures NewPostFor(form, currentUser).value.authorId == currentUser.value.id
  {
  }

  /** The effect on `currentUser`: a visitor who is not signed in is sent
      to the sign-in page. */
  function RedirectFor(currentUser: Option<Identity>): (route: Option<string>)
    ensures route.Some? <==> currentUser.None?
    ensures route.Some? ==> route.value == "/login"
  {
    if currentUser.None? then Some("/login") else None
  }

  /** Whoever is redirected cannot submit. */
  lemma RedirectedCannotSubmit(form: PostText, currentUser: Option<Identity>)
    requires RedirectFor(currentUser).Some?
    ensures NewPostFor(form, currentUser).None?
  {
  }

  /** The state of the page. */
  class AddPostPage {
    var form: PostText

    constructor ()
      ensures form == PostText("", "")
    {
      form := PostText("", "");
    }

    /** Typing into the title or the content. */
    method Type(text: PostText)
      modifies this
      ensures form == text
    {
      form := text;
    }

    /** `handleSubmit`: the request, if the guard lets it through. */
    method Submit(currentUser: Option<Identity>) returns (sent: Option<NewPost>)
      ensures sent == NewPostFor(form, currentUser)
    {
      if form.title == "" || form.content == "" || currentUser.None? {
        return None;
      }
      var id := currentUser.value.id;
      sent := Some(NewPost(form.title, form.content, id, id));
    }

    /** The page's `onDone` and Cancel both lead home. */
    method Done() returns (route: string)
      ensures route == "/"
    {
      route := "/";
    }
  }
}
