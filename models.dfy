/** Records shared by the pages, and the shape of the backend's replies.

    The backend is not modelled: whatever `fetch` resolves to is an input.
    A reply either reaches the client (a status and a body that may or may
    not parse as JSON) or `fetch` rejects (a network failure, which the
    browser reports as a `TypeError` whose message is "Failed to fetch"). */
module Models {

  datatype Option<T> = None | Some(value: T)

  /** The outcome of a check or call that can fail with a message. */
  datatype Result<T> = Ok(value: T) | Err(message: string)

  /** A blog post as the backend returns it. */
  datatype Post = Post(
    id: int,
    title: string,
    author: string,
    authorId: string,
    content: string,
    createdDate: string,
    lastModifiedDate: string)

  /** The three text fields of a post form (`newPost` in the form dialogs). */
  datatype Draft = Draft(title: string, author: string, content: string)

  /** The two fields of the add-post and edit-post pages. */
  datatype PostText = PostText(title: string, content: string)

  /** The list-view projection of a post. */
  datatype PostPreview = PostPreview(
    id: int,
    title: string,
    author: string,
    contentPreview: string,
    createdDate: string,
    lastModifiedDate: string)

  /** The signed-in user as the pages see it: either the entry cached in
      session storage or the identity the backend confirmed. A missing
      `displayName` is "" (both are falsy); `roles` may be missing, which
      `?.` in the pages tells apart from an empty list. */
  datatype Identity = Identity(
    id: string,
    userName: string,
    displayName: string,
    roles: Option<seq<string>>)

  /** The JSON body of `POST /auth/login`. */
  datatype Credentials = Credentials(username: string, password: string)

  /** A JSON body of an error reply: `{ message }`, with "" for a missing message. */
  datatype ServerMessage = ServerMessage(message: string)

  /** The body of a `/auth/login` reply: `message` on failure, `user` on success. */
  datatype LoginJson = LoginJson(message: string, user: Identity)

  /** `await response.json()`: the parsed value, or the parser's error message. */
  datatype Body<T> = Json(value: T) | Malformed(parseError: string)

  /** What `await fetch(...)` gives: a response, or a rejection with an error message. */
  datatype Reply<T> = Response(status: int, body: Body<T>) | FetchFailed(message: string)

  /** `response.ok`. */
  predicate IsOk(status: int) {
    200 <= status <= 299
  }

  /** A value caught by a `catch (err: unknown)` block. */
  datatype Thrown = ErrorObject(message: string) | OtherValue
}
