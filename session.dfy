/** The signed-in user's identity: how `fetchCurrentUser`
    (BloggerWebApp/src/Services/AuthService.ts) classifies the reply of
    `GET /Auth/me`, and how `useCurrentUser`
    (BloggerWebApp/src/Queries/useCurrentUser.ts) seeds the query from
    session storage and keeps the stored "user" entry in step with it.

    Session storage is a map from keys to the parsed JSON value stored under
    them; `JSON.stringify` followed by `JSON.parse` is taken to give back
    the same record. */
module Session {
  import opened Text
  import opened Models

  /** The session-storage key of the cached identity. */
  const UserKey := "user"

  /** The error `fetchCurrentUser` throws for a 401 reply. */
  const NotAuthenticated := "Not authenticated"

  /** `fetchCurrentUser`: 401 is "Not authenticated", any other status
      outside 2xx is "Error <status>", and a 2xx reply yields its body. A
      rejected `fetch` or an unparseable body rejects with its own message. */
  function FetchCurrentUser(reply: Reply<Identity>): (r: Result<Identity>)
    ensures reply.Response? && reply.status == 401 ==> r == Err(NotAuthenticated)
    ensures reply.Response? && reply.status != 401 && !IsOk(reply.status) ==>
      r == Err("Error " + IntToString(reply.status))
    ensures reply.Response? && IsOk(reply.status) && reply.body.Json? ==> r == Ok(reply.body.value)
    ensures r.Ok? <==> reply.Response? && IsOk(reply.status) && reply.body.Json?
  {
    match reply
    case FetchFailed(message) => Err(message)
    case Response(status, body) =>
      if status == 401 then Err(NotAuthenticated)
      else if !IsOk(status) then Err("Error " + IntToString(status))
      else
        match body
        case Json(user) => Ok(user)
        case Malformed(parseError) => Err(parseError)
  }

  /** "Error <status>" is never "Not authenticated": the two texts differ
      at their first character. */
  lemma StatusErrorIsNotUnauthenticated(status: int)
    ensures "Error " + IntToString(status) != NotAuthenticated
  {
    assert ("Error " + IntToString(status))[0] == 'E';
  }

  /** Among replies that reach the server, only 401 produces the
      "Not authenticated" error. */
  lemma NotAuthenticatedOnlyFor401(reply: Reply<Identity>)
    requires reply.Response? && !IsOk(reply.status)
    ensures FetchCurrentUser(reply) == Err(NotAuthenticated) <==> reply.status == 401
  {
    StatusErrorIsNotUnauthenticated(reply.status);
  }

  /** The `initialData` of the query: the stored identity when there is one. */
  function InitialData(entries: map<string, Identity>): (r: Option<Identity>)
    ensures r.Some? <==> UserKey in entries
    ensures r.Some? ==> r.value == entries[UserKey]
  {
    if UserKey in entries then Some(entries[UserKey]) else None
  }

  /** What `onSuccess` writes: the id, the user name and a one-element role
      list holding the first role, or "" when there is none; the display
      name is not stored. A reply without a `roles` list makes
      `data.roles[0]` throw, and nothing is written. */
  function StoredSummary(data: Identity): (r: Option<Identity>)
    ensures r.Some? <==> data.roles.Some?
    ensures r.Some? ==> r.value.id == data.id && r.value.userName == data.userName && r.value.displayName == ""
    ensures r.Some? ==> r.value.roles.Some? && |r.value.roles.value| == 1
    ensures r.Some? && data.roles.value != [] ==> r.value.roles.value[0] == data.roles.value[0]
    ensures r.Some? && data.roles.value == [] ==> r.value.roles.value[0] == ""
  {
    match data.roles
    case None => None
    case Some(roles) =>
      var role := if roles != [] then roles[0] else "";
      Some(Identity(data.id, data.userName, "", Some([role])))
  }

  /** The storage after the query settles with `result`: a confirmed
      identity replaces the entry; the "Not authenticated" error, and only
      that error, removes it. */
  function SessionAfter(entries: map<string, Identity>, result: Result<Identity>): (after: map<string, Identity>)
    ensures result.Ok? && result.value.roles.Some? ==>
      UserKey in after && after[UserKey] == StoredSummary(result.value).value
    ensures result == Err(NotAuthenticated) ==> after == entries - {UserKey}
    ensures result.Err? && result.message != NotAuthenticated ==> after == entries
    ensures result.Ok? && result.value.roles.None? ==> after == entries
  {
    match result
    case Ok(data) =>
      (match StoredSummary(data)
       case Some(summary) => entries[UserKey := summary]
       case None => entries)
    case Err(message) =>
      if message == NotAuthenticated then entries - {UserKey} else entries
  }

  /** No key other than "user" is ever written or removed. */
  lemma OnlyUserKeyChanges(entries: map<string, Identity>, result: Result<Identity>, key: string)
    requires key != UserKey
    ensures key in SessionAfter(entries, result) <==> key in entries
    ensures key in entries ==> SessionAfter(entries, result)[key] == entries[key]
  {
  }

  /** A failed reply from the server clears the cached identity exactly
      when its status is 401; any other failure keeps it. */
  lemma ClearedOnlyBy401(entries: map<string, Identity>, reply: Reply<Identity>)
    requires reply.Response? && !IsOk(reply.status)
    ensures UserKey in SessionAfter(entries, FetchCurrentUser(reply)) <==>
      UserKey in entries && reply.status != 401
  {
    NotAuthenticatedOnlyFor401(reply);
  }

  /** After a confirmed identity with a role list, the next page load
      starts from its summary, which holds exactly one role. */
  lemma ConfirmedIdentitySeedsNextLoad(entries: map<string, Identity>, data: Identity)
    requires data.roles.Some?
    ensures InitialData(SessionAfter(entries, Ok(data))) == StoredSummary(data)
    ensures |InitialData(SessionAfter(entries, Ok(data))).value.roles.value| == 1
  {
  }

  /** The browser's session storage, reduced to the parsed values of its entries. */
  class SessionStorage {
    var entries: map<string, Identity>

    constructor (initial: map<string, Identity>)
      ensures entries == initial
    {
      entries := initial;
    }

    /** `sessionStorage.setItem(key, JSON.stringify(value))`. */
    method SetItem(key: string, value: Identity)
      modifies this
      ensures entries == old(entries)[key := value]
    {
      entries := entries[key := value];
    }

    /** `sessionStorage.removeItem(key)`. */
    method RemoveItem(key: string)
      modifies this
      ensures entries == old(entries) - {key}
    {
      entries := entries - {key};
    }

    /** The `onSuccess` callback of `useCurrentUser`. */
    method OnSuccess(data: Identity)
      modifies this
      ensures entries == SessionAfter(old(entries), Ok(data))
    {
      match data.roles {
        case None =>
        case Some(roles) =>
          var role := if roles != [] then roles[0] else "";
          SetItem(UserKey, Identity(data.id, data.userName, "", Some([role])));
      }
    }

    /** The `onError` callback of `useCurrentUser`. */
    method OnError(message: string)
      modifies this
      ensures entries == SessionAfter(old(entries), Err(message))
    {
      if message == NotAuthenticated {
        RemoveItem(UserKey);
      }
    }

    /** One run of the query: the reply is classified and the matching
        callback runs. */
    method Refresh(reply: Reply<Identity>) returns (result: Result<Identity>)
      modifies this
      ensures result == FetchCurrentUser(reply)
      ensures entries == SessionAfter(old(entries), result)
    {
      result := FetchCurrentUser(reply);
      match result {
        case Ok(data) => OnSuccess(data);
        case Err(message) => OnError(message);
      }
    }
  }
}
