/**
 * The server-side blog service (`BlogService`): public listings filter on
 * `published`, and `createPost` attributes the post from the author's
 * `users` row, falling back to the session's identity claims.
 */
module BlogServer {
  import opened Wrappers
  import opened Text
  import opened Types
  import opened Table
  import opened Posts

  const UnknownAuthor := "Unknown Author"
  const UnknownEmail := "unknown@example.com"

  /** `getAllPosts()`: the published rows, newest first by `published_at`. */
  function GetAllPosts(posts: seq<BlogPost>, fault: Option<string>): (r: Result<seq<BlogPost>, Failure>)
    ensures r.Ok? <==> fault.None?
    ensures r.Ok? ==> Sorted(r.value, NewerPublished)
    ensures r.Ok? ==> forall p :: p in r.value <==> p in posts && p.status == Published
    ensures r.Ok? ==> multiset(r.value) == multiset(Where(posts, IsPublished))
  {
    OrdersArePreorders();
    if fault.Some? then Err(StoreFailure(fault.value))
    else Ok(Query(posts, IsPublished, NewerPublished))
  }

  predicate PublishedWithSlug(slug: string, p: BlogPost) {
    p.slug == slug && p.status == Published
  }

  /** `getPostBySlug(slug)`: `.eq('slug', slug).eq('status', 'published').single()`. */
  function GetPostBySlug(posts: seq<BlogPost>, slug: string, fault: Option<string>): (r: Result<BlogPost, Failure>)
    ensures r.Ok? <==> fault.None? && |Where(posts, p => PublishedWithSlug(slug, p))| == 1
    ensures r.Ok? ==> r.value in posts && r.value.slug == slug && r.value.status == Published
  {
    if fault.Some? then Err(StoreFailure(fault.value))
    else Single(Where(posts, p => PublishedWithSlug(slug, p)))
  }

  /** A draft is never returned by slug, whatever the table holds. */
  lemma DraftNeverBySlug(posts: seq<BlogPost>, slug: string, fault: Option<string>)
    ensures GetPostBySlug(posts, slug, fault).Ok? ==> GetPostBySlug(posts, slug, fault).value.status != Draft
  {
  }

  predicate AuthoredBy(authorId: string, p: BlogPost) {
    p.authorId == authorId
  }

  /** `getPostsByAuthor(authorId)`: exactly that author's rows, newest first
      by `created_at`. */
  function GetPostsByAuthor(posts: seq<BlogPost>, authorId: string, fault: Option<string>): (r: Result<seq<BlogPost>, Failure>)
    ensures r.Ok? <==> fault.None?
    ensures r.Ok? ==> Sorted(r.value, NewerCreated)
    ensures r.Ok? ==> forall p :: p in r.value <==> p in posts && p.authorId == authorId
    ensures r.Ok? ==> multiset(r.value) == multiset(Where(posts, p => AuthoredBy(authorId, p)))
  {
    OrdersArePreorders();
    if fault.Some? then Err(StoreFailure(fault.value))
    else Ok(Query(posts, p => AuthoredBy(authorId, p), NewerCreated))
  }

  // ---------------------------------------------------------------------------
  // Author attribution
  // ---------------------------------------------------------------------------

  /** Author name and email taken from a `users` row: `full_name || email`,
      and the row's email. */
  function AttributionFromRow(u: User): (a: (string, string))
    ensures a.1 == u.email
    ensures Truthy(u.fullName) ==> a.0 == u.fullName.value
    ensures !Truthy(u.fullName) ==> a.0 == u.email
  {
    (OrElse(u.fullName, u.email), u.email)
  }

  /** Author name and email taken from the session: `full_name` claim, else
      email, else 'Unknown Author'; email, else 'unknown@example.com'. */
  function AttributionFromSession(s: AuthUser): (a: (string, string))
    ensures a.0 != "" && a.1 != ""
    ensures Truthy(s.fullNameClaim) ==> a.0 == s.fullNameClaim.value
    ensures !Truthy(s.fullNameClaim) && Truthy(s.email) ==> a.0 == s.email.value
    ensures !Truthy(s.fullNameClaim) && !Truthy(s.email) ==> a.0 == UnknownAuthor
    ensures Truthy(s.email) ==> a.1 == s.email.value
    ensures !Truthy(s.email) ==> a.1 == UnknownEmail
  {
    (OrElse(s.fullNameClaim, OrElse(s.email, UnknownAuthor)), OrElse(s.email, UnknownEmail))
  }

  /** The user the session names, if any: an auth error leaves `data.user`
      null, since the fallback path does not inspect the error. */
  function SessionUser(auth: AuthState): Option<AuthUser>
  {
    if auth.SignedIn? then Some(auth.user) else None
  }

  /** `createPost(post, authorId)`: look the author up in `users`; if that
      fails, attribute from the session; with neither, fail with the lookup
      error and insert nothing. The payload's own author fields are always
      overridden. */
  function CreatePost(posts: seq<BlogPost>, users: seq<User>, auth: AuthState, payload: CreateBlogPost,
                      authorId: string, newId: string, createdAt: Timestamp, updatedAt: Timestamp,
                      fault: Option<string>): (w: Write<BlogPost>)
    ensures w.response.Err? ==> w.table == posts
    ensures w.response.Ok? ==> w.table == posts + [w.response.value]
    ensures w.response.Ok? ==>
              && w.response.value.authorId == authorId
              && w.response.value.id == newId
              && w.response.value.createdAt == createdAt
              && w.response.value.updatedAt == updatedAt
              && PayloadOf(w.response.value).(authorName := payload.authorName,
                                                authorEmail := payload.authorEmail) == payload
    ensures w.response.Ok? <==> fault.None? && (|Where(users, (u: User) => u.id == authorId)| == 1 || auth.SignedIn?)
    ensures fault.None? && |Where(users, (u: User) => u.id == authorId)| == 1 ==>
              var u := Where(users, (u: User) => u.id == authorId)[0];
              w.response.Ok? && (w.response.value.authorName, w.response.value.authorEmail) == AttributionFromRow(u)
    ensures fault.None? && |Where(users, (u: User) => u.id == authorId)| != 1 && auth.SignedIn? ==>
              w.response.Ok? &&
              (w.response.value.authorName, w.response.value.authorEmail) == AttributionFromSession(auth.user)
    ensures |Where(users, (u: User) => u.id == authorId)| != 1 && !auth.SignedIn? ==>
              w.response == Err(NotSingleRow(|Where(users, (u: User) => u.id == authorId)|))
  {
    var attribution :=
      match Single(Where(users, (u: User) => u.id == authorId))
      case Ok(u) => Ok(AttributionFromRow(u))
      case Err(e) =>
        match SessionUser(auth)
        case Some(s) => Ok(AttributionFromSession(s))
        case None => Err(e);
    match attribution
    case Err(e) => Write(Err(e), posts)
    case Ok(a) =>
      if fault.Some? then Write(Err(StoreFailure(fault.value)), posts)
      else
        var row := StoredPost(payload, newId, authorId, a.0, a.1, createdAt, updatedAt);
        Write(Ok(row), posts + [row])
  }

  /** `updatePost(post)`: the payload's own id selects the row. */
  function UpdatePost(posts: seq<BlogPost>, update: UpdateBlogPost, now: Timestamp,
                      fault: Option<string>): (w: Write<BlogPost>)
    ensures fault.Some? ==> w.response.Err? && w.table == posts
    ensures |w.table| == |posts|
    ensures forall i :: 0 <= i < |posts| && posts[i].id != update.id ==> w.table[i] == posts[i]
    ensures fault.None? ==>
              forall i :: 0 <= i < |posts| && posts[i].id == update.id ==>
                w.table[i] == ApplyPatch(update.patch, posts[i], now)
    ensures w.response.Ok? <==> fault.None? && |RowsWithId(posts, update.id)| == 1
    ensures w.response.Ok? ==> w.response.value.id == update.id && w.response.value.updatedAt == now
                               && w.response.value in w.table
  {
    Posts.UpdatePost(posts, update.id, update.patch, now, fault)
  }
}
