/**
 * The browser-side blog service (`BlogServiceClient`): who sees which posts,
 * lookups, and the create path. Updates, publishing, deletion and lookup by
 * id are the shared operations of module `Posts`.
 *
 * `posts` and `users` are the `blog_posts` and `users` tables as the caller
 * may read them; `fault` is the store's verdict on the one posts request an
 * operation makes.
 */
module BlogClient {
  import opened Wrappers
  import opened Text
  import opened Types
  import opened Table
  import opened Posts

  // ---------------------------------------------------------------------------
  // Role lookup and visibility
  // ---------------------------------------------------------------------------

  /** `users.select('role').eq('id', uid).single()`: the role if exactly one
      row has that id; a failed or empty lookup yields no role. */
  function RoleOf(users: seq<User>, uid: string): (r: Option<Role>)
    ensures r.Some? <==> |Where(users, (u: User) => u.id == uid)| == 1
    ensures r.Some? ==> exists u :: u in users && u.id == uid && u.role == r.value
  {
    match Single(Where(users, (u: User) => u.id == uid))
    case Ok(u) => Some(u.role)
    case Err(_) => None
  }

  /** The caller is signed in and the role lookup says admin. */
  predicate IsAdminCaller(auth: AuthState, users: seq<User>) {
    auth.SignedIn? && RoleOf(users, auth.user.id) == Some(AdminRole)
  }

  /** The id the `or(...)` filter compares `author_id` with: `user?.id ||
      nil`, so the signed-in user's id unless it is missing or empty, and the
      nil UUID otherwise. */
  function ViewerId(auth: AuthState): (v: string)
    ensures auth.SignedIn? && auth.user.id != "" ==> v == auth.user.id
    ensures !auth.SignedIn? || auth.user.id == "" ==> v == NilUuid
  {
    if auth.SignedIn? then OrElse(Some(auth.user.id), NilUuid) else NilUuid
  }

  /** `status.eq.published,author_id.eq.<viewer>`. */
  predicate PublishedOrOwn(viewer: string, p: BlogPost) {
    p.status == Published || p.authorId == viewer
  }

  // ---------------------------------------------------------------------------
  // Listing
  // ---------------------------------------------------------------------------

  /** `getAllPosts()`: an admin gets every row; anyone else, including a
      caller whose role lookup failed, gets published rows and their own;
      nobody signed in gets published rows and those authored by the nil UUID.
      Newest first by `created_at`. */
  function GetAllPosts(auth: AuthState, users: seq<User>, posts: seq<BlogPost>,
                       fault: Option<string>): (r: Result<seq<BlogPost>, Failure>)
    ensures auth.AuthFailed? ==> r == Err(AuthFailure(auth.message))
    ensures !auth.AuthFailed? ==> (r.Ok? <==> fault.None?)
    ensures r.Ok? ==> Sorted(r.value, NewerCreated)
    ensures r.Ok? && IsAdminCaller(auth, users) ==> multiset(r.value) == multiset(posts)
    ensures r.Ok? && auth.SignedIn? && !IsAdminCaller(auth, users) ==>
              forall p :: p in r.value <==> p in posts && (p.status == Published || p.authorId == ViewerId(auth))
    ensures r.Ok? && auth.SignedOut? ==>
              forall p :: p in r.value <==> p in posts && (p.status == Published || p.authorId == NilUuid)
    ensures r.Ok? && auth.SignedIn? && !IsAdminCaller(auth, users) ==>
              forall p :: multiset(r.value)[p]
                          == if p.status == Published || p.authorId == ViewerId(auth) then multiset(posts)[p] else 0
    ensures r.Ok? && auth.SignedOut? ==>
              forall p :: multiset(r.value)[p]
                          == if p.status == Published || p.authorId == NilUuid then multiset(posts)[p] else 0
  {
    OrdersArePreorders();
    if auth.AuthFailed? then Err(AuthFailure(auth.message))
    else if fault.Some? then Err(StoreFailure(fault.value))
    else if IsAdminCaller(auth, users) then
      WhereAll(posts, (p: BlogPost) => true);
      Ok(Query(posts, (p: BlogPost) => true, NewerCreated))
    else
      var viewer := ViewerId(auth);
      Ok(Query(posts, p => PublishedOrOwn(viewer, p), NewerCreated))
  }

  /** `getPublishedPosts()`: the published rows, newest first by `created_at`. */
  function GetPublishedPosts(posts: seq<BlogPost>, fault: Option<string>): (r: Result<seq<BlogPost>, Failure>)
    ensures r.Ok? <==> fault.None?
    ensures r.Ok? ==> Sorted(r.value, NewerCreated)
    ensures r.Ok? ==> forall p :: p in r.value <==> p in posts && p.status == Published
    ensures r.Ok? ==> multiset(r.value) == multiset(Where(posts, IsPublished))
  {
    OrdersArePreorders();
    if fault.Some? then Err(StoreFailure(fault.value))
    else Ok(Query(posts, IsPublished, NewerCreated))
  }

  /** For the same tables, whatever a non-admin caller is shown, an admin is
      shown too. */
  lemma AdminSeesSuperset(viewer: AuthState, admin: AuthState, users: seq<User>, posts: seq<BlogPost>)
    requires IsAdminCaller(admin, users) && !viewer.AuthFailed?
    ensures GetAllPosts(admin, users, posts, None).Ok? && GetAllPosts(viewer, users, posts, None).Ok?
    ensures forall p :: p in GetAllPosts(viewer, users, posts, None).value
              ==> p in GetAllPosts(admin, users, posts, None).value
  {
    var all := GetAllPosts(admin, users, posts, None).value;
    forall p | p in GetAllPosts(viewer, users, posts, None).value
      ensures p in all
    {
      assert p in posts;
      assert multiset(all)[p] == multiset(posts)[p] > 0;
    }
  }

  /** Someone not signed in is shown exactly what `getPublishedPosts` shows,
      as long as no row is authored by the nil UUID. */
  lemma SignedOutSeesPublished(users: seq<User>, posts: seq<BlogPost>)
    requires forall i :: 0 <= i < |posts| ==> posts[i].authorId != NilUuid
    ensures GetAllPosts(SignedOut, users, posts, None) == GetPublishedPosts(posts, None)
  {
    WhereCongruent(posts, p => PublishedOrOwn(NilUuid, p), IsPublished);
  }

  /** A row authored by the nil UUID is shown to someone not signed in even
      while it is a draft. */
  lemma NilAuthoredDraftIsPublic(users: seq<User>, posts: seq<BlogPost>, p: BlogPost)
    requires p in posts && p.authorId == NilUuid && p.status == Draft
    ensures p in GetAllPosts(SignedOut, users, posts, None).value
  {
  }

  /** A signed-in non-admin whose id is empty falls back to the nil UUID, so
      nil-authored drafts are shown to them as well, and their own empty-id
      drafts are not. */
  lemma EmptyIdFallsBackToNil(user: AuthUser, users: seq<User>, posts: seq<BlogPost>, p: BlogPost)
    requires user.id == "" && !IsAdminCaller(SignedIn(user), users)
    requires p in posts && p.status == Draft
    ensures p in GetAllPosts(SignedIn(user), users, posts, None).value <==> p.authorId == NilUuid
  {
  }

  // ---------------------------------------------------------------------------
  // Lookup and create
  // ---------------------------------------------------------------------------

  /** `getPostBySlug(slug)`: `.eq('slug', slug).single()` with no status
      filter; zero or several matching rows are the store's error, so the
      source's `null` branch is never taken. */
  function GetPostBySlug(posts: seq<BlogPost>, slug: string, fault: Option<string>): (r: Result<Option<BlogPost>, Failure>)
    ensures r.Ok? <==> fault.None? && |Where(posts, (p: BlogPost) => p.slug == slug)| == 1
    ensures r.Ok? ==> r.value.Some? && r.value.value in posts && r.value.value.slug == slug
  {
    if fault.Some? then Err(StoreFailure(fault.value))
    else
      match Single(Where(posts, (p: BlogPost) => p.slug == slug))
      case Ok(p) => Ok(Some(p))
      case Err(e) => Err(e)
  }

  /** A draft whose slug is unique is returned to anyone who asks for it. */
  lemma DraftReachableBySlug(posts: seq<BlogPost>, d: BlogPost)
    requires d.status == Draft
    requires Where(posts, (p: BlogPost) => p.slug == d.slug) == [d]
    ensures GetPostBySlug(posts, d.slug, None) == Ok(Some(d))
  {
  }

  /** `createPost(post, authorId)`: the payload stored verbatim with
      `author_id` from the argument and two separate clock readings; `newId`
      is the id the store generates. */
  function CreatePost(posts: seq<BlogPost>, payload: CreateBlogPost, authorId: string, newId: string,
                      createdAt: Timestamp, updatedAt: Timestamp, fault: Option<string>): (w: Write<BlogPost>)
    ensures w.response.Err? <==> fault.Some?
    ensures fault.Some? ==> w.table == posts
    ensures w.response.Ok? ==>
              && PayloadOf(w.response.value) == payload
              && w.response.value.authorId == authorId
              && w.response.value.id == newId
              && w.response.value.createdAt == createdAt
              && w.response.value.updatedAt == updatedAt
              && w.response.value.publishedAt.None?
              && w.table == posts + [w.response.value]
  {
    if fault.Some? then Write(Err(StoreFailure(fault.value)), posts)
    else
      var row := StoredPost(payload, newId, authorId, payload.authorName, payload.authorEmail,
                            createdAt, updatedAt);
      StoredPostRoundTrip(payload, row, newId, authorId, createdAt, updatedAt);
      Write(Ok(row), posts + [row])
  }
}
