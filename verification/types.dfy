/**
 * The rows and payloads of the blog: the `blog_posts` row, the create and
 * update payloads the services accept, and the `users` row with its role.
 * A field that JavaScript may leave `undefined` is an `Option`.
 */
module Types {
  import opened Wrappers

  /** An instant; only its total order matters to the model. */
  type Timestamp = int

  /** The two states a post can be in; nothing else is representable. */
  datatype PostStatus = Draft | Published

  /** The three roles a `users` row can carry; the source's `'user'` is `UserRole`. */
  datatype Role = AdminRole | AuthorRole | UserRole

  /** A stored `blog_posts` row. `publishedAt` is `None` until the post is
      published: no create path supplies it. */
  datatype BlogPost = BlogPost(
    id: string,
    title: string,
    content: string,
    excerpt: string,
    slug: string,
    featuredImage: Option<string>,
    authorId: string,
    authorName: string,
    authorEmail: string,
    publishedAt: Option<Timestamp>,
    createdAt: Timestamp,
    updatedAt: Timestamp,
    status: PostStatus,
    tags: Option<seq<string>>,
    metaDescription: Option<string>)

  /** The create payload: it has no id, author id or timestamps of its own. */
  datatype CreateBlogPost = CreateBlogPost(
    title: string,
    content: string,
    excerpt: string,
    slug: string,
    featuredImage: Option<string>,
    authorName: string,
    authorEmail: string,
    status: PostStatus,
    tags: Option<seq<string>>,
    metaDescription: Option<string>)

  /** `Partial<CreateBlogPost>`: every field may be left out. */
  datatype PostPatch = PostPatch(
    title: Option<string>,
    content: Option<string>,
    excerpt: Option<string>,
    slug: Option<string>,
    featuredImage: Option<string>,
    authorName: Option<string>,
    authorEmail: Option<string>,
    status: Option<PostStatus>,
    tags: Option<seq<string>>,
    metaDescription: Option<string>)

  /** The update payload: the row id is required, every other field optional. */
  datatype UpdateBlogPost = UpdateBlogPost(id: string, patch: PostPatch)

  /** A `users` row. */
  datatype User = User(
    id: string,
    email: string,
    fullName: Option<string>,
    avatarUrl: Option<string>,
    role: Role,
    createdAt: Timestamp,
    updatedAt: Timestamp)

  /** The signed-in identity the auth provider reports, with its claims. */
  datatype AuthUser = AuthUser(id: string, email: Option<string>, fullNameClaim: Option<string>)

  /** What `auth.getUser()` yields: an error, no session, or a user. */
  datatype AuthState = AuthFailed(message: string) | SignedOut | SignedIn(user: AuthUser)

  /** The patch that changes nothing. */
  const NoChange := PostPatch(None, None, None, None, None, None, None, None, None, None)

  /** The row an insert of `{...payload, author_id, author_name, author_email,
      created_at, updated_at}` stores, with the store-generated `id`. */
  function StoredPost(payload: CreateBlogPost, id: string, authorId: string,
                      authorName: string, authorEmail: string,
                      createdAt: Timestamp, updatedAt: Timestamp): (p: BlogPost)
    ensures p.id == id && p.authorId == authorId
    ensures p.authorName == authorName && p.authorEmail == authorEmail
    ensures p.createdAt == createdAt && p.updatedAt == updatedAt
    ensures p.publishedAt.None?
  {
    BlogPost(id, payload.title, payload.content, payload.excerpt, payload.slug,
             payload.featuredImage, authorId, authorName, authorEmail, None,
             createdAt, updatedAt, payload.status, payload.tags, payload.metaDescription)
  }

  /** The payload fields of a stored row. */
  function PayloadOf(p: BlogPost): CreateBlogPost
  {
    CreateBlogPost(p.title, p.content, p.excerpt, p.slug, p.featuredImage,
                   p.authorName, p.authorEmail, p.status, p.tags, p.metaDescription)
  }

  /** Storing a payload keeps every one of its fields verbatim, and a never
      published row is exactly the store of its own payload. */
  lemma StoredPostRoundTrip(payload: CreateBlogPost, p: BlogPost, id: string, authorId: string,
                            createdAt: Timestamp, updatedAt: Timestamp)
    ensures PayloadOf(StoredPost(payload, id, authorId, payload.authorName,
                                 payload.authorEmail, createdAt, updatedAt)) == payload
    ensures p.publishedAt.None? ==>
              StoredPost(PayloadOf(p), p.id, p.authorId, p.authorName, p.authorEmail,
                         p.createdAt, p.updatedAt) == p
  {
  }

  /** The patch a spread of a whole payload produces: every field present
      except the optional ones the payload leaves out. */
  function FullPatch(c: CreateBlogPost): (patch: PostPatch)
    ensures patch.title.Some? && patch.content.Some? && patch.excerpt.Some? && patch.slug.Some?
    ensures patch.authorName.Some? && patch.authorEmail.Some? && patch.status.Some?
  {
    PostPatch(Some(c.title), Some(c.content), Some(c.excerpt), Some(c.slug), c.featuredImage,
              Some(c.authorName), Some(c.authorEmail), Some(c.status), c.tags, c.metaDescription)
  }

  /** The row `.update({...patch, updated_at: now})` leaves behind: supplied
      fields overwrite, left-out fields stay. */
  function ApplyPatch(patch: PostPatch, p: BlogPost, now: Timestamp): (q: BlogPost)
    ensures q.id == p.id && q.authorId == p.authorId
    ensures q.createdAt == p.createdAt && q.publishedAt == p.publishedAt
    ensures q.updatedAt == now
  {
    p.(title := patch.title.GetOr(p.title),
       content := patch.content.GetOr(p.content),
       excerpt := patch.excerpt.GetOr(p.excerpt),
       slug := patch.slug.GetOr(p.slug),
       featuredImage := if patch.featuredImage.Some? then patch.featuredImage else p.featuredImage,
       authorName := patch.authorName.GetOr(p.authorName),
       authorEmail := patch.authorEmail.GetOr(p.authorEmail),
       status := patch.status.GetOr(p.status),
       tags := if patch.tags.Some? then patch.tags else p.tags,
       metaDescription := if patch.metaDescription.Some? then patch.metaDescription else p.metaDescription,
       updatedAt := now)
  }

  /** An empty patch only refreshes `updated_at`; applying a patch twice is
      the same as applying it once at the later instant. */
  lemma ApplyPatchLaws(patch: PostPatch, p: BlogPost, t1: Timestamp, t2: Timestamp)
    ensures ApplyPatch(NoChange, p, t1) == p.(updatedAt := t1)
    ensures ApplyPatch(patch, ApplyPatch(patch, p, t1), t2) == ApplyPatch(patch, p, t2)
  {
  }

  /** Applying the spread of a whole payload makes the row carry that
      payload, except that an optional field the payload leaves out keeps
      the row's own value. A payload without a featured image, as every form
      payload is, therefore keeps the stored image. */
  lemma FullPatchOverwrites(c: CreateBlogPost, p: BlogPost, now: Timestamp)
    ensures PayloadOf(ApplyPatch(FullPatch(c), p, now))
            == c.(featuredImage := if c.featuredImage.Some? then c.featuredImage else p.featuredImage,
                  tags := if c.tags.Some? then c.tags else p.tags,
                  metaDescription := if c.metaDescription.Some? then c.metaDescription else p.metaDescription)
    ensures c.featuredImage.None? && c.tags.Some? && c.metaDescription.Some? ==>
              PayloadOf(ApplyPatch(FullPatch(c), p, now)) == c.(featuredImage := p.featuredImage)
  {
  }
}
