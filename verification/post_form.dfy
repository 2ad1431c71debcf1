/**
 * The blog post form: its initial state, the title-to-slug coupling, the
 * comma-separated tag field, and which service call each of its three
 * submit paths makes with which status.
 */
module PostForm {
  import opened Wrappers
  import opened Text
  import opened Types
  import Slug

  // ---------------------------------------------------------------------------
  // Form state
  // ---------------------------------------------------------------------------

  /** The form's initial `formData`: the edited post's fields, or blanks and
      `draft` for a new post. `featured_image` is not part of the form. */
  function InitialForm(post: Option<BlogPost>): (f: CreateBlogPost)
    ensures post.None? ==> f.status == Draft && f.title == "" && f.slug == "" && f.content == ""
    ensures post.None? ==> f.excerpt == "" && f.authorName == "" && f.authorEmail == ""
    ensures post.None? ==> f.tags == Some([]) && f.metaDescription == Some("")
    ensures post.Some? ==> f.status == post.value.status && f.title == post.value.title
                           && f.slug == post.value.slug && f.content == post.value.content
    ensures post.Some? ==> f.excerpt == post.value.excerpt && f.authorName == post.value.authorName
                           && f.authorEmail == post.value.authorEmail
    ensures post.Some? && post.value.tags.Some? ==> f.tags == post.value.tags
    ensures post.Some? && post.value.tags.None? ==> f.tags == Some([])
    ensures post.Some? && Truthy(post.value.metaDescription) ==> f.metaDescription == post.value.metaDescription
    ensures post.Some? && !Truthy(post.value.metaDescription) ==> f.metaDescription == Some("")
    ensures f.featuredImage.None?
  {
    match post
    case None => CreateBlogPost("", "", "", "", None, "", "", Draft, Some([]), Some(""))
    case Some(p) =>
      CreateBlogPost(p.title, p.content, p.excerpt, p.slug, None, p.authorName, p.authorEmail,
                     p.status, Some(p.tags.GetOr([])), Some(OrElse(p.metaDescription, "")))
  }

  /** An edited post whose row has tags and a meta description opens with
      exactly its own payload, less the featured image. */
  lemma InitialFormOfStored(p: BlogPost)
    requires p.tags.Some? && p.metaDescription.Some?
    ensures InitialForm(Some(p)) == PayloadOf(p).(featuredImage := None)
  {
  }

  /** Typing into the slug field. */
  function SlugEdited(form: CreateBlogPost, slug: string): (f: CreateBlogPost)
    ensures f.slug == slug
    ensures f.(slug := form.slug) == form
  {
    form.(slug := slug)
  }

  /** `handleTitleChange`: the slug always follows the new title. */
  function TitleChanged(form: CreateBlogPost, title: string): (f: CreateBlogPost)
    ensures f.title == title
    ensures Slug.IsSlug(f.slug)
    ensures f.slug == Slug.GenerateSlug(title)
    ensures f.(title := form.title, slug := form.slug) == form
  {
    form.(title := title, slug := Slug.GenerateSlug(title))
  }

  /** A manual slug edit does not survive the next title change. */
  lemma TitleChangeDiscardsSlugEdit(form: CreateBlogPost, slug: string, title: string)
    ensures TitleChanged(SlugEdited(form, slug), title) == TitleChanged(form, title)
  {
  }

  // ---------------------------------------------------------------------------
  // Tags
  // ---------------------------------------------------------------------------

  /** `.map(tag => tag.trim()).filter(Boolean)`. */
  function TrimAndDropEmpty(pieces: seq<string>): (tags: seq<string>)
    ensures |tags| <= |pieces|
  {
    if |pieces| == 0 then []
    else
      var t := Trim(pieces[0]);
      (if t != "" then [t] else []) + TrimAndDropEmpty(pieces[1..])
  }

  /** A non-empty trimmed string: what `.filter(Boolean)` keeps of a trimmed piece. */
  predicate KeptTag(t: string) {
    t != "" && IsTrimmed(t)
  }

  lemma KeptTagsConcat(a: seq<string>, b: seq<string>)
    requires forall i :: 0 <= i < |a| ==> KeptTag(a[i])
    requires forall i :: 0 <= i < |b| ==> KeptTag(b[i])
    ensures forall i :: 0 <= i < |a + b| ==> KeptTag((a + b)[i])
  {
    forall i | 0 <= i < |a + b|
      ensures KeptTag((a + b)[i])
    {
      if i >= |a| {
        assert (a + b)[i] == b[i - |a|];
      }
    }
  }

  /** Every kept tag is trimmed and non-empty. */
  lemma {:induction false} KeptTagsTrimmed(pieces: seq<string>)
    ensures forall i :: 0 <= i < |TrimAndDropEmpty(pieces)| ==> KeptTag(TrimAndDropEmpty(pieces)[i])
  {
    if |pieces| > 0 {
      var t := Trim(pieces[0]);
      var head := if t != "" then [t] else [];
      KeptTagsTrimmed(pieces[1..]);
      KeptTagsConcat(head, TrimAndDropEmpty(pieces[1..]));
    }
  }

  lemma TrimAndDropEmptyCons(p: string, ps: seq<string>)
    ensures TrimAndDropEmpty([p] + ps)
            == (if Trim(p) != "" then [Trim(p)] else []) + TrimAndDropEmpty(ps)
  {
    assert ([p] + ps)[1..] == ps;
  }

  /** The tag field's `onChange`: `value.split(',')`, each piece trimmed,
      empty pieces dropped. */
  function ParseTags(input: string): (tags: seq<string>)
    ensures forall i :: 0 <= i < |tags| ==> tags[i] != "" && IsTrimmed(tags[i]) && ',' !in tags[i]
  {
    var pieces := Split(input, ',');
    var tags := TrimAndDropEmpty(pieces);
    KeptTagsTrimmed(pieces);
    TagsFromPieces(pieces);
    tags
  }

  lemma {:induction false} TagsFromPieces(pieces: seq<string>)
    requires forall i :: 0 <= i < |pieces| ==> ',' !in pieces[i]
    ensures forall i :: 0 <= i < |TrimAndDropEmpty(pieces)| ==> ',' !in TrimAndDropEmpty(pieces)[i]
  {
    if |pieces| > 0 {
      TagsFromPieces(pieces[1..]);
      TrimAddsNothing(pieces[0], ',');
    }
  }

  /** The tag field's displayed value, `tags.join(', ')`. */
  function TagsText(tags: seq<string>): string
  {
    Join(tags, ", ")
  }

  /** A tag the field can hold: non-empty, trimmed, without a comma. */
  predicate IsTag(t: string) {
    t != "" && IsTrimmed(t) && ',' !in t
  }

  lemma TrimPastWhitespace(w: string, t: string)
    requires forall k :: 0 <= k < |w| ==> IsWhitespace(w[k])
    requires IsTag(t)
    ensures Trim(w + t) == t
  {
    var s := w + t;
    assert s[|w|..] == t;
    TrimStartDrops(s, |w|);
    TrimFixpoint(t);
  }

  lemma NoCommaInWhitespace(w: string)
    requires forall k :: 0 <= k < |w| ==> IsWhitespace(w[k])
    ensures ',' !in w
  {
  }

  /** The first displayed tag is the first piece of the split. */
  lemma SplitJoinedTags(w: string, tags: seq<string>)
    requires ',' !in w && |tags| >= 2 && IsTag(tags[0])
    ensures Split(w + Join(tags, ", "), ',') == [w + tags[0]] + Split(" " + Join(tags[1..], ", "), ',')
  {
    var rest := Join(tags[1..], ", ");
    assert w + Join(tags, ", ") == (w + tags[0]) + [','] + (" " + rest);
    assert ',' !in w + tags[0];
    SplitAtSeparator(w + tags[0], " " + rest, ',');
  }

  lemma {:induction false} ParseNoTags(w: string)
    requires forall k :: 0 <= k < |w| ==> IsWhitespace(w[k])
    ensures TrimAndDropEmpty(Split(w + Join([], ", "), ',')) == []
  {
    NoCommaInWhitespace(w);
    assert w + Join([], ", ") == w;
    SplitNoSeparator(w, ',');
    TrimEmpty(w);
    TrimAndDropEmptyCons(w, []);
    assert [w] + [] == [w];
  }

  lemma {:induction false} ParseOneTag(w: string, t: string)
    requires forall k :: 0 <= k < |w| ==> IsWhitespace(w[k])
    requires IsTag(t)
    ensures TrimAndDropEmpty(Split(w + Join([t], ", "), ',')) == [t]
  {
    NoCommaInWhitespace(w);
    assert ',' !in w + t;
    SplitNoSeparator(w + t, ',');
    TrimPastWhitespace(w, t);
    TrimAndDropEmptyCons(w + t, []);
  }

  lemma {:induction false} ParseJoinedTags(w: string, tags: seq<string>)
    requires forall k :: 0 <= k < |w| ==> IsWhitespace(w[k])
    requires forall i :: 0 <= i < |tags| ==> IsTag(tags[i])
    ensures TrimAndDropEmpty(Split(w + Join(tags, ", "), ',')) == tags
    decreases |tags|
  {
    NoCommaInWhitespace(w);
    if |tags| == 0 {
      assert tags == [];
      ParseNoTags(w);
    } else if |tags| == 1 {
      assert tags == [tags[0]];
      ParseOneTag(w, tags[0]);
    } else {
      ParseJoinedTags(" ", tags[1..]);
      TrimPastWhitespace(w, tags[0]);
      ParseManyTags(w, tags);
    }
  }

  lemma {:induction false} ParseManyTags(w: string, tags: seq<string>)
    requires ',' !in w && |tags| >= 2 && IsTag(tags[0])
    requires Trim(w + tags[0]) == tags[0]
    requires TrimAndDropEmpty(Split(" " + Join(tags[1..], ", "), ',')) == tags[1..]
    ensures TrimAndDropEmpty(Split(w + Join(tags, ", "), ',')) == tags
  {
    SplitJoinedTags(w, tags);
    ParsedCons(w + tags[0], Split(" " + Join(tags[1..], ", "), ','), tags);
  }

  lemma ParsedCons(first: string, later: seq<string>, tags: seq<string>)
    requires |tags| >= 1 && tags[0] != "" && Trim(first) == tags[0]
    requires TrimAndDropEmpty(later) == tags[1..]
    ensures TrimAndDropEmpty([first] + later) == tags
  {
    TrimAndDropEmptyCons(first, later);
    assert TrimAndDropEmpty([first] + later) == [tags[0]] + tags[1..];
    assert [tags[0]] + tags[1..] == tags;
  }

  /** Re-parsing the displayed tags gives back the same tags. */
  lemma TagsRoundTrip(tags: seq<string>)
    requires forall i :: 0 <= i < |tags| ==> IsTag(tags[i])
    ensures ParseTags(TagsText(tags)) == tags
  {
    ParseJoinedTags("", tags);
    assert "" + Join(tags, ", ") == TagsText(tags);
  }

  // ---------------------------------------------------------------------------
  // Submitting
  // ---------------------------------------------------------------------------

  /** The three ways the form sends a post to the service. */
  datatype Action =
    | SubmitForm      // the form's submit event (`handleSubmit`)
    | SaveDraft       // the "Save as Draft" button
    | PublishButton   // the "Publish Post" / "Update Post" button

  /** The service call a submit path makes. */
  datatype ServiceCall =
    | CreateCall(payload: CreateBlogPost, authorId: string)
    | UpdateCall(id: string, patch: PostPatch)

  /** The "Save as Draft" button exists only for new posts and drafts. */
  predicate ShowsSaveDraft(post: Option<BlogPost>) {
    post.None? || post.value.status == Draft
  }

  /** The browser's constraint validation of the `required` inputs; it runs
      before a submit event, but not for the two `type="button"` buttons. */
  predicate RequiredFilled(form: CreateBlogPost) {
    form.title != "" && form.slug != "" && form.authorName != ""
    && form.authorEmail != "" && form.excerpt != "" && form.content != ""
  }

  /** The status a call sends. */
  function SentStatus(call: ServiceCall): Option<PostStatus>
  {
    match call
    case CreateCall(payload, _) => Some(payload.status)
    case UpdateCall(_, patch) => patch.status
  }

  /** `handleSubmit`: an edited draft is published, any other edit keeps the
      form's status, and a new post is created with the form's status. */
  function HandleSubmit(post: Option<BlogPost>, form: CreateBlogPost, userId: string): ServiceCall
  {
    match post
    case Some(p) =>
      var status := if p.status == Draft then Published else form.status;
      UpdateCall(p.id, FullPatch(form.(status := status)))
    case None => CreateCall(form, userId)
  }

  /** The call, if any, that `action` makes for signed-in user `userId`
      (`None` when nobody is signed in, when the button is not shown, or when
      the browser blocks the submit event). */
  function Submit(action: Action, post: Option<BlogPost>, form: CreateBlogPost,
                  userId: Option<string>): (call: Option<ServiceCall>)
    ensures userId.None? ==> call.None?
    ensures call.Some? && call.value.CreateCall? ==> post.None? && call.value.authorId == userId.value
    ensures call.Some? && call.value.UpdateCall? ==> post.Some? && call.value.id == post.value.id
    ensures action == SaveDraft ==> (call.Some? <==> userId.Some? && ShowsSaveDraft(post))
    ensures action == SaveDraft && call.Some? ==> SentStatus(call.value) == Some(Draft)
    ensures (action == PublishButton && post.Some? && post.value.status == Draft && userId.Some?)
              ==> call.Some? && SentStatus(call.value) == Some(Published)
    ensures (action == PublishButton && post.Some? && post.value.status == Published && userId.Some?)
              ==> call.Some? && SentStatus(call.value) == Some(form.status)
    ensures (action != SaveDraft && post.None? && call.Some?)
              ==> RequiredFilled(form) && call.value == CreateCall(form, userId.value)
    ensures action == SaveDraft && call.Some? && post.Some? ==>
              call.value == UpdateCall(post.value.id, FullPatch(form.(status := Draft)))
    ensures action == SaveDraft && call.Some? && post.None? ==>
              call.value == CreateCall(form.(status := Draft), userId.value)
    ensures action == SubmitForm ==> (call.Some? <==> userId.Some? && RequiredFilled(form))
    ensures action == PublishButton && post.None? ==> (call.Some? <==> userId.Some? && RequiredFilled(form))
    ensures action == PublishButton && post.Some? ==> (call.Some? <==> userId.Some?)
    ensures action != SaveDraft && post.Some? && call.Some? ==>
              call.value == UpdateCall(post.value.id,
                                       FullPatch(form.(status := if post.value.status == Draft then Published else form.status)))
  {
    if userId.None? then None
    else
      var uid := userId.value;
      match action
      case SubmitForm =>
        if RequiredFilled(form) then Some(HandleSubmit(post, form, uid)) else None
      case SaveDraft =>
        if !ShowsSaveDraft(post) then None
        else if post.Some? then Some(UpdateCall(post.value.id, FullPatch(form.(status := Draft))))
        else Some(CreateCall(form.(status := Draft), uid))
      case PublishButton =>
        if post.Some? then
          if post.value.status == Draft then
            Some(UpdateCall(post.value.id, FullPatch(form.(status := Published))))
          else Some(UpdateCall(post.value.id, FullPatch(form)))
        else if RequiredFilled(form) then Some(HandleSubmit(post, form, uid))
        else None
  }

  /** A new post published straight from a fresh form is created as a draft,
      because the form's status starts as `draft`. */
  /** Whatever button sends the form, the row written carries the form's
      fields unchanged except perhaps the status. */
  lemma SubmitSendsForm(action: Action, post: Option<BlogPost>, form: CreateBlogPost, userId: Option<string>)
    ensures forall call :: Submit(action, post, form, userId) == Some(call) ==>
              && SentStatus(call).Some?
              && (call.CreateCall? ==> call.payload == form.(status := SentStatus(call).value))
              && (call.UpdateCall? ==> call.patch == FullPatch(form.(status := SentStatus(call).value)))
  {
  }

  /** On an existing post, pressing Enter and pressing Publish/Update send the
      same update once the required fields are filled. */
  lemma EnterMatchesPublishButton(p: BlogPost, form: CreateBlogPost, userId: string)
    requires RequiredFilled(form)
    ensures Submit(SubmitForm, Some(p), form, Some(userId)) == Submit(PublishButton, Some(p), form, Some(userId))
    ensures p.status == Draft ==>
              SentStatus(Submit(SubmitForm, Some(p), form, Some(userId)).value) == Some(Published)
  {
  }

  lemma NewPostPublishesFormDefault(form: CreateBlogPost, userId: string)
    requires form.status == InitialForm(None).status
    ensures forall call :: Submit(PublishButton, None, form, Some(userId)) == Some(call)
              ==> SentStatus(call) == Some(Draft)
  {
  }
}
