# Trendbase blog and admin rules in Dafny

Trendbase is a small Next.js site. It has a blog backed by a hosted
Postgres store, an admin panel for user roles, a sign-up page, and a
contact form that sends two emails. This project models the parts of it
that decide something, as pure functions over immutable values:

- the post and user records and their payloads (`Types`);
- the store's query vocabulary over tables held as sequences (`Table`):
  filters, `ORDER BY ... DESC`, `.single()` and `count`;
- the blog services of the browser (`BlogClient`), of the server
  (`BlogServer`), and the writes both share (`Posts`): visibility by role,
  lookups, author attribution, update, publish and delete;
- the blog post form (`PostForm`, with `Slug`): the title-to-slug rule, the
  comma-separated tag field, and which call each submit path makes;
- the contact endpoint (`Contact`): validation, the two emails, and the
  HTTP response;
- the admin user panel (`UserAdmin`): promote and demote by email, the
  user list with post counts, and the message styling;
- the local-storage admin session hook (`AdminAuth`), the navigation bar
  (`Navigation`) and the sign-up page (`Signup`).

The store, the auth provider and the email provider are not called.
What they would answer is passed in as a parameter. A table is a `seq`
of rows. `fault: Option<string>` is the store's rejection of a request.
`AuthState` is what `auth.getUser()` reports. `SendOutcome` is what one
`emails.send` does. Every `new Date()` reading is its own `Timestamp`
parameter, and the model never assumes two readings are equal.

`.single()` succeeds exactly when one row matches; zero or several rows
are an error (`NotSingleRow`). As a consequence, the `null` branch of the
browser-side `getPostBySlug` is never taken, and `getPostById` never
returns `null`.

The store chooses the order of rows whose sort keys are equal. `Table.Sort`
fixes one such order, and no contract depends on it. `published_at` is an
`Option`: no create path sets it. A descending order puts rows without it
first, as PostgreSQL does.

Behaviour the model keeps exactly as the code has it, though a reader might expect otherwise:

- `createPost` has no required-field check: a payload with empty fields is inserted as it is.
- `getPostBySlug` uses `.single()`, so a missing slug is an error, not `null`.
- The Update button sends the form's status, so a published post can go back to draft.
- The browser-side `getAllPosts` rethrows an auth error instead of falling back to the signed-out view.

## Model

| member | source | states |
|---|---|---|
| Types.StoredPost | lib/blog-service-client.ts:119-128 | the inserted row carries the given id, author id, author name and email, the two timestamps, and no `published_at` |
| Types.StoredPostRoundTrip | lib/types.ts:1-30 | storing a payload keeps every payload field verbatim, and a never-published row is exactly the store of its own payload |
| Types.FullPatch | components/blog-post-form.tsx:68-73 | the spread of a whole form payload supplies every mandatory field |
| Types.ApplyPatch | lib/blog-service-client.ts:137-145 | an update keeps id, author id, `created_at` and `published_at`, and sets `updated_at` to the clock reading |
| Types.ApplyPatchLaws | lib/blog-service-client.ts:137-145 | an empty patch only refreshes `updated_at`; applying a patch twice equals applying it once at the later instant |
| Types.FullPatchOverwrites | components/blog-post-form.tsx:68-73 | applying a full payload makes the row carry that payload, except that an optional field the payload leaves out keeps the row's value; a form payload, which never has an image, keeps the stored image |
| Table.Where | lib/blog-service-client.ts:48-52 | the filter returns exactly the rows that pass, each as often as the table holds it |
| Table.WhereAppend | lib/blog-service-client.ts:48-52 | filtering keeps table order: the passing rows of a concatenation are those of the first part followed by those of the second |
| Table.WhereSingleton | lib/blog-service-client.ts:48-52 | a single row passes alone or not at all, which with the previous row fixes the filter's result, order included |
| Table.WhereCongruent | lib/blog-service-client.ts:48-52 | two filters that agree on every row return the same rows |
| Table.WhereAll | lib/blog-service-client.ts:35-38 | a filter every row passes returns the whole table |
| Table.Single | lib/blog-service-client.ts:183-190 | `.single()` succeeds iff exactly one row matches, and returns that row |
| Table.CountWhere | components/admin-user-management.tsx:77-80 | the count is at most the table size, and zero iff no row passes |
| Table.CountIsFilterLength | components/admin-user-management.tsx:77-80 | the row-by-row count equals the number of rows the same filter returns |
| Table.CountWhereAppend | components/admin-user-management.tsx:77-80 | counting a table split in two adds the counts of its parts |
| Table.Insert | lib/blog-service-client.ts:38 | inserting into an ordered list yields an ordered permutation of the list plus the row |
| Table.Sort | lib/blog-service-client.ts:38 | `ORDER BY` yields an ordered permutation of its input |
| Table.Query | lib/blog-service-client.ts:48-52 | a filtered, ordered select returns a sorted permutation of exactly the rows that pass |
| Posts.OrdersArePreorders | lib/blog-service.ts:12 | "newest first" by `created_at` and by `published_at` (rows without it first) are total preorders |
| Posts.RowsWithId | lib/blog-service-client.ts:186 | `.eq('id', id)` selects exactly the rows with that id |
| Posts.UpdateRows | lib/blog-service-client.ts:137-143 | an update changes the matching rows and leaves every other row in place and unchanged |
| Posts.UpdatePost | lib/blog-service-client.ts:134-149 | matching rows get the patch and the clock reading, other rows stay; success iff exactly one row matched; a rejection changes nothing |
| Posts.CountMatchesPreserved | lib/blog-service-client.ts:143-145 | an update that keeps ids matches as many rows afterwards as before, so `.single()` sees the same count |
| Posts.PublishPost | lib/blog-service-client.ts:151-167 | matching rows change only in status, published_at and updated_at, which take published and the two clock readings; other rows stay; a fault changes nothing; success iff exactly one row matches, returning that row |
| Posts.PublishIdempotent | lib/blog-service-client.ts:151-167 | publishing twice leaves the same table as publishing once at the later instants |
| Posts.DeletePost | lib/blog-service-client.ts:169-178 | every row with the id goes, every other row keeps its multiplicity; only a rejection is an error |
| Posts.DeleteAbsentIsNoOp | lib/blog-service.ts:99-108 | deleting an id no row carries succeeds and changes nothing |
| Posts.GetPostById | lib/blog-service-client.ts:180-191 | the lookup succeeds iff exactly one row has the id, and returns that row |
| BlogClient.RoleOf | lib/blog-service-client.ts:24-32 | a role is found iff exactly one `users` row has the caller's id, and it is that row's role |
| BlogClient.ViewerId | lib/blog-service-client.ts:51 | the filter id is the signed-in user's id when it is non-empty, and the nil UUID when nobody is signed in or the id is empty |
| BlogClient.GetAllPosts | lib/blog-service-client.ts:5-62 | an auth error fails; an admin sees every row; another signed-in caller sees published rows and those of their filter id, each as often as it is stored; a signed-out caller sees published rows and those of the nil UUID, each as often as it is stored; newest first |
| BlogClient.GetPublishedPosts | lib/blog-service-client.ts:98-114 | exactly the published rows, newest first by `created_at` |
| BlogClient.AdminSeesSuperset | lib/blog-service-client.ts:32-56 | over the same tables, whatever a non-admin is shown, an admin is shown too |
| BlogClient.SignedOutSeesPublished | lib/blog-service-client.ts:46-56 | without rows authored by the nil UUID, a signed-out caller sees exactly what `getPublishedPosts` returns |
| BlogClient.NilAuthoredDraftIsPublic | lib/blog-service-client.ts:51 | a draft authored by the nil UUID is shown to a signed-out caller |
| BlogClient.EmptyIdFallsBackToNil | lib/blog-service-client.ts:51 | a signed-in non-admin with an empty id is shown exactly the nil-authored drafts |
| BlogClient.GetPostBySlug | lib/blog-service-client.ts:64-96 | the slug lookup has no status filter; it succeeds iff exactly one row has the slug, and never yields `null` |
| BlogClient.DraftReachableBySlug | lib/blog-service-client.ts:71-90 | a draft with a unique slug is returned to anyone who asks for it |
| BlogClient.CreatePost | lib/blog-service-client.ts:116-132 | the payload is stored verbatim with the author id, the new id and two clock readings, appended to the table; a rejection inserts nothing |
| BlogServer.GetAllPosts | lib/blog-service.ts:5-16 | exactly the published rows, newest first by `published_at` |
| BlogServer.GetPostBySlug | lib/blog-service.ts:18-30 | succeeds iff exactly one published row has the slug, and returns it |
| BlogServer.DraftNeverBySlug | lib/blog-service.ts:24-25 | a draft is never returned by slug |
| BlogServer.GetPostsByAuthor | lib/blog-service.ts:110-121 | exactly the author's rows, newest first by `created_at` |
| BlogServer.AttributionFromRow | lib/blog-service.ts:70-71 | the author name is `full_name` when non-empty, else the row's email; the author email is the row's email |
| BlogServer.AttributionFromSession | lib/blog-service.ts:51-52 | the name falls back from the `full_name` claim to the email to "Unknown Author"; the email falls back to "unknown@example.com" |
| BlogServer.CreatePost | lib/blog-service.ts:32-80 | attribution comes from the user row, else from the session; with neither, the lookup error is returned and nothing is inserted; the payload's own author fields are overridden |
| BlogServer.UpdatePost | lib/blog-service.ts:82-97 | the payload's own id selects the rows, which get the patch and the clock reading; other rows stay; a fault changes nothing; success iff exactly one row matches |
| Slug.Alnums | components/blog-post-form.tsx:49 | the letters and digits of a string, in order |
| Slug.AlnumsAppend | components/blog-post-form.tsx:49 | the letters and digits of a concatenation are those of its parts |
| Slug.DashifyShape | components/blog-post-form.tsx:49 | the replacement leaves only letters, digits and dashes, never two dashes in a row |
| Slug.DashifyAlnums | components/blog-post-form.tsx:49 | the replacement keeps every letter and digit, in order |
| Slug.DashifyWord | components/blog-post-form.tsx:49 | a run of letters and digits passes through unchanged |
| Slug.DashifyGap | components/blog-post-form.tsx:49 | a whole run of other characters becomes exactly one dash |
| Slug.StripEdgeDashesShape | components/blog-post-form.tsx:50 | after stripping, the text neither starts nor ends with a dash and has no double dash |
| Slug.StripEdgeDashesKeeps | components/blog-post-form.tsx:50 | stripping removes only dashes: the letters and digits stay and nothing new appears |
| Slug.GenerateSlug | components/blog-post-form.tsx:46-51 | the result is a well-formed slug and keeps exactly the letters and digits of the lowercased title |
| Slug.NoAlnumsEmptySlug | components/blog-post-form.tsx:46-51 | a well-formed slug without letters or digits is empty |
| Slug.EmptySlugWithoutAlnums | components/blog-post-form.tsx:46-51 | the slug is empty iff the lowercased title has no letter or digit |
| Slug.DashifyKeepsSlugText | components/blog-post-form.tsx:49 | dash-collapsing leaves well-formed slug text unchanged |
| Slug.SlugFixpoint | components/blog-post-form.tsx:46-51 | `generateSlug` leaves a string unchanged iff it is a well-formed slug |
| Slug.SlugIdempotent | components/blog-post-form.tsx:46-51 | slugging a slug changes nothing |
| Slug.LeadingGapIgnored | components/blog-post-form.tsx:46-51 | separators before the first word leave no dash |
| Slug.WordIsItsSlug | components/blog-post-form.tsx:46-51 | a one-word title slugs to the lowercased word |
| Slug.WordThenGap | components/blog-post-form.tsx:46-51 | a word and a separator run slug to the word, one dash and the slug of the rest, with no dash when the rest has no letter or digit |
| Slug.TwoWords | components/blog-post-form.tsx:46-51 | two words around any separator run slug to the lowercased words joined by one dash |
| PostForm.InitialForm | components/blog-post-form.tsx:23-33 | a new post starts with every text field blank, no tags and status draft; an edited post starts from its own fields, with no tags or an empty meta description where its row has none |
| PostForm.InitialFormOfStored | components/blog-post-form.tsx:23-33 | an edited post with tags and a meta description opens as exactly its own payload, less the featured image |
| PostForm.SlugEdited | components/blog-post-form.tsx:129 | editing the slug sets the slug, and putting the old slug back gives the old form |
| PostForm.TitleChanged | components/blog-post-form.tsx:53-56 | a title change sets the title and replaces the slug with the generated one; nothing else changes |
| PostForm.TitleChangeDiscardsSlugEdit | components/blog-post-form.tsx:53-56 | a manual slug edit does not survive the next title change |
| PostForm.KeptTagsTrimmed | components/blog-post-form.tsx:158 | every tag kept after trimming the pieces is trimmed and non-empty |
| PostForm.ParseTags | components/blog-post-form.tsx:158 | every parsed tag is non-empty, trimmed and free of commas |
| PostForm.TagsRoundTrip | components/blog-post-form.tsx:157-158 | re-parsing the displayed `tags.join(', ')` gives back the same tags |
| PostForm.Submit | components/blog-post-form.tsx:58-302 | nobody signed in means no call; Save Draft exists only for new posts and drafts and sends the form with status draft (update of the post, or create as the user); Enter and Publish/Update on a post send the form as a full update, with status published if the post was a draft and the form's status otherwise; Enter always, and Publish on a new post, call only past the required-field check, and a new post is created from the form as the user |
| PostForm.SubmitSendsForm | components/blog-post-form.tsx:58-302 | every call carries the form's fields unchanged except the status |
| PostForm.EnterMatchesPublishButton | components/blog-post-form.tsx:58-302 | on an existing post with the required fields filled, Enter and Publish/Update send the same update, which publishes a draft |
| PostForm.NewPostPublishesFormDefault | components/blog-post-form.tsx:30 | publishing a fresh new post sends the form's default status, draft |
| Contact.AdminAddress | app/api/contact/route.ts:29 | the admin address is `ADMIN_EMAIL` when non-empty, else admin@trendbase.com |
| Contact.FromAddress | app/api/contact/route.ts:30 | the sender is `FROM_EMAIL` when non-empty, else onboarding@resend.dev |
| Contact.AdminEmail | app/api/contact/route.ts:33-50 | the admin email is from "Contact Form <from address>", goes to the admin address with subject "New Contact Form Submission - " and the business name, and shows the full name, email, business name and message as entered; missing optional fields read "Not provided" or "Not specified" |
| Contact.CustomerEmail | app/api/contact/route.ts:69-80 | the acknowledgement is from "Trendbase <from address>", goes to the submitter with the fixed subject and greets them by first name |
| Contact.HandleContact | app/api/contact/route.ts:6-164 | a missing required field gives 400 with no email sent; a valid form sends to the admin first, then to the submitter; 200 iff both sends resolve to a response; every other outcome is 500 "Internal server error" |
| Contact.SendFailedUnreachable | app/api/contact/route.ts:117-145 | the "Failed to send email" response is never produced |
| Contact.ProviderErrorStillSucceeds | app/api/contact/route.ts:121-131 | a provider response that carries an error still yields 200 |
| UserAdmin.SetRole | components/admin-user-management.tsx:108-111 | rows with the email get the role and the clock reading; every other row is unchanged |
| UserAdmin.ChangeRole | components/admin-user-management.tsx:98-127 | a blank email does nothing; a store error reports failure and changes nothing; otherwise the trimmed email's rows change and success is reported |
| UserAdmin.PromoteToAdmin | components/admin-user-management.tsx:98-127 | rows with the trimmed email become admin with the clock reading, others stay; the message names the untrimmed email |
| UserAdmin.DemoteFromAdmin | components/admin-user-management.tsx:129-158 | rows with the trimmed email become plain users with the clock reading, others stay |
| UserAdmin.UnmatchedEmailReportsSuccess | components/admin-user-management.tsx:113-118 | an email no row carries still reports success and leaves the table unchanged |
| UserAdmin.DemoteForgetsAuthor | components/admin-user-management.tsx:139-142 | demoting an author makes them a plain user |
| UserAdmin.PromoteThenDemote | components/admin-user-management.tsx:108-111 | promoting then demoting an email equals demoting it alone |
| UserAdmin.WithPostCount | components/admin-user-management.tsx:75-85 | a listed user keeps their fields and counts their authored posts, or 0 when the count is missing |
| UserAdmin.Counted | components/admin-user-management.tsx:75-87 | each user of the listing gets their post count, position by position |
| UserAdmin.CountedListing | components/admin-user-management.tsx:62-87 | the counted permutation lists each user's entry and nothing else |
| UserAdmin.LoadUsers | components/admin-user-management.tsx:34-96 | an auth error, no session or a listing error fails; otherwise every user appears with their count, newest first |
| UserAdmin.AfterLoad | components/admin-user-management.tsx:89-95 | a successful load replaces the list; a failed load keeps the old list and shows "Failed to load users"; loading ends either way and nothing else in the panel changes |
| UserAdmin.PressPromote | components/admin-user-management.tsx:98-127 | a blank input does nothing; failure shows "Failed to promote user"; success clears the input and reloads from the updated table |
| UserAdmin.PressDemote | components/admin-user-management.tsx:129-158 | as for promote, with the demote input and messages |
| UserAdmin.SuccessMessagesStyled | components/admin-user-management.tsx:188-192 | both success messages, whatever the email, contain "Successfully" and are styled green |
| UserAdmin.FailureMessagesStyled | components/admin-user-management.tsx:188-192 | the load, promote and demote failure messages lack "Successfully" and are styled red |
| UserAdmin.ReloadFailureHidesPromotion | components/admin-user-management.tsx:118-120 | a promotion whose reload fails ends with "Failed to load users", styled as failure |
| AdminAuth.Mount | hooks/use-admin-auth.ts:8-19 | mounting adopts a stored session, never clears the admin flag, and always ends loading |
| AdminAuth.Login | hooks/use-admin-auth.ts:21-26 | login stores "true" and the username and sets the hook to admin; other keys are untouched |
| AdminAuth.Logout | hooks/use-admin-auth.ts:28-33 | logout removes both keys and resets the hook; other keys are untouched |
| AdminAuth.CheckAuth | hooks/use-admin-auth.ts:35-48 | the check is true iff the flag is "true" and the username is present and non-empty, and mirrors that into the hook |
| AdminAuth.LoginThenCheck | hooks/use-admin-auth.ts:21-47 | after `login(u)`, the check is true iff `u` is non-empty |
| AdminAuth.EmptyLoginWithdrawnByCheck | hooks/use-admin-auth.ts:21-47 | an empty username claims admin until the next check withdraws it |
| AdminAuth.LogoutThenCheck | hooks/use-admin-auth.ts:28-47 | after logout the check is false |
| AdminAuth.CheckIdempotent | hooks/use-admin-auth.ts:35-48 | checking twice is checking once |
| AdminAuth.LoginSurvivesReload | hooks/use-admin-auth.ts:8-26 | a reload after a non-empty login mounts signed in under that name |
| AdminAuth.LogoutSurvivesReload | hooks/use-admin-auth.ts:8-33 | a reload after logout mounts signed out |
| AdminAuth.MountAgreesWithCheck | hooks/use-admin-auth.ts:8-48 | from the initial state, mounting and checking agree |
| Navigation.Links | components/main-navigation.tsx:42-83 | Home, Blogs and Contact are always listed; Dashboard is listed iff auth has loaded and the user is signed in |
| Navigation.Highlighted | components/main-navigation.tsx:15-23 | exactly the listed links active for the path are highlighted |
| Navigation.LinksExclusive | components/main-navigation.tsx:15-23 | no two of the four link paths are active for the same path |
| Navigation.AtMostOneHighlighted | components/main-navigation.tsx:15-83 | at most one link is highlighted for any path |
| Navigation.DashboardHighlightsItself | components/main-navigation.tsx:19-22 | on the dashboard, the dashboard link is highlighted and the blog link is not |
| Navigation.PostPageHighlightsNothing | components/main-navigation.tsx:19-22 | a post page highlights no link unless its path begins with the dashboard path |
| Navigation.PrefixIgnoresSegments | components/main-navigation.tsx:22 | a path that merely begins with `/contact` highlights the contact link |
| Navigation.Corner | components/main-navigation.tsx:86-95 | the profile menu is shown iff the dashboard link is, the login button otherwise |
| Signup.Validate | app/signup/page.tsx:60-68 | a mismatch is reported first; then fewer than 6 UTF-16 units; otherwise the form passes |
| Signup.HandleSubmit | app/signup/page.tsx:57-86 | sign-up is called iff validation passes, with the form's fields; a provider error is shown verbatim, a throw as "An unexpected error occurred", success redirects to the login page with the confirmation message |
| Signup.SixCharactersAccepted | app/signup/page.tsx:65 | a password of exactly six basic characters is accepted |
| Signup.AstralCharactersCountTwice | app/signup/page.tsx:65 | three characters outside the basic plane count as six |
| Signup.MismatchReportedFirst | app/signup/page.tsx:60-63 | a mismatch is reported even when the password is also too short |
| Signup.PageView | app/signup/page.tsx:34-48 | a spinner while loading, nothing for a signed-in visitor, the form otherwise |
| Signup.GuardRedirect | app/signup/page.tsx:27-31 | the redirect effect targets the dashboard |
| Signup.SignedInVisitorRedirected | app/signup/page.tsx:27-48 | a signed-in visitor never sees the form, and the redirect fires exactly when the page renders nothing |

## Left out

- Rendering: markup, CSS classes, icons, the emails' HTML around the field values, and `toLocaleDateString`.
- Logging: every `console.log` and `console.error` call.
- Concurrency: `Promise.all` over the post counts is modelled as one count per user; the order of the requests does not matter.
- Browser constraint validation on the sign-up form (`required`, `type="email"`): `Signup.HandleSubmit` models the handler that runs after it.
- Slug.GenerateSlug: lowercases ASCII letters only. JavaScript's `toLowerCase` also maps non-ASCII letters, and a few (U+0130, the Kelvin sign U+212A) become ASCII letters that then survive into the slug.
- Non-string JSON values in the contact fields (numbers, objects): fields are strings or absent. A body that fails to parse, or parses to `null`, is `Unparseable`.
- The blog post form's error banner text after a failed service call, and the `onSuccess`/`onCancel` callbacks: the model stops at the call the form makes.
- A patch cannot set a field to `null`; `Types.ApplyPatch` treats an absent field as "keep".
- AuthState: a signed-out caller is a `null` user without an error. The auth provider may instead report a missing session as an error, which `AuthFailed` covers.
- The role lookup in `loadUsers` is made but its result is not used, so it is not modelled.
- Row-level security policies of the store: they are outside the code; a denied request is a `fault`.
- The setup script and the pages that only call the modelled services are not part of this model.
- Posts.UpdatePost, Posts.PublishPost: `id` is the table's primary key, so at most one row matches; with two matching rows the model writes both and reports the error `.single()` raises.
- The client `updatePost(id, updates)` spreads an `UpdateBlogPost`, which may carry an `id`; `Types.PostPatch` has no `id`, since every caller passes form data without one (components/blog-post-form.tsx:73, 249, 291, 295).
- `lib/types.ts` declares `published_at` mandatory; no create path sets it, so the model makes it optional.
