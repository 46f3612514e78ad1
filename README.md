# Article publishing front end — a Dafny model

This project models the browser front end of a small article publishing site. The site
has a public list of published articles, an article page, and an owner-only admin area
where articles are written, given a cover image, and published or unpublished. All data
lives in a remote article service. The front end reaches it through an "actor", and keeps
its answers in a shared query cache.

What is modelled, one module per source file:

- `AdminSession` (useAdminSession.ts): the session record kept in local storage under
  `admin_session`. It covers the lazy expiry on read, login and logout, and
  `isAuthenticated` / `token`.
- `AdminContent` (useAdminContent.ts): the admin queries and their guards, the call each
  mutation makes, and the query keys each mutation invalidates on success.
- `ContentPublic` (useContentPublic.ts): the public list and article queries.
- `QueryCache`: the shared react-query cache as cached data plus a stale set. It has
  `invalidateQueries`, `clear` and a read.
- `RequireAdmin` (RequireAdmin.tsx): the admin gate.
- `AdminLoginForm` (AdminLoginForm.tsx): the submit guard and the submit handler.
- `SiteLayout` (SiteLayout.tsx): the navigation highlights and the logout handler.
- `PublishToggle` (PublishToggle.tsx): the direction of the toggle, its label, and its
  toasts.
- `ContentEditorPage` (ContentEditorPage.tsx): the edit-mode prefill and `handleSave`.
- `ImageUploadPanel` (ImageUploadPanel.tsx): the type and size checks, the upload with its
  `finally`, and removal.
- `BodyEditor` (BodyEditor.tsx): appending image markdown, and the panel toggle.
- `ContentBodyRenderer` (ContentBodyRenderer.tsx): the chain of regular-expression
  rewrites from body text to HTML. Each global replacement is a left-to-right scanner.
- `ContentCard` (ContentCard.tsx): the link path and the excerpt.
- `Text`, `Feedback`, `Backend` and `Options` are shared modules:
  - `Text`: JavaScript's `trim`, `includes`, `startsWith`, `indexOf`, `split` and `join`.
  - `Feedback`: toasts, and the "Unauthorized"/"admin" test the screens apply to error
    messages.
  - `Backend`: the types of backend.d.ts, and the calls as data.
  - `Options`: the option type.

The remote service is an oracle:
- An operation that calls it takes `actor: bool` (whether an actor exists) and a `Reply`
  (how the call settles).
- It returns the `Call` it made, or `None` when it made none.

Clock readings (`now`, `storedAt`, `shownAt`) are parameters.

Where the code's names and declared interface promise more than its calls do, the model
follows the calls:
- The hook `useGetAllArticles`, under the key `allArticles`, calls `getPublishedArticles`
  rather than the declared `getAllArticles`. Drafts therefore never reach the admin list
  (`AdminContent.AllArticlesIsPublishedList`).
- The service interface (backend.d.ts) declares a `sessionToken` argument that no mutation
  passes (`AdminContent.RequestOf`).

## Model

| member | source | states |
|---|---|---|
| AdminSession.Retrieve | src/frontend/src/hooks/useAdminSession.ts:11-25 | a stored record is returned up to and including its expiry instant; read after it, the record is removed and absent is returned; unparsable or missing data reads as absent and stays in storage |
| AdminSession.RetrieveTwice | src/frontend/src/hooks/useAdminSession.ts:11-25 | reading the stored session twice at one instant returns the same session and changes nothing more |
| AdminSession.Stored | src/frontend/src/hooks/useAdminSession.ts:27-32 | storing a token writes `{token, now + 8h}` under `admin_session`, replacing any earlier record and leaving every other key alone |
| AdminSession.StoreThenRetrieve | src/frontend/src/hooks/useAdminSession.ts:11-32 | a stored session reads back unchanged until its expiry instant and as absent afterwards |
| AdminSession.TokenOf | src/frontend/src/hooks/useAdminSession.ts:87 | `token` is present exactly when a session with a non-empty token is held, and is that token |
| AdminSession.Authenticated | src/frontend/src/hooks/useAdminSession.ts:86 | `isAuthenticated` holds exactly when a session is held and the current instant is strictly before its expiry |
| AdminSession.ExpiryInstant | src/frontend/src/hooks/useAdminSession.ts:17-86 | at the expiry instant the record is still returned and kept, yet `isAuthenticated` is false |
| AdminSession.RetrievedAuthenticates | src/frontend/src/hooks/useAdminSession.ts:17-86 | a session read from storage authenticates at every instant except its expiry instant |
| AdminSession.LoginErrorText | src/frontend/src/hooks/useAdminSession.ts:61-62 | the login error is "Invalid credentials" exactly when the message contains `Unauthorized`, and "Login failed" otherwise |
| AdminSession.GetStoredSession | src/frontend/src/hooks/useAdminSession.ts:11-25 | the imperative read returns, and leaves in storage, what `Retrieve` describes |
| AdminSession.StoreSession | src/frontend/src/hooks/useAdminSession.ts:27-32 | storage becomes `Stored(old storage, token, now)` |
| AdminSession.ClearSession | src/frontend/src/hooks/useAdminSession.ts:34-36 | only the `admin_session` entry is removed |
| AdminSession.SessionHook.constructor | src/frontend/src/hooks/useAdminSession.ts:38-48 | a new hook instance holds the session read from storage, is not logging in, and has no error |
| AdminSession.SessionHook.BeginLogin | src/frontend/src/hooks/useAdminSession.ts:53-54 | while the login call is pending, `isLoggingIn` is set and the error is cleared |
| AdminSession.SessionHook.FinishLogin | src/frontend/src/hooks/useAdminSession.ts:56-66 | on success the token is stored and held; on failure only the error text changes and the rejection is passed on; either way `isLoggingIn` ends false |
| AdminSession.SessionHook.Login | src/frontend/src/hooks/useAdminSession.ts:50-67 | without an actor it rejects with "Actor not available" and changes nothing; otherwise it sends the credentials as given, with the outcomes of `FinishLogin` |
| AdminSession.SessionHook.Logout | src/frontend/src/hooks/useAdminSession.ts:69-84 | the service is called with the token only when both a session and an actor exist; afterwards the record and the held session are gone whatever the service answered |
| AdminSession.SessionHook.IsAuthenticated | src/frontend/src/hooks/useAdminSession.ts:86 | the hook reports authenticated exactly when its held session authenticates at the current instant |
| AdminSession.SessionHook.Token | src/frontend/src/hooks/useAdminSession.ts:87 | the hook's token is present exactly when its held session has a non-empty token, and is that token |
| QueryCache.Invalidate | src/frontend/src/hooks/useAdminContent.ts:123-127 | invalidated keys are no longer fresh; the freshness of every other key and all cached data are unchanged |
| QueryCache.InvalidateInSequence | src/frontend/src/hooks/useAdminContent.ts:124-126 | invalidating key sets one after another equals invalidating their union |
| QueryCache.Read | src/frontend/src/hooks/useContentPublic.ts:8-15 | a fresh view is served from the cache; otherwise the query function runs: a resolved answer is shown and cached fresh, while a rejected one leaves the cache unchanged and the view showing its old data (none if it never loaded); no other key changes |
| QueryCache.ReadAfterInvalidate | src/frontend/src/hooks/useAdminContent.ts:123-127 | after invalidation, reading an invalidated key shows the refetched value when the refetch resolves, and the data cached before the write when it is rejected |
| QueryCache.ReadAfterClear | src/frontend/src/components/layout/SiteLayout.tsx:19 | after `clear()` every read fetches, and a failed fetch shows nothing |
| QueryCache.QueryClient.InvalidateQueries | src/frontend/src/hooks/useAdminContent.ts:49 | the client's state becomes `Invalidate(old state, {k})` |
| QueryCache.QueryClient.Clear | src/frontend/src/components/layout/SiteLayout.tsx:19 | the client's state becomes empty |
| QueryCache.QueryClient.Query | src/frontend/src/hooks/useContentPublic.ts:8-15 | a query render returns, and leaves, what `Read` describes for the way its query function settles |
| ContentPublic.PublishedArticlesQuery | src/frontend/src/hooks/useContentPublic.ts:10-13 | without an actor the result is `[]` with no call; otherwise `getPublishedArticles` is called and its answer, resolved or rejected, is the result |
| ContentPublic.ArticleByIdQuery | src/frontend/src/hooks/useContentPublic.ts:23-26 | without an actor or with an empty id the result is null with no call; otherwise `getArticleById(id)` is called without a session token, and its answer, resolved or rejected, is the result |
| ContentPublic.DisabledArticleQueryMakesNoCall | src/frontend/src/hooks/useContentPublic.ts:24-27 | the query for an empty id is disabled and its function makes no call |
| ContentPublic.QueryEnabled | src/frontend/src/hooks/useContentPublic.ts:14 | a query runs only when an actor exists and is not being fetched |
| ContentPublic.ArticleQueryEnabled | src/frontend/src/hooks/useContentPublic.ts:27 | the article query also needs a non-empty id |
| AdminContent.RequestOf | src/frontend/src/hooks/useAdminContent.ts:43-163 | each mutation makes its own call, with the variables as given and no session token |
| AdminContent.InvalidatedBy | src/frontend/src/hooks/useAdminContent.ts:48-163 | a profile save invalidates only the profile; every article write invalidates both lists; update, publish and unpublish invalidate exactly their own article; a create invalidates no article view |
| AdminContent.Mutate | src/frontend/src/hooks/useAdminContent.ts:39-163 | without an actor it rejects with "Actor not available" and touches nothing; otherwise it makes the call, and only on success invalidates the mutation's keys |
| AdminContent.InvalidateThree | src/frontend/src/hooks/useAdminContent.ts:123-127 | the three invalidations in a row equal invalidating the three keys at once |
| AdminContent.IsCallerAdminQuery | src/frontend/src/hooks/useAdminContent.ts:11-14 | without an actor it answers false with no call; otherwise it calls `isCallerAdmin` and its answer, resolved or rejected, is the result |
| AdminContent.CallerUserProfileQuery | src/frontend/src/hooks/useAdminContent.ts:24-27 | without an actor it throws "Actor not available"; otherwise it calls `getCallerUserProfile` and its answer, resolved or rejected, is the result |
| AdminContent.AllArticlesQuery | src/frontend/src/hooks/useAdminContent.ts:59-62 | without an actor it yields `[]` with no call; otherwise it calls `getPublishedArticles` |
| AdminContent.ArticleByIdQuery | src/frontend/src/hooks/useAdminContent.ts:72-75 | the same guard and call as the public article query |
| AdminContent.AllArticlesIsPublishedList | src/frontend/src/hooks/useAdminContent.ts:59-62 | the admin list equals the public published list, so drafts never appear in it |
| AdminContent.ArticleHooksAgree | src/frontend/src/hooks/useAdminContent.ts:67-78 | the admin and public article hooks compute the same thing under the shared key `['article', id]` |
| AdminContent.PublicViewsRefetchAfterArticleWrite | src/frontend/src/hooks/useAdminContent.ts:123-163 | after a successful update, publish or unpublish, the published list and the article's own view are no longer fresh; their next read shows the refetched value, or the data cached before the write when the refetch is rejected |
| AdminContent.CreateKeepsArticleViews | src/frontend/src/hooks/useAdminContent.ts:97-100 | a create leaves the freshness of every per-article view unchanged |
| RequireAdmin.Gate | src/frontend/src/components/auth/RequireAdmin.tsx:11-15 | the children are shown exactly when authenticated; otherwise the login form is shown |
| RequireAdmin.Render | src/frontend/src/components/auth/RequireAdmin.tsx:9-15 | the children are shown only when this instance holds an unexpired session |
| RequireAdmin.ExpiredSessionShowsLoginForm | src/frontend/src/components/auth/RequireAdmin.tsx:11-13 | a session at or past its expiry never reaches the children |
| RequireAdmin.UnexpiredSessionPasses | src/frontend/src/components/auth/RequireAdmin.tsx:11-15 | any unexpired session opens the gate; no role is checked |
| RequireAdmin.FormLoginLeavesGateClosed | src/frontend/src/components/auth/RequireAdmin.tsx:9 | a login through the form's own hook instance authenticates the form, yet the gate's instance still shows the login form |
| RequireAdmin.RenderShared | src/frontend/src/components/auth/RequireAdmin.tsx:9-15 | the corrected gate decides from shared storage at render time |
| RequireAdmin.FormLoginOpensSharedGate | src/frontend/src/components/auth/RequireAdmin.tsx:9-15 | with the corrected gate, a form login opens the gate until the stored session expires |
| AdminLoginForm.HasCredentials | src/frontend/src/components/auth/AdminLoginForm.tsx:17 | the submit guard passes exactly when neither field is all whitespace |
| AdminLoginForm.SubmitDisabled | src/frontend/src/components/auth/AdminLoginForm.tsx:73 | the button is enabled exactly when no login is pending and neither field is all whitespace |
| AdminLoginForm.ShowsError | src/frontend/src/components/auth/AdminLoginForm.tsx:67-71 | the alert shows exactly for a present, non-empty error text |
| AdminLoginForm.EnabledSubmitReachesLogin | src/frontend/src/components/auth/AdminLoginForm.tsx:15-73 | the button and `handleSubmit` agree: a form whose button is enabled sends `login` with the typed fields when submitted, and a form with a blank field sends nothing |
| AdminLoginForm.LoginErrorIsShown | src/frontend/src/components/auth/AdminLoginForm.tsx:67-71 | every error text the hook sets is shown in the alert |
| AdminLoginForm.LoginForm.constructor | src/frontend/src/components/auth/AdminLoginForm.tsx:11-13 | both fields start empty |
| AdminLoginForm.LoginForm.ChangeUsername | src/frontend/src/components/auth/AdminLoginForm.tsx:48 | only the username changes |
| AdminLoginForm.LoginForm.ChangePassword | src/frontend/src/components/auth/AdminLoginForm.tsx:61 | only the password changes |
| AdminLoginForm.LoginForm.HandleSubmit | src/frontend/src/components/auth/AdminLoginForm.tsx:15-26 | a blank field makes no call and changes nothing; otherwise the untrimmed credentials go to `login`, whose outcome is reflected in the hook and whose rejection is swallowed; a successful login stores the token under `admin_session`, and a rejected one leaves the storage as it was |
| SiteLayout.Nav | src/frontend/src/components/layout/SiteLayout.tsx:40-61 | admin links appear exactly when authenticated; each item is highlighted exactly when the path starts with its prefix |
| SiteLayout.HighlightsExclusive | src/frontend/src/components/layout/SiteLayout.tsx:40-50 | the Articles and Admin items are never highlighted together |
| SiteLayout.HandleLogout | src/frontend/src/components/layout/SiteLayout.tsx:17-20 | the logout completes first, then the cache is emptied, so no cached view outlives the session |
| PublishToggle.DirectionFor | src/frontend/src/components/admin/PublishToggle.tsx:15-26 | a click unpublishes exactly a published article |
| PublishToggle.Label | src/frontend/src/components/admin/PublishToggle.tsx:52 | the label is "Unpublish" exactly for a published article, and "Publish" otherwise |
| PublishToggle.MutationFor | src/frontend/src/components/admin/PublishToggle.tsx:20-26 | the mutation is publish or unpublish of this article's id, unpublish exactly when it is published |
| PublishToggle.ToggleToast | src/frontend/src/components/admin/PublishToggle.tsx:22-33 | success names the action; an access failure gives the owner-access message; any other failure names the failed action |
| PublishToggle.LabelMatchesAction | src/frontend/src/components/admin/PublishToggle.tsx:20-52 | the label and the success toast name the action the click takes |
| PublishToggle.MissingActorIsPlainFailure | src/frontend/src/components/admin/PublishToggle.tsx:28-33 | a missing actor gives the plain failure toast, not the owner-access one |
| PublishToggle.HandleToggle | src/frontend/src/components/admin/PublishToggle.tsx:18-36 | the click runs the chosen mutation, reports it by `ToggleToast`, and invalidates only on success |
| PublishToggle.IsLoading | src/frontend/src/components/admin/PublishToggle.tsx:16 | the toggle is busy while either the publish or the unpublish call is pending |
| Feedback.MessageOr | src/frontend/src/pages/admin/ContentEditorPage.tsx:69 | an empty message is replaced by the fallback, and any other message is kept |
| Feedback.FallbackKeepsVerdict | src/frontend/src/pages/admin/ContentEditorPage.tsx:69-70 | a fallback containing neither word does not change the access verdict |
| Feedback.MissingActorIsNoAccessFailure | src/frontend/src/hooks/useAdminContent.ts:94 | "Actor not available" is never read as an access failure |
| ContentEditorPage.LookupId | src/frontend/src/pages/admin/ContentEditorPage.tsx:25-27 | edit mode looks up the route id, and create mode looks up `''` |
| ContentEditorPage.CreateModeFetchesNothing | src/frontend/src/pages/admin/ContentEditorPage.tsx:25-27 | the create page never fetches an article |
| ContentEditorPage.CoverImageOf | src/frontend/src/pages/admin/ContentEditorPage.tsx:48 | there is no cover exactly when the URL is empty; otherwise the blob carries the URL |
| ContentEditorPage.CoverRoundTrip | src/frontend/src/pages/admin/ContentEditorPage.tsx:36-48 | the prefill and the save give back the same cover, except that a cover with an empty URL is dropped |
| ContentEditorPage.HasTitle | src/frontend/src/pages/admin/ContentEditorPage.tsx:43 | a save goes ahead exactly when the title is not all whitespace |
| ContentEditorPage.SaveMutation | src/frontend/src/pages/admin/ContentEditorPage.tsx:51-66 | create mode creates and edit mode updates the route id; the title is trimmed, the body is sent as typed, and the cover follows `CoverImageOf` |
| ContentEditorPage.SaveFailureToast | src/frontend/src/pages/admin/ContentEditorPage.tsx:68-74 | an access failure gives the owner-access toast; anything else gives "Failed to save article" |
| ContentEditorPage.SavedOutcome | src/frontend/src/pages/admin/ContentEditorPage.tsx:57-74 | the page goes to `/admin` exactly on success, with the mode's success toast; a failure stays on the page with `SaveFailureToast` |
| ContentEditorPage.MissingActorIsPlainSaveFailure | src/frontend/src/pages/admin/ContentEditorPage.tsx:68-74 | a save without an actor ends with "Failed to save article" |
| ContentEditorPage.UneditedSaveResubmits | src/frontend/src/pages/admin/ContentEditorPage.tsx:32-66 | saving right after the prefill sends the article's own title, body and cover back to its id |
| ContentEditorPage.Editor.constructor | src/frontend/src/pages/admin/ContentEditorPage.tsx:21-23 | all three fields start empty |
| ContentEditorPage.Editor.Prefill | src/frontend/src/pages/admin/ContentEditorPage.tsx:32-40 | in edit mode the loaded article's title and body are copied, and its cover URL only when it has a cover; otherwise nothing changes |
| ContentEditorPage.Editor.SetTitle | src/frontend/src/pages/admin/ContentEditorPage.tsx:114 | only the title changes |
| ContentEditorPage.Editor.SetBody | src/frontend/src/pages/admin/ContentEditorPage.tsx:130 | only the body changes |
| ContentEditorPage.Editor.SetCoverImageUrl | src/frontend/src/pages/admin/ContentEditorPage.tsx:123 | only the cover URL changes |
| ContentEditorPage.Editor.HandleSave | src/frontend/src/pages/admin/ContentEditorPage.tsx:42-77 | a blank title only raises a toast; otherwise the mutation runs with `SaveMutation`, its outcome is `SavedOutcome`, and the cache is invalidated only on success |
| ContentEditorPage.OpenEditPageAsWritten | src/frontend/src/components/editor/ImageUploadPanel.tsx:24 | opening the edit page of an article with a cover leaves the cover panel without a preview, while the page still holds and would save the cover |
| ContentEditorPage.SyncPreview | src/frontend/src/components/editor/ImageUploadPanel.tsx:24 | the corrected panel's preview follows `currentImageUrl` |
| ContentEditorPage.OpenEditPage | src/frontend/src/pages/admin/ContentEditorPage.tsx:121-126 | with the correction, the panel shows exactly the cover that a save would send |
| ImageUploadPanel.CheckFile | src/frontend/src/components/editor/ImageUploadPanel.tsx:32-41 | a file is accepted exactly when its type is one of the four allowed and its size is at most 5 MiB; the type is checked first |
| ImageUploadPanel.SizeLimitBoundary | src/frontend/src/components/editor/ImageUploadPanel.tsx:38 | 5,242,880 bytes pass the size check, and one byte more fails it |
| ImageUploadPanel.RejectionToast | src/frontend/src/components/editor/ImageUploadPanel.tsx:32-41 | each failed check has its own toast |
| ImageUploadPanel.UploadToast | src/frontend/src/components/editor/ImageUploadPanel.tsx:61-69 | success, access failure and other failure each have their own toast |
| ImageUploadPanel.UploadPanel.constructor | src/frontend/src/components/editor/ImageUploadPanel.tsx:22-24 | a new panel is idle, and its preview is `currentImageUrl` as it is at mount |
| ImageUploadPanel.UploadPanel.BeginUpload | src/frontend/src/components/editor/ImageUploadPanel.tsx:43-45 | the panel turns busy with zero progress, which disables its controls |
| ImageUploadPanel.UploadPanel.FinishUpload | src/frontend/src/components/editor/ImageUploadPanel.tsx:57-76 | on success the preview and the owner get the same URL; on failure the preview stays; either way the panel ends idle |
| ImageUploadPanel.UploadPanel.HandleFileSelect | src/frontend/src/components/editor/ImageUploadPanel.tsx:27-77 | no file does nothing; a rejected file only raises its toast; an accepted file is uploaded with `FinishUpload`'s outcomes |
| ImageUploadPanel.UploadPanel.HandleRemove | src/frontend/src/components/editor/ImageUploadPanel.tsx:79-86 | a disabled panel ignores it; otherwise the preview clears and the owner receives `''` |
| ImageUploadPanel.UploadPanel.IsDisabled | src/frontend/src/components/editor/ImageUploadPanel.tsx:88 | the controls are off while the owner disables them or an upload runs |
| ImageUploadPanel.UploadPanel.ShowsPreview | src/frontend/src/components/editor/ImageUploadPanel.tsx:94 | the preview and its remove button replace the file chooser exactly when a preview URL is held |
| BodyEditor.AppendImage | src/frontend/src/components/editor/BodyEditor.tsx:17-18 | the old body is a prefix of the new body; a blank line follows it when it was non-empty; the new body ends with `![Image](url)`; the length is exactly these parts |
| BodyEditor.InsertedImageMatches | src/frontend/src/components/editor/BodyEditor.tsx:17 | the inserted markdown is an image the renderer's pattern matches, with alt `Image` and the uploaded URL |
| BodyEditor.ImageIntoEmptyBody | src/frontend/src/components/editor/BodyEditor.tsx:18 | an image inserted into an empty body renders as exactly its `img` tag |
| BodyEditor.ImageAfterParagraph | src/frontend/src/components/editor/BodyEditor.tsx:18 | an image inserted after a plain paragraph renders as that paragraph, a newline, and the `img` tag |
| BodyEditor.Editor.constructor | src/frontend/src/components/editor/BodyEditor.tsx:14 | the image panel starts hidden |
| BodyEditor.Editor.ToggleImagePanel | src/frontend/src/components/editor/BodyEditor.tsx:32-47 | the button flips the panel unless disabled; a panel that opens is new, with no preview |
| BodyEditor.Editor.HandleImageUploaded | src/frontend/src/components/editor/BodyEditor.tsx:16-20 | the owner receives `AppendImage(value, url)` and the panel is hidden |
| ContentBodyRenderer.MatchImage | src/frontend/src/components/content/ContentBodyRenderer.tsx:16 | a match at the head of the text consumes at least one character and no more than the text holds |
| ContentBodyRenderer.MatchImageSound | src/frontend/src/components/content/ContentBodyRenderer.tsx:16 | a match is an image markdown prefix of the text, whose alt has no `]` and whose URL is non-empty with no `)` |
| ContentBodyRenderer.ImageMatches | src/frontend/src/components/content/ContentBodyRenderer.tsx:16 | every such image markdown is matched, and in full |
| ContentBodyRenderer.ImageRule | src/frontend/src/components/content/ContentBodyRenderer.tsx:16 | such markdown becomes `<img src="url" alt="alt" class="content-image" />`, and the scan goes on after it |
| ContentBodyRenderer.ReplaceImages | src/frontend/src/components/content/ContentBodyRenderer.tsx:16 | text without `!` passes the image rewrite unchanged |
| ContentBodyRenderer.ReplaceImagesAfterPlain | src/frontend/src/components/content/ContentBodyRenderer.tsx:16 | text before the first `!` is copied unchanged |
| ContentBodyRenderer.LineEnd | src/frontend/src/components/content/ContentBodyRenderer.tsx:19-21 | finds the first line terminator; none is found exactly when the text is one line |
| ContentBodyRenderer.ReplaceHeadings | src/frontend/src/components/content/ContentBodyRenderer.tsx:19-21 | text without the marker's `#` is unchanged |
| ContentBodyRenderer.ConvertChain | src/frontend/src/components/content/ContentBodyRenderer.tsx:19-21 | on one line, the three passes equal reading the level off the longest marker, so `###` is taken before `#` |
| ContentBodyRenderer.HeadingsOfLine | src/frontend/src/components/content/ContentBodyRenderer.tsx:19-21 | a one-line text becomes its heading as `HeadingOf` reads it |
| ContentBodyRenderer.HeadingsLineByLine | src/frontend/src/components/content/ContentBodyRenderer.tsx:19-21 | the heading passes work line by line: the first line becomes `HeadingOf` of it, the terminator stays, and the rest follows |
| ContentBodyRenderer.CloseFrom | src/frontend/src/components/content/ContentBodyRenderer.tsx:24-27 | a closing end that is found lies at or after the first end tried, and the delimiter occurs there |
| ContentBodyRenderer.ReplaceSpans | src/frontend/src/components/content/ContentBodyRenderer.tsx:24-27 | one global pass of a span rule; SpanRule, StarlessUnchanged, ItalicRule and BoldIsNeverItalic state what it does |
| ContentBodyRenderer.CloseFromIsShortest | src/frontend/src/components/content/ContentBodyRenderer.tsx:24-27 | a span's closing delimiter is the first one after at least one character, on the same line (lazy `.+?`) |
| ContentBodyRenderer.StarlessUnchanged | src/frontend/src/components/content/ContentBodyRenderer.tsx:24-27 | text without `*` passes a span pass unchanged |
| ContentBodyRenderer.SpanRule | src/frontend/src/components/content/ContentBodyRenderer.tsx:24-27 | a non-empty one-line content without `*` between delimiters becomes `<tag>content</tag>`, and the scan goes on after it |
| ContentBodyRenderer.BoldIsNeverItalic | src/frontend/src/components/content/ContentBodyRenderer.tsx:24-27 | `**c**` ends as `<strong>c</strong>` and is never turned into `em` |
| ContentBodyRenderer.ItalicRule | src/frontend/src/components/content/ContentBodyRenderer.tsx:24-27 | `*c*` passes the bold pass and ends as `<em>c</em>` |
| ContentBodyRenderer.NoStarPairUnchanged | src/frontend/src/components/content/ContentBodyRenderer.tsx:24 | text with no two `*` in a row passes the bold pass unchanged |
| ContentBodyRenderer.WrapParagraph | src/frontend/src/components/content/ContentBodyRenderer.tsx:31-34 | a blank chunk and a chunk starting with `<` pass unchanged; any other chunk becomes `<p>`, its trimmed text, then `</p>`, and that text neither starts nor ends with whitespace |
| ContentBodyRenderer.WrapAll | src/frontend/src/components/content/ContentBodyRenderer.tsx:30-34 | each chunk is mapped by the paragraph rule, and the count is kept |
| ContentBodyRenderer.Paragraphs | src/frontend/src/components/content/ContentBodyRenderer.tsx:30-35 | the text is split at each blank line, each chunk is wrapped, and the chunks are joined by one newline; SingleChunk and ParagraphStep state this chunk by chunk |
| ContentBodyRenderer.SingleChunk | src/frontend/src/components/content/ContentBodyRenderer.tsx:30-35 | text without a blank line is one chunk, wrapped on its own |
| ContentBodyRenderer.ParagraphStep | src/frontend/src/components/content/ContentBodyRenderer.tsx:30-35 | the first chunk is wrapped on its own, and its blank line becomes one newline before the rest |
| ContentBodyRenderer.Render | src/frontend/src/components/content/ContentBodyRenderer.tsx:13-35 | the passes run in the source's order: images, headings `###`/`##`/`#`, bold, italic, paragraphs; the lemmas next to it state what the chain does |
| ContentBodyRenderer.EmptyBodyRendersEmpty | src/frontend/src/components/content/ContentBodyRenderer.tsx:13-35 | an empty body renders to nothing |
| ContentBodyRenderer.UnmarkedTextOnlyGetsParagraphs | src/frontend/src/components/content/ContentBodyRenderer.tsx:13-35 | text with none of `!`, `#` and `*` is changed only by the paragraph pass |
| ContentBodyRenderer.HtmlPassesThrough | src/frontend/src/components/content/ContentBodyRenderer.tsx:13-35 | markup-free text that starts with `<` reaches the page exactly as written, with no escaping |
| Text.Trim | src/frontend/src/pages/admin/ContentEditorPage.tsx:43-53 | `trim()` is empty exactly for blank text; otherwise it has no whitespace at either end |
| Text.TrimOffset | src/frontend/src/pages/admin/ContentEditorPage.tsx:53 | `trim()` is a contiguous slice of the text |
| Text.TrimIdempotent | src/frontend/src/pages/admin/ContentEditorPage.tsx:53 | trimming twice equals trimming once |
| Text.IndexOf | src/frontend/src/components/content/ContentBodyRenderer.tsx:30 | finds the first occurrence of the pattern; none is found exactly when the text does not include it |
| Text.Split | src/frontend/src/components/content/ContentBodyRenderer.tsx:30 | `split` yields at least one piece, and no piece holds the separator |
| Text.JoinSplit | src/frontend/src/components/content/ContentBodyRenderer.tsx:30-35 | joining the pieces of a split with the same separator gives the text back |
| ContentCard.LinkPath | src/frontend/src/components/content/ContentCard.tsx:15 | the path is `/articles/` followed by the id, and the id can be read back from it |
| ContentCard.LinkPathInjective | src/frontend/src/components/content/ContentCard.tsx:15 | different articles link to different paths |
| ContentCard.LinkHighlightsArticles | src/frontend/src/components/content/ContentCard.tsx:15 | following a card highlights the Articles item of the navigation bar |
| ContentCard.StripMarks | src/frontend/src/components/content/ContentCard.tsx:17 | every `#`, `*`, `_` and backtick is removed, and every other character is kept as often as it occurs |
| ContentCard.StripMarksIsSubsequence | src/frontend/src/components/content/ContentCard.tsx:17 | stripping keeps the remaining characters in order |
| ContentCard.Excerpt | src/frontend/src/components/content/ContentCard.tsx:17 | the excerpt has at most 200 characters and neither starts nor ends with whitespace |
| ContentCard.ExcerptShape | src/frontend/src/components/content/ContentCard.tsx:17 | the excerpt has at most 200 characters, no marks, no whitespace at either end, and is a subsequence of the first 200 characters |
| ContentCard.PlainShortBodyIsItsExcerpt | src/frontend/src/components/content/ContentCard.tsx:17 | a short body without marks or edge whitespace is its own excerpt |
| ContentCard.ExcerptIdempotent | src/frontend/src/components/content/ContentCard.tsx:17 | the excerpt of an excerpt is the excerpt itself |

## Left out

- React machinery is not modelled: render scheduling, effects and hook identity. Each
  `setState` is a field assignment, and an effect is a method the caller runs.
- Toasts are values. `console` output, spinners, icons and CSS classes are not modelled.
- Routing is not modelled. `navigate` is the path a save returns, and the current path is
  a parameter of `SiteLayout.Nav`.
- The pages that only arrange these components are not modelled: the dashboard, the home
  page, the article list and the article page.
- The remote service and its server-side rules are not modelled: create-in-draft, publish
  idempotence and role lookup. Each call is answered by an oracle `Reply`.
- The blob upload transport is not modelled. The upload is one `Reply` giving the URL or
  an error.
- ImageUploadPanel.UploadPanel.FinishUpload: the intermediate progress percentages are
  not modelled, because they are never observable after the `finally` resets them.
- The reset of the file input's value is not modelled: it is a DOM write.
- JSON parsing is reduced to "a session record, or text that does not parse". A value
  that parses to something other than a session record is not modelled.
- `isSaving`, `isPending` and the `isFetching` of the actor are not modelled, except where
  they guard a query.
- react-query's prefix matching of keys is reduced to exact keys. For the keys in use,
  the two select the same entries.
- UserProfile has only a name, because its fields are declared outside the modelled files.
- Strings are sequences of Unicode scalar values, while JavaScript strings are UTF-16
  code units. `substring(0, 200)` in ContentCard.Excerpt therefore counts characters.
  It can differ from the source on text outside the Basic Multilingual Plane.
- ContentCard does not model the date formatting (`toLocaleDateString`). Its output
  depends on the locale.
- ContentBodyRenderer does not model the `innerHTML` write. The model ends with the HTML
  text that would be written.
- ContentBodyRenderer.Render is related to the source's regular expressions by rules and
  lemmas. Its own contract is not a closed form for every input, because the lazy and
  overlapping matches admit none.
- QueryCache.Read: a read gives the value the view settles on, not what the next render
  shows. No `staleTime` is set, so it is react-query's default of 0. A stale view first
  renders its cached value while it refetches.
- QueryCache.Read: react-query's automatic retries of a failed query function are not
  modelled. A `Rejected` answer is how the query settles after them.
- QueryCache.ReadAfterInvalidate: `invalidateQueries` is not awaited. A render between the
  invalidation and the refetch can still show the old value. The lemma gives the value
  the view settles on.
- AdminContent.PublicViewsRefetchAfterArticleWrite: the refetch it states is the settled
  value. The old list or article may show while the refetch runs.
- ContentCard.Excerpt: the card shows the excerpt followed by `...`
  (ContentCard.tsx:34). This happens even for a body shorter than 200 characters. The
  suffix is markup around the excerpt and is not part of the model.
- BodyEditor does not model the text area's `onChange`: it passes the text through
  unchanged.

## Findings

| source | as written | input that shows it | evidently intended | confidence | as-written member | corrected member |
|---|---|---|---|---|---|---|
| src/frontend/src/components/auth/RequireAdmin.tsx:9 | the gate reads `isAuthenticated` from its own `useAdminSession()` instance. The login form logs in through a separate instance, so the gate's state never learns of the login. | a session-less admin page, then a successful login through the form it shows | the gate opens after the login ("component will unmount as auth state changes") | high; not executed | RequireAdmin.FormLoginLeavesGateClosed | RequireAdmin.FormLoginOpensSharedGate |
| src/frontend/src/components/editor/ImageUploadPanel.tsx:24 | `useState(currentImageUrl)` takes the URL only at mount. The editor mounts the panel before its prefill effect has set the cover URL. | opening the edit page of an article that has a cover | the panel previews the existing cover and lets the owner remove it | high; not executed | ContentEditorPage.OpenEditPageAsWritten | ContentEditorPage.OpenEditPage |
