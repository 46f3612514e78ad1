/**
 * The article editor page (pages/admin/ContentEditorPage.tsx): the edit-mode prefill from
 * the loaded article, and the save handler, which refuses a blank title, sends the title
 * trimmed and the body as typed, turns an empty cover URL into no cover, runs the create
 * or the update mutation, and reports the outcome.
 */
module ContentEditorPage {
  import opened Options
  import opened Backend
  import opened Text
  import opened Feedback
  import opened QueryCache
  import AdminContent
  import ImageUploadPanel

  datatype Mode = CreateMode | EditMode

  /** The id the page looks its article up by: the route id in edit mode, `''` (a disabled query) otherwise. */
  function LookupId(mode: Mode, routeId: string): (id: string)
    ensures mode.CreateMode? ==> id == ""
    ensures mode.EditMode? ==> id == routeId
  {
    if mode.EditMode? then routeId else ""
  }

  /** The create page never fetches an article. */
  lemma CreateModeFetchesNothing(actor: bool, routeId: string, found: Reply<Option<Article>>)
    ensures AdminContent.ArticleByIdQuery(actor, LookupId(CreateMode, routeId), found).request == None
  {
  }

  /** `coverImageUrl ? ExternalBlob.fromURL(coverImageUrl) : null` */
  function CoverImageOf(url: string): (cover: Option<ExternalBlob>)
    ensures cover.None? <==> url == ""
    ensures cover.Some? ==> cover.value.directUrl == url
  {
    if url != "" then Some(BlobFromUrl(url)) else None
  }

  /** The cover URL field after the prefill saw `cover`: the blob's URL, or the field as it was. */
  function CoverUrlOf(cover: Option<ExternalBlob>, prior: string): string
  {
    if cover.Some? then cover.value.directUrl else prior
  }

  /**
   * Saving keeps a cover as the prefill found it, unless its URL is empty: such a cover
   * is dropped, like no cover at all.
   */
  lemma CoverRoundTrip(cover: Option<ExternalBlob>)
    ensures cover.None? || cover.value.directUrl != "" ==> CoverImageOf(CoverUrlOf(cover, "")) == cover
    ensures cover.Some? && cover.value.directUrl == "" ==> CoverImageOf(CoverUrlOf(cover, "")) == None
  {
  }

  /** The title check: `title.trim()` is not empty. */
  predicate HasTitle(title: string)
    ensures HasTitle(title) <==> !IsBlank(title)
  {
    Trim(title) != ""
  }

  /** The variables passed to the create or update mutation. */
  function SaveMutation(mode: Mode, routeId: string, title: string, body: string, coverUrl: string): (m: AdminContent.Mutation)
    ensures mode.CreateMode? <==> m.Create?
    ensures mode.EditMode? <==> m.Update?
    ensures m.Update? ==> m.id == routeId
    ensures (m.Create? || m.Update?) && m.title == Trim(title) && m.body == body
    ensures (m.Create? || m.Update?) && (m.coverImage.None? <==> coverUrl == "")
    ensures (m.Create? || m.Update?) && m.coverImage == CoverImageOf(coverUrl)
    ensures m.coverImage.Some? ==> m.coverImage.value.directUrl == coverUrl
  {
    var cover := CoverImageOf(coverUrl);
    if mode.CreateMode? then AdminContent.Create(Trim(title), body, cover)
    else AdminContent.Update(routeId, Trim(title), body, cover)
  }

  /** The toast and the navigation a save ends with. */
  datatype SaveOutcome = SaveOutcome(toast: Toast, navigateTo: Option<string>)

  const FailedToSave: string := "Failed to save article"

  /** The toast for a save whose mutation rejected with `message`. */
  function SaveFailureToast(message: string): (t: Toast)
    ensures MentionsAccess(message) ==> t == Error("Owner access required to save articles")
    ensures !MentionsAccess(message) ==> t == Error(FailedToSave)
  {
    FailedToSaveKeepsVerdict(message);
    if MentionsAccess(MessageOr(message, FailedToSave)) then Error("Owner access required to save articles")
    else Error(FailedToSave)
  }

  /** The save page's fallback text does not change the access verdict. */
  lemma FailedToSaveKeepsVerdict(message: string)
    ensures MentionsAccess(MessageOr(message, FailedToSave)) <==> MentionsAccess(message)
  {
    FallbackKeepsVerdict(message, FailedToSave);
  }

  /** How a save that passed the title check ends, given how its mutation settled. */
  function SavedOutcome(mode: Mode, result: Reply<()>): (o: SaveOutcome)
    ensures o.navigateTo.Some? <==> result.Resolved?
    ensures o.navigateTo.Some? ==> o.navigateTo.value == "/admin"
    ensures result.Resolved? ==> o.toast == Success(if mode.CreateMode? then "Article created successfully" else "Article updated successfully")
    ensures result.Rejected? ==> o.toast == SaveFailureToast(result.message)
  {
    match result
    case Resolved(_) =>
      SaveOutcome(Success(if mode.CreateMode? then "Article created successfully" else "Article updated successfully"), Some("/admin"))
    case Rejected(message) => SaveOutcome(SaveFailureToast(message), None)
  }

  /** Without an actor the save fails with the plain failure text. */
  lemma MissingActorIsPlainSaveFailure(mode: Mode)
    ensures SavedOutcome(mode, Rejected(ActorNotAvailable)) == SaveOutcome(Error(FailedToSave), None)
  {
    MissingActorIsNoAccessFailure();
  }

  /**
   * Saving an article right after the prefill, with nothing edited, sends the article's
   * own title, body and cover back to the route id, provided the title needs no trimming
   * and the cover, if any, has a URL.
   */
  lemma UneditedSaveResubmits(a: Article, routeId: string)
    requires a.title != [] && !IsWhitespace(a.title[0]) && !IsWhitespace(a.title[|a.title| - 1])
    requires a.coverImage.None? || a.coverImage.value.directUrl != ""
    ensures HasTitle(a.title)
    ensures SaveMutation(EditMode, routeId, a.title, a.body, CoverUrlOf(a.coverImage, "")) ==
      AdminContent.Update(routeId, a.title, a.body, a.coverImage)
  {
    TrimOfTrimmed(a.title);
    CoverRoundTrip(a.coverImage);
  }

  /** The form state of the page: the three fields of `ContentEditorContent`. */
  class Editor {
    const mode: Mode
    const routeId: string
    var title: string
    var body: string
    var coverImageUrl: string

    constructor (mode: Mode, routeId: string)
      ensures this.mode == mode && this.routeId == routeId
      ensures title == "" && body == "" && coverImageUrl == ""
    {
      this.mode := mode;
      this.routeId := routeId;
      title := "";
      body := "";
      coverImageUrl := "";
    }

    /**
     * The prefill effect, run with the loaded article: in edit mode it copies the title
     * and body, and the cover URL only when the article has a cover.
     */
    method Prefill(existing: Option<Article>)
      modifies this
      ensures mode.EditMode? && existing.Some? ==>
        title == existing.value.title && body == existing.value.body &&
        coverImageUrl == CoverUrlOf(existing.value.coverImage, old(coverImageUrl))
      ensures mode.CreateMode? || existing.None? ==>
        title == old(title) && body == old(body) && coverImageUrl == old(coverImageUrl)
    {
      if mode.EditMode? && existing.Some? {
        title := existing.value.title;
        body := existing.value.body;
        if existing.value.coverImage.Some? {
          coverImageUrl := existing.value.coverImage.value.directUrl;
        }
      }
    }

    /** The title field's `onChange` */
    method SetTitle(value: string)
      modifies this
      ensures title == value && body == old(body) && coverImageUrl == old(coverImageUrl)
    {
      title := value;
    }

    /** The body editor's `onChange` */
    method SetBody(value: string)
      modifies this
      ensures body == value && title == old(title) && coverImageUrl == old(coverImageUrl)
    {
      body := value;
    }

    /** The cover panel's `onImageUploaded` */
    method SetCoverImageUrl(value: string)
      modifies this
      ensures coverImageUrl == value && title == old(title) && body == old(body)
    {
      coverImageUrl := value;
    }

    /**
     * `handleSave`: a blank title only raises a toast; otherwise the page's mutation runs
     * with the trimmed title, and its outcome decides the toast and whether the page
     * moves to `/admin`. The form fields are left as they are either way.
     */
    method HandleSave(client: QueryClient, actor: bool, reply: Reply<()>) returns (request: Option<Call>, outcome: SaveOutcome)
      requires Valid(client.State())
      modifies client
      ensures !HasTitle(title) ==> request == None && outcome == SaveOutcome(Error("Please enter a title"), None)
      ensures !HasTitle(title) ==> client.State() == old(client.State())
      ensures HasTitle(title) ==> request == (if actor then Some(AdminContent.RequestOf(SaveMutation(mode, routeId, title, body, coverImageUrl))) else None)
      ensures HasTitle(title) ==> outcome == SavedOutcome(mode, if actor then reply else Rejected(ActorNotAvailable))
      ensures HasTitle(title) ==>
        client.State() ==
          (if actor && reply.Resolved? then Invalidate(old(client.State()), AdminContent.InvalidatedBy(SaveMutation(mode, routeId, title, body, coverImageUrl)))
           else old(client.State()))
    {
      if !HasTitle(title) {
        return None, SaveOutcome(Error("Please enter a title"), None);
      }
      var result;
      request, result := AdminContent.Mutate(client, SaveMutation(mode, routeId, title, body, coverImageUrl), actor, reply);
      outcome := SavedOutcome(mode, result);
    }
  }

  /**
   * Opening the edit page of an article with a cover, as written: the form, and with it the
   * cover panel, first renders before the prefill effect has run, so the panel takes `''`
   * as its starting preview and keeps it. The page then holds the cover URL, and will save
   * it, while the panel shows the file chooser and no remove button.
   */
  method OpenEditPageAsWritten(routeId: string, existing: Article) returns (editor: Editor, cover: ImageUploadPanel.UploadPanel)
    requires existing.coverImage.Some? && existing.coverImage.value.directUrl != ""
    ensures editor.coverImageUrl == existing.coverImage.value.directUrl
    ensures SaveMutation(editor.mode, editor.routeId, editor.title, editor.body, editor.coverImageUrl).coverImage == existing.coverImage
    ensures !cover.ShowsPreview()
  {
    editor := new Editor(EditMode, routeId);
    cover := new ImageUploadPanel.UploadPanel(editor.coverImageUrl, false);
    editor.Prefill(Some(existing));
  }

  /** The missing step: the panel's preview follows its `currentImageUrl` when that changes. */
  method SyncPreview(panel: ImageUploadPanel.UploadPanel, currentImageUrl: string)
    modifies panel
    ensures panel.previewUrl == currentImageUrl
    ensures panel.uploading == old(panel.uploading) && panel.uploadProgress == old(panel.uploadProgress)
  {
    panel.previewUrl := currentImageUrl;
  }

  /**
   * Opening the edit page with the preview following the page's cover URL: the panel shows
   * exactly the cover a save would send, so an existing cover can be seen and removed.
   */
  method OpenEditPage(routeId: string, existing: Option<Article>) returns (editor: Editor, cover: ImageUploadPanel.UploadPanel)
    ensures cover.previewUrl == editor.coverImageUrl
    ensures cover.ShowsPreview() <==> SaveMutation(editor.mode, editor.routeId, editor.title, editor.body, editor.coverImageUrl).coverImage.Some?
    ensures existing.Some? ==> editor.title == existing.value.title && editor.body == existing.value.body
    ensures existing.Some? && existing.value.coverImage.Some? ==> cover.ShowsPreview() == (existing.value.coverImage.value.directUrl != "")
    ensures cover.Idle() && !cover.disabled
  {
    editor := new Editor(EditMode, routeId);
    cover := new ImageUploadPanel.UploadPanel(editor.coverImageUrl, false);
    editor.Prefill(existing);
    SyncPreview(cover, editor.coverImageUrl);
  }
}
