/**
 * The admin data hooks (hooks/useAdminContent.ts): the admin queries with their guards,
 * and the five mutations with the call each makes and the query keys each invalidates
 * once the call succeeds.
 */
module AdminContent {
  import opened Options
  import opened Backend
  import opened QueryCache
  import ContentPublic

  /** The variables each mutation hook is called with. */
  datatype Mutation =
    | SaveProfile(profile: UserProfile)
    | Create(title: string, body: string, coverImage: Option<ExternalBlob>)
    | Update(id: string, title: string, body: string, coverImage: Option<ExternalBlob>)
    | Publish(id: string)
    | Unpublish(id: string)

  /** The call each mutation function makes. None of them passes the session token the interface declares. */
  function RequestOf(m: Mutation): (c: Call)
    ensures (c.CreateArticle? || c.UpdateArticle? || c.PublishArticle? || c.UnpublishArticle?) ==> c.sessionToken == None
    ensures m.Create? <==> c.CreateArticle?
    ensures m.Create? ==> c == CreateArticle(m.title, m.body, m.coverImage, None)
    ensures m.SaveProfile? ==> c == SaveCallerUserProfile(m.profile)
    ensures m.Update? ==> c == UpdateArticle(m.id, m.title, m.body, m.coverImage, None)
    ensures m.Publish? ==> c == PublishArticle(m.id, None)
    ensures m.Unpublish? ==> c == UnpublishArticle(m.id, None)
  {
    match m
    case SaveProfile(p) => SaveCallerUserProfile(p)
    case Create(t, b, c) => CreateArticle(t, b, c, None)
    case Update(id, t, b, c) => UpdateArticle(id, t, b, c, None)
    case Publish(id) => PublishArticle(id, None)
    case Unpublish(id) => UnpublishArticle(id, None)
  }

  /** The keys each mutation's `onSuccess` invalidates. */
  function InvalidatedBy(m: Mutation): (keys: set<QueryKey>)
    ensures m.SaveProfile? ==> keys == {CurrentUserProfileKey}
    ensures !m.SaveProfile? ==> AllArticlesKey in keys && PublishedArticlesKey in keys && CurrentUserProfileKey !in keys
    ensures m.Create? ==> forall id :: ArticleKey(id) !in keys
    ensures (m.Update? || m.Publish? || m.Unpublish?) ==> forall id :: ArticleKey(id) in keys <==> id == m.id
    ensures IsCallerAdminKey !in keys
  {
    match m
    case SaveProfile(_) => {CurrentUserProfileKey}
    case Create(_, _, _) => {AllArticlesKey, PublishedArticlesKey}
    case Update(id, _, _, _) => {AllArticlesKey, ArticleKey(id), PublishedArticlesKey}
    case Publish(id) => {AllArticlesKey, ArticleKey(id), PublishedArticlesKey}
    case Unpublish(id) => {AllArticlesKey, ArticleKey(id), PublishedArticlesKey}
  }

  /**
   * `mutateAsync(variables)` on a mutation hook: without an actor it rejects with
   * "Actor not available" and touches nothing; otherwise it makes the hook's call and,
   * once that resolves, invalidates the hook's keys one after another.
   */
  method Mutate(client: QueryClient, m: Mutation, actor: bool, reply: Reply<()>) returns (request: Option<Call>, result: Reply<()>)
    requires Valid(client.State())
    modifies client
    ensures request == (if actor then Some(RequestOf(m)) else None)
    ensures result == (if actor then reply else Rejected(ActorNotAvailable))
    ensures client.State() == (if result.Resolved? then Invalidate(old(client.State()), InvalidatedBy(m)) else old(client.State()))
  {
    if !actor {
      return None, Rejected(ActorNotAvailable);
    }
    request := Some(RequestOf(m));
    result := reply;
    if reply.Rejected? {
      return;
    }
    ghost var before := client.State();
    match m {
      case SaveProfile(_) =>
        client.InvalidateQueries(CurrentUserProfileKey);
      case Create(_, _, _) =>
        client.InvalidateQueries(AllArticlesKey);
        client.InvalidateQueries(PublishedArticlesKey);
        InvalidateInSequence(before, {AllArticlesKey}, {PublishedArticlesKey});
      case Update(id, _, _, _) =>
        InvalidateThree(client, id);
      case Publish(id) =>
        InvalidateThree(client, id);
      case Unpublish(id) =>
        InvalidateThree(client, id);
    }
  }

  /** The `onSuccess` shared by update, publish and unpublish. */
  method InvalidateThree(client: QueryClient, id: string)
    requires Valid(client.State())
    modifies client
    ensures client.State() == Invalidate(old(client.State()), {AllArticlesKey, ArticleKey(id), PublishedArticlesKey})
  {
    ghost var before := client.State();
    client.InvalidateQueries(AllArticlesKey);
    client.InvalidateQueries(ArticleKey(id));
    InvalidateInSequence(before, {AllArticlesKey}, {ArticleKey(id)});
    client.InvalidateQueries(PublishedArticlesKey);
    InvalidateInSequence(before, {AllArticlesKey, ArticleKey(id)}, {PublishedArticlesKey});
  }

  /** `useIsCallerAdmin`'s query function: false without a call when there is no actor. */
  function IsCallerAdminQuery(actor: bool, answer: Reply<bool>): (r: ContentPublic.Fetched<Reply<bool>>)
    ensures !actor ==> r == ContentPublic.Fetched(Resolved(false), None)
    ensures actor ==> r == ContentPublic.Fetched(answer, Some(IsCallerAdmin))
  {
    if !actor then ContentPublic.Fetched(Resolved(false), None) else ContentPublic.Fetched(answer, Some(IsCallerAdmin))
  }

  /** `useGetCallerUserProfile`'s query function: it throws without an actor. */
  function CallerUserProfileQuery(actor: bool, answer: Reply<Option<UserProfile>>): (r: ContentPublic.Fetched<Reply<Option<UserProfile>>>)
    ensures !actor ==> r == ContentPublic.Fetched(Rejected(ActorNotAvailable), None)
    ensures actor ==> r == ContentPublic.Fetched(answer, Some(GetCallerUserProfile))
  {
    if !actor then ContentPublic.Fetched(Rejected(ActorNotAvailable), None)
    else ContentPublic.Fetched(answer, Some(GetCallerUserProfile))
  }

  /** `useGetAllArticles`'s query function: it asks the service for the PUBLISHED articles. */
  function AllArticlesQuery(actor: bool, published: Reply<seq<Article>>): (r: ContentPublic.Fetched<Reply<seq<Article>>>)
    ensures !actor ==> r.value == Resolved([]) && r.request == None
    ensures actor ==> r.request == Some(GetPublishedArticles)
  {
    if !actor then ContentPublic.Fetched(Resolved([]), None) else ContentPublic.Fetched(published, Some(GetPublishedArticles))
  }

  /** `useGetArticleById` of this file: the same guard and call as the public hook of that name. */
  function ArticleByIdQuery(actor: bool, id: string, found: Reply<Option<Article>>): (r: ContentPublic.Fetched<Reply<Option<Article>>>)
    ensures !actor || id == "" ==> r == ContentPublic.Fetched(Resolved(None), None)
    ensures actor && id != "" ==> r.request == Some(GetArticleById(id, None))
  {
    if !actor || id == "" then ContentPublic.Fetched(Resolved(None), None)
    else ContentPublic.Fetched(found, Some(GetArticleById(id, None)))
  }

  /** The admin list is the public published list under another key: it makes the same call and yields the same value. */
  lemma AllArticlesIsPublishedList(actor: bool, published: Reply<seq<Article>>)
    ensures AllArticlesQuery(actor, published) == ContentPublic.PublishedArticlesQuery(actor, published)
  {
  }

  /** The two article hooks share the key `['article', id]`, and they compute the same thing under it. */
  lemma ArticleHooksAgree(actor: bool, id: string, found: Reply<Option<Article>>)
    ensures ArticleByIdQuery(actor, id, found) == ContentPublic.ArticleByIdQuery(actor, id, found)
  {
  }

  /**
   * Read-your-writes for the public views: after an update, publish or unpublish of `id`
   * succeeds, neither the published list nor the article's own view is served from the
   * cache. The next read of either shows what the service answers then, or, when that
   * refetch is rejected, the data cached before the write.
   */
  lemma PublicViewsRefetchAfterArticleWrite(c: Cache, m: Mutation, answer: Reply<View>)
    requires Valid(c) && (m.Update? || m.Publish? || m.Unpublish?)
    ensures !IsFresh(Invalidate(c, InvalidatedBy(m)), ContentPublic.PublishedArticlesQueryKey)
    ensures !IsFresh(Invalidate(c, InvalidatedBy(m)), ContentPublic.ArticleQueryKey(m.id))
    ensures answer.Resolved? ==>
      && Read(Invalidate(c, InvalidatedBy(m)), ContentPublic.ArticleQueryKey(m.id), answer).0 == Some(answer.value)
      && Read(Invalidate(c, InvalidatedBy(m)), ContentPublic.PublishedArticlesQueryKey, answer).0 == Some(answer.value)
    ensures answer.Rejected? ==>
      && Read(Invalidate(c, InvalidatedBy(m)), ContentPublic.ArticleQueryKey(m.id), answer).0
         == Cached(c, ContentPublic.ArticleQueryKey(m.id))
      && Read(Invalidate(c, InvalidatedBy(m)), ContentPublic.PublishedArticlesQueryKey, answer).0
         == Cached(c, ContentPublic.PublishedArticlesQueryKey)
  {
    ReadAfterInvalidate(c, InvalidatedBy(m), ContentPublic.ArticleQueryKey(m.id), answer);
    ReadAfterInvalidate(c, InvalidatedBy(m), ContentPublic.PublishedArticlesQueryKey, answer);
  }

  /** A create leaves every per-article view as it was: a cached article view stays fresh. */
  lemma CreateKeepsArticleViews(c: Cache, m: Mutation, id: string)
    requires Valid(c) && m.Create?
    ensures IsFresh(Invalidate(c, InvalidatedBy(m)), ArticleKey(id)) <==> IsFresh(c, ArticleKey(id))
  {
  }
}
