/**
 * The public read views (hooks/useContentPublic.ts): the published list under key
 * `['publishedArticles']` and one article under `['article', id]`. Each query function
 * answers without calling the service when there is no actor (or, for an article, no id).
 */
module ContentPublic {
  import opened Options
  import opened Backend
  import opened QueryCache

  /** What a query function yields, and the call it made on the service, if any. */
  datatype Fetched<T> = Fetched(value: T, request: Option<Call>)

  const PublishedArticlesQueryKey: QueryKey := PublishedArticlesKey

  function ArticleQueryKey(id: string): QueryKey
  {
    ArticleKey(id)
  }

  /** Whether a query runs: an actor exists and is not being fetched. */
  predicate QueryEnabled(actor: bool, actorFetching: bool)
  {
    actor && !actorFetching
  }

  /** The article query runs only with an actor and a non-empty id. */
  predicate ArticleQueryEnabled(actor: bool, actorFetching: bool, id: string)
  {
    QueryEnabled(actor, actorFetching) && id != ""
  }

  /** `useGetPublishedArticles`'s query function; `published` is how the service's answer settles. */
  function PublishedArticlesQuery(actor: bool, published: Reply<seq<Article>>): (r: Fetched<Reply<seq<Article>>>)
    ensures !actor ==> r == Fetched(Resolved([]), None)
    ensures actor ==> r == Fetched(published, Some(GetPublishedArticles))
  {
    if !actor then Fetched(Resolved([]), None) else Fetched(published, Some(GetPublishedArticles))
  }

  /** `useGetArticleById`'s query function; `found` is how the service's answer settles. No session token is passed. */
  function ArticleByIdQuery(actor: bool, id: string, found: Reply<Option<Article>>): (r: Fetched<Reply<Option<Article>>>)
    ensures !actor || id == "" ==> r == Fetched(Resolved(None), None)
    ensures actor && id != "" ==> r == Fetched(found, Some(GetArticleById(id, None)))
  {
    if !actor || id == "" then Fetched(Resolved(None), None) else Fetched(found, Some(GetArticleById(id, None)))
  }

  /** A disabled article query never reaches the service, so the service is never asked about an empty id. */
  lemma DisabledArticleQueryMakesNoCall(actor: bool, actorFetching: bool, found: Reply<Option<Article>>)
    ensures !ArticleQueryEnabled(actor, actorFetching, "")
    ensures ArticleByIdQuery(actor, "", found).request == None
  {
  }
}
