/**
 * The shared query cache of the front end: each read view is cached under its query key,
 * a mutation marks keys stale, and logging out clears the whole cache. A view that is
 * missing or stale is fetched again on its next read.
 */
module QueryCache {
  import opened Options
  import opened Backend

  /**
   * The query keys in use: `['isCallerAdmin']`, `['currentUserProfile']`, `['allArticles']`,
   * `['publishedArticles']` and `['article', id]`.
   */
  datatype QueryKey =
    | IsCallerAdminKey
    | CurrentUserProfileKey
    | AllArticlesKey
    | PublishedArticlesKey
    | ArticleKey(id: string)

  /** The data a view caches. */
  datatype View =
    | ArticleList(articles: seq<Article>)
    | ArticleDetail(article: Option<Article>)
    | Flag(flag: bool)
    | Profile(profile: Option<UserProfile>)

  /** Cached data per key, and the keys whose data is known to be out of date. */
  datatype Cache = Cache(data: map<QueryKey, View>, stale: set<QueryKey>)

  const Empty: Cache := Cache(map[], {})

  predicate Valid(c: Cache)
  {
    c.stale <= c.data.Keys
  }

  /** A fresh view is served from the cache without a fetch. */
  predicate IsFresh(c: Cache, k: QueryKey)
  {
    k in c.data && k !in c.stale
  }

  /** `invalidateQueries` for every key of `keys`: cached entries among them become stale, nothing else changes. */
  function Invalidate(c: Cache, keys: set<QueryKey>): (r: Cache)
    requires Valid(c)
    ensures Valid(r) && r.data == c.data
    ensures forall k :: k in keys ==> !IsFresh(r, k)
    ensures forall k :: k !in keys ==> (IsFresh(r, k) <==> IsFresh(c, k))
  {
    c.(stale := c.stale + (keys * c.data.Keys))
  }

  /** Invalidating one key after another is invalidating both. */
  lemma InvalidateInSequence(c: Cache, a: set<QueryKey>, b: set<QueryKey>)
    requires Valid(c)
    ensures Invalidate(Invalidate(c, a), b) == Invalidate(c, a + b)
  {
  }

  /** The data cached for `k`, if any: what a view shows while it has nothing newer. */
  function Cached(c: Cache, k: QueryKey): Option<View>
  {
    if k in c.data then Some(c.data[k]) else None
  }

  /**
   * Reading view `k`, whose query function would settle as `answer`: a fresh entry is
   * returned as cached. Otherwise the query function runs; a resolved answer is returned
   * and cached fresh, while a rejected one leaves the cache as it was and the view keeps
   * showing the data it had (none, if it had never loaded).
   */
  function Read(c: Cache, k: QueryKey, answer: Reply<View>): (r: (Option<View>, Cache))
    requires Valid(c)
    ensures Valid(r.1)
    ensures r.0.Some? ==> k in r.1.data && r.1.data[k] == r.0.value
    ensures IsFresh(c, k) ==> r == (Some(c.data[k]), c)
    ensures !IsFresh(c, k) && answer.Resolved? ==> r.0 == Some(answer.value) && IsFresh(r.1, k)
    ensures !IsFresh(c, k) && answer.Rejected? ==> r == (Cached(c, k), c) && !IsFresh(r.1, k)
    ensures forall j :: j != k ==> (j in r.1.data <==> j in c.data) && (j in c.data ==> r.1.data[j] == c.data[j])
    ensures forall j :: j != k ==> (IsFresh(r.1, j) <==> IsFresh(c, j))
  {
    if IsFresh(c, k) then (Some(c.data[k]), c)
    else if answer.Rejected? then (Cached(c, k), c)
    else (Some(answer.value), Cache(c.data[k := answer.value], c.stale - {k}))
  }

  /**
   * Read-your-writes: after the keys a write invalidates, reading any of them runs the query
   * function again. A resolved refetch is what the view shows; a rejected one leaves the
   * data cached before the write on show.
   */
  lemma ReadAfterInvalidate(c: Cache, keys: set<QueryKey>, k: QueryKey, answer: Reply<View>)
    requires Valid(c) && k in keys
    ensures answer.Resolved? ==> Read(Invalidate(c, keys), k, answer).0 == Some(answer.value)
    ensures answer.Rejected? ==> Read(Invalidate(c, keys), k, answer).0 == Cached(c, k)
  {
  }

  /** After the cache is cleared, no view survives: every read fetches, and a failed fetch shows nothing. */
  lemma ReadAfterClear(k: QueryKey, answer: Reply<View>)
    ensures Read(Empty, k, answer).0 == (if answer.Resolved? then Some(answer.value) else None)
  {
  }

  /** The query client: one per application, shared by every hook. */
  class QueryClient {
    var data: map<QueryKey, View>
    var stale: set<QueryKey>

    function State(): Cache
      reads this
    {
      Cache(data, stale)
    }

    constructor ()
      ensures State() == Empty
    {
      data := map[];
      stale := {};
    }

    /** `queryClient.invalidateQueries({ queryKey: k })` */
    method InvalidateQueries(k: QueryKey)
      requires Valid(State())
      modifies this
      ensures State() == Invalidate(old(State()), {k})
    {
      if k in data {
        stale := stale + {k};
      }
    }

    /** `queryClient.clear()` */
    method Clear()
      modifies this
      ensures State() == Empty
    {
      data := map[];
      stale := {};
    }

    /** A render of a query for key `k` whose query function would settle as `answer`. */
    method Query(k: QueryKey, answer: Reply<View>) returns (v: Option<View>)
      requires Valid(State())
      modifies this
      ensures (v, State()) == Read(old(State()), k, answer)
    {
      if k in data && k !in stale {
        v := Some(data[k]);
      } else if answer.Rejected? {
        v := if k in data then Some(data[k]) else None;
      } else {
        v := Some(answer.value);
        data := data[k := answer.value];
        stale := stale - {k};
      }
    }
  }
}
