/**
 * The site frame (components/layout/SiteLayout.tsx): the navigation bar, which shows the
 * admin links only to an authenticated caller and highlights the item whose path prefix
 * matches, and the logout handler, which ends the session and then empties the query cache.
 */
module SiteLayout {
  import opened Options
  import opened Backend
  import opened Text
  import opened QueryCache
  import opened AdminSession

  /** The admin part of the bar: the Admin link (with its highlight) and the Logout button. */
  datatype AdminLinks = AdminLinks(adminActive: bool)

  datatype NavBar = NavBar(articlesActive: bool, adminLinks: Option<AdminLinks>)

  /** The navigation bar for path `path`. */
  function Nav(isAuthenticated: bool, path: string): (r: NavBar)
    ensures r.adminLinks.Some? <==> isAuthenticated
    ensures r.articlesActive <==> StartsWith(path, "/articles")
    ensures r.adminLinks.Some? ==> (r.adminLinks.value.adminActive <==> StartsWith(path, "/admin"))
  {
    NavBar(StartsWith(path, "/articles"), if isAuthenticated then Some(AdminLinks(StartsWith(path, "/admin"))) else None)
  }

  /** The two highlights never hold together: no path starts with both prefixes. */
  lemma HighlightsExclusive(isAuthenticated: bool, path: string)
    ensures !(Nav(isAuthenticated, path).articlesActive && Nav(isAuthenticated, path).adminLinks == Some(AdminLinks(true)))
  {
    if StartsWith(path, "/admin") {
      assert path[2] == 'd';
    }
  }

  /**
   * `handleLogout`: the session logout runs to completion first, then the cache is
   * cleared, so no cached view, admin or public, outlives the session.
   */
  method HandleLogout(hook: SessionHook, client: QueryClient, actor: bool, reply: Reply<()>) returns (request: Option<Call>)
    modifies hook, hook.storage, client
    ensures request == (if old(hook.session).Some? && actor then Some(Call.Logout(old(hook.session).value.token)) else None)
    ensures hook.session == None && StorageKey !in hook.storage.items
    ensures hook.storage.items == old(hook.storage.items) - {StorageKey}
    ensures client.State() == Empty
  {
    request := hook.Logout(actor, reply);
    client.Clear();
  }
}
