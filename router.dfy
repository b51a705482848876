/**
 * `handleRequest`: the worker's dispatch on the request path, the proxying of
 * every other path to the upstream store with local 404 pages, and the one
 * catalog read that the item, search and sitemap routes make.
 */
module Router {
  import opened Builtins
  import opened Http
  import opened Catalog
  import UrlRewriter
  import Proxy
  import Detail
  import Crx
  import Search
  import Sitemap

  datatype Route = SearchRoute | RobotsRoute | SitemapRoute | DetailRoute | CrxRoute | ProxyRoute

  /** The if-chain of `handleRequest`: exact paths first, then prefixes, first match wins. */
  function RouteOf(pathname: string): Route {
    if pathname == "/" || pathname == "" then SearchRoute
    else if pathname == "/robots.txt" then RobotsRoute
    else if pathname == "/sitemap.xml" then SitemapRoute
    else if StartsWith(pathname, "/detail/") then DetailRoute
    else if StartsWith(pathname, "/crx/") then CrxRoute
    else if StartsWith(pathname, "/search") then SearchRoute
    else ProxyRoute
  }

  /**
   * No exact path starts with a prefix and no two prefixes overlap, so each
   * route is taken exactly on its own paths, whatever the order of the tests.
   */
  lemma RoutesCharacterised(p: string)
    ensures RouteOf(p) == SearchRoute <==> p == "/" || p == "" || StartsWith(p, "/search")
    ensures RouteOf(p) == RobotsRoute <==> p == "/robots.txt"
    ensures RouteOf(p) == SitemapRoute <==> p == "/sitemap.xml"
    ensures RouteOf(p) == DetailRoute <==> StartsWith(p, "/detail/")
    ensures RouteOf(p) == CrxRoute <==> StartsWith(p, "/crx/")
    ensures RouteOf(p) == ProxyRoute <==>
              p != "/" && p != "" && p != "/robots.txt" && p != "/sitemap.xml" &&
              !StartsWith(p, "/search") && !StartsWith(p, "/detail/") && !StartsWith(p, "/crx/")
  {
    if |p| >= 3 {
      assert StartsWith(p, "/search") ==> p[1] == 's' && p[2] == 'e';
      assert StartsWith(p, "/detail/") ==> p[1] == 'd';
      assert StartsWith(p, "/crx/") ==> p[1] == 'c';
      assert p == "/robots.txt" ==> p[1] == 'r';
      assert p == "/sitemap.xml" ==> p[1] == 's' && p[2] == 'i';
    }
  }

  /** A path that differs from a prefix at some position does not start with it. */
  lemma DiffersAt(s: string, prefix: string, i: nat)
    requires i < |s| && i < |prefix| && s[i] != prefix[i]
    ensures !StartsWith(s, prefix)
  {
    if |prefix| <= |s| {
      assert s[..|prefix|][i] != prefix[i];
    }
  }

  /** `/searchX` is a search; `/detail` without its slash is proxied. */
  lemma RouteExamples()
    ensures RouteOf("/searchX") == SearchRoute
    ensures RouteOf("/detail") == ProxyRoute
    ensures RouteOf("/detail/abc") == DetailRoute
  {
    DiffersAt("/searchX", "/detail/", 1);
    DiffersAt("/searchX", "/crx/", 1);
    assert "/searchX"[..7] == "/search";
    DiffersAt("/detail", "/crx/", 1);
    DiffersAt("/detail", "/search", 1);
    assert "/detail/abc"[..8] == "/detail/";
  }

  /**
   * Any other path is proxied to the upstream store, query string included,
   * with no item id; an upstream 404 or an exception gives the local 404 page.
   */
  function ProxyOtherPath(env: Env, req: Request): (r: Response)
    ensures r.status == 404 ==> r == NotFound(req)
    ensures var p := Proxy.ProxyRequest(env, req, UrlRewriter.BaseUrl + req.pathname + req.search, None);
            (p.Err? ==> r == NotFound(req)) &&
            (p.Ok? && p.value.status != 404 ==> r == p.value)
  {
    match Proxy.ProxyRequest(env, req, UrlRewriter.BaseUrl + req.pathname + req.search, None)
    case Err(_) => NotFound(req)
    case Ok(resp) => if resp.status == 404 then NotFound(req) else resp
  }

  /** The response of `handleRequest`, given the catalog a read would return and today's date. */
  function Respond(env: Env, req: Request, items: seq<Item>, today: string): Result<Response> {
    if RouteOf(req.pathname) == SitemapRoute then Ok(Sitemap.HandleSitemap(req.origin, today, Some(items)))
    else RespondOther(env, req, items)
  }

  /** The routes other than the sitemap, which do not need the date. */
  function RespondOther(env: Env, req: Request, items: seq<Item>): Result<Response>
    requires RouteOf(req.pathname) != SitemapRoute
  {
    match RouteOf(req.pathname)
    case SearchRoute => Search.HandleSearch(env, req, Some(items))
    case RobotsRoute => Ok(Robots(req))
    case DetailRoute => Detail.HandleDetail(env, req, items)
    case CrxRoute => Crx.HandleCrx(env, req, items)
    case ProxyRoute => Ok(ProxyOtherPath(env, req))
  }

  /**
   * Whether the request reads the catalog: the item routes and the sitemap
   * always, the search route once its query has been decoded.
   */
  predicate ReadsCatalog(env: Env, req: Request) {
    var route := RouteOf(req.pathname);
    route == DetailRoute || route == CrxRoute || route == SitemapRoute ||
    (route == SearchRoute && Search.SearchQuery(env, req.pathname).Ok?)
  }

  /** A request that does not read the catalog does not depend on it. */
  lemma CatalogUnusedElsewhere(env: Env, req: Request, a: seq<Item>, b: seq<Item>, today: string)
    requires !ReadsCatalog(env, req)
    ensures Respond(env, req, a, today) == Respond(env, req, b, today)
  {
    if RouteOf(req.pathname) == SearchRoute {
      Search.DecodeErrorNotCaught(env, req, Some(a));
      Search.DecodeErrorNotCaught(env, req, Some(b));
    }
  }

  /**
   * `handleRequest(request)` against the catalog cache: `now` is the clock at
   * the catalog read, `catalog` what fetching the catalog would yield, `today`
   * the date of the sitemap entries.
   */
  method HandleRequest(cache: Cache, env: Env, req: Request, now: int, catalog: CatalogFetch, today: string)
    returns (r: Result<Response>)
    modifies cache
    ensures ReadsCatalog(env, req) ==>
              var step := GetItemsStep(old(cache.State()), now, catalog);
              r == Respond(env, req, step.items, today) && cache.State() == step.next &&
              cache.fetches == old(cache.fetches) + (if step.fetched then 1 else 0)
    ensures !ReadsCatalog(env, req) ==>
              r == Respond(env, req, [], today) && cache.State() == old(cache.State()) && cache.fetches == old(cache.fetches)
  {
    if ReadsCatalog(env, req) {
      r := RespondFromCatalog(cache, env, req, now, catalog, today);
    } else {
      r := Respond(env, req, [], today);
    }
  }

  /** The routes that need the catalog: one `getItems` call, then the handler. */
  method RespondFromCatalog(cache: Cache, env: Env, req: Request, now: int, catalog: CatalogFetch, today: string)
    returns (r: Result<Response>)
    modifies cache
    ensures var step := GetItemsStep(old(cache.State()), now, catalog);
            r == Respond(env, req, step.items, today) && cache.State() == step.next &&
            cache.fetches == old(cache.fetches) + (if step.fetched then 1 else 0)
  {
    var items := cache.GetItems(now, catalog);
    r := RespondWith(env, req, items, today);
  }

  /** The handler of the route, run on the catalog read; the sitemap builds its entries in a loop. */
  method RespondWith(env: Env, req: Request, items: seq<Item>, today: string) returns (r: Result<Response>)
    ensures r == Respond(env, req, items, today)
  {
    if RouteOf(req.pathname) == SitemapRoute {
      var urlEntries := Sitemap.BuildUrlEntries(req.origin, today, Some(items));
      r := Ok(Sitemap.SitemapResponse(urlEntries));
      SitemapRouteAnswer(env, req, items, today);
    } else {
      r := Respond(env, req, items, today);
    }
  }

  /** The sitemap route answers with the sitemap of the catalog read. */
  lemma SitemapRouteAnswer(env: Env, req: Request, items: seq<Item>, today: string)
    requires RouteOf(req.pathname) == SitemapRoute
    ensures Respond(env, req, items, today) == Ok(Sitemap.HandleSitemap(req.origin, today, Some(items)))
  {
  }

  // ---------------------------------------------------------------------------
  // End-to-end properties

  /** Proxied paths never raise: exceptions and upstream 404s become the local page. */
  lemma ProxiedPathsAlwaysAnswer(env: Env, req: Request, items: seq<Item>, today: string)
    requires RouteOf(req.pathname) == ProxyRoute
    ensures var r := Respond(env, req, items, today);
            r.Ok? && (r.value.status == 404 ==> r.value == NotFound(req))
  {
  }

  /** An exception escapes only from the item routes and from a malformed search query. */
  lemma ErrorsOnlyFromItemAndSearchRoutes(env: Env, req: Request, items: seq<Item>, today: string)
    requires Respond(env, req, items, today).Err?
    ensures RouteOf(req.pathname) in {DetailRoute, CrxRoute} ||
            (RouteOf(req.pathname) == SearchRoute && Respond(env, req, items, today).error == MalformedUri)
  {
  }

  /** An id without slashes is read back whole from its path. */
  lemma UpToWithoutSlash(id: string)
    requires '/' !in id
    ensures UpTo(id, '/') == id
  {
    var r := UpTo(id, '/');
    if |r| < |id| {
      assert false;
    }
    assert id[..|r|] == r;
  }

  /** `/detail/<id>` for a catalog id proxies that item's page with the banner for that id. */
  lemma DetailPageOfItem(env: Env, req: Request, items: seq<Item>, today: string, k: nat)
    requires k < |items| && '/' !in items[k].id
    requires req.pathname == "/detail/" + items[k].id
    requires forall j :: 0 <= j < k ==> items[j].id != items[k].id
    ensures Respond(env, req, items, today) == Proxy.ProxyRequest(env, req, items[k].page, Some(items[k].id))
  {
    StartsWithAppend("/detail/", items[k].id);
    RoutesCharacterised(req.pathname);
    assert Respond(env, req, items, today) == Detail.HandleDetail(env, req, items);
    Detail.DetailId(items[k].id);
    UpToWithoutSlash(items[k].id);
    Detail.KnownItemProxied(env, req, items, k);
  }

  /**
   * The banner's download link leads to the package route, which reads the
   * same id back from the path.
   */
  lemma DownloadLinkReachesPackage(id: string)
    requires '/' !in id
    ensures RouteOf("/crx/" + id) == CrxRoute
    ensures Segment("/crx/" + id, '/', 2) == Some(id)
  {
    StartsWithAppend("/crx/", id);
    RoutesCharacterised("/crx/" + id);
    assert "/" + "crx" + "/" + id == "/crx/" + id;
    SecondSegment("crx", id);
    UpToWithoutSlash(id);
  }
}
