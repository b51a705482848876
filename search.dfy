/**
 * `handleSearch`: the search page for the query named by the second path
 * segment, built from the catalog, with a fallback page when building fails.
 */
module Search {
  import opened Builtins
  import opened Http
  import opened Catalog

  /** `MAX_SEARCH_RESULTS` */
  const MaxSearchResults: nat := 100

  /**
   * `pathSegments[2] ? decodeURIComponent(pathSegments[2]) : ""`: an absent or
   * empty segment is the empty query; a malformed escape throws.
   */
  function SearchQuery(env: Env, pathname: string): Result<string> {
    var segment := Segment(pathname, '/', 2);
    if !Truthy(segment) then Ok("")
    else match env.decodeUri(segment.value)
      case None => Err(MalformedUri)
      case Some(q) => Ok(q)
  }

  /**
   * `handleSearch(request)`. `items` is what the protected block obtained:
   * the catalog, or None when building the page threw.
   */
  function HandleSearch(env: Env, req: Request, items: Option<seq<Item>>): (r: Result<Response>)
  {
    match SearchQuery(env, req.pathname)
    case Err(e) => Err(e)
    case Ok(query) =>
      var currentUrl := req.origin + req.pathname;
      match items
      case Some(found) =>
        Ok(Response(200, "",
                    map["content-type" := "text/html;charset=UTF-8", "x-content-type-options" := "nosniff",
                        "cache-control" := "public, max-age=3600"],
                    Rendered(SearchPage(found, query, MaxSearchResults, currentUrl))))
      case None =>
        Ok(Response(500, "",
                    map["content-type" := "text/html;charset=UTF-8", "x-content-type-options" := "nosniff"],
                    Rendered(SearchPage([], query, MaxSearchResults, currentUrl))))
  }

  /** The root path and `/search` carry no query; nothing is decoded. */
  lemma NoQuerySegment(env: Env)
    ensures SearchQuery(env, "/") == Ok("")
    ensures SearchQuery(env, "") == Ok("")
    ensures SearchQuery(env, "/search") == Ok("")
    ensures SearchQuery(env, "/search/") == Ok("")
  {
    RootSegments();
    SearchSegments();
  }

  lemma RootSegments()
    ensures Segment("", '/', 2) == None && Segment("/", '/', 2) == None
  {
    assert Split("", '/') == [""];
    assert Split("/", '/') == ["", ""];
  }

  lemma SearchSegments()
    ensures Segment("/search", '/', 2) == None && Segment("/search/", '/', 2) == Some("")
  {
    SplitWithoutSep("search", '/');
    assert Split("/search", '/') == ["", "search"];
    assert "/" + "search" + "/" + "" == "/search/";
    SecondSegment("search", "");
  }

  /** `/search/<rest>` searches for the decoding of `rest` up to its first slash. */
  lemma QueryFromPath(env: Env, rest: string)
    requires UpTo(rest, '/') != ""
    ensures SearchQuery(env, "/search/" + rest) ==
              (match env.decodeUri(UpTo(rest, '/')) case None => Err(MalformedUri) case Some(q) => Ok(q))
  {
    assert "/" + "search" + "/" + rest == "/search/" + rest;
    SecondSegment("search", rest);
  }

  /**
   * A malformed query escapes before the protected block: it is never turned
   * into the fallback page, whatever the catalog holds.
   */
  lemma DecodeErrorNotCaught(env: Env, req: Request, items: Option<seq<Item>>)
    requires SearchQuery(env, req.pathname).Err?
    ensures HandleSearch(env, req, items) == Err(MalformedUri)
  {
  }

  /**
   * With a query, the normal page is a 200 listing the catalog, cacheable for an
   * hour; the fallback is a 500 listing nothing and not cacheable. Both use the
   * page URL without its query string.
   */
  lemma SearchOutcomes(env: Env, req: Request, items: Option<seq<Item>>)
    requires SearchQuery(env, req.pathname).Ok?
    ensures var r := HandleSearch(env, req, items);
            var q := SearchQuery(env, req.pathname).value;
            r.Ok? && r.value.body.Rendered? &&
            r.value.body.page == SearchPage(items.GetOr([]), q, 100, req.origin + req.pathname) &&
            r.value.status == (if items.Some? then 200 else 500) &&
            (HeaderGet(r.value.headers, "cache-control") == Some("public, max-age=3600") <==> items.Some?)
  {
  }

  /** The query string of the request plays no part in the search page. */
  lemma SearchIgnoresQueryString(env: Env, req: Request, otherSearch: string, items: Option<seq<Item>>)
    ensures HandleSearch(env, req.(search := otherSearch), items) == HandleSearch(env, req, items)
  {
  }
}
