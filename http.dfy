/**
 * The values that cross the worker's boundary: the parsed incoming request,
 * an upstream response, the outgoing response, and the foreign operations
 * (network, URL parser, URI decoder) that the modelled code calls but whose
 * behaviour is not part of this model.
 */
module Http {
  import opened Builtins
  import Catalog

  /** Header names are stored lower-case: the platform's `Headers` is case-insensitive. */
  type Headers = map<string, string>

  /** What `new URL(text)` exposes that the worker reads. */
  datatype UrlParts = UrlParts(origin: string, pathname: string, search: string)

  /** The incoming request, its URL already split into origin, pathname and query string. */
  datatype Request = Request(origin: string, pathname: string, search: string, headers: Headers)

  datatype RedirectMode = Follow | Manual

  /** An outgoing `fetch` call: target URL, request headers, redirect policy. */
  datatype Fetch = Fetch(url: string, headers: Headers, redirect: RedirectMode)

  /** A response from upstream; `body` is its payload, read as text where the code reads text. */
  datatype Upstream = Upstream(status: nat, statusText: string, headers: Headers, body: string)

  /** Pages rendered by templates outside this model, recorded by the data they are built from. */
  datatype Page =
    | NotFoundPage(requestedPath: string, currentUrl: string)
    | SearchPage(items: seq<Catalog.Item>, query: string, maxResults: nat, currentUrl: string)
    | RobotsPage(sitemapUrl: string)

  datatype Body =
    | Empty
    | Text(text: string)      // a body the worker produced or rewrote
    | Stream(data: string)    // an upstream body forwarded byte for byte
    | Rendered(page: Page)

  datatype Response = Response(status: nat, statusText: string, headers: Headers, body: Body)

  /**
   * The operations the worker delegates: `fetch` (None: the promise rejected),
   * `new URL` (None: TypeError), `decodeURIComponent` (None: URIError), and the
   * banner's constant style sheet.
   */
  datatype Env = Env(
    fetch: Fetch -> Option<Upstream>,
    parseUrl: string -> Option<UrlParts>,
    decodeUri: string -> Option<string>,
    bannerStyles: string)

  /** The content type the platform gives a response built from a string body. */
  const PlainText: string := "text/plain;charset=UTF-8"

  /**
   * The statuses whose responses may carry no body (the "null body statuses"
   * of the Fetch standard): building a response with a body and one of these throws.
   */
  const NullBodyStatuses: set<nat> := {101, 103, 204, 205, 304}

  /**
   * The statuses `new Response(body, {status})` accepts; any other status
   * makes it throw, before the body is looked at.
   */
  predicate StatusInRange(status: nat) {
    200 <= status <= 599
  }

  /** `headers.get(name)` */
  function HeaderGet(h: Headers, name: string): Option<string> {
    if name in h then Some(h[name]) else None
  }

  /** `response.ok` */
  predicate IsOk(status: nat) {
    200 <= status <= 299
  }

  /** An upstream response returned to the client unchanged. */
  function Forward(up: Upstream): Response {
    Response(up.status, up.statusText, up.headers, Stream(up.body))
  }

  /**
   * `handle404(request)`: the local not-found page, built from the requested
   * path and the page URL without its query string.
   */
  function NotFound(req: Request): (r: Response)
    ensures r.status == 404 && r.body.Rendered? && r.body.page.NotFoundPage?
    ensures r.body.page.requestedPath == req.pathname && r.body.page.currentUrl == req.origin + req.pathname
    ensures HeaderGet(r.headers, "content-type") == Some("text/html;charset=UTF-8")
    ensures HeaderGet(r.headers, "x-content-type-options") == Some("nosniff")
  {
    Response(404, "", map["content-type" := "text/html;charset=UTF-8", "x-content-type-options" := "nosniff"],
             Rendered(NotFoundPage(req.pathname, req.origin + req.pathname)))
  }

  /** `handleRobots(request)`: the crawler rules, pointing at the mirror's own sitemap. */
  function Robots(req: Request): (r: Response)
    ensures r.status == 200 && r.body == Rendered(RobotsPage(req.origin + "/sitemap.xml"))
    ensures HeaderGet(r.headers, "cache-control") == Some("public, max-age=86400")
  {
    Response(200, "", map["content-type" := PlainText, "cache-control" := "public, max-age=86400"],
             Rendered(RobotsPage(req.origin + "/sitemap.xml")))
  }

  /** `Response.redirect(location, status)` */
  function Redirect(location: string, status: nat): (r: Response)
    ensures r.status == status && HeaderGet(r.headers, "location") == Some(location)
  {
    Response(status, "", map["location" := location], Empty)
  }
}
