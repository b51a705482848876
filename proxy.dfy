/**
 * `proxyRequest`: fetch a page from the upstream store without following
 * redirects, translate redirects, report upstream failures, rewrite text
 * bodies to point at the mirror, and insert the download banner into item
 * pages (`addDownloadBanner`).
 */
module Proxy {
  import opened Builtins
  import opened Http
  import opened UrlRewriter

  // ---------------------------------------------------------------------------
  // The outgoing request

  const DefaultUserAgent: string := "Cloudflare Worker"
  const DefaultAccept: string := "*/*"
  const DefaultAcceptLanguage: string := "en-US,en;q=0.9"

  /** `request.headers.get(name) || fallback` */
  function HeaderOr(h: Headers, name: string, fallback: string): (v: string)
    ensures Truthy(HeaderGet(h, name)) ==> v == h[name]
    ensures !Truthy(HeaderGet(h, name)) ==> v == fallback
  {
    var got := HeaderGet(h, name);
    if Truthy(got) then got.value else fallback
  }

  /**
   * The upstream request: three client headers passed on (each with its
   * fallback), the target's origin as referer, and redirects not followed.
   */
  function OutgoingFetch(req: Request, targetUrl: string, targetOrigin: string): (f: Fetch)
    ensures f.url == targetUrl && f.redirect == Manual
    ensures f.headers.Keys == {"user-agent", "accept", "accept-language", "referer"}
    ensures f.headers["referer"] == targetOrigin
    ensures f.headers["user-agent"] == HeaderOr(req.headers, "user-agent", DefaultUserAgent)
    ensures f.headers["accept"] == HeaderOr(req.headers, "accept", DefaultAccept)
    ensures f.headers["accept-language"] == HeaderOr(req.headers, "accept-language", DefaultAcceptLanguage)
  {
    Fetch(targetUrl,
          map["user-agent" := HeaderOr(req.headers, "user-agent", DefaultUserAgent),
              "accept" := HeaderOr(req.headers, "accept", DefaultAccept),
              "accept-language" := HeaderOr(req.headers, "accept-language", DefaultAcceptLanguage),
              "referer" := targetOrigin],
          Manual)
  }

  /**
   * The `||` fallbacks mean no client header is sent upstream empty: a
   * non-empty client value is sent as it is, and otherwise the fixed default.
   */
  lemma ClientHeadersNeverEmpty(req: Request, targetUrl: string, targetOrigin: string, name: string)
    requires name == "user-agent" || name == "accept" || name == "accept-language"
    ensures OutgoingFetch(req, targetUrl, targetOrigin).headers[name] != ""
    ensures Truthy(HeaderGet(req.headers, name)) ==>
              OutgoingFetch(req, targetUrl, targetOrigin).headers[name] == req.headers[name]
    ensures !Truthy(HeaderGet(req.headers, name)) ==>
              OutgoingFetch(req, targetUrl, targetOrigin).headers[name] ==
                (if name == "user-agent" then "Cloudflare Worker" else if name == "accept" then "*/*" else "en-US,en;q=0.9")
  {
  }

  // ---------------------------------------------------------------------------
  // Classifying the upstream answer

  /** The redirect statuses handed to `handleRedirect`. */
  const RedirectStatuses: set<nat> := {301, 302, 307, 308}

  const FailurePrefix: string := "Failed to fetch from Chrome Web Store: "

  /** The body of the response that reports a non-2xx upstream status. */
  function FailureMessage(status: nat): (msg: string)
    ensures StartsWith(msg, FailurePrefix)
    ensures ParseDigits(msg[|FailurePrefix|..]) == status
  {
    var msg := FailurePrefix + NatToString(status);
    assert msg[|FailurePrefix|..] == NatToString(status);
    NatToStringRoundTrip(status);
    msg
  }

  /** The branches on `Content-Type`, tried in this order. */
  datatype ContentKind = Html | Css | Script | Opaque

  function Classify(contentType: string): ContentKind {
    if Contains(contentType, "text/html") then Html
    else if Contains(contentType, "text/css") then Css
    else if Contains(contentType, "javascript") || Contains(contentType, "json") then Script
    else Opaque
  }

  // ---------------------------------------------------------------------------
  // The download banner

  /** Where `/<body[^>]*>/` matches: `start` of `<body`, `end` just past the first `>` after it. */
  datatype Span = Span(start: nat, end: nat)

  predicate IsBodyTag(html: string, start: nat, end: nat) {
    OccursAt(html, "<body", start) && start + 5 < end <= |html| && html[end - 1] == '>' &&
    forall k :: start + 5 <= k < end - 1 ==> html[k] != '>'
  }

  /** The first `>` at or after `from`. */
  function NextClose(s: string, from: nat): (r: Option<nat>)
    requires from <= |s|
    ensures r.Some? ==> from <= r.value < |s| && s[r.value] == '>' &&
                        forall k :: from <= k < r.value ==> s[k] != '>'
    ensures r.None? ==> forall k :: from <= k < |s| ==> s[k] != '>'
    decreases |s| - from
  {
    if from == |s| then None
    else if s[from] == '>' then Some(from)
    else NextClose(s, from + 1)
  }

  /** The leftmost body tag starting at or after `i`. */
  function BodyTagFrom(html: string, i: nat): (r: Option<Span>)
    requires i <= |html|
    ensures r.Some? ==> i <= r.value.start && IsBodyTag(html, r.value.start, r.value.end) &&
                        forall st: nat, en: nat :: i <= st < r.value.start ==> !IsBodyTag(html, st, en)
    ensures r.None? ==> forall st: nat, en: nat :: i <= st ==> !IsBodyTag(html, st, en)
    decreases |html| - i
  {
    if i + 5 >= |html| then None
    else if OccursAt(html, "<body", i) then
      match NextClose(html, i + 5)
      case Some(j) => Some(Span(i, j + 1))
      case None => None
    else BodyTagFrom(html, i + 1)
  }

  /** The first match of `/<body[^>]*>/`, if any. */
  function BodyTag(html: string): (r: Option<Span>)
    ensures r.Some? ==> IsBodyTag(html, r.value.start, r.value.end) &&
                        forall st: nat, en: nat :: st < r.value.start ==> !IsBodyTag(html, st, en)
    ensures r.None? ==> forall st: nat, en: nat :: !IsBodyTag(html, st, en)
  {
    BodyTagFrom(html, 0)
  }

  /** The banner's markup before the download link; `styles` is the banner style sheet. */
  function BannerHead(styles: string): string {
    "\n  <div id=\"mirror-banner\">\n    <style>" + styles + "</style>\n    <div class=\"info\">\n      <span>"
    + "\U{F8FF}\U{FC}\U{EC}\U{B6}"
    + "</span>\n      <span>Download this extension or theme safely</span>\n    </div>\n    "
  }

  /** The banner's link to the package download route of the mirror. */
  function DownloadLink(origin: string, itemId: string): string {
    "<a href=\"" + origin + "/crx/" + itemId + "\" class=\"download-btn\">"
  }

  const BannerTail: string :=
    "\n      <span>" + "\U{201A}\U{A8}\U{E1}\U{D4}\U{220F}\U{E8}"
    + "</span>\n      <span>Download CRX</span>\n    </a>\n  </div>\n  "

  function Banner(origin: string, itemId: string, styles: string): string {
    BannerHead(styles) + DownloadLink(origin, itemId) + BannerTail
  }

  /** `html.replace(/<body[^>]*>/, '$&' + banner)`: the banner goes right after the first body tag. */
  function AddDownloadBanner(html: string, itemId: string, origin: string, styles: string): string {
    match BodyTag(html)
    case None => html
    case Some(tag) => html[..tag.end] + Banner(origin, itemId, styles) + html[tag.end..]
  }

  /**
   * The banner is inserted once, right after the first complete body tag: the
   * page up to and including that tag and everything after it are kept, and
   * nothing else is added.
   */
  lemma BannerAfterFirstBodyTag(html: string, itemId: string, origin: string, styles: string, start: nat, end: nat)
    requires IsBodyTag(html, start, end)
    requires forall st: nat, en: nat :: st < start ==> !IsBodyTag(html, st, en)
    ensures var r := AddDownloadBanner(html, itemId, origin, styles);
            var b := Banner(origin, itemId, styles);
            |r| == |html| + |b| && r[..end] == html[..end] && r[end..end + |b|] == b && r[end + |b|..] == html[end..]
  {
    FirstBodyTag(html, start, end);
    InsertAt(html, Banner(origin, itemId, styles), end);
  }

  /** The leftmost body tag is the one the search finds. */
  lemma FirstBodyTag(html: string, start: nat, end: nat)
    requires IsBodyTag(html, start, end)
    requires forall st: nat, en: nat :: st < start ==> !IsBodyTag(html, st, en)
    ensures BodyTag(html) == Some(Span(start, end))
  {
    var tag := BodyTag(html).value;
    assert tag.start == start;
    assert tag.end == end;
  }

  /** A page with no `<body` is returned as it is. */
  lemma NoBodyTagNoBanner(html: string, itemId: string, origin: string, styles: string)
    requires !Contains(html, "<body")
    ensures AddDownloadBanner(html, itemId, origin, styles) == html
  {
  }

  /** An item page gets a link to its package download whenever it has a body tag. */
  lemma BannerLinksDownload(html: string, itemId: string, origin: string, styles: string)
    requires BodyTag(html).Some?
    ensures Contains(AddDownloadBanner(html, itemId, origin, styles), DownloadLink(origin, itemId))
  {
    var e := BodyTag(html).value.end;
    var before := html[..e] + BannerHead(styles);
    var link := DownloadLink(origin, itemId);
    var r := AddDownloadBanner(html, itemId, origin, styles);
    assert r == before + link + (BannerTail + html[e..]);
    assert OccursAt(r, link, |before|) by {
      assert r[|before|..|before| + |link|] == link;
    }
  }

  // ---------------------------------------------------------------------------
  // The response

  /** What the proxy returns for the upstream answer `up`. */
  function ProxyResponse(up: Upstream, workerOrigin: string, itemId: Option<string>, styles: string,
                         parseUrl: string -> Option<UrlParts>): (r: Result<Response>)
    ensures up.status in RedirectStatuses ==> r == HandleRedirect(up, workerOrigin, parseUrl)
    ensures up.status !in RedirectStatuses ==>
              (r.Ok? <==> IsOk(up.status) || (StatusInRange(up.status) && up.status !in NullBodyStatuses)) &&
              (r.Ok? ==> r.value.statusText == "") &&
              (r.Err? ==> r.error == (if StatusInRange(up.status) then BodyNotAllowed else StatusOutOfRange))
  {
    if up.status in RedirectStatuses then HandleRedirect(up, workerOrigin, parseUrl)
    else if !IsOk(up.status) then
      if !StatusInRange(up.status) then Err(StatusOutOfRange)
      else if up.status in NullBodyStatuses then Err(BodyNotAllowed)
      else Ok(Response(up.status, "", map["content-type" := PlainText], Text(FailureMessage(up.status))))
    else
      var contentType := HeaderGet(up.headers, "content-type").GetOr("");
      match Classify(contentType)
      case Html =>
        var html := RewriteUrls(up.body, workerOrigin);
        var page := if Truthy(itemId) then AddDownloadBanner(html, itemId.value, workerOrigin, styles) else html;
        Ok(Response(200, "", map["content-type" := "text/html; charset=UTF-8"], Text(page)))
      case Css =>
        Ok(Response(200, "", map["content-type" := "text/css; charset=UTF-8"], Text(RewriteUrls(up.body, workerOrigin))))
      case Script =>
        Ok(Response(200, "", map["content-type" := contentType], Text(RewriteUrls(up.body, workerOrigin))))
      case Opaque =>
        Ok(Response(200, "", map["content-type" := contentType], Stream(up.body)))
  }

  /**
   * `proxyRequest(request, targetUrl, itemId)`: an unparsable target throws
   * before anything is fetched; a rejected fetch propagates.
   */
  function ProxyRequest(env: Env, req: Request, targetUrl: string, itemId: Option<string>): (r: Result<Response>)
    ensures r.Err? ==> r.error in {InvalidUrl, NetworkError, BodyNotAllowed, StatusOutOfRange}
    ensures r == Err(NetworkError) <==>
              env.parseUrl(targetUrl).Some? && env.fetch(OutgoingFetch(req, targetUrl, env.parseUrl(targetUrl).value.origin)).None?
    ensures r.Ok? ==>
              env.parseUrl(targetUrl).Some? &&
              var up := env.fetch(OutgoingFetch(req, targetUrl, env.parseUrl(targetUrl).value.origin));
              up.Some? && r == ProxyResponse(up.value, req.origin, itemId, env.bannerStyles, env.parseUrl)
  {
    match env.parseUrl(targetUrl)
    case None => Err(InvalidUrl)
    case Some(u) =>
      match env.fetch(OutgoingFetch(req, targetUrl, u.origin))
      case None => Err(NetworkError)
      case Some(up) => ProxyResponse(up, req.origin, itemId, env.bannerStyles, env.parseUrl)
  }

  // ---------------------------------------------------------------------------
  // Properties of the response

  /**
   * Outside the redirect statuses the proxy answers 200 for any 2xx upstream
   * answer, and otherwise the upstream status with a message that names it.
   * Building that message throws for a status outside 200..599 (100 or 600,
   * say) and for a non-2xx status that may carry no body (304).
   */
  lemma ProxyStatus(up: Upstream, workerOrigin: string, itemId: Option<string>, styles: string,
                    parseUrl: string -> Option<UrlParts>)
    requires up.status !in RedirectStatuses
    ensures var r := ProxyResponse(up, workerOrigin, itemId, styles, parseUrl);
            (r.Err? <==> !IsOk(up.status) && (!StatusInRange(up.status) || up.status in NullBodyStatuses)) &&
            (r.Err? ==> r.error == (if StatusInRange(up.status) then BodyNotAllowed else StatusOutOfRange)) &&
            (r.Ok? ==> r.value.status == (if IsOk(up.status) then 200 else up.status))
    ensures up.status == 304 ==> ProxyResponse(up, workerOrigin, itemId, styles, parseUrl) == Err(BodyNotAllowed)
    ensures up.status in {100, 102, 600} ==> ProxyResponse(up, workerOrigin, itemId, styles, parseUrl) == Err(StatusOutOfRange)
    ensures !IsOk(up.status) && StatusInRange(up.status) && up.status !in NullBodyStatuses ==>
      var r := ProxyResponse(up, workerOrigin, itemId, styles, parseUrl);
      r.Ok? && r.value.body.Text? && StartsWith(r.value.body.text, FailurePrefix) &&
      ParseDigits(r.value.body.text[|FailurePrefix|..]) == up.status
  {
  }

  /**
   * A failed upstream answer, or a redirect that carries a location, is
   * answered without its body being read.
   */
  lemma BodyIgnoredUnlessServed(up: Upstream, other: string, workerOrigin: string, itemId: Option<string>, styles: string,
                                parseUrl: string -> Option<UrlParts>)
    requires up.status in RedirectStatuses ==> Truthy(HeaderGet(up.headers, "location"))
    requires up.status in RedirectStatuses || !IsOk(up.status)
    ensures ProxyResponse(up.(body := other), workerOrigin, itemId, styles, parseUrl)
         == ProxyResponse(up, workerOrigin, itemId, styles, parseUrl)
  {
  }

  /**
   * A 2xx HTML answer is rewritten, and it carries the download banner exactly
   * when an item id is given; CSS, script and JSON answers are rewritten with
   * no banner; every other type is streamed untouched under its own type.
   */
  lemma ProxyBody(up: Upstream, workerOrigin: string, itemId: Option<string>, styles: string,
                  parseUrl: string -> Option<UrlParts>)
    requires IsOk(up.status)
    ensures var r := ProxyResponse(up, workerOrigin, itemId, styles, parseUrl);
            var ct := HeaderGet(up.headers, "content-type").GetOr("");
            var rewritten := RewriteUrls(up.body, workerOrigin);
            r.Ok? &&
            match Classify(ct)
            case Html => r.value.body == Text(if Truthy(itemId) then AddDownloadBanner(rewritten, itemId.value, workerOrigin, styles)
                                              else rewritten) &&
                         r.value.headers["content-type"] == "text/html; charset=UTF-8"
            case Css => r.value.body == Text(rewritten) && r.value.headers["content-type"] == "text/css; charset=UTF-8"
            case Script => r.value.body == Text(rewritten) && r.value.headers["content-type"] == ct
            case Opaque => r.value.body == Stream(up.body) && r.value.headers["content-type"] == ct
  {
    assert up.status !in RedirectStatuses;
  }

  /** An item page whose rewritten HTML has a body tag links to the package of that item. */
  lemma ItemPageLinksDownload(up: Upstream, workerOrigin: string, id: string, styles: string,
                              parseUrl: string -> Option<UrlParts>)
    requires IsOk(up.status) && id != ""
    requires Classify(HeaderGet(up.headers, "content-type").GetOr("")) == Html
    requires BodyTag(RewriteUrls(up.body, workerOrigin)).Some?
    ensures var r := ProxyResponse(up, workerOrigin, Some(id), styles, parseUrl);
            r.Ok? && r.value.body.Text? && Contains(r.value.body.text, DownloadLink(workerOrigin, id))
  {
    ProxyBody(up, workerOrigin, Some(id), styles, parseUrl);
    BannerLinksDownload(RewriteUrls(up.body, workerOrigin), id, workerOrigin, styles);
  }
}
