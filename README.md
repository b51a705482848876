# Chrome Web Store Mirror worker: a Dafny model of its core

This project models the request-handling core of a Cloudflare Worker that
mirrors the Chrome Web Store, and proves properties of it. Each incoming path
goes to one of six routes:

- the search page, at `/`, `""` and anything starting with `/search`;
- `robots.txt`;
- the XML sitemap;
- an item page, at `/detail/<id>`;
- a package download, at `/crx/<id>`;
- every other path, which is proxied to the upstream store.

The model covers the following parts of the worker:

- **URL rewriting** (`rewriteUrls`, `handleRedirect`). The two global
  regular-expression replacements are written out as left-to-right scans.
- **The catalog cache** (`getItems`). It is a class whose two fields are
  `itemsCache` and `lastFetch`. The clock and the fetch outcome are
  parameters, and `GetItemsStep` is the function that specifies one call.
- **The content proxy** (`proxyRequest`, `addDownloadBanner`). The outgoing
  headers are modelled, and so is the classification of the upstream answer by
  status and `Content-Type`. The rewriting of text bodies is modelled, as is
  the one-shot banner inserted after the first `<body…>` tag.
- **Dispatch and lookup**, covering `handleRequest`, `handleDetail`, `handleCrx`
  and `handleSearch`:
  - `split("/")[2]` id and query extraction;
  - first-match lookup by `id`;
  - the local 404 page;
  - the `Content-Disposition` filename.
- **Escaping and metadata**: `escapeHtml`, `escapeXml`, `generateUrlEntry`,
  the sitemap's entry selection (a `for` loop proved against
  `RenderEntries(SitemapEntries(..))`), page titles, image URLs, the tag sets,
  breadcrumbs and the structured-data choice.

Foreign operations are fields of `Http.Env`, so the model does not say how
they behave: `fetch`, `new URL`, `decodeURIComponent` and the banner's style
sheet. Header names are stored in lower case, as the platform's `Headers`
compares them without case. Pages built by templates are recorded by the data
they are built from (`Http.Page`).

The model keeps these behaviours of the code as written:

- The attribute pass also prefixes values starting with `//`.
- The attribute pass always writes double quotes, and accepts mismatched
  quotes.

- The base URL is given to `new RegExp` unescaped, so each `.` in it matches
  any character except a line terminator.
- `/searchX` is routed to the search page.

## Model

| member | source | states |
|---|---|---|
| Builtins.JoinSplit | src/handlers/detail.js:16 | joining the pieces of `split(sep)` gives back the string |
| Builtins.SecondSegment | src/handlers/detail.js:16 | element 2 of `"/word/rest".split("/")` is `rest` up to its first slash |
| Builtins.NatToStringRoundTrip | src/utils/proxy.js:36 | the decimal text of a status code reads back as that code |
| Builtins.EscapeRemovesSpecials | src/utils/seo.js:346-354 | the escaped text contains none of `< > " '` |
| Builtins.EscapeIdentityWithoutSpecials | src/utils/seo.js:354 | text with none of `& < > " '` is left as it is |
| Builtins.UnescapeEscape | src/utils/seo.js:346-354 | decoding the five entities undoes the escaping (the escaping is injective) |
| Http.NotFound | src/handlers/error.js:15-29 | 404, the not-found page for the requested path and the page URL without the query string, HTML and `nosniff` headers |
| Http.Robots | src/handlers/robots.js:14-53 | 200, the robots page naming `<origin>/sitemap.xml`, cacheable for a day |
| Http.Redirect | src/utils/url.js:43 | the redirect carries the given status and the `Location` value |
| Catalog.Cache.constructor | src/services/cache.js:8-9 | the cache starts empty (`null`, time 0) with no fetch made |
| Catalog.Cache.GetItems | src/services/cache.js:15-35 | returns the items of `GetItemsStep` and moves the fields to its next state; the fetch count grows by one exactly when a fetch is made |
| Catalog.FreshHit | src/services/cache.js:17-19 | a snapshot younger than one hour is returned with no fetch and no state change |
| Catalog.RefreshOnSuccess | src/services/cache.js:22-29 | a stale or empty cache fetches once; a 2xx answer stores the data with the time captured at call entry and returns it |
| Catalog.FailuresAlike | src/services/cache.js:23-25 | a non-2xx answer or an unparsable body behaves exactly like a rejected fetch |
| Catalog.FailureServesStale | src/services/cache.js:30-34 | a failed refresh leaves the state unchanged and returns the old snapshot, or `[]` before any success |
| Catalog.NeverRegresses | src/services/cache.js:27-34 | once populated, the cache is never emptied again |
| Catalog.TwoCallsWithinDuration | src/services/cache.js:17-29 | two calls within the hour make one fetch in all and both return the first data |
| Catalog.ExpiredThenFailure | src/services/cache.js:17-34 | after the hour a call fetches again; if that fails, the first data is served and the state is kept |
| Catalog.FailureRetries | src/services/cache.js:28-34 | a failure does not advance `lastFetch`, so every later call fetches again |
| Catalog.FindById | src/handlers/detail.js:18 | `items.find(i => i.id === id)`: the first item with that id, or none exactly when no item has it |
| UrlRewriter.DotsAreWildcards | src/utils/url.js:15 | the unescaped pattern also matches a host with `-` in place of its dots, and that text is replaced by the origin |
| UrlRewriter.ReplaceBaseUnchanged | src/utils/url.js:15 | with no match of the base URL anywhere, pass 1 returns its input unchanged |
| UrlRewriter.ReplaceBaseSkip | src/utils/url.js:15 | positions where no match starts are copied through as they are |
| UrlRewriter.ReplaceBaseFirstMatch | src/utils/url.js:15 | the leftmost match is replaced by the origin and the scan resumes right after it |
| UrlRewriter.ReplaceBaseLength | src/utils/url.js:15 | the output length is the input length plus, per replaced match, the length difference of origin and base URL; matches do not overlap |
| UrlRewriter.AttrMatchAt | src/utils/url.js:17-18 | reports a match of `(href\|src\|action)=["'](\/.*?)["']` at the start of the text exactly when one exists |
| UrlRewriter.AttrMatchUnique | src/utils/url.js:18 | the match is unique: the lazy value stops at the first quote |
| UrlRewriter.AttributeRewritten | src/utils/url.js:17-20 | `name=q1/value q2` becomes `name="<origin>/value"`, always in double quotes, whether or not the two quotes match and also for values starting with `//` |
| UrlRewriter.NonRootValueKept | src/utils/url.js:18 | an attribute value not starting with `/` is no match of pass 2 |
| UrlRewriter.RewriteAttrsUnchanged | src/utils/url.js:17-20 | with no attribute match anywhere, pass 2 returns its input unchanged |
| UrlRewriter.RewriteAttrsSkip | src/utils/url.js:17-20 | positions where no attribute match starts are copied through as they are |
| UrlRewriter.RewriteUrlsUnchanged | src/utils/url.js:13-21 | content with no match of either pattern is returned unchanged |
| UrlRewriter.PassOneOnAbsoluteAttr | src/utils/url.js:15 | in `name=q<base URL>tail`, pass 1 replaces exactly the base URL by the origin |
| UrlRewriter.AbsoluteAttrRewrittenOnce | src/utils/url.js:15-20 | pass 1 runs before pass 2, so an absolute upstream URL in an attribute becomes the origin and is not prefixed a second time |
| UrlRewriter.RedirectTarget | src/utils/url.js:35-42 | a location starting literally with the base URL becomes worker origin + parsed path + query (an unparsable one throws); another `http…` location passes; anything else is prefixed with the worker origin |
| UrlRewriter.HandleRedirect | src/utils/url.js:30-46 | with a non-empty `Location` the redirect keeps the upstream status and carries the translated target, and throws when `Response.redirect` cannot parse that target; without a `Location` the upstream response is returned as is |
| UrlRewriter.UnparsableRedirectThrows | src/utils/url.js:38-43 | a location `httpfoo` is kept by the translation, and the redirect then throws when it cannot be parsed |
| UrlRewriter.RedirectDropsFragment | src/utils/url.js:35-37 | the translated location is the origin followed by the location's path and query: its fragment is dropped |
| UrlRewriter.RedirectPrefixIsLiteral | src/utils/url.js:35-39 | `startsWith` is literal: a host that only matches as a pattern is passed through unchanged |
| Proxy.HeaderOr | src/utils/proxy.js:21-24 | `headers.get(name) \|\| fallback`: the client value when non-empty, else the fallback |
| Proxy.OutgoingFetch | src/utils/proxy.js:19-28 | the upstream request goes to the target, does not follow redirects, sends exactly four headers: user agent, accept and language from the client with their fallbacks, and the target's origin as referer |
| Proxy.ClientHeadersNeverEmpty | src/utils/proxy.js:21-24 | no client header is sent upstream empty; a non-empty client value is sent unchanged, and otherwise `Cloudflare Worker`, `*/*` or `en-US,en;q=0.9` |
| Proxy.FailureMessage | src/utils/proxy.js:34-41 | the failure body is the fixed prefix followed by text that reads back as the status |
| Proxy.NextClose | src/utils/proxy.js:104 | the first `>` at or after a position, or none |
| Proxy.BodyTagFrom | src/utils/proxy.js:104 | the leftmost `<body[^>]*>` starting at or after a position, or none exactly when there is none |
| Proxy.BodyTag | src/utils/proxy.js:104 | the first match of `/<body[^>]*>/`, or none exactly when there is no match |
| Proxy.BannerAfterFirstBodyTag | src/utils/proxy.js:89-105 | the banner is inserted once, right after the first body tag; the text before and after it is kept and nothing else is added |
| Proxy.NoBodyTagNoBanner | src/utils/proxy.js:104 | HTML with no `<body` is returned unchanged |
| Proxy.BannerLinksDownload | src/utils/proxy.js:97 | the banner links to `<origin>/crx/<itemId>` |
| Proxy.ProxyResponse | src/utils/proxy.js:30-79 | 301/302/307/308 go to redirect translation; every other status gives an answer with an empty status text, except that building the failure response throws for a non-2xx status outside 200..599 (a RangeError) or one that forbids a body (a TypeError) |
| Proxy.ProxyRequest | src/utils/proxy.js:18-80 | an unparsable target throws before anything is fetched; a rejected fetch propagates; otherwise the response is the classification of the fetched answer |
| Proxy.ProxyStatus | src/utils/proxy.js:34-79 | outside the redirect statuses, a 2xx answer gives 200 and a non-2xx status in 200..599 that may carry a body is kept, with a message naming it; a status outside 200..599 (100, 102, 600) or a 304 throws instead |
| Proxy.BodyIgnoredUnlessServed | src/utils/proxy.js:30-41 | a failed answer, or a redirect with a location, does not depend on the upstream body |
| Proxy.ProxyBody | src/utils/proxy.js:43-79 | the first matching content type wins: HTML is rewritten, with the banner exactly when the item id is truthy; CSS and script/JSON are rewritten; anything else is streamed as is; HTML and CSS get `text/html; charset=UTF-8` and `text/css; charset=UTF-8`, JS/JSON and passthrough keep the upstream type |
| Proxy.ItemPageLinksDownload | src/utils/proxy.js:46-52 | an item page with a body tag links to that item's package |
| Detail.LookupItem | src/handlers/detail.js:16-18 | the found item carries the extracted id; none is found exactly when no item carries it (an absent id matches nothing) |
| Detail.LookupFirst | src/handlers/detail.js:18 | the lookup returns the first item carrying the id |
| Detail.DetailId | src/handlers/detail.js:16 | the id of `/detail/<rest>` is `rest` up to its first slash |
| Detail.DetailIdExamples | src/handlers/detail.js:16 | `/detail/abc/x` names `abc`; `/detail/` names the empty id |
| Detail.UnknownItemNotFound | src/handlers/detail.js:20-22 | an unknown id gives the local 404 page, whatever the environment: nothing is proxied |
| Detail.KnownItemProxied | src/handlers/detail.js:24 | a known id proxies the page of the first item carrying it, passing the id on |
| Crx.DownloadHeaders | src/handlers/crx.js:24-28 | every upstream header is kept except the disposition, which becomes `attachment; filename="<id>.crx"` |
| Crx.DispositionInjective | src/handlers/crx.js:25-28 | distinct ids give distinct download filenames |
| Crx.UnknownPackageNotFound | src/handlers/crx.js:19-21 | an unknown id gives the local 404 page and nothing is fetched |
| Crx.PackagePassedThrough | src/handlers/crx.js:15-34 | a known id fetches the first matching item's file; its status, status text and body are returned unchanged, with the attachment header; a status outside 200..599 makes `new Response` throw; a rejected fetch propagates |
| Search.NoQuerySegment | src/handlers/search.js:19-22 | `/`, `""`, `/search` and `/search/` carry the empty query and decode nothing |
| Search.QueryFromPath | src/handlers/search.js:19-22 | the query of `/search/<rest>` is the decoding of `rest` up to its first slash; a malformed escape throws |
| Search.DecodeErrorNotCaught | src/handlers/search.js:20-27 | a decoding error escapes before the protected block and is never turned into the fallback page |
| Search.SearchOutcomes | src/handlers/search.js:25-50 | the normal page is a 200 listing the catalog and cacheable for an hour; the fallback is a 500 listing nothing and not cacheable; both use origin + pathname |
| Search.SearchIgnoresQueryString | src/handlers/search.js:25 | the request's query string plays no part in the search page |
| Sitemap.EscapeXmlRoundTrip | src/handlers/sitemap.js:15-27 | `escapeXml("")` is `""`, and decoding its output (with `&apos;`) gives the text back |
| Sitemap.EntryLocation | src/handlers/sitemap.js:37-40 | the location is written escaped, holds no `<`, is followed by `</loc>`, and decodes back to `loc` |
| Sitemap.LastmodIffGiven | src/handlers/sitemap.js:41 | a `<lastmod>` element follows the location exactly when a date is given |
| Sitemap.BuildUrlEntries | src/handlers/sitemap.js:61-81 | the accumulated text is the rendering of the two main entries followed by the selected detail entries |
| Sitemap.AppendItemEntries | src/handlers/sitemap.js:76-81 | the loop appends, in catalog order, one detail entry per included item with a truthy `itemId` |
| Sitemap.SitemapResponse | src/handlers/sitemap.js:93-107 | 200 with the XML document around the entries, typed `application/xml;charset=UTF-8` |
| Sitemap.MainEntriesFirst | src/handlers/sitemap.js:64-65 | the home page and `/search` come first, daily with priority 1.0; when reading the catalog throws they are all there is |
| Sitemap.DetailEntriesAtMostOnePerItem | src/handlers/sitemap.js:76-81 | an item contributes at most one entry |
| Sitemap.SitemapBound | src/handlers/sitemap.js:73-81 | the sitemap never holds more than 5002 entries |
| Sitemap.CapIgnoresRest | src/handlers/sitemap.js:73-74 | items past the first 5000 never reach the sitemap |
| Sitemap.DetailEntriesSound | src/handlers/sitemap.js:77-79 | every detail entry is the weekly, priority-0.8 page of an item with a truthy `itemId` |
| Sitemap.DetailEntriesComplete | src/handlers/sitemap.js:76-80 | every considered item with a truthy `itemId` gets its detail entry |
| Sitemap.NoItemIdNoEntries | src/handlers/sitemap.js:77 | items keyed by `id` alone (no `itemId`) add no detail entry |
| Seo.EscapeHtmlSafe | src/utils/seo.js:343-355 | `""` for an empty text; the output holds none of `< > " '`; decoding it gives the text back |
| Seo.EscapeHtmlQuoteFree | src/utils/seo.js:346-354 | escaped text holds no `"`, so it cannot close an attribute |
| Seo.EscapeHtmlNotIdempotent | src/utils/seo.js:354 | escaping is single-pass: `&` gives `&amp;` and then `&amp;amp;` |
| Seo.PageTitle | src/utils/seo.js:363-373 | never empty; an empty title or the site name gives the default title; otherwise the result starts with the title |
| Seo.PageTitleForms | src/utils/seo.js:368-372 | without the site name the title is kept; with it, ` \| <site>` is appended, and distinct titles give distinct page titles |
| Seo.AbsoluteImageUrl | src/utils/seo.js:76-78 | an image starting with `http` is kept; any other image is prefixed with the site URL |
| Seo.AbsoluteImageUrlIdempotent | src/utils/seo.js:109-111 | an absolute image URL is kept as it is, so making a URL absolute twice changes nothing |
| Seo.RelativeImageUnderSite | src/utils/seo.js:76-78 | the default image `/og-image.png` becomes `https://chromewebstore.xi-xu.me/og-image.png` |
| Seo.MetaTagsShape | src/utils/seo.js:33-52 | the canonical link is present exactly when a non-empty canonical is given; every escaped meta value is free of `"`; `robots` is written as given |
| Seo.SocialTagsShape | src/utils/seo.js:65-119 | both social tag sets use the absolute image; `twitter:site` appears exactly when the handle is non-empty |
| Seo.SoftwareApplication | src/utils/seo.js:168-215 | the fixed fields name the item's `/crx/` and `/detail/` URLs; author and version appear only when truthy; the rating appears exactly when rating and count are both truthy |
| Seo.BreadcrumbItems | src/utils/seo.js:269-274 | one list item per crumb, in order, at positions 1..n, with the crumb's name and URL |
| Seo.BreadcrumbSchema | src/utils/seo.js:264-283 | no record for an empty list; otherwise a breadcrumb list of the same length |
| Seo.BreadcrumbPositions | src/utils/seo.js:269-274 | positions start at 1, end at n and increase along the list |
| Seo.StructuredData | src/utils/seo.js:316-330 | `web` selects the site record, `app` the application record with every field as `generateSoftwareApplicationSchema` sets it, `webapp` the web-application record, anything else none; a breadcrumb record of those crumbs comes last when crumbs are given |
| Seo.CompleteSeo | src/utils/seo.js:301-336 | the three tag sets are built from the page options; the structured-data type, `web` by default, selects the site, application or web-application record, or none for any other value; the breadcrumb record of the given crumbs comes last; at most two records |
| Seo.CompleteTwitterSite | src/utils/seo.js:334 | the complete package always names the mirror's Twitter handle |
| Seo.CompleteAuthor | src/utils/seo.js:332 | the complete package always names the default author |
| Router.RoutesCharacterised | src/router.js:22-53 | each route is taken exactly on its own paths: `/` or `""` or a `/search` prefix, the two exact files, the `/detail/` and `/crx/` prefixes, everything else proxied |
| Router.RouteExamples | src/router.js:36-46 | `/searchX` is a search, `/detail` without its slash is proxied, `/detail/abc` is an item page |
| Router.ProxyOtherPath | src/router.js:48-64 | other paths are proxied to base + pathname + query with no item id; an upstream 404 or an exception gives the local 404 page; any other answer is returned unchanged |
| Router.CatalogUnusedElsewhere | src/router.js:19-65 | a request outside the catalog routes does not depend on the catalog |
| Router.HandleRequest | src/router.js:19-65 | the response is that of the route; the catalog routes make exactly one cache call, and no other route touches the cache |
| Router.RespondFromCatalog | src/handlers/detail.js:17 | one `getItems` call, then the route's handler on what it returned |
| Router.RespondWith | src/handlers/sitemap.js:52-107 | the handler's response, with the sitemap built by its loop |
| Router.SitemapRouteAnswer | src/router.js:32-34 | `/sitemap.xml` answers with the sitemap of the catalog read |
| Router.ProxiedPathsAlwaysAnswer | src/router.js:49-64 | proxied paths never throw, and any 404 they give is the local page |
| Router.ErrorsOnlyFromItemAndSearchRoutes | src/router.js:19-65 | an exception escapes only from the item routes and from a malformed search query |
| Router.UpToWithoutSlash | src/handlers/crx.js:15 | an id without slashes is read back whole from its path |
| Router.DetailPageOfItem | src/handlers/detail.js:14-25 | `/detail/<id>` for a catalog id proxies that item's page with the banner for that id |
| Router.DownloadLinkReachesPackage | src/router.js:40-42 | the banner's download link routes to the package route, which reads the same id back |

## Left out

- Network I/O, `Response` and `Headers` objects, and body streaming. An
  upstream answer is a value (`Http.Upstream`), and `fetch` is an input
  (`Http.Env.fetch`; None means the promise rejected).
- URL parsing and `decodeURIComponent`. They are inputs of `Http.Env`, and the
  model states nothing about their behaviour. The incoming request arrives
  already split into origin, pathname and query string. `new URL(request.url)`
  on the worker's own request is assumed not to throw.
- The clock. `Date.now()` is the `now` parameter of `GetItems`, and the date
  of the sitemap entries is the `today` parameter.
- Logging (`console.log`, `console.error`).
- Concurrency. The model does not cover overlapping refreshes of the cache,
  or a request cancelled while a fetch is pending.
- The text of the HTML templates, the robots file and the JSON-LD records.
  Pages are recorded by the data they are built from (`Http.Page`), and tags
  and records are data (`Seo.Tag`, `Seo.Schema`), not text. The organisation
  and web-site records are constants with no options, so they are not part of
  this model.
- The banner's style sheet (`getStyles('banner')`). It is the
  `bannerStyles` input.
- The platform's default `Content-Type` for a string body is written as the
  constant `Http.PlainText`.
- `Catalog.Cache.GetItems`: a catalog body that is valid JSON but not an array is
  treated as a failed refresh. The source caches it and then throws in the
  handlers' `find` or `slice`.
- `Sitemap.HandleSitemap`: the outer `catch` of `handleSitemap`, with its
  minimal fallback sitemap, is not modelled. Once the date is a parameter,
  nothing inside its `try` can throw.
- `Router.Respond`: `getItems` itself never throws. So the sitemap and
  search routes always see the catalog, and their fallback branches are
  reached only through the `items` argument being None.
- `UrlRewriter.HandleRedirect`: `Response.redirect` is modelled only as far
  as throwing when the location cannot be parsed. The serialised URL it
  writes (a lower-cased host, a trailing `/`) is not modelled, so the
  `Location` header carries the target text as the code builds it. Its throw
  for a status outside the redirect statuses is not modelled either, because
  the proxy only calls it with 301, 302, 307 or 308.
- `UrlRewriter.ReplaceBase`, `UrlRewriter.RewriteAttrs`,
  `Proxy.AddDownloadBanner`: the replacement text is inserted literally. The
  model assumes no `$` in the origin, the item id or the banner styles.
  `String.replace` would expand `$&`, `$1`, `` $` ``, `$'` and `$$` in them.
- `UrlRewriter.PatternCharMatches`: text is taken as code points. A regular
  expression `.` without the `u` flag matches one UTF-16 code unit. So a
  character outside the Basic Multilingual Plane in a dot position of the base
  URL matches here, but not in the source.
- `Seo.SoftwareApplication`: numbers are modelled as reals. A NaN rating,
  which is falsy in the source, is not modelled.
- Entity encoding beyond the five characters in the `escapeHtml` and
  `escapeXml` maps, and `toString` of non-string inputs. All inputs are
  strings.
