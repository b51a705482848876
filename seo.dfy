/**
 * The search-engine metadata of the mirror's pages: HTML escaping, page
 * titles, absolute image URLs, the meta / Open Graph / Twitter tag sets, the
 * structured-data records and their selection. Tags and records are kept as
 * data; their rendering as HTML and JSON text is not part of this model.
 */
module Seo {
  import opened Builtins

  // ---------------------------------------------------------------------------
  // `DEFAULT_SEO_CONFIG`

  const SiteName: string := "Chrome Web Store Mirror"
  const SiteUrl: string := "https://chromewebstore.xi-xu.me"
  const DefaultTitle: string := "Chrome Web Store Mirror"
  const DefaultDescription: string :=
    "Browse and download Chrome extensions and themes safely. Access the Chrome Web Store with a secure mirror."
  const DefaultKeywords: string :=
    "chrome extensions, web store mirror, browser extensions, chrome themes, crx download, extension mirror"
  const DefaultImage: string := "/og-image.png"
  const TwitterHandle: string := "@chromewebstore"
  const DefaultAuthor: string := "Chrome Web Store Mirror"

  // ---------------------------------------------------------------------------
  // `escapeHtml`

  /** `escapeHtml(text)`: `&amp; &lt; &gt; &quot; &#039;`, one pass; "" for an empty text. */
  function EscapeHtml(text: string): string {
    Escape(text, "&#039;")
  }

  predicate QuoteFree(s: string) {
    forall k :: 0 <= k < |s| ==> s[k] != '"'
  }

  /**
   * The escaped text is empty for an empty text, holds none of `< > " '`,
   * and decodes back to the text.
   */
  lemma EscapeHtmlSafe(text: string)
    ensures EscapeHtml("") == ""
    ensures forall k :: 0 <= k < |EscapeHtml(text)| ==> EscapeHtml(text)[k] !in {'<', '>', '"', '\''}
    ensures Unescape(EscapeHtml(text), "&#039;") == text
  {
    EscapeRemovesSpecials(text, "&#039;");
    UnescapeEscape(text, "&#039;");
  }

  lemma EscapeHtmlQuoteFree(text: string)
    ensures QuoteFree(EscapeHtml(text))
  {
    EscapeRemovesSpecials(text, "&#039;");
  }

  /** Escaping is not idempotent: an already escaped `&` is escaped again. */
  lemma EscapeHtmlNotIdempotent()
    ensures EscapeHtml("&") == "&amp;"
    ensures EscapeHtml(EscapeHtml("&")) == "&amp;amp;"
  {
    assert EscapeHtml("&") == "&amp;" + Escape("", "&#039;");
    assert Escape(";", "&#039;") == ";";
    assert Escape("p;", "&#039;") == "p;";
    assert Escape("mp;", "&#039;") == "mp;";
    assert Escape("amp;", "&#039;") == "amp;";
  }

  // ---------------------------------------------------------------------------
  // `generatePageTitle`

  /** `generatePageTitle(pageTitle, includeSiteName)`; `pageTitle` None is `undefined`. */
  function PageTitle(pageTitle: Option<string>, includeSiteName: bool): (r: string)
    ensures r != ""
    ensures !Truthy(pageTitle) || pageTitle.value == SiteName ==> r == DefaultTitle
    ensures Truthy(pageTitle) && pageTitle.value != SiteName ==> StartsWith(r, pageTitle.value)
  {
    if !Truthy(pageTitle) || pageTitle.value == SiteName then DefaultTitle
    else if !includeSiteName then pageTitle.value
    else
      var r := pageTitle.value + " | " + SiteName;
      StartsWithAppend(pageTitle.value, " | " + SiteName);
      assert r == pageTitle.value + (" | " + SiteName);
      r
  }

  /**
   * Without the site name the title is kept; with it, the suffix ` | <site>`
   * is appended, and two different titles never give the same page title.
   */
  lemma PageTitleForms(a: string, b: string)
    requires a != "" && a != SiteName && b != "" && b != SiteName
    ensures PageTitle(Some(a), false) == a
    ensures PageTitle(Some(a), true) == a + " | " + SiteName
    ensures PageTitle(Some(a), true) == PageTitle(Some(b), true) ==> a == b
  {
    if PageTitle(Some(a), true) == PageTitle(Some(b), true) {
      var suffix := " | " + SiteName;
      assert a + " | " + SiteName == a + suffix;
      assert b + " | " + SiteName == b + suffix;
      assert |a| == |b|;
      assert a == (a + suffix)[..|a|];
      assert b == (b + suffix)[..|b|];
    }
  }

  // ---------------------------------------------------------------------------
  // Image URLs

  /** `image.startsWith('http') ? image : siteUrl + image` */
  function AbsoluteImageUrl(image: string): (r: string)
    ensures StartsWith(image, "http") ==> r == image
    ensures !StartsWith(image, "http") ==> r == SiteUrl + image
    ensures StartsWith(r, "http")
    ensures |image| <= |r| && r[|r| - |image|..] == image
  {
    if StartsWith(image, "http") then image
    else
      StartsWithAppend(SiteUrl, image);
      assert (SiteUrl + image)[..4] == SiteUrl[..4];
      SiteUrl + image
  }

  /** An absolute image URL is kept as it is, and so making a URL absolute twice changes nothing. */
  lemma AbsoluteImageUrlIdempotent(image: string)
    ensures StartsWith(image, "http") ==> AbsoluteImageUrl(image) == image
    ensures AbsoluteImageUrl(AbsoluteImageUrl(image)) == AbsoluteImageUrl(image)
  {
  }

  /** A site-relative image is placed under the mirror's site URL. */
  lemma RelativeImageUnderSite()
    ensures AbsoluteImageUrl("/og-image.png") == "https://chromewebstore.xi-xu.me/og-image.png"
  {
    assert "/og-image.png"[0] != 'h';
  }

  // ---------------------------------------------------------------------------
  // Tag sets

  datatype Tag =
    | Charset(charset: string)
    | NameMeta(name: string, content: string)
    | PropertyMeta(property: string, content: string)
    | LinkTag(rel: string, href: string)

  /** The options of `generateMetaTags`; None is an option left undefined. */
  datatype MetaOptions = MetaOptions(description: Option<string>, keywords: Option<string>, robots: Option<string>,
                                     canonical: Option<string>, author: Option<string>)

  /** `generateMetaTags(options)` */
  function MetaTags(o: MetaOptions): seq<Tag> {
    var canonical := o.canonical.GetOr("");
    [Charset("UTF-8"),
     NameMeta("viewport", "width=device-width, initial-scale=1.0"),
     NameMeta("description", EscapeHtml(o.description.GetOr(DefaultDescription))),
     NameMeta("keywords", EscapeHtml(o.keywords.GetOr(DefaultKeywords))),
     NameMeta("robots", o.robots.GetOr("index, follow")),
     NameMeta("author", EscapeHtml(o.author.GetOr(DefaultAuthor))),
     NameMeta("theme-color", "#1a73e8")]
    + if canonical != "" then [LinkTag("canonical", EscapeHtml(canonical))] else []
  }

  /**
   * The canonical link is present exactly when a non-empty canonical URL is
   * given, and every escaped meta value is free of `"`; only `robots` is
   * written as given.
   */
  lemma MetaTagsShape(o: MetaOptions)
    ensures var tags := MetaTags(o);
            (|tags| == 8 <==> o.canonical.GetOr("") != "") &&
            (forall t :: t in tags && t.LinkTag? ==> t == LinkTag("canonical", EscapeHtml(o.canonical.GetOr("")))) &&
            (forall t :: t in tags && t.NameMeta? && t.name != "robots" ==> QuoteFree(t.content)) &&
            NameMeta("robots", o.robots.GetOr("index, follow")) in tags
  {
    EscapeHtmlQuoteFree(o.description.GetOr(DefaultDescription));
    EscapeHtmlQuoteFree(o.keywords.GetOr(DefaultKeywords));
    EscapeHtmlQuoteFree(o.author.GetOr(DefaultAuthor));
    assert QuoteFree("width=device-width, initial-scale=1.0");
    assert QuoteFree("#1a73e8");
  }

  datatype OpenGraphOptions = OpenGraphOptions(title: Option<string>, description: Option<string>, image: Option<string>,
                                               url: Option<string>, ogType: Option<string>, siteName: Option<string>)

  /** `generateOpenGraphTags(options)` */
  function OpenGraphTags(o: OpenGraphOptions): seq<Tag> {
    [PropertyMeta("og:type", o.ogType.GetOr("website")),
     PropertyMeta("og:title", EscapeHtml(o.title.GetOr(DefaultTitle))),
     PropertyMeta("og:description", EscapeHtml(o.description.GetOr(DefaultDescription))),
     PropertyMeta("og:image", EscapeHtml(AbsoluteImageUrl(o.image.GetOr(DefaultImage)))),
     PropertyMeta("og:url", EscapeHtml(o.url.GetOr(SiteUrl))),
     PropertyMeta("og:site_name", EscapeHtml(o.siteName.GetOr(SiteName)))]
  }

  datatype TwitterOptions = TwitterOptions(title: Option<string>, description: Option<string>, image: Option<string>,
                                           card: Option<string>, site: Option<string>)

  /** `generateTwitterCardTags(options)` */
  function TwitterCardTags(o: TwitterOptions): seq<Tag> {
    var site := o.site.GetOr(TwitterHandle);
    [NameMeta("twitter:card", o.card.GetOr("summary_large_image")),
     NameMeta("twitter:title", EscapeHtml(o.title.GetOr(DefaultTitle))),
     NameMeta("twitter:description", EscapeHtml(o.description.GetOr(DefaultDescription))),
     NameMeta("twitter:image", EscapeHtml(AbsoluteImageUrl(o.image.GetOr(DefaultImage))))]
    + if site != "" then [NameMeta("twitter:site", EscapeHtml(site))] else []
  }

  /**
   * Both social tag sets point at an absolute image, and `twitter:site`
   * appears exactly when the site handle (by default the mirror's) is non-empty.
   */
  lemma SocialTagsShape(og: OpenGraphOptions, tw: TwitterOptions)
    ensures PropertyMeta("og:image", EscapeHtml(AbsoluteImageUrl(og.image.GetOr(DefaultImage)))) in OpenGraphTags(og)
    ensures NameMeta("twitter:image", EscapeHtml(AbsoluteImageUrl(tw.image.GetOr(DefaultImage)))) in TwitterCardTags(tw)
    ensures (exists t :: t in TwitterCardTags(tw) && t.NameMeta? && t.name == "twitter:site") <==> tw.site.GetOr(TwitterHandle) != ""
  {
    var tags := TwitterCardTags(tw);
    if tw.site.GetOr(TwitterHandle) != "" {
      assert tags[4].NameMeta? && tags[4].name == "twitter:site";
    }
  }

  // ---------------------------------------------------------------------------
  // Structured data

  /** A number option is truthy when given and non-zero (NaN is not modelled). */
  predicate TruthyNumber(x: Option<real>) {
    x.Some? && x.value != 0.0
  }

  datatype Rating = Rating(ratingValue: real, ratingCount: real)

  /** The fields of a `SoftwareApplication` record that vary; the rest are constants. */
  datatype AppSchema = AppSchema(
    name: Option<string>, description: Option<string>,
    downloadUrl: string, url: string,
    author: Option<string>, softwareVersion: Option<string>, aggregateRating: Option<Rating>)

  /** `structuredDataOptions`: read by both application records. */
  datatype SchemaOptions = SchemaOptions(
    name: Option<string>, description: Option<string>, url: Option<string>, itemId: Option<string>,
    author: Option<string>, version: Option<string>, rating: Option<real>, ratingCount: Option<real>)

  datatype ListItem = ListItem(position: nat, name: string, item: string)

  datatype Schema =
    | WebSiteSchema
    | WebApplicationSchema(name: string, description: string, url: string)
    | SoftwareApplicationSchema(app: AppSchema)
    | BreadcrumbListSchema(itemListElement: seq<ListItem>)

  /**
   * The record `generateSoftwareApplicationSchema(o)` builds: name and
   * description as given, the package and detail URLs of the item, the author
   * and version exactly when truthy, and the rating exactly when both the
   * rating and its count are truthy.
   */
  predicate ApplicationRecord(app: AppSchema, o: SchemaOptions) {
    app.name == o.name && app.description == o.description &&
    app.downloadUrl == SiteUrl + "/crx/" + Show(o.itemId) &&
    app.url == SiteUrl + "/detail/" + Show(o.itemId) &&
    app.author == (if Truthy(o.author) then o.author else None) &&
    app.softwareVersion == (if Truthy(o.version) then o.version else None) &&
    (app.aggregateRating.Some? <==> TruthyNumber(o.rating) && TruthyNumber(o.ratingCount)) &&
    (app.aggregateRating.Some? ==> app.aggregateRating.value == Rating(o.rating.value, o.ratingCount.value))
  }

  /**
   * `generateSoftwareApplicationSchema(options)`: the fixed fields, then the
   * author, version and rating added one by one when present.
   */
  method SoftwareApplication(o: SchemaOptions) returns (app: AppSchema)
    ensures app.name == o.name && app.description == o.description
    ensures app.downloadUrl == SiteUrl + "/crx/" + Show(o.itemId)
    ensures app.url == SiteUrl + "/detail/" + Show(o.itemId)
    ensures app.author == (if Truthy(o.author) then o.author else None)
    ensures app.softwareVersion == (if Truthy(o.version) then o.version else None)
    ensures app.aggregateRating.Some? <==> TruthyNumber(o.rating) && TruthyNumber(o.ratingCount)
    ensures app.aggregateRating.Some? ==> app.aggregateRating.value == Rating(o.rating.value, o.ratingCount.value)
  {
    app := AppSchema(o.name, o.description, SiteUrl + "/crx/" + Show(o.itemId), SiteUrl + "/detail/" + Show(o.itemId),
                     None, None, None);
    if Truthy(o.author) {
      app := app.(author := o.author);
    }
    if Truthy(o.version) {
      app := app.(softwareVersion := o.version);
    }
    if TruthyNumber(o.rating) && TruthyNumber(o.ratingCount) {
      app := app.(aggregateRating := Some(Rating(o.rating.value, o.ratingCount.value)));
    }
  }

  /** `generateWebApplicationSchema(options)` */
  function WebApplication(o: SchemaOptions): Schema {
    WebApplicationSchema(o.name.GetOr(SiteName), o.description.GetOr(DefaultDescription), o.url.GetOr(SiteUrl))
  }

  datatype Crumb = Crumb(name: string, url: string)

  /** `breadcrumbs.map((crumb, index) => ...)`: list items numbered from 1. */
  function BreadcrumbItems(crumbs: seq<Crumb>): (items: seq<ListItem>)
    ensures |items| == |crumbs|
    ensures forall k :: 0 <= k < |items| ==> items[k] == ListItem(k + 1, crumbs[k].name, crumbs[k].url)
    decreases |crumbs|
  {
    if |crumbs| == 0 then []
    else
      var n := |crumbs|;
      var init := BreadcrumbItems(crumbs[..n - 1]);
      init + [ListItem(n, crumbs[n - 1].name, crumbs[n - 1].url)]
  }

  /** `generateBreadcrumbSchema(breadcrumbs)`: nothing for an empty list. */
  function BreadcrumbSchema(crumbs: seq<Crumb>): (r: Option<Schema>)
    ensures r.None? <==> |crumbs| == 0
    ensures r.Some? ==> r.value.BreadcrumbListSchema? && |r.value.itemListElement| == |crumbs|
  {
    if |crumbs| == 0 then None else Some(BreadcrumbListSchema(BreadcrumbItems(crumbs)))
  }

  /** Breadcrumb positions run 1, 2, ..., n in list order. */
  lemma BreadcrumbPositions(crumbs: seq<Crumb>, i: nat, j: nat)
    requires i < j < |crumbs|
    ensures var items := BreadcrumbItems(crumbs);
            items[0].position == 1 && items[|items| - 1].position == |crumbs| &&
            items[i].position < items[j].position
  {
  }

  // ---------------------------------------------------------------------------
  // `generateCompleteSEO`

  /**
   * The records `generateCompleteSEO` emits for the structured-data type
   * `kind`: one record chosen by `kind` (none for an unknown kind), then the
   * breadcrumb record of `crumbs` when there are any.
   */
  predicate StructuredDataFor(data: seq<Schema>, kind: string, options: SchemaOptions, crumbs: seq<Crumb>) {
    var chosen := if kind == "web" || kind == "app" || kind == "webapp" then 1 else 0;
    |data| == chosen + (if |crumbs| > 0 then 1 else 0) &&
    (kind == "web" ==> data[0] == WebSiteSchema) &&
    (kind == "app" ==> data[0].SoftwareApplicationSchema? && ApplicationRecord(data[0].app, options)) &&
    (kind == "webapp" ==> data[0] == WebApplication(options)) &&
    (|crumbs| > 0 ==> data[|data| - 1] == BreadcrumbListSchema(BreadcrumbItems(crumbs)))
  }

  /**
   * The `structuredData` accumulation of `generateCompleteSEO`: `'web'` (the
   * default) selects the site record, `'app'` the software-application
   * record, `'webapp'` the web-application record, anything else none; a
   * breadcrumb record follows when breadcrumbs are given.
   */
  method StructuredData(kind: string, options: SchemaOptions, breadcrumbs: seq<Crumb>) returns (data: seq<Schema>)
    ensures var chosen := if kind == "web" || kind == "app" || kind == "webapp" then 1 else 0;
            |data| == chosen + (if |breadcrumbs| > 0 then 1 else 0)
    ensures |data| <= 2
    ensures kind == "web" ==> |data| >= 1 && data[0] == WebSiteSchema
    ensures kind == "app" ==> data[0].SoftwareApplicationSchema? && data[0].app.downloadUrl == SiteUrl + "/crx/" + Show(options.itemId)
    ensures kind == "app" ==> data[0].SoftwareApplicationSchema? && ApplicationRecord(data[0].app, options)
    ensures kind == "webapp" ==> data[0] == WebApplication(options)
    ensures |breadcrumbs| > 0 ==> data[|data| - 1] == BreadcrumbListSchema(BreadcrumbItems(breadcrumbs))
  {
    data := [];
    if kind == "web" {
      data := [WebSiteSchema];
    } else if kind == "app" {
      var app := SoftwareApplication(options);
      data := [SoftwareApplicationSchema(app)];
    } else if kind == "webapp" {
      data := [WebApplication(options)];
    }
    if |breadcrumbs| > 0 {
      data := data + [BreadcrumbListSchema(BreadcrumbItems(breadcrumbs))];
    }
  }

  datatype SeoOptions = SeoOptions(
    title: Option<string>, description: Option<string>, keywords: Option<string>, canonical: Option<string>,
    url: Option<string>, image: Option<string>, ogType: Option<string>, robots: Option<string>,
    structuredDataType: Option<string>, structuredDataOptions: SchemaOptions, breadcrumbs: seq<Crumb>)

  /** Everything a page head receives: three tag sets and the structured-data records in order. */
  datatype SeoPackage = SeoPackage(meta: seq<Tag>, openGraph: seq<Tag>, twitter: seq<Tag>, structuredData: seq<Schema>)

  /** The options `generateCompleteSEO` passes on to each tag generator. */
  function MetaOptionsOf(o: SeoOptions): MetaOptions {
    MetaOptions(o.description, o.keywords, o.robots, o.canonical, None)
  }

  function OpenGraphOptionsOf(o: SeoOptions): OpenGraphOptions {
    OpenGraphOptions(o.title, o.description, o.image, o.url, o.ogType, None)
  }

  function TwitterOptionsOf(o: SeoOptions): TwitterOptions {
    TwitterOptions(o.title, o.description, o.image, None, None)
  }

  /** `generateCompleteSEO(options)` */
  method CompleteSeo(o: SeoOptions) returns (page: SeoPackage)
    ensures page.meta == MetaTags(MetaOptionsOf(o))
    ensures page.openGraph == OpenGraphTags(OpenGraphOptionsOf(o))
    ensures page.twitter == TwitterCardTags(TwitterOptionsOf(o))
    ensures o.structuredDataType.None? ==> |page.structuredData| >= 1 && page.structuredData[0] == WebSiteSchema
    ensures |page.structuredData| <= 2
    ensures StructuredDataFor(page.structuredData, o.structuredDataType.GetOr("web"), o.structuredDataOptions, o.breadcrumbs)
  {
    var kind := o.structuredDataType.GetOr("web");
    var data := StructuredData(kind, o.structuredDataOptions, o.breadcrumbs);
    page := SeoPackage(MetaTags(MetaOptionsOf(o)), OpenGraphTags(OpenGraphOptionsOf(o)),
                       TwitterCardTags(TwitterOptionsOf(o)), data);
  }

  /** The complete package always names the mirror's Twitter handle: callers cannot pass another. */
  lemma CompleteTwitterSite(o: SeoOptions)
    ensures NameMeta("twitter:site", EscapeHtml(TwitterHandle)) in TwitterCardTags(TwitterOptionsOf(o))
  {
    assert TwitterCardTags(TwitterOptionsOf(o))[4] == NameMeta("twitter:site", EscapeHtml(TwitterHandle));
  }

  /** The complete package always names the default author: callers cannot pass another. */
  lemma CompleteAuthor(o: SeoOptions)
    ensures NameMeta("author", EscapeHtml(DefaultAuthor)) in MetaTags(MetaOptionsOf(o))
  {
    assert MetaTags(MetaOptionsOf(o))[5] == NameMeta("author", EscapeHtml(DefaultAuthor));
  }
}
