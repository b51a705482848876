/**
 * `handleSitemap`: the XML sitemap of the mirror, listing the home and search
 * pages and one detail page per catalog item that has an `itemId`, among the
 * first 5000 catalog items.
 */
module Sitemap {
  import opened Builtins
  import opened Http
  import opened Catalog

  /** `escapeXml(text)`: the entity map of `escapeHtml`, with `&apos;` for the apostrophe. */
  function EscapeXml(text: string): string {
    Escape(text, "&apos;")
  }

  /** `escapeXml` returns "" for an empty text, and decoding its output gives the text back. */
  lemma EscapeXmlRoundTrip(text: string)
    ensures EscapeXml("") == ""
    ensures Unescape(EscapeXml(text), "&apos;") == text
  {
    UnescapeEscape(text, "&apos;");
  }

  /** The arguments of one `generateUrlEntry` call. */
  datatype UrlEntry = UrlEntry(loc: string, lastmod: string, changefreq: string, priority: string)

  const EntryHead: string := "\n  <url>\n    <loc>"

  function LastmodElement(lastmod: string): string {
    if lastmod != "" then "<lastmod>" + lastmod + "</lastmod>" else ""
  }

  /** What follows the location: its closing tag, the optional date, frequency and priority. */
  function EntryRest(e: UrlEntry): string {
    "</loc>\n    " + (LastmodElement(e.lastmod) + EntryTail(e))
  }

  function EntryTail(e: UrlEntry): string {
    "\n    <changefreq>" + e.changefreq + "</changefreq>\n    <priority>" + e.priority + "</priority>\n  </url>"
  }

  /** `generateUrlEntry(loc, lastmod, changefreq, priority)` */
  function GenerateUrlEntry(e: UrlEntry): string {
    EntryHead + EscapeXml(e.loc) + EntryRest(e)
  }

  /**
   * The location is written escaped: it runs from the element start to the
   * first `<`, where `</loc>` follows, and decodes back to `loc`.
   */
  lemma EntryLocation(e: UrlEntry)
    ensures var g := GenerateUrlEntry(e);
            var n := |EscapeXml(e.loc)|;
            |EntryHead| + n + 6 <= |g| && g[..|EntryHead|] == EntryHead &&
            (forall k :: |EntryHead| <= k < |EntryHead| + n ==> g[k] != '<') &&
            g[|EntryHead| + n..|EntryHead| + n + 6] == "</loc>" &&
            Unescape(g[|EntryHead|..|EntryHead| + n], "&apos;") == e.loc
  {
    var x := EscapeXml(e.loc);
    var rest := EntryRest(e);
    var h := |EntryHead|;
    var g := EntryHead + x + rest;
    SliceParts(EntryHead, x, rest);
    RestStartsWithClose(e);
    assert g[h + |x|..h + |x| + 6] == rest[..6] by {
      assert g[h + |x|..][..6] == rest[..6];
    }
    EscapeRemovesSpecials(e.loc, "&apos;");
    SliceElements(g, h, x);
    EscapeXmlRoundTrip(e.loc);
  }

  lemma RestStartsWithClose(e: UrlEntry)
    ensures |EntryRest(e)| >= 6 && EntryRest(e)[..6] == "</loc>"
  {
    StartsWithAppend("</loc>", "\n    " + (LastmodElement(e.lastmod) + EntryTail(e)));
  }

  /** Where the optional date goes: right after `</loc>` and the line break that follows it. */
  lemma AfterLocation(e: UrlEntry)
    ensures var g := GenerateUrlEntry(e);
            var m := |EntryHead| + |EscapeXml(e.loc)| + 11;
            m <= |g| && g[m..] == LastmodElement(e.lastmod) + EntryTail(e)
  {
    var g := GenerateUrlEntry(e);
    var after := LastmodElement(e.lastmod) + EntryTail(e);
    assert g == (EntryHead + EscapeXml(e.loc) + "</loc>\n    ") + after;
  }

  /** A `<lastmod>` element follows the location exactly when a date is given. */
  lemma LastmodIffGiven(e: UrlEntry)
    ensures var g := GenerateUrlEntry(e);
            var m := |EntryHead| + |EscapeXml(e.loc)| + 11;
            m <= |g| && (StartsWith(g[m..], "<lastmod>") <==> e.lastmod != "")
  {
    AfterLocation(e);
    var after := LastmodElement(e.lastmod) + EntryTail(e);
    if e.lastmod == "" {
      assert after[0] == '\n';
    } else {
      assert after == "<lastmod>" + (e.lastmod + "</lastmod>" + EntryTail(e));
      StartsWithAppend("<lastmod>", e.lastmod + "</lastmod>" + EntryTail(e));
    }
  }

  // ---------------------------------------------------------------------------
  // Entry selection

  /** `maxExtensions` */
  const MaxExtensions: nat := 5000

  /** The home page and the search page, both daily with priority 1.0. */
  function MainEntries(base: string, today: string): seq<UrlEntry> {
    [UrlEntry(base, today, "daily", "1.0"), UrlEntry(base + "/search", today, "daily", "1.0")]
  }

  /** The entry one item contributes: its detail page when `item.itemId` is truthy. */
  function ItemEntry(base: string, today: string, item: Item): seq<UrlEntry> {
    if Truthy(item.itemId) then [UrlEntry(base + "/detail/" + item.itemId.value, today, "weekly", "0.8")] else []
  }

  /** The entries of a run of items, in catalog order. */
  function DetailEntries(base: string, today: string, items: seq<Item>): seq<UrlEntry>
    decreases |items|
  {
    if |items| == 0 then []
    else DetailEntries(base, today, items[..|items| - 1]) + ItemEntry(base, today, items[|items| - 1])
  }

  /** `items.slice(0, maxExtensions)` */
  function Included(items: seq<Item>): seq<Item> {
    if |items| <= MaxExtensions then items else items[..MaxExtensions]
  }

  /** The entries of the sitemap; `items` is None when reading the catalog threw. */
  function SitemapEntries(base: string, today: string, items: Option<seq<Item>>): seq<UrlEntry> {
    MainEntries(base, today) + if items.Some? then DetailEntries(base, today, Included(items.value)) else []
  }

  function RenderEntries(entries: seq<UrlEntry>): string
    decreases |entries|
  {
    if |entries| == 0 then ""
    else RenderEntries(entries[..|entries| - 1]) + GenerateUrlEntry(entries[|entries| - 1])
  }

  lemma RenderEntriesSnoc(entries: seq<UrlEntry>, e: UrlEntry)
    ensures RenderEntries(entries + [e]) == RenderEntries(entries) + GenerateUrlEntry(e)
  {
    assert (entries + [e])[..|entries|] == entries;
  }

  /** One more item adds its entry's text, if it has one, to the rendering. */
  lemma RenderStep(base: string, today: string, included: seq<Item>, i: nat)
    requires i < |included|
    ensures RenderEntries(MainEntries(base, today) + DetailEntries(base, today, included[..i + 1]))
         == RenderEntries(MainEntries(base, today) + DetailEntries(base, today, included[..i]))
            + if Truthy(included[i].itemId)
              then GenerateUrlEntry(UrlEntry(base + "/detail/" + included[i].itemId.value, today, "weekly", "0.8"))
              else ""
  {
    var main := MainEntries(base, today);
    var prefix := included[..i];
    var item := included[i];
    TakeOneMore(included, i);
    var d := DetailEntries(base, today, prefix);
    assert (prefix + [item])[..|prefix|] == prefix;
    assert DetailEntries(base, today, prefix + [item]) == d + ItemEntry(base, today, item);
    if Truthy(item.itemId) {
      var entry := ItemEntry(base, today, item)[0];
      assert main + (d + [entry]) == (main + d) + [entry];
      RenderEntriesSnoc(main + d, entry);
    } else {
      assert main + (d + []) == main + d;
    }
  }

  /** Before the loop, no item has been rendered. */
  lemma RenderNoItems(base: string, today: string, included: seq<Item>)
    ensures RenderEntries(MainEntries(base, today) + DetailEntries(base, today, included[..0]))
         == RenderEntries(MainEntries(base, today))
  {
    assert MainEntries(base, today) + DetailEntries(base, today, included[..0]) == MainEntries(base, today);
  }

  lemma RenderMain(base: string, today: string)
    ensures RenderEntries(MainEntries(base, today))
         == "" + GenerateUrlEntry(UrlEntry(base, today, "daily", "1.0"))
            + GenerateUrlEntry(UrlEntry(base + "/search", today, "daily", "1.0"))
  {
    var main := MainEntries(base, today);
    RenderEntriesSnoc([], main[0]);
    RenderEntriesSnoc([main[0]], main[1]);
    assert [main[0]] + [main[1]] == main;
  }

  /**
   * The `urlEntries +=` accumulation of `handleSitemap`: the two main entries,
   * then one entry per included item that has an `itemId`.
   */
  method BuildUrlEntries(base: string, today: string, items: Option<seq<Item>>) returns (urlEntries: string)
    ensures urlEntries == RenderEntries(SitemapEntries(base, today, items))
  {
    urlEntries := "";
    urlEntries := urlEntries + GenerateUrlEntry(UrlEntry(base, today, "daily", "1.0"));
    urlEntries := urlEntries + GenerateUrlEntry(UrlEntry(base + "/search", today, "daily", "1.0"));
    RenderMain(base, today);
    if items.Some? {
      urlEntries := AppendItemEntries(base, today, Included(items.value), urlEntries);
    }
  }

  /** The loop over the included items, appending to the text of the main entries. */
  method AppendItemEntries(base: string, today: string, included: seq<Item>, start: string)
    returns (urlEntries: string)
    requires start == RenderEntries(MainEntries(base, today))
    ensures urlEntries == RenderEntries(MainEntries(base, today) + DetailEntries(base, today, included))
  {
    urlEntries := start;
    RenderNoItems(base, today, included);
    for i := 0 to |included|
      invariant urlEntries == RenderEntries(MainEntries(base, today) + DetailEntries(base, today, included[..i]))
    {
      var item := included[i];
      RenderStep(base, today, included, i);
      if Truthy(item.itemId) {
        var detailUrl := base + "/detail/" + item.itemId.value;
        urlEntries := urlEntries + GenerateUrlEntry(UrlEntry(detailUrl, today, "weekly", "0.8"));
      }
    }
    assert included[..|included|] == included;
  }

  /** The XML declaration and the opening `urlset` element with its namespaces. */
  const UrlsetOpen: string :=
    "<?xml version=\"1.0\" encoding=\"UTF-8\"?>\n<urlset xmlns=\"http://www.sitemaps.org/schemas/sitemap/0.9\"\n"
    + "        xmlns:xsi=\"http://www.w3.org/2001/XMLSchema-instance\"\n"
    + "        xsi:schemaLocation=\"http://www.sitemaps.org/schemas/sitemap/0.9\n"
    + "        http://www.sitemaps.org/schemas/sitemap/0.9/sitemap.xsd\">\n"

  /** The XML document around the entries. */
  function SitemapXml(urlEntries: string): string {
    UrlsetOpen + urlEntries + "\n</urlset>"
  }

  /** The sitemap response, cacheable for an hour. */
  function SitemapResponse(urlEntries: string): (r: Response)
    ensures r.status == 200 && r.body == Text(SitemapXml(urlEntries))
    ensures HeaderGet(r.headers, "content-type") == Some("application/xml;charset=UTF-8")
  {
    Response(200, "",
             map["cache-control" := "public, max-age=3600", "x-content-type-options" := "nosniff",
                 "content-type" := "application/xml;charset=UTF-8"],
             Text(SitemapXml(urlEntries)))
  }

  /** `handleSitemap(request)` for the worker origin `base` on the date `today`. */
  function HandleSitemap(base: string, today: string, items: Option<seq<Item>>): Response {
    SitemapResponse(RenderEntries(SitemapEntries(base, today, items)))
  }

  // ---------------------------------------------------------------------------
  // Properties of the selection

  /**
   * The home and search pages always come first; when the catalog could not
   * be read they are all there is.
   */
  lemma MainEntriesFirst(base: string, today: string, items: Option<seq<Item>>)
    ensures var es := SitemapEntries(base, today, items);
            |es| >= 2 && es[0] == UrlEntry(base, today, "daily", "1.0") &&
            es[1] == UrlEntry(base + "/search", today, "daily", "1.0") &&
            (items.None? ==> |es| == 2)
  {
  }

  lemma {:induction false} DetailEntriesAtMostOnePerItem(base: string, today: string, items: seq<Item>)
    ensures |DetailEntries(base, today, items)| <= |items|
    decreases |items|
  {
    if |items| > 0 {
      DetailEntriesAtMostOnePerItem(base, today, items[..|items| - 1]);
    }
  }

  /** At most 5002 entries, however large the catalog. */
  lemma SitemapBound(base: string, today: string, items: Option<seq<Item>>)
    ensures |SitemapEntries(base, today, items)| <= 2 + MaxExtensions
  {
    if items.Some? {
      DetailEntriesAtMostOnePerItem(base, today, Included(items.value));
    }
  }

  /** Items past the first 5000 never reach the sitemap. */
  lemma CapIgnoresRest(base: string, today: string, items: seq<Item>, more: seq<Item>)
    requires |items| >= MaxExtensions
    ensures SitemapEntries(base, today, Some(items + more)) == SitemapEntries(base, today, Some(items))
  {
    assert (items + more)[..MaxExtensions] == items[..MaxExtensions];
    assert Included(items + more) == Included(items);
  }

  /** Entries follow catalog order: the entries of a concatenation are the concatenated entries. */
  lemma {:induction false} DetailEntriesConcat(base: string, today: string, a: seq<Item>, b: seq<Item>)
    ensures DetailEntries(base, today, a + b) == DetailEntries(base, today, a) + DetailEntries(base, today, b)
    decreases |b|
  {
    if |b| == 0 {
      assert a + b == a;
    } else {
      var b' := b[..|b| - 1];
      assert (a + b)[..|a + b| - 1] == a + b';
      DetailEntriesConcat(base, today, a, b');
    }
  }

  /** Every detail entry is the detail page of an item that has an `itemId`. */
  lemma {:induction false} DetailEntriesSound(base: string, today: string, items: seq<Item>, k: nat)
    requires k < |DetailEntries(base, today, items)|
    ensures exists j :: 0 <= j < |items| && Truthy(items[j].itemId) &&
              DetailEntries(base, today, items)[k] == UrlEntry(base + "/detail/" + items[j].itemId.value, today, "weekly", "0.8")
    decreases |items|
  {
    var init := items[..|items| - 1];
    var last := |items| - 1;
    if k < |DetailEntries(base, today, init)| {
      DetailEntriesSound(base, today, init, k);
      var j :| 0 <= j < |init| && Truthy(init[j].itemId) &&
               DetailEntries(base, today, init)[k] == UrlEntry(base + "/detail/" + init[j].itemId.value, today, "weekly", "0.8");
      assert items[j] == init[j];
    } else {
      assert Truthy(items[last].itemId);
    }
  }

  /** Every item that has an `itemId` gets its detail entry. */
  lemma {:induction false} DetailEntriesComplete(base: string, today: string, items: seq<Item>, j: nat)
    requires j < |items| && Truthy(items[j].itemId)
    ensures UrlEntry(base + "/detail/" + items[j].itemId.value, today, "weekly", "0.8") in DetailEntries(base, today, items)
    decreases |items|
  {
    var init := items[..|items| - 1];
    if j < |items| - 1 {
      assert items[j] == init[j];
      DetailEntriesComplete(base, today, init, j);
    }
  }

  /** A catalog whose items carry no `itemId` (items keyed by `id` only) adds no detail entry. */
  lemma {:induction false} NoItemIdNoEntries(base: string, today: string, items: seq<Item>)
    requires forall j :: 0 <= j < |items| ==> !Truthy(items[j].itemId)
    ensures DetailEntries(base, today, items) == []
    decreases |items|
  {
    if |items| > 0 {
      NoItemIdNoEntries(base, today, items[..|items| - 1]);
    }
  }
}
