/** `SitemapController`: the XML sitemaps. Every page is listed once per
    locale, Arabic first, with hreflang alternates for both locales and an
    `x-default` that points to the Arabic page. The application URL and the
    current time (already in W3C form) are parameters. */
module Sitemap {
  import opened Wrappers
  import opened PhpText

  const Locales: seq<string> := ["ar", "en"]

  const Declaration: string := "<?xml version=\"1.0\" encoding=\"UTF-8\"?>"
  const UrlSetOpen: string :=
    "<urlset xmlns=\"http://www.sitemaps.org/schemas/sitemap/0.9\" xmlns:xhtml=\"http://www.w3.org/1999/xhtml\">"
  const UrlSetClose: string := "</urlset>"

  /** One page: `url`, `priority`, `changefreq` and the optional `lastmod`
      (null when the row has no `updated_at`). */
  datatype Page = Page(url: string, priority: string, changefreq: string, lastmod: Option<string>)

  /** The address of a page in one locale. */
  function LocalizedUrl(base: string, locale: string, page: Page): string {
    base + "/" + locale + page.url
  }

  function Alternate(base: string, locale: string, page: Page): string {
    "<xhtml:link rel=\"alternate\" hreflang=\"" + locale + "\" href=\"" + HtmlEscape(LocalizedUrl(base, locale, page)) + "\"/>"
  }

  function XDefault(base: string, page: Page): string {
    "<xhtml:link rel=\"alternate\" hreflang=\"x-default\" href=\"" + HtmlEscape(LocalizedUrl(base, "ar", page)) + "\"/>"
  }

  const UrlOpen: string := "<url>"
  const UrlClose: string := "</url>"

  function Loc(base: string, locale: string, page: Page): string {
    "<loc>" + HtmlEscape(LocalizedUrl(base, locale, page)) + "</loc>"
  }

  function ChangeFreq(page: Page): string {
    "<changefreq>" + page.changefreq + "</changefreq>"
  }

  function Priority(page: Page): string {
    "<priority>" + page.priority + "</priority>"
  }

  function LastMod(page: Page): string {
    if page.lastmod.Some? then "<lastmod>" + page.lastmod.value + "</lastmod>" else ""
  }

  /** The parts of one `<url>` element, in output order. */
  function UrlParts(base: string, page: Page, locale: string): seq<string> {
    [UrlOpen, Loc(base, locale, page), Alternate(base, "ar", page), Alternate(base, "en", page),
     XDefault(base, page), LastMod(page), ChangeFreq(page), Priority(page), UrlClose]
  }

  /** Concatenation of a list of strings. */
  function Concat(parts: seq<string>): string {
    if parts == [] then "" else Concat(parts[..|parts| - 1]) + parts[|parts| - 1]
  }

  function UrlXml(base: string, page: Page, locale: string): string {
    Concat(UrlParts(base, page, locale))
  }

  /** The `<url>` elements of the pages: one per page and locale, the locales
      of a page together and in the order ar, en. */
  function UrlEntries(base: string, pages: seq<Page>): (r: seq<string>)
    ensures |r| == 2 * |pages|
    ensures forall i :: 0 <= i < |pages| ==>
      r[2 * i] == UrlXml(base, pages[i], "ar") && r[2 * i + 1] == UrlXml(base, pages[i], "en")
  {
    if pages == [] then []
    else
      var init := UrlEntries(base, pages[..|pages| - 1]);
      var r := init + [UrlXml(base, pages[|pages| - 1], "ar"), UrlXml(base, pages[|pages| - 1], "en")];
      assert forall i :: 0 <= i < |pages| - 1 ==> pages[..|pages| - 1][i] == pages[i];
      r
  }

  /** The whole document `generateUrlSet` returns. */
  function UrlSet(base: string, pages: seq<Page>): string {
    Declaration + UrlSetOpen + Concat(UrlEntries(base, pages)) + UrlSetClose
  }

  /** The document opens with the XML declaration and `<urlset …>` and
      closes with `</urlset>`. */
  lemma UrlSetFrame(base: string, pages: seq<Page>)
    ensures StartsWith(UrlSet(base, pages), Declaration + UrlSetOpen)
    ensures |UrlSet(base, pages)| >= |UrlSetClose|
    ensures UrlSet(base, pages)[|UrlSet(base, pages)| - |UrlSetClose|..] == UrlSetClose
  {
    var body := Concat(UrlEntries(base, pages));
    var doc := UrlSet(base, pages);
    assert doc == (Declaration + UrlSetOpen) + (body + UrlSetClose);
    assert doc == (Declaration + UrlSetOpen + body) + UrlSetClose;
  }

  /** The `<loc>` of a page, read back, is the base URL, a slash, the locale
      and the page's path. */
  lemma LocReadsBack(base: string, page: Page, locale: string)
    ensures HtmlUnescape(HtmlEscape(LocalizedUrl(base, locale, page))) == base + "/" + locale + page.url
    ensures forall i :: 0 <= i < |HtmlEscape(LocalizedUrl(base, locale, page))| ==>
      !IsMarkup(HtmlEscape(LocalizedUrl(base, locale, page))[i])
  {
    HtmlEscapeRoundTrip(LocalizedUrl(base, locale, page));
    HtmlEscapeNoMarkup(LocalizedUrl(base, locale, page));
  }

  /** `<lastmod>` is written exactly for a page that has one. */
  lemma LastModOnlyWhenSet(page: Page)
    ensures LastMod(page) == "" <==> page.lastmod.None?
  {
    if page.lastmod.Some? {
      assert LastMod(page)[0] == '<';
    }
  }

  lemma {:induction false} ConcatSnoc(parts: seq<string>, x: string)
    ensures Concat(parts + [x]) == Concat(parts) + x
  {
    assert (parts + [x])[..|parts|] == parts;
  }

  /** One more part appended to a concatenation of the first `k` parts. */
  lemma SnocStep(r: string, prefix: string, parts: seq<string>, k: nat)
    requires k < |parts| && r == prefix + Concat(parts[..k])
    ensures r + parts[k] == prefix + Concat(parts[..k + 1])
  {
    assert parts[..k + 1] == parts[..k] + [parts[k]];
    ConcatSnoc(parts[..k], parts[k]);
  }

  /** The inner loop: one `hreflang` alternate per locale. */
  method AppendAlternates(xml: string, base: string, page: Page) returns (r: string)
    ensures r == xml + Alternate(base, "ar", page) + Alternate(base, "en", page)
  {
    var links := [Alternate(base, "ar", page), Alternate(base, "en", page)];
    assert links[..0] == [];
    r := xml;
    var k := 0;
    while k < |Locales|
      invariant k <= |Locales|
      invariant r == xml + Concat(links[..k])
    {
      SnocStep(r, xml, links, k);
      r := r + Alternate(base, Locales[k], page);
      k := k + 1;
    }
    assert links[..2] == links;
    ConcatPair(links[0], links[1]);
  }

  lemma ConcatPair(a: string, b: string)
    ensures Concat([a, b]) == a + b
  {
    assert [a, b][..1] == [a];
    assert [a][..0] == [];
    assert Concat([a]) == Concat([]) + a;
    assert Concat([a, b]) == Concat([a]) + b;
  }

  /** The first four of some parts appended one by one. */
  lemma ConcatHead(prefix: string, parts: seq<string>)
    requires |parts| >= 4
    ensures prefix + parts[0] + parts[1] + parts[2] + parts[3] == prefix + Concat(parts[..4])
  {
    assert parts[..0] == [];
    SnocStep(prefix, prefix, parts, 0);
    SnocStep(prefix + parts[0], prefix, parts, 1);
    SnocStep(prefix + parts[0] + parts[1], prefix, parts, 2);
    SnocStep(prefix + parts[0] + parts[1] + parts[2], prefix, parts, 3);
  }

  /** The last five of nine parts appended one by one. */
  lemma ConcatTail(r: string, prefix: string, parts: seq<string>)
    requires |parts| == 9 && r == prefix + Concat(parts[..4])
    ensures r + parts[4] + parts[5] + parts[6] + parts[7] + parts[8] == prefix + Concat(parts)
  {
    SnocStep(r, prefix, parts, 4);
    SnocStep(r + parts[4], prefix, parts, 5);
    SnocStep(r + parts[4] + parts[5], prefix, parts, 6);
    SnocStep(r + parts[4] + parts[5] + parts[6], prefix, parts, 7);
    SnocStep(r + parts[4] + parts[5] + parts[6] + parts[7], prefix, parts, 8);
    assert parts[..9] == parts;
  }

  /** The opening of one `<url>` element: the tag, its `<loc>` and the
      alternates. */
  method AppendUrlHead(xml: string, base: string, page: Page, locale: string) returns (r: string)
    ensures r == xml + Concat(UrlParts(base, page, locale)[..4])
  {
    r := xml + UrlOpen;
    r := r + Loc(base, locale, page);
    r := AppendAlternates(r, base, page);
    ConcatHead(xml, UrlParts(base, page, locale));
  }

  /** Appends one `<url>` element. */
  method AppendUrl(xml: string, base: string, page: Page, locale: string) returns (r: string)
    ensures r == xml + UrlXml(base, page, locale)
  {
    var parts := UrlParts(base, page, locale);
    r := AppendUrlHead(xml, base, page, locale);
    ConcatTail(r, xml, parts);
    r := r + XDefault(base, page);
    r := r + LastMod(page);
    r := r + ChangeFreq(page);
    r := r + Priority(page);
    r := r + UrlClose;
  }

  /** `generateUrlSet`: the nested loops over pages and locales. */
  method GenerateUrlSet(base: string, pages: seq<Page>) returns (xml: string)
    ensures xml == UrlSet(base, pages)
  {
    var entries := UrlEntries(base, pages);
    var prefix := Declaration + UrlSetOpen;
    xml := prefix;
    assert entries[..0] == [];
    var i := 0;
    while i < |pages|
      invariant i <= |pages|
      invariant xml == prefix + Concat(entries[..2 * i])
    {
      SnocStep(xml, prefix, entries, 2 * i);
      xml := AppendUrl(xml, base, pages[i], Locales[0]);
      SnocStep(xml, prefix, entries, 2 * i + 1);
      xml := AppendUrl(xml, base, pages[i], Locales[1]);
      i := i + 1;
    }
    assert entries[..2 * i] == entries;
    xml := xml + UrlSetClose;
  }

  // ---- the page lists ----

  /** The fixed pages of `sitemap-static.xml`. */
  const StaticPages: seq<Page> := [
    Page("/", "1.0", "daily", None), Page("/predictions", "0.9", "hourly", None),
    Page("/markets", "0.8", "daily", None), Page("/sectors", "0.8", "daily", None),
    Page("/search", "0.7", "weekly", None), Page("/about", "0.5", "monthly", None),
    Page("/faq", "0.5", "monthly", None), Page("/methodology", "0.5", "monthly", None),
    Page("/privacy", "0.3", "yearly", None), Page("/terms", "0.3", "yearly", None),
    Page("/contact", "0.4", "monthly", None)]

  /** A row with its path segment and its `updated_at` in W3C form. */
  datatype Row = Row(segment: string, updatedAt: Option<string>)

  /** Pages under a prefix (`/markets/` with priority 0.8, `/sectors/` with
      0.7, `/assets/` with 0.6), one per row, daily. */
  function RowPages(rows: seq<Row>, prefix: string, priority: string): (r: seq<Page>)
    ensures |r| == |rows|
    ensures forall i :: 0 <= i < |rows| ==>
      r[i] == Page(prefix + rows[i].segment, priority, "daily", rows[i].updatedAt)
  {
    seq(|rows|, i requires 0 <= i < |rows| => Page(prefix + rows[i].segment, priority, "daily", rows[i].updatedAt))
  }

  function MarketPages(markets: seq<Row>): seq<Page> { RowPages(markets, "/markets/", "0.8") }
  function SectorPages(sectors: seq<Row>): seq<Page> { RowPages(sectors, "/sectors/", "0.7") }
  /** Only active assets are listed; the caller passes those. */
  function AssetPages(assets: seq<Row>): seq<Page> { RowPages(assets, "/assets/", "0.6") }

  // ---- the index ----

  const SitemapPaths: seq<string> :=
    ["/sitemap-static.xml", "/sitemap-markets.xml", "/sitemap-sectors.xml", "/sitemap-assets.xml"]

  function SitemapEntry(base: string, path: string, now: string): string {
    Concat(SitemapParts(base, path, now))
  }

  /** The parts of one `<sitemap>` element, in output order. */
  function SitemapParts(base: string, path: string, now: string): seq<string> {
    ["<sitemap>", "<loc>" + base + path + "</loc>", "<lastmod>" + now + "</lastmod>", "</sitemap>"]
  }

  /** The `<sitemap>` entries of the index, one per listed sitemap. */
  function IndexEntries(base: string, now: string): (r: seq<string>)
    ensures |r| == 4
    ensures forall i :: 0 <= i < 4 ==> r[i] == SitemapEntry(base, SitemapPaths[i], now)
  {
    seq(4, i requires 0 <= i < 4 => SitemapEntry(base, SitemapPaths[i], now))
  }

  const IndexOpen: string := "<sitemapindex xmlns=\"http://www.sitemaps.org/schemas/sitemap/0.9\">"

  /** `index`: the loop over the four sitemaps. */
  method Index(base: string, now: string) returns (xml: string)
    ensures xml == Declaration + IndexOpen + Concat(IndexEntries(base, now)) + "</sitemapindex>"
  {
    var entries := IndexEntries(base, now);
    xml := Declaration + IndexOpen;
    var k := 0;
    while k < |SitemapPaths|
      invariant k <= |SitemapPaths|
      invariant xml == Declaration + IndexOpen + Concat(entries[..k])
    {
      var start := xml;
      xml := xml + "<sitemap>";
      xml := xml + ("<loc>" + base + SitemapPaths[k] + "</loc>");
      xml := xml + ("<lastmod>" + now + "</lastmod>");
      xml := xml + "</sitemap>";
      var parts := SitemapParts(base, SitemapPaths[k], now);
      ConcatHead(start, parts);
      assert parts[..4] == parts;
      SnocStep(start, Declaration + IndexOpen, entries, k);
      k := k + 1;
    }
    assert entries[..4] == entries;
    xml := xml + "</sitemapindex>";
  }
}
