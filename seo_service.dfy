/** `SeoService`: the page metadata (title, description, image, Open Graph
    and Twitter tags, hreflang alternates) and the JSON-LD schemas of a page.
    The configuration (`app.name`, `app.url`) and the request (the current
    locale and URL) are passed as an `Env`. */
module SeoService {
  import opened Wrappers
  import opened PhpText

  /** `config('app.name')`, `config('app.url')`, `App::getLocale()` and
      `Request::url()` / `URL::current()`. */
  datatype Env = Env(appName: Option<string>, appUrl: string, locale: string, currentUrl: string)

  /** `config('app.name', 'Horin')`. */
  function SiteName(env: Env): (r: string)
    ensures env.appName.Some? ==> r == env.appName.value
    ensures env.appName.None? ==> r == "Horin"
  {
    env.appName.GetOr("Horin")
  }

  const ArabicDescription: string := "توقعات أسعار الأسهم بالذكاء الاصطناعي لأسواق الشرق الأوسط بما في ذلك مصر والسعودية والإمارات والكويت وقطر والبحرين."
  const EnglishDescription: string := "AI-powered stock price predictions for Middle East markets including Egypt, Saudi Arabia, UAE, Kuwait, Qatar, and Bahrain."

  function DefaultDescription(locale: string): string {
    if locale == "ar" then
      ArabicDescription
    else
      EnglishDescription
  }

  function DefaultImage(env: Env): string {
    env.appUrl + "/og-image.png"
  }

  /** A breadcrumb: its `name` and its optional `url`. */
  datatype Crumb = Crumb(name: string, url: Option<string>)

  /** An element of `itemListElement`. */
  datatype ListItem = ListItem(position: int, name: string, item: Option<string>)

  datatype Schema =
    | Organization(name: string, url: string, logo: string, description: string)
    | WebSite(name: string, url: string, description: string, inLanguage: seq<string>, urlTemplate: string)
    | BreadcrumbList(itemListElement: seq<ListItem>)

  /** The list items of a trail: positions 1, 2, … in order, each with the
      crumb's name and its url or null. */
  function ListItems(crumbs: seq<Crumb>): (r: seq<ListItem>)
    ensures |r| == |crumbs|
    ensures forall i :: 0 <= i < |crumbs| ==> r[i] == ListItem(i + 1, crumbs[i].name, crumbs[i].url)
  {
    seq(|crumbs|, i requires 0 <= i < |crumbs| => ListItem(i + 1, crumbs[i].name, crumbs[i].url))
  }

  /** `getBreadcrumbSchema`: nothing (PHP's `[]`) for an empty trail. */
  function BreadcrumbSchema(crumbs: seq<Crumb>): (r: Option<Schema>)
    ensures r.None? <==> crumbs == []
    ensures r.Some? ==> r.value.BreadcrumbList? && r.value.itemListElement == ListItems(crumbs)
  {
    if crumbs == [] then None else Some(BreadcrumbList(ListItems(crumbs)))
  }

  /** The positions in a breadcrumb list run from 1 without gaps. */
  lemma PositionsConsecutive(crumbs: seq<Crumb>)
    requires crumbs != []
    ensures var items := BreadcrumbSchema(crumbs).value.itemListElement;
      items[0].position == 1 && items[|items| - 1].position == |crumbs| &&
      forall i :: 0 <= i < |items| - 1 ==> items[i + 1].position == items[i].position + 1
  {
  }

  /** `getOrganizationSchema`: the site's name, URL, default image as logo,
      and the default description in the request's language. */
  function OrganizationSchema(env: Env): (r: Schema)
    ensures r.Organization? && r.name == SiteName(env) && r.url == env.appUrl
    ensures r.logo == env.appUrl + "/og-image.png"
    ensures r.description == if env.locale == "ar" then ArabicDescription else EnglishDescription
  {
    Organization(SiteName(env), env.appUrl, DefaultImage(env), DefaultDescription(env.locale))
  }

  /** `getWebsiteSchema`: the site's name, URL and default description, its
      language tag, and a search action under the current locale. */
  function WebsiteSchema(env: Env): (r: Schema)
    ensures r.WebSite? && r.name == SiteName(env) && r.url == env.appUrl
    ensures r.description == if env.locale == "ar" then ArabicDescription else EnglishDescription
    ensures r.inLanguage == [if env.locale == "ar" then "ar-SA" else "en-US"]
    ensures r.urlTemplate == env.appUrl + "/" + env.locale + "/search?q={search_term_string}"
  {
    WebSite(SiteName(env), env.appUrl, DefaultDescription(env.locale),
            [if env.locale == "ar" then "ar-SA" else "en-US"],
            env.appUrl + "/" + env.locale + "/search?q={search_term_string}")
  }

  /** The organization and the website describe the same site, and the
      website's language is the Open Graph locale written with a dash. */
  lemma SchemasAgree(env: Env)
    ensures OrganizationSchema(env).name == WebsiteSchema(env).name
    ensures OrganizationSchema(env).url == WebsiteSchema(env).url
    ensures OrganizationSchema(env).description == WebsiteSchema(env).description
    ensures WebsiteSchema(env).inLanguage == [if OgLocale(env.locale) == "ar_SA" then "ar-SA" else "en-US"]
  {
  }

  /** The Open Graph locale of a request locale. */
  function OgLocale(locale: string): string {
    if locale == "ar" then "ar_SA" else "en_US"
  }

  function OgLocaleAlternate(locale: string): string {
    if locale == "ar" then "en_US" else "ar_SA"
  }

  /** `og:locale` and `og:locale:alternate` are always `ar_SA` and `en_US`
      in one order or the other. */
  lemma OgLocalesDistinct(locale: string)
    ensures OgLocale(locale) != OgLocaleAlternate(locale)
    ensures {OgLocale(locale), OgLocaleAlternate(locale)} == {"ar_SA", "en_US"}
  {
  }

  /** The `preg_replace` of `getAlternateUrls`: a URL that starts with the
      application URL, a slash and the locale `from` has that locale replaced
      by `to`; any other URL is returned unchanged. */
  function Relocalize(url: string, appUrl: string, from: string, to: string): (r: string)
    ensures StartsWith(url, appUrl + "/" + from) ==> StartsWith(r, appUrl + "/" + to)
    ensures !StartsWith(url, appUrl + "/" + from) ==> r == url
  {
    var prefix := appUrl + "/" + from;
    if StartsWith(url, prefix) then appUrl + "/" + to + url[|prefix|..] else url
  }

  /** Replacing a locale in a localized URL keeps the rest of it. */
  lemma RelocalizeLocalized(appUrl: string, from: string, to: string, rest: string)
    ensures Relocalize(appUrl + "/" + from + rest, appUrl, from, to) == appUrl + "/" + to + rest
  {
    var url := appUrl + "/" + from + rest;
    assert url[..|appUrl + "/" + from|] == appUrl + "/" + from;
    assert url[|appUrl + "/" + from|..] == rest;
  }

  /** Switching a localized URL to another locale and back gives it back. */
  lemma RelocalizeRoundTrip(appUrl: string, from: string, to: string, rest: string)
    ensures var there := Relocalize(appUrl + "/" + from + rest, appUrl, from, to);
      Relocalize(there, appUrl, to, from) == appUrl + "/" + from + rest
  {
    RelocalizeLocalized(appUrl, from, to, rest);
    RelocalizeLocalized(appUrl, to, from, rest);
  }

  datatype Alternates = Alternates(ar: string, en: string, xDefault: string)

  /** `getAlternateUrls`. */
  function AlternateUrls(env: Env): (r: Alternates)
    ensures env.locale == "ar" ==> r.ar == env.currentUrl
    ensures env.locale == "en" ==> r.en == env.currentUrl
  {
    var alternateLocale := if env.locale == "ar" then "en" else "ar";
    var alternateUrl := Relocalize(env.currentUrl, env.appUrl, env.locale, alternateLocale);
    Alternates(
      if env.locale == "ar" then env.currentUrl else alternateUrl,
      if env.locale == "en" then env.currentUrl else alternateUrl,
      Relocalize(env.currentUrl, env.appUrl, env.locale, "ar"))
  }

  /** On a page under `app.url/<locale>`, the alternates are the same page
      under `/ar` and `/en`, and `x-default` is the Arabic one. */
  lemma AlternatesOfLocalizedPage(env: Env, rest: string)
    requires env.locale == "ar" || env.locale == "en"
    requires env.currentUrl == env.appUrl + "/" + env.locale + rest
    ensures AlternateUrls(env) == Alternates(env.appUrl + "/ar" + rest, env.appUrl + "/en" + rest, env.appUrl + "/ar" + rest)
  {
    RelocalizeLocalized(env.appUrl, env.locale, "ar", rest);
    RelocalizeLocalized(env.appUrl, env.locale, "en", rest);
    assert env.appUrl + "/" + "ar" + rest == env.appUrl + "/ar" + rest;
    assert env.appUrl + "/" + "en" + rest == env.appUrl + "/en" + rest;
  }

  /** On a page outside `app.url/<locale>`, every alternate is the page
      itself. */
  lemma AlternatesOfOtherPage(env: Env)
    requires !StartsWith(env.currentUrl, env.appUrl + "/" + env.locale)
    ensures AlternateUrls(env) == Alternates(env.currentUrl, env.currentUrl, env.currentUrl)
  {
  }

  class SeoService {
    var title: string
    var description: string
    var image: Option<string>
    var kind: string
    var breadcrumbs: seq<Crumb>

    constructor (env: Env)
      ensures title == SiteName(env) && description == DefaultDescription(env.locale)
      ensures image == None && kind == "website" && breadcrumbs == []
    {
      title := SiteName(env);
      description := DefaultDescription(env.locale);
      image := None;
      kind := "website";
      breadcrumbs := [];
    }

    method SetTitle(t: string) returns (self: SeoService)
      modifies this
      ensures self == this && title == t
      ensures description == old(description) && image == old(image) && kind == old(kind) && breadcrumbs == old(breadcrumbs)
    {
      title := t;
      self := this;
    }

    method SetDescription(d: string) returns (self: SeoService)
      modifies this
      ensures self == this && description == d
      ensures title == old(title) && image == old(image) && kind == old(kind) && breadcrumbs == old(breadcrumbs)
    {
      description := d;
      self := this;
    }

    method SetImage(i: Option<string>) returns (self: SeoService)
      modifies this
      ensures self == this && image == i
      ensures title == old(title) && description == old(description) && kind == old(kind) && breadcrumbs == old(breadcrumbs)
    {
      image := i;
      self := this;
    }

    method SetType(k: string) returns (self: SeoService)
      modifies this
      ensures self == this && kind == k
      ensures title == old(title) && description == old(description) && image == old(image) && breadcrumbs == old(breadcrumbs)
    {
      kind := k;
      self := this;
    }

    method SetBreadcrumbs(b: seq<Crumb>) returns (self: SeoService)
      modifies this
      ensures self == this && breadcrumbs == b
      ensures title == old(title) && description == old(description) && image == old(image) && kind == old(kind)
    {
      breadcrumbs := b;
      self := this;
    }

    /** `getImage`: the image set, else `app.url/og-image.png`. */
    function GetImage(env: Env): (r: string)
      reads this
      ensures image.Some? ==> r == image.value
      ensures image.None? ==> r == env.appUrl + "/og-image.png"
    {
      image.GetOr(DefaultImage(env))
    }

    /** `getOpenGraphTags`, as key/value pairs in their order. */
    function OpenGraphTags(env: Env): (r: seq<(string, string)>)
      reads this
      ensures |r| == 8
      ensures r[0] == ("og:title", title) && r[1] == ("og:description", description)
      ensures r[2] == ("og:image", GetImage(env)) && r[3] == ("og:url", env.currentUrl)
      ensures r[4] == ("og:type", kind) && r[5] == ("og:site_name", SiteName(env))
      ensures r[6].0 == "og:locale" && r[7].0 == "og:locale:alternate"
      ensures env.locale == "ar" <==> r[6].1 == "ar_SA"
      ensures r[6].1 != r[7].1 && {r[6].1, r[7].1} == {"ar_SA", "en_US"}
    {
      OgLocalesDistinct(env.locale);
      [("og:title", title), ("og:description", description), ("og:image", GetImage(env)),
       ("og:url", env.currentUrl), ("og:type", kind), ("og:site_name", SiteName(env)),
       ("og:locale", OgLocale(env.locale)), ("og:locale:alternate", OgLocaleAlternate(env.locale))]
    }

    /** `getTwitterTags`. */
    function TwitterTags(env: Env): (r: seq<(string, string)>)
      reads this
      ensures |r| == 4 && r[0] == ("twitter:card", "summary_large_image")
      ensures r[1] == ("twitter:title", title) && r[2] == ("twitter:description", description)
      ensures r[3] == ("twitter:image", GetImage(env))
    {
      [("twitter:card", "summary_large_image"), ("twitter:title", title),
       ("twitter:description", description), ("twitter:image", GetImage(env))]
    }

    /** The Open Graph and the Twitter tags show the same title,
        description and image, and no tag name repeats. */
    lemma TagsAgree(env: Env)
      ensures OpenGraphTags(env)[0].1 == TwitterTags(env)[1].1
      ensures OpenGraphTags(env)[1].1 == TwitterTags(env)[2].1
      ensures OpenGraphTags(env)[2].1 == TwitterTags(env)[3].1
      ensures forall i, j :: 0 <= i < j < 8 ==> OpenGraphTags(env)[i].0 != OpenGraphTags(env)[j].0
      ensures forall i, j :: 0 <= i < j < 4 ==> TwitterTags(env)[i].0 != TwitterTags(env)[j].0
    {
    }

    /** `getBreadcrumbSchema`, with its loop over the trail. */
    method GetBreadcrumbSchema() returns (r: Option<Schema>)
      ensures r == BreadcrumbSchema(breadcrumbs)
    {
      if breadcrumbs == [] {
        return None;
      }
      var items: seq<ListItem> := [];
      var index := 0;
      while index < |breadcrumbs|
        invariant index <= |breadcrumbs| && items == ListItems(breadcrumbs[..index])
      {
        assert breadcrumbs[..index + 1][..index] == breadcrumbs[..index];
        items := items + [ListItem(index + 1, breadcrumbs[index].name, breadcrumbs[index].url)];
        index := index + 1;
      }
      assert breadcrumbs[..index] == breadcrumbs;
      r := Some(BreadcrumbList(items));
    }

    /** `getAllSchemas`: the organization and the website, then the
        breadcrumb list when the trail is not empty. */
    method GetAllSchemas(env: Env) returns (r: seq<Schema>)
      ensures |r| == if breadcrumbs == [] then 2 else 3
      ensures r[0] == OrganizationSchema(env) && r[1] == WebsiteSchema(env)
      ensures breadcrumbs != [] ==> r[2] == BreadcrumbList(ListItems(breadcrumbs))
    {
      r := [OrganizationSchema(env), WebsiteSchema(env)];
      var breadcrumbSchema := GetBreadcrumbSchema();
      if breadcrumbSchema.Some? {
        r := r + [breadcrumbSchema.value];
      }
    }
  }
}
