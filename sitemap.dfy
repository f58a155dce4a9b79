/**
 * `GET /sitemap.xml`: the site's URL set in the sitemaps.org 0.9 protocol,
 * with Google News tags on news entries. The sitemap is modelled as the
 * list of its `<url>` elements; the article and page queries, the old
 * article list, the clock and date formatting are inputs.
 */
module Sitemap {
  import opened Wrappers
  import opened Strings

  /** `s.replace(/c/g, rep)`. */
  function Replace(s: string, c: char, rep: string): (r: string)
    ensures c !in s ==> r == s
    ensures |rep| >= 1 ==> |r| >= |s|
    decreases |s|
  {
    if s == [] then []
    else (if s[0] == c then rep else [s[0]]) + Replace(s[1..], c, rep)
  }

  lemma {:induction false} ReplaceAppend(a: string, b: string, c: char, rep: string)
    ensures Replace(a + b, c, rep) == Replace(a, c, rep) + Replace(b, c, rep)
    decreases |a|
  {
    if a == [] {
      assert a + b == b;
    } else {
      assert (a + b)[1..] == a[1..] + b;
      ReplaceAppend(a[1..], b, c, rep);
    }
  }

  /**
   * `escapeXml`: the five replacements in the route's order, `&` first.
   * Text with none of the five characters is left as it is, and escaping
   * never shortens a text.
   */
  function EscapeXml(s: string): (r: string)
    ensures (forall i | 0 <= i < |s| :: s[i] != '&' && !IsMarkup(s[i])) ==> r == s
    ensures |r| >= |s|
  {
    Replace(Replace(Replace(Replace(Replace(s, '&', "&amp;"), '<', "&lt;"), '>', "&gt;"), '"', "&quot;"), '\'', "&apos;")
  }

  /** The entity of one character: the five predefined entities of XML 1.0, section 4.6. */
  function EscapeChar(c: char): (r: string)
    ensures |r| >= 1
  {
    if c == '&' then "&amp;"
    else if c == '<' then "&lt;"
    else if c == '>' then "&gt;"
    else if c == '"' then "&quot;"
    else if c == '\'' then "&apos;"
    else [c]
  }

  /** The reference: each character escaped on its own, in one pass. */
  function Escaped(s: string): string
    decreases |s|
  {
    if s == [] then [] else EscapeChar(s[0]) + Escaped(s[1..])
  }

  lemma ReplaceSingle(c: char, x: char, rep: string)
    ensures Replace([c], x, rep) == if c == x then rep else [c]
  {
    assert [c][1..] == [];
  }

  /** Replacing a character absent from an entity leaves the entity alone. */
  lemma EntityUntouched(e: string, x: char, rep: string)
    requires x !in e
    ensures Replace(e, x, rep) == e
  {
  }

  /** The last two replacements leave `e` alone when it holds neither of their characters. */
  lemma LastTwoUntouched(e: string)
    requires '"' !in e && '\'' !in e
    ensures Replace(Replace(e, '"', "&quot;"), '\'', "&apos;") == e
  {
    EntityUntouched(e, '"', "&quot;");
    EntityUntouched(e, '\'', "&apos;");
  }

  /** The last three replacements leave `e` alone when it holds none of their characters. */
  lemma LastThreeUntouched(e: string)
    requires '>' !in e && '"' !in e && '\'' !in e
    ensures Replace(Replace(Replace(e, '>', "&gt;"), '"', "&quot;"), '\'', "&apos;") == e
  {
    EntityUntouched(e, '>', "&gt;");
    LastTwoUntouched(e);
  }

  /** The last four replacements leave `e` alone when it holds none of their characters. */
  lemma TailUntouched(e: string)
    requires '<' !in e && '>' !in e && '"' !in e && '\'' !in e
    ensures Replace(Replace(Replace(Replace(e, '<', "&lt;"), '>', "&gt;"), '"', "&quot;"), '\'', "&apos;") == e
  {
    EntityUntouched(e, '<', "&lt;");
    LastThreeUntouched(e);
  }

  lemma EscapeAmp()
    ensures EscapeXml("&") == "&amp;"
  {
    ReplaceSingle('&', '&', "&amp;");
    TailUntouched("&amp;");
  }

  lemma EscapeLt()
    ensures EscapeXml("<") == "&lt;"
  {
    ReplaceSingle('<', '&', "&amp;");
    ReplaceSingle('<', '<', "&lt;");
    LastThreeUntouched("&lt;");
  }

  lemma EscapeGt()
    ensures EscapeXml(">") == "&gt;"
  {
    ReplaceSingle('>', '&', "&amp;");
    ReplaceSingle('>', '<', "&lt;");
    ReplaceSingle('>', '>', "&gt;");
    LastTwoUntouched("&gt;");
  }

  lemma EscapeQuot()
    ensures EscapeXml("\"") == "&quot;"
  {
    ReplaceSingle('"', '&', "&amp;");
    ReplaceSingle('"', '<', "&lt;");
    ReplaceSingle('"', '>', "&gt;");
    ReplaceSingle('"', '"', "&quot;");
    EntityUntouched("&quot;", '\'', "&apos;");
  }

  lemma EscapeApos()
    ensures EscapeXml("'") == "&apos;"
  {
    ReplaceSingle('\'', '&', "&amp;");
    ReplaceSingle('\'', '<', "&lt;");
    ReplaceSingle('\'', '>', "&gt;");
    ReplaceSingle('\'', '"', "&quot;");
    ReplaceSingle('\'', '\'', "&apos;");
  }

  lemma EscapePlain(c: char)
    requires c != '&' && !IsMarkup(c)
    ensures EscapeXml([c]) == [c]
  {
    ReplaceSingle(c, '&', "&amp;");
    ReplaceSingle(c, '<', "&lt;");
    ReplaceSingle(c, '>', "&gt;");
    ReplaceSingle(c, '"', "&quot;");
    ReplaceSingle(c, '\'', "&apos;");
  }

  /** On a single character the chained replacements give that character's entity. */
  lemma EscapeXmlOfChar(c: char)
    ensures EscapeXml([c]) == EscapeChar(c)
  {
    if c == '&' {
      EscapeAmp();
    } else if c == '<' {
      EscapeLt();
    } else if c == '>' {
      EscapeGt();
    } else if c == '"' {
      EscapeQuot();
    } else if c == '\'' {
      EscapeApos();
    } else {
      EscapePlain(c);
    }
  }

  lemma EscapeXmlAppend(a: string, b: string)
    ensures EscapeXml(a + b) == EscapeXml(a) + EscapeXml(b)
  {
    var s1a, s1b := Replace(a, '&', "&amp;"), Replace(b, '&', "&amp;");
    ReplaceAppend(a, b, '&', "&amp;");
    var s2a, s2b := Replace(s1a, '<', "&lt;"), Replace(s1b, '<', "&lt;");
    ReplaceAppend(s1a, s1b, '<', "&lt;");
    var s3a, s3b := Replace(s2a, '>', "&gt;"), Replace(s2b, '>', "&gt;");
    ReplaceAppend(s2a, s2b, '>', "&gt;");
    var s4a, s4b := Replace(s3a, '"', "&quot;"), Replace(s3b, '"', "&quot;");
    ReplaceAppend(s3a, s3b, '"', "&quot;");
    ReplaceAppend(s4a, s4b, '\'', "&apos;");
  }

  /** The chained replacements escape each character independently: `&` going first means no entity is escaped twice. */
  lemma {:induction false} EscapeXmlIsEscaped(s: string)
    ensures EscapeXml(s) == Escaped(s)
    decreases |s|
  {
    if s == [] {
    } else {
      assert s == [s[0]] + s[1..];
      EscapeXmlAppend([s[0]], s[1..]);
      EscapeXmlOfChar(s[0]);
      EscapeXmlIsEscaped(s[1..]);
    }
  }

  /** The markup characters other than `&`. */
  predicate IsMarkup(c: char) {
    c == '<' || c == '>' || c == '"' || c == '\''
  }

  lemma EscapeCharClean(c: char)
    ensures forall j | 0 <= j < |EscapeChar(c)| :: !IsMarkup(EscapeChar(c)[j])
  {
  }

  lemma {:induction false} EscapedClean(s: string)
    ensures forall i | 0 <= i < |Escaped(s)| :: !IsMarkup(Escaped(s)[i])
    decreases |s|
  {
    if s != [] {
      EscapedClean(s[1..]);
      EscapeCharClean(s[0]);
      var head := EscapeChar(s[0]);
      forall i | 0 <= i < |Escaped(s)| ensures !IsMarkup(Escaped(s)[i]) {
        if i >= |head| {
          assert Escaped(s)[i] == Escaped(s[1..])[i - |head|];
        } else {
          assert Escaped(s)[i] == head[i];
        }
      }
    }
  }

  /** The output holds no raw `<`, `>`, `"` or `'`. */
  lemma EscapedHasNoMarkup(s: string)
    ensures forall i | 0 <= i < |EscapeXml(s)| :: !IsMarkup(EscapeXml(s)[i])
  {
    EscapeXmlIsEscaped(s);
    EscapedClean(s);
  }

  /** Decoding of the five entities, the inverse of escaping. */
  function Unescape(t: string): string
    decreases |t|
  {
    if t == [] then []
    else if StartsWith(t, "&amp;") then "&" + Unescape(t[5..])
    else if StartsWith(t, "&lt;") then "<" + Unescape(t[4..])
    else if StartsWith(t, "&gt;") then ">" + Unescape(t[4..])
    else if StartsWith(t, "&quot;") then "\"" + Unescape(t[6..])
    else if StartsWith(t, "&apos;") then "'" + Unescape(t[6..])
    else [t[0]] + Unescape(t[1..])
  }

  lemma NotPrefix(t: string, p: string, i: int)
    requires 0 <= i < |p| && (i >= |t| || t[i] != p[i])
    ensures !StartsWith(t, p)
  {
  }

  lemma UnescapeStep(c: char, rest: string)
    ensures Unescape(EscapeChar(c) + rest) == [c] + Unescape(rest)
  {
    var t := EscapeChar(c) + rest;
    if c == '&' {
      assert t[..5] == "&amp;" && t[5..] == rest;
    } else if c == '<' {
      assert t[..4] == "&lt;" && t[4..] == rest;
      NotPrefix(t, "&amp;", 1);
    } else if c == '>' {
      assert t[..4] == "&gt;" && t[4..] == rest;
      NotPrefix(t, "&amp;", 1);
      NotPrefix(t, "&lt;", 1);
    } else if c == '"' {
      assert t[..6] == "&quot;" && t[6..] == rest;
      NotPrefix(t, "&amp;", 1);
      NotPrefix(t, "&lt;", 1);
      NotPrefix(t, "&gt;", 1);
    } else if c == '\'' {
      assert t[..6] == "&apos;" && t[6..] == rest;
      NotPrefix(t, "&amp;", 2);
      NotPrefix(t, "&lt;", 1);
      NotPrefix(t, "&gt;", 1);
      NotPrefix(t, "&quot;", 1);
    } else {
      assert t[0] == c && t[1..] == rest;
      NotPrefix(t, "&amp;", 0);
      NotPrefix(t, "&lt;", 0);
      NotPrefix(t, "&gt;", 0);
      NotPrefix(t, "&quot;", 0);
      NotPrefix(t, "&apos;", 0);
    }
  }

  /** Escaping loses nothing: decoding the five entities gives the input back. */
  lemma {:induction false} EscapeXmlRoundTrip(s: string)
    ensures Unescape(EscapeXml(s)) == s
    decreases |s|
  {
    EscapeXmlIsEscaped(s);
    if s != [] {
      UnescapeStep(s[0], Escaped(s[1..]));
      EscapeXmlRoundTrip(s[1..]);
      EscapeXmlIsEscaped(s[1..]);
    }
  }

  /** A `SitemapItem`. */
  datatype Item = Item(url: string, lastModified: string, changeFreq: Option<string>, priority: Option<string>,
                       isNews: bool, title: Option<string>)

  /** The Google News part of a news entry. */
  datatype News = News(publicationDate: string, title: string)

  /** One `<url>` element: its `loc`, `lastmod`, `changefreq`, `priority`, and the news tags when it has them. */
  datatype UrlElement = UrlElement(loc: string, lastmod: string, changefreq: string, priority: string, news: Option<News>)

  /** A `<url>` element of the template: news entries default to hourly and 0.9, others to daily and 0.7. */
  function Element(x: Item): (e: UrlElement)
    ensures e.loc == EscapeXml(x.url) && e.lastmod == x.lastModified
    ensures e.news.Some? <==> x.isNews
    ensures x.isNews ==> e.changefreq == x.changeFreq.GetOr("hourly") && e.priority == x.priority.GetOr("0.9")
    ensures !x.isNews ==> e.changefreq == x.changeFreq.GetOr("daily") && e.priority == x.priority.GetOr("0.7")
    ensures x.isNews ==> e.news.value == News(x.lastModified, EscapeXml(x.title.GetOr("")))
  {
    if x.isNews then
      UrlElement(EscapeXml(x.url), x.lastModified, x.changeFreq.GetOr("hourly"), x.priority.GetOr("0.9"),
                 Some(News(x.lastModified, EscapeXml(x.title.GetOr("")))))
    else UrlElement(EscapeXml(x.url), x.lastModified, x.changeFreq.GetOr("daily"), x.priority.GetOr("0.7"), None)
  }

  /** `${URL}` in a template: an unset variable prints as `undefined`. */
  function SiteText(siteUrl: Option<string>): string {
    siteUrl.GetOr("undefined")
  }

  /** `generateSiteMap`: the root entry first, then one element per item in order. */
  function GenerateSiteMap(siteUrl: Option<string>, now: string, items: seq<Item>): (r: seq<UrlElement>)
    ensures |r| == |items| + 1
    ensures r[0] == RootElement(siteUrl, now)
    ensures forall k | 0 <= k < |items| :: r[k + 1] == Element(items[k])
  {
    var elements := Elements(items);
    var r := [RootElement(siteUrl, now)] + elements;
    assert forall k | 0 <= k < |items| :: r[k + 1] == elements[k];
    r
  }

  /** The entry of the site root, always changing, at the highest priority. */
  function RootElement(siteUrl: Option<string>, now: string): (e: UrlElement)
    ensures e.loc == EscapeXml(SiteText(siteUrl) + "/") && e.lastmod == now
    ensures e.changefreq == "always" && e.priority == "1.0" && e.news.None?
  {
    UrlElement(EscapeXml(SiteText(siteUrl) + "/"), now, "always", "1.0", None)
  }

  /** One element per item, in order. */
  function Elements(items: seq<Item>): (r: seq<UrlElement>)
    ensures |r| == |items|
    ensures forall k | 0 <= k < |items| :: r[k] == Element(items[k])
  {
    seq(|items|, k requires 0 <= k < |items| => Element(items[k]))
  }

  const Routes: seq<string> := [
    "/nieuws", "/nieuwsberichten", "/sponsoren", "/social", "/socials", "/gedraaide-nummers",
    "/favorieten", "/evenementen", "/team", "/verzoekjes", "/requests/whatsapp", "/tickets",
    "/privacy-beleid", "/reacties", "/veer-goon-door"]

  const DefaultDate: string := "2011-11-11"

  /** An article of the articles query; every attribute may be missing. */
  datatype Post = Post(date: Option<string>, publishedAt: Option<string>, slug: Option<string>, title: Option<string>)

  /** A content page of the pages query. */
  datatype Page = Page(slug: Option<string>, publishedAt: Option<string>)

  /** An entry of the old news archive. */
  datatype OldArticle = OldArticle(title: string, pubDate: Option<string>)

  /** `a || b` on optional strings. */
  function Or(a: Option<string>, b: string): string {
    if a.Some? && a.value != "" then a.value else b
  }

  /** A slug in a template: a missing one prints as `undefined`. */
  function SlugText(slug: Option<string>): string {
    slug.GetOr("undefined")
  }

  function RouteItem(site: string, route: string, now: string): Item {
    Item(site + route, now, Some("daily"), Some("0.8"), false, None)
  }

  /** A post's date: `Date`, else `publishedAt`, else the default date; `iso` is `new Date(d).toISOString()`. */
  function PostItem(site: string, p: Post, iso: string -> string): (x: Item)
    ensures Missing(p.date) && Missing(p.publishedAt) ==> x.lastModified == iso(DefaultDate)
    ensures x.isNews && x.changeFreq == Some("hourly") && x.priority == Some("0.9")
  {
    var date := Or(p.date, Or(p.publishedAt, DefaultDate));
    Item(site + "/nieuwsberichten/" + SlugText(p.slug), iso(date), Some("hourly"), Some("0.9"), true,
         if p.title.Some? && p.title.value != "" then p.title else p.slug)
  }

  function PageItem(site: string, p: Page, iso: string -> string): (x: Item)
    ensures Missing(p.publishedAt) ==> x.lastModified == iso(DefaultDate)
    ensures !x.isNews && x.changeFreq == Some("weekly") && x.priority == Some("0.8")
  {
    Item(site + "/" + SlugText(p.slug), iso(Or(p.publishedAt, DefaultDate)), Some("weekly"), Some("0.8"), false, None)
  }

  predicate Missing(v: Option<string>) {
    v.None? || v.value == ""
  }

  /** The characters the slug keeps: ASCII letters and digits and `\s` white space. */
  predicate Kept(c: char) {
    'a' <= c <= 'z' || 'A' <= c <= 'Z' || '0' <= c <= '9' || IsSpace(c)
  }

  /** `replace(/[^a-zA-Z0-9\s]/g, "")`. */
  function KeepSlugChars(s: string): (r: string)
    ensures forall i | 0 <= i < |r| :: Kept(r[i])
    decreases |s|
  {
    if s == [] then []
    else (if Kept(s[0]) then [s[0]] else []) + KeepSlugChars(s[1..])
  }

  /** `replaceAll(" ", "-")`. */
  function SpacesToHyphens(s: string): (r: string)
    ensures |r| == |s|
    ensures forall i | 0 <= i < |s| :: r[i] == if s[i] == ' ' then '-' else s[i]
  {
    seq(|s|, i requires 0 <= i < |s| => if s[i] == ' ' then '-' else s[i])
  }

  /** The old article's slug: kept characters, spaces as hyphens, lower case. */
  function OldSlug(title: string): string {
    Lower(SpacesToHyphens(KeepSlugChars(title)))
  }

  /** An old article's slug has no space and no capital: only lower-case letters, digits, hyphens and other white space. */
  lemma OldSlugShape(title: string)
    ensures forall i | 0 <= i < |OldSlug(title)| ::
              var c := OldSlug(title)[i];
              c != ' ' && !('A' <= c <= 'Z')
              && ('a' <= c <= 'z' || '0' <= c <= '9' || c == '-' || IsSpace(c))
  {
  }

  /** A title made only of letters, digits and single spaces keeps every letter: its slug is the lower-cased title with hyphens. */
  lemma OldSlugOfPlainTitle(title: string)
    requires forall i | 0 <= i < |title| :: 'a' <= title[i] <= 'z' || 'A' <= title[i] <= 'Z' || '0' <= title[i] <= '9' || title[i] == ' '
    ensures |OldSlug(title)| == |title|
    ensures forall i | 0 <= i < |title| :: OldSlug(title)[i] == if title[i] == ' ' then '-' else LowerChar(title[i])
  {
    KeepAllKept(title);
  }

  lemma {:induction false} KeepAllKept(s: string)
    requires forall i | 0 <= i < |s| :: Kept(s[i])
    ensures KeepSlugChars(s) == s
    decreases |s|
  {
    if s != [] {
      KeepAllKept(s[1..]);
      assert [s[0]] + s[1..] == s;
    }
  }

  function OldArticleItem(site: string, a: OldArticle, iso: string -> string): (x: Item)
    ensures Missing(a.pubDate) ==> x.lastModified == iso(DefaultDate)
    ensures x.isNews && x.changeFreq == Some("never") && x.priority.None?
  {
    Item(site + "/nieuwsberichten/o/" + OldSlug(a.title), iso(Or(a.pubDate, DefaultDate)), Some("never"), None, true, Some(a.title))
  }

  /** `getSitemapUrls`: the routes, then the pages, then the posts, then the old articles. */
  function SitemapUrls(siteUrl: Option<string>, now: string, iso: string -> string,
                       posts: seq<Post>, pages: seq<Page>, archive: seq<OldArticle>): (r: seq<Item>)
    ensures |r| == |Routes| + |pages| + |posts| + |archive|
    ensures forall k | 0 <= k < |Routes| :: r[k] == RouteItem(SiteText(siteUrl), Routes[k], now)
    ensures forall k | 0 <= k < |pages| :: r[|Routes| + k] == PageItem(SiteText(siteUrl), pages[k], iso)
    ensures forall k | 0 <= k < |posts| :: r[|Routes| + |pages| + k] == PostItem(SiteText(siteUrl), posts[k], iso)
    ensures forall k | 0 <= k < |archive| :: r[|Routes| + |pages| + |posts| + k] == OldArticleItem(SiteText(siteUrl), archive[k], iso)
  {
    var site := SiteText(siteUrl);
    seq(|Routes|, k requires 0 <= k < |Routes| => RouteItem(site, Routes[k], now))
    + seq(|pages|, k requires 0 <= k < |pages| => PageItem(site, pages[k], iso))
    + seq(|posts|, k requires 0 <= k < |posts| => PostItem(site, posts[k], iso))
    + seq(|archive|, k requires 0 <= k < |archive| => OldArticleItem(site, archive[k], iso))
  }

  /** Old articles are news entries without a priority, so the sitemap gives them 0.9; they are never re-crawled. */
  lemma OldArticlesRenderAsNews(site: string, a: OldArticle, iso: string -> string)
    ensures Element(OldArticleItem(site, a, iso)).priority == "0.9"
    ensures Element(OldArticleItem(site, a, iso)).changefreq == "never"
    ensures Element(OldArticleItem(site, a, iso)).news.Some?
  {
  }

  /** `GET`: the sitemap of all items; the root entry is first, and the routes come right after it. */
  function Get(siteUrl: Option<string>, now: string, iso: string -> string,
               posts: seq<Post>, pages: seq<Page>, archive: seq<OldArticle>): (r: seq<UrlElement>)
    ensures |r| == 1 + |Routes| + |pages| + |posts| + |archive|
    ensures r[0].changefreq == "always" && r[0].priority == "1.0"
    ensures r[1].loc == EscapeXml(SiteText(siteUrl) + "/nieuws")
  {
    GenerateSiteMap(siteUrl, now, SitemapUrls(siteUrl, now, iso, posts, pages, archive))
  }
}
