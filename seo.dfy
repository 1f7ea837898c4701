/**
 * The decisions of src/shared/seo.ts: which meta tags a page head carries and
 * with which content (`buildMetaTags`), and which JSON-LD blocks it carries
 * (`buildStructuredData`). `navHref` is modelled in Urls.
 *
 * The tags are kept as values (`MetaTag`) and rendered to the exact HTML lines
 * by `RenderTag`; the JSON-LD blocks are kept as values, their JSON text is not
 * modelled.
 */
module Seo {
  import opened Wrappers
  import opened JsString
  import opened ContentTypes
  import opened Http
  import Urls

  // ------------------------------------------------------------------ site settings

  const DefaultSiteUrl: string := "http://localhost:3000"
  const DefaultSiteName: string := "nobodyreads.me"

  /** SITE_URL and SITE_NAME as read from the environment once at start-up. */
  datatype Site = Site(url: string, name: string)

  /** An environment variable that is unset or empty gives way to the built-in default. */
  function SiteFromEnv(urlVar: Option<string>, nameVar: Option<string>): (site: Site)
    ensures site.url != "" && site.name != ""
    ensures site.url == (if Truthy(urlVar) then urlVar.value else DefaultSiteUrl)
    ensures site.name == (if Truthy(nameVar) then nameVar.value else DefaultSiteName)
  {
    Site(OrElse(urlVar, DefaultSiteUrl), OrElse(nameVar, DefaultSiteName))
  }

  // ------------------------------------------------------------------ layout options

  /** The fields of the layout options that the SEO helpers read (src/content/types.ts). */
  datatype LayoutOptions = LayoutOptions(
    title: string,
    description: Option<string>,
    pathname: Option<string>,
    ogType: Option<string>,
    seo: Option<PageMeta>,
    page: Option<Page>,
    urlPrefix: Option<string>,
    siteName: Option<string>)

  /** `options.seo?.field`: without metadata every field reads as undefined. */
  function MetaOf(seo: Option<PageMeta>): PageMeta {
    seo.GetOr(EmptyMeta)
  }

  /** The description: `seo.metaDescription`, else `options.description`, else "". */
  function Description(o: LayoutOptions): (d: string)
    ensures Truthy(MetaOf(o.seo).metaDescription) ==> d == MetaOf(o.seo).metaDescription.value
    ensures !Truthy(MetaOf(o.seo).metaDescription) ==> d == o.description.GetOr("")
  {
    OrElse(MetaOf(o.seo).metaDescription, o.description.GetOr(""))
  }

  /** The canonical URL: `seo.canonicalUrl`, else SITE_URL + pathname when a pathname is set, else "". */
  function CanonicalUrl(o: LayoutOptions, site: Site): (c: string)
    ensures Truthy(MetaOf(o.seo).canonicalUrl) ==> c == MetaOf(o.seo).canonicalUrl.value
    ensures !Truthy(MetaOf(o.seo).canonicalUrl) && Truthy(o.pathname) ==> c == site.url + o.pathname.value
    ensures !Truthy(MetaOf(o.seo).canonicalUrl) && !Truthy(o.pathname) ==> c == ""
  {
    OrElse(MetaOf(o.seo).canonicalUrl, if Truthy(o.pathname) then site.url + o.pathname.value else "")
  }

  /** An image path is made absolute unless it already starts with "http". */
  function ImageUrl(img: string, site: Site): (u: string)
    ensures StartsWith(img, "http") ==> u == img
    ensures !StartsWith(img, "http") ==> u == site.url + img
  {
    if StartsWith(img, "http") then img else site.url + img
  }

  lemma ImageUrlIsAbsolute(img: string, site: Site)
    requires StartsWith(site.url, "http")
    ensures StartsWith(ImageUrl(img, site), "http")
  {
    if !StartsWith(img, "http") {
      assert (site.url + img)[..4] == site.url[..4];
    }
  }

  /** The robots directives, in the fixed order noindex, nofollow, noai, noimageai. */
  function RobotsDirectives(m: PageMeta): seq<string> {
    (if m.noIndex == Some(true) then ["noindex"] else [])
    + (if m.noFollow == Some(true) then ["nofollow"] else [])
    + (if m.noAiTraining == Some(true) then ["noai", "noimageai"] else [])
  }

  /** The position of a directive in the fixed order. */
  function DirectiveRank(d: string): nat {
    if d == "noindex" then 0 else if d == "nofollow" then 1 else if d == "noai" then 2 else 3
  }

  /** Each directive is present exactly when its flag is set, and they come out in the fixed order. */
  lemma RobotsDirectivesOrder(m: PageMeta)
    ensures "noindex" in RobotsDirectives(m) <==> m.noIndex == Some(true)
    ensures "nofollow" in RobotsDirectives(m) <==> m.noFollow == Some(true)
    ensures "noai" in RobotsDirectives(m) <==> m.noAiTraining == Some(true)
    ensures "noimageai" in RobotsDirectives(m) <==> m.noAiTraining == Some(true)
    ensures forall i, j :: 0 <= i < j < |RobotsDirectives(m)| ==> DirectiveRank(RobotsDirectives(m)[i]) < DirectiveRank(RobotsDirectives(m)[j])
    ensures RobotsDirectives(m) == [] <==> m.noIndex != Some(true) && m.noFollow != Some(true) && m.noAiTraining != Some(true)
  {
  }

  // ------------------------------------------------------------------ meta tags

  /**
   * One line of the head. `Named` is `<meta name=…>`, whose content is escaped
   * unless `escaped` is false; `Property` is `<meta property=…>`, always escaped;
   * `CanonicalLink` is `<link rel="canonical">`, always escaped.
   */
  datatype MetaTag =
    | Named(name: string, content: string, escaped: bool)
    | Property(property: string, content: string)
    | CanonicalLink(href: string)

  /** The attribute value the tag writes between double quotes. */
  function AttrValue(tag: MetaTag): string {
    match tag
    case Named(_, content, escaped) => if escaped then EscapeHtml(content) else content
    case Property(_, content) => EscapeHtml(content)
    case CanonicalLink(href) => EscapeHtml(href)
  }

  function RenderTag(tag: MetaTag): string {
    match tag
    case Named(name, _, _) => "  <meta name=\"" + name + "\" content=\"" + AttrValue(tag) + "\">"
    case Property(property, _) => "  <meta property=\"" + property + "\" content=\"" + AttrValue(tag) + "\">"
    case CanonicalLink(_) => "  <link rel=\"canonical\" href=\"" + AttrValue(tag) + "\">"
  }

  function RenderTags(tags: seq<MetaTag>): (lines: seq<string>)
    ensures |lines| == |tags| && forall i :: 0 <= i < |tags| ==> lines[i] == RenderTag(tags[i])
  {
    if tags == [] then [] else [RenderTag(tags[0])] + RenderTags(tags[1..])
  }

  /** The description, robots and canonical lines. */
  function HeadTags(o: LayoutOptions, site: Site): seq<MetaTag> {
    var d := Description(o);
    var c := CanonicalUrl(o, site);
    var robots := RobotsDirectives(MetaOf(o.seo));
    (if d != "" then [Named("description", d, true)] else [])
    + (if robots != [] then [Named("robots", Join(robots, ", "), false)] else [])
    + (if c != "" then [CanonicalLink(c)] else [])
  }

  /** The Open Graph lines. */
  function OpenGraphTags(o: LayoutOptions, site: Site): seq<MetaTag> {
    var m := MetaOf(o.seo);
    var d := Description(o);
    var c := CanonicalUrl(o, site);
    [ Property("og:site_name", OrElse(o.siteName, site.name)),
      Property("og:type", OrElse(m.ogType, OrElse(o.ogType, "website"))),
      Property("og:title", o.title) ]
    + (if d != "" then [Property("og:description", d)] else [])
    + (if c != "" then [Property("og:url", c)] else [])
    + (if Truthy(m.ogImage) then [Property("og:image", ImageUrl(m.ogImage.value, site))] else [])
  }

  /** The Twitter card lines; the card type is the one value written unescaped. */
  function TwitterTags(o: LayoutOptions, site: Site): seq<MetaTag> {
    var m := MetaOf(o.seo);
    var d := Description(o);
    [ Named("twitter:card", OrElse(m.twitterCard, "summary"), false),
      Named("twitter:title", o.title, true) ]
    + (if d != "" then [Named("twitter:description", d, true)] else [])
    + (if Truthy(m.ogImage) then [Named("twitter:image", ImageUrl(m.ogImage.value, site), true)] else [])
  }

  /** The author, expertise and abstract lines. */
  function AttributionTags(o: LayoutOptions): seq<MetaTag> {
    var m := MetaOf(o.seo);
    (if Truthy(m.authorName) then [Named("author", m.authorName.value, true)] else [])
    + (if Truthy(m.authorExpertise) then [Named("expertise", m.authorExpertise.value, true)] else [])
    + (if Truthy(m.tldr) then [Named("abstract", m.tldr.value, true)] else [])
  }

  /** The tags of `buildMetaTags`, in the order the lines are pushed. */
  function MetaTags(o: LayoutOptions, site: Site): seq<MetaTag> {
    HeadTags(o, site) + OpenGraphTags(o, site) + TwitterTags(o, site) + AttributionTags(o)
  }

  /** `buildMetaTags`: the rendered lines joined by newlines. */
  function BuildMetaTags(o: LayoutOptions, site: Site): (html: string)
    ensures forall t :: t in MetaTags(o, site) ==> Contains(html, RenderTag(t))
  {
    var tags := MetaTags(o, site);
    var lines := RenderTags(tags);
    assert forall t :: t in tags ==> Contains(Join(lines, "\n"), RenderTag(t)) by {
      forall t | t in tags ensures Contains(Join(lines, "\n"), RenderTag(t)) {
        var i :| 0 <= i < |tags| && tags[i] == t;
        JoinContainsPart(lines, "\n", i);
      }
    }
    Join(lines, "\n")
  }

  /** What identifies a tag in the head: its name, its property, or the canonical link. */
  datatype TagKey = NameKey(name: string) | PropertyKey(property: string) | CanonicalKey

  function KeyOf(tag: MetaTag): TagKey {
    match tag
    case Named(name, _, _) => NameKey(name)
    case Property(property, _) => PropertyKey(property)
    case CanonicalLink(_) => CanonicalKey
  }

  /** The unescaped value the tag carries. */
  function ValueOf(tag: MetaTag): string {
    match tag
    case Named(_, content, _) => content
    case Property(_, content) => content
    case CanonicalLink(href) => href
  }

  function NonEmpty(s: string): Option<string> {
    if s != "" then Some(s) else None
  }

  /**
   * The head as a table from key to value, independent of the order in which
   * the lines are pushed: `None` means the tag is not emitted.
   *  - description, og:description, twitter:description: the description, when non-empty;
   *  - robots: the directives joined by ", ", when at least one is set;
   *  - canonical link and og:url: the canonical URL, when non-empty;
   *  - og:site_name, og:type, og:title, twitter:card, twitter:title: always, with their defaults;
   *  - og:image and twitter:image: the absolute image URL, when an image is set;
   *  - author, expertise, abstract: the metadata field, when set.
   */
  function ExpectedValue(o: LayoutOptions, site: Site, k: TagKey): Option<string> {
    var m := MetaOf(o.seo);
    var d := Description(o);
    var c := CanonicalUrl(o, site);
    var robots := RobotsDirectives(m);
    var img := if Truthy(m.ogImage) then Some(ImageUrl(m.ogImage.value, site)) else None;
    match k
    case CanonicalKey => NonEmpty(c)
    case PropertyKey(p) =>
      if p == "og:site_name" then Some(OrElse(o.siteName, site.name))
      else if p == "og:type" then Some(OrElse(m.ogType, OrElse(o.ogType, "website")))
      else if p == "og:title" then Some(o.title)
      else if p == "og:description" then NonEmpty(d)
      else if p == "og:url" then NonEmpty(c)
      else if p == "og:image" then img
      else None
    case NameKey(n) =>
      if n == "description" || n == "twitter:description" then NonEmpty(d)
      else if n == "robots" then (if robots != [] then Some(Join(robots, ", ")) else None)
      else if n == "twitter:card" then Some(OrElse(m.twitterCard, "summary"))
      else if n == "twitter:title" then Some(o.title)
      else if n == "twitter:image" then img
      else if n == "author" then (if Truthy(m.authorName) then m.authorName else None)
      else if n == "expertise" then (if Truthy(m.authorExpertise) then m.authorExpertise else None)
      else if n == "abstract" then (if Truthy(m.tldr) then m.tldr else None)
      else None
  }

  /** Every tag in `tags` carries the value the table gives its key. */
  predicate Consistent(tags: seq<MetaTag>, o: LayoutOptions, site: Site) {
    forall t :: t in tags ==> ExpectedValue(o, site, KeyOf(t)) == Some(ValueOf(t))
  }

  lemma BlocksConsistent(o: LayoutOptions, site: Site)
    ensures Consistent(HeadTags(o, site), o, site)
    ensures Consistent(OpenGraphTags(o, site), o, site)
    ensures Consistent(TwitterTags(o, site), o, site)
    ensures Consistent(AttributionTags(o), o, site)
  {
    HeadConsistent(o, site);
    OpenGraphConsistent(o, site);
    TwitterConsistent(o, site);
    AttributionConsistent(o, site);
  }

  lemma HeadConsistent(o: LayoutOptions, site: Site)
    ensures Consistent(HeadTags(o, site), o, site)
  {
  }

  lemma OpenGraphConsistent(o: LayoutOptions, site: Site)
    ensures Consistent(OpenGraphTags(o, site), o, site)
  {
  }

  lemma TwitterConsistent(o: LayoutOptions, site: Site)
    ensures Consistent(TwitterTags(o, site), o, site)
  {
  }

  lemma AttributionConsistent(o: LayoutOptions, site: Site)
    ensures Consistent(AttributionTags(o), o, site)
  {
  }

  /**
   * The emitted head agrees with the table: a key is emitted exactly when the
   * table has a value for it, and every tag with that key carries that value.
   */
  lemma MetaTagsMatchTable(o: LayoutOptions, site: Site, k: TagKey)
    ensures var v := ExpectedValue(o, site, k);
      && (forall t :: t in MetaTags(o, site) && KeyOf(t) == k ==> v == Some(ValueOf(t)))
      && (v.Some? <==> exists t :: t in MetaTags(o, site) && KeyOf(t) == k)
  {
    BlocksConsistent(o, site);
    var v := ExpectedValue(o, site, k);
    var tags := MetaTags(o, site);
    if v.Some? {
      var t := WitnessTag(o, site, k);
      assert t in tags;
    }
  }

  /** The tag that carries the table's value for `k`. */
  function WitnessTag(o: LayoutOptions, site: Site, k: TagKey): (t: MetaTag)
    requires ExpectedValue(o, site, k).Some?
    ensures KeyOf(t) == k && t in MetaTags(o, site)
  {
    var m := MetaOf(o.seo);
    var v := ExpectedValue(o, site, k).value;
    match k
    case CanonicalKey =>
      assert CanonicalLink(v) in HeadTags(o, site);
      CanonicalLink(v)
    case PropertyKey(p) =>
      assert Property(p, v) in OpenGraphTags(o, site);
      Property(p, v)
    case NameKey(n) =>
      if n == "description" || n == "robots" then
        var e := n == "description";
        assert Named(n, v, e) in HeadTags(o, site);
        Named(n, v, e)
      else if n == "author" || n == "expertise" || n == "abstract" then
        assert Named(n, v, true) in AttributionTags(o);
        Named(n, v, true)
      else
        var e := n != "twitter:card";
        assert Named(n, v, e) in TwitterTags(o, site);
        Named(n, v, e)
  }

  /** No character `c` in any part nor in the separator: none in the joined string. */
  lemma {:induction false} JoinAvoids(parts: seq<string>, sep: string, c: char)
    requires forall p :: p in parts ==> c !in p
    requires c !in sep
    ensures c !in Join(parts, sep)
  {
    if |parts| > 1 {
      JoinAvoids(parts[1..], sep, c);
    }
  }

  /**
   * No attribute value can break out of its double quotes: every value is
   * escaped, except the robots list, which is built from fixed words, and
   * twitter:card, which is written as given.
   */
  lemma AttributesQuoteSafe(o: LayoutOptions, site: Site)
    ensures forall tag :: tag in MetaTags(o, site) && !(tag.Named? && tag.name == "twitter:card") ==> '"' !in AttrValue(tag)
  {
    var robots := Join(RobotsDirectives(MetaOf(o.seo)), ", ");
    JoinAvoids(RobotsDirectives(MetaOf(o.seo)), ", ", '"');
    UnescapedTags(o, site);
    forall tag | tag in MetaTags(o, site) && !(tag.Named? && tag.name == "twitter:card")
      ensures '"' !in AttrValue(tag)
    {
      if tag.Named? && !tag.escaped {
        assert tag.content == robots;
      } else {
        var raw := if tag.Named? then tag.content else if tag.Property? then tag.content else tag.href;
        assert AttrValue(tag) == EscapeHtml(raw);
        EscapeHtmlNoMarkup(raw);
      }
    }
  }

  /** Only the robots line and the twitter:card line are written without escaping. */
  lemma UnescapedTags(o: LayoutOptions, site: Site)
    ensures forall tag :: tag in MetaTags(o, site) && tag.Named? && !tag.escaped ==>
      tag.name == "twitter:card" || tag.content == Join(RobotsDirectives(MetaOf(o.seo)), ", ")
  {
    var robots := Join(RobotsDirectives(MetaOf(o.seo)), ", ");
    assert forall tag :: tag in HeadTags(o, site) && tag.Named? && !tag.escaped ==> tag.content == robots;
    OpenGraphUnnamed(o, site);
    TwitterUnescaped(o, site);
    AttributionEscaped(o);
  }

  lemma OpenGraphUnnamed(o: LayoutOptions, site: Site)
    ensures forall tag :: tag in OpenGraphTags(o, site) ==> tag.Property?
  {
    var m := MetaOf(o.seo);
    var d := Description(o);
    var c := CanonicalUrl(o, site);
    var a := [ Property("og:site_name", OrElse(o.siteName, site.name)),
      Property("og:type", OrElse(m.ogType, OrElse(o.ogType, "website"))),
      Property("og:title", o.title) ];
    var b := if d != "" then [Property("og:description", d)] else [];
    var e := if c != "" then [Property("og:url", c)] else [];
    var f := if Truthy(m.ogImage) then [Property("og:image", ImageUrl(m.ogImage.value, site))] else [];
    assert OpenGraphTags(o, site) == a + b + e + f;
  }

  lemma AttributionEscaped(o: LayoutOptions)
    ensures forall tag :: tag in AttributionTags(o) ==> tag.Named? && tag.escaped
  {
    var m := MetaOf(o.seo);
    var a := if Truthy(m.authorName) then [Named("author", m.authorName.value, true)] else [];
    var b := if Truthy(m.authorExpertise) then [Named("expertise", m.authorExpertise.value, true)] else [];
    var c := if Truthy(m.tldr) then [Named("abstract", m.tldr.value, true)] else [];
    assert AttributionTags(o) == a + b + c;
  }

  lemma TwitterUnescaped(o: LayoutOptions, site: Site)
    ensures forall tag :: tag in TwitterTags(o, site) && tag.Named? && !tag.escaped ==> tag.name == "twitter:card"
  {
    var m := MetaOf(o.seo);
    var d := Description(o);
    var card := Named("twitter:card", OrElse(m.twitterCard, "summary"), false);
    var rest := [Named("twitter:title", o.title, true)]
      + (if d != "" then [Named("twitter:description", d, true)] else [])
      + (if Truthy(m.ogImage) then [Named("twitter:image", ImageUrl(m.ogImage.value, site), true)] else []);
    assert TwitterTags(o, site) == [card] + rest;
    assert forall tag :: tag in rest ==> tag.Named? && tag.escaped;
  }

  // ------------------------------------------------------------------ structured data

  datatype Author = Author(name: string, description: Option<string>)

  /** The BlogPosting object; its constant `@context`/`@type` members are implied. */
  datatype Article = Article(
    headline: string,
    description: string,
    datePublished: string,
    url: string,
    publisherName: string,
    publisherUrl: string,
    dateModified: Option<string>,
    keywords: Option<string>,
    image: Option<string>,
    author: Option<Author>,
    citation: Option<seq<string>>,
    summary: Option<string>)

  /** One `<script type="application/ld+json">` block. */
  datatype LdBlock = BlogPosting(article: Article) | FaqPage(items: seq<FaqItem>)

  predicate IsPostLayout(o: LayoutOptions) {
    o.page.Some? && o.page.value.kind == "post"
  }

  /** The BlogPosting object of a post, with the optional members set as the source sets them. */
  function ArticleOf(page: Page, o: LayoutOptions, site: Site): Article {
    var m := MetaOf(page.seo);
    Article(
      page.title,
      OrElse(m.metaDescription, page.excerpt),
      page.date,
      site.url + o.urlPrefix.GetOr("") + "/posts/" + page.slug,
      OrElse(o.siteName, site.name),
      site.url,
      if Truthy(page.updated) then page.updated else None,
      if |page.tags| > 0 then Some(Join(page.tags, ", ")) else None,
      if Truthy(m.ogImage) then Some(ImageUrl(m.ogImage.value, site)) else None,
      if Truthy(m.authorName)
        then Some(Author(m.authorName.value, if Truthy(m.authorExpertise) then m.authorExpertise else None))
        else None,
      if m.citations.Some? && |m.citations.value| > 0 then m.citations else None,
      if Truthy(m.tldr) then m.tldr else None)
  }

  /** The JSON-LD blocks of `buildStructuredData`, in order. */
  function StructuredData(o: LayoutOptions, site: Site): seq<LdBlock> {
    var faq := MetaOf(o.seo).faq;
    (if IsPostLayout(o) then [BlogPosting(ArticleOf(o.page.value, o, site))] else [])
    + (if faq.Some? && |faq.value| > 0 then [FaqPage(faq.value)] else [])
  }

  /**
   * A BlogPosting block exists exactly for a post and comes first; a FAQ block
   * exists exactly when the layout's own metadata has a non-empty faq, comes
   * last and lists it.
   */
  lemma StructuredDataBlocks(o: LayoutOptions, site: Site)
    ensures var faq := MetaOf(o.seo).faq;
      var blocks := StructuredData(o, site);
      && (IsPostLayout(o) <==> exists i :: 0 <= i < |blocks| && blocks[i].BlogPosting?)
      && (IsPostLayout(o) ==> blocks[0] == BlogPosting(ArticleOf(o.page.value, o, site)))
      && (faq.Some? && |faq.value| > 0 <==> exists i :: 0 <= i < |blocks| && blocks[i].FaqPage?)
      && (faq.Some? && |faq.value| > 0 ==> blocks[|blocks| - 1] == FaqPage(faq.value))
  {
    var faq := MetaOf(o.seo).faq;
    var blocks := StructuredData(o, site);
    if IsPostLayout(o) {
      assert blocks[0].BlogPosting?;
    }
    if faq.Some? && |faq.value| > 0 {
      assert blocks[|blocks| - 1].FaqPage?;
    }
  }

  /**
   * The FAQ block is read from the layout's metadata, not from the page's:
   * a page whose own metadata has a FAQ gets no FAQ block when the layout
   * carries no metadata.
   */
  lemma FaqReadFromLayoutMeta(o: LayoutOptions, site: Site)
    requires o.seo.None?
    ensures forall b :: b in StructuredData(o, site) ==> b.BlogPosting?
  {
  }

  /** The members of the BlogPosting object of a post. */
  lemma ArticleFields(page: Page, o: LayoutOptions, site: Site)
    ensures var a := ArticleOf(page, o, site);
      var m := MetaOf(page.seo);
      && a.headline == page.title
      && a.datePublished == page.date
      && a.description == (if Truthy(m.metaDescription) then m.metaDescription.value else page.excerpt)
      && a.url == site.url + Urls.PagePath("post", page.slug, o.urlPrefix.GetOr(""))
      && a.publisherUrl == site.url
  {
    var prefix := o.urlPrefix.GetOr("");
    assert site.url + prefix + "/posts/" + page.slug == site.url + (prefix + "/posts/" + page.slug);
  }

  /** The optional article fields are present exactly when the page supplies them. */
  lemma ArticleOptionalFields(page: Page, o: LayoutOptions, site: Site)
    ensures var a := ArticleOf(page, o, site);
      var m := MetaOf(page.seo);
      && (a.dateModified.Some? <==> Truthy(page.updated))
      && (a.dateModified.Some? ==> a.dateModified == page.updated)
      && (a.keywords.Some? <==> |page.tags| > 0)
      && (a.keywords.Some? ==> a.keywords.value == Join(page.tags, ", "))
      && a.image == (if Truthy(m.ogImage) then Some(ImageUrl(m.ogImage.value, site)) else None)
      && (a.author.Some? <==> Truthy(m.authorName))
      && (a.author.Some? ==> (a.author.value.name == m.authorName.value
          && (a.author.value.description.Some? <==> Truthy(m.authorExpertise))))
      && (a.citation.Some? <==> m.citations.Some? && |m.citations.value| > 0)
      && (a.summary.Some? <==> Truthy(m.tldr))
  {
  }
}
