/**
 * The three copies of the page-URL rule: `pageUrl` (src/content/render.ts),
 * `navHref` (src/shared/seo.ts) and `pagePath` (astro/lib/format.ts).
 */
module Urls {
  import opened JsString
  import opened ContentTypes
  import opened Wrappers

  /** A character of the slug class `[a-z0-9-]`. */
  predicate IsSlugChar(c: char) {
    ('a' <= c <= 'z') || ('0' <= c <= '9') || c == '-'
  }

  /** `[a-z0-9-]+`: what the routes accept as a slug, and what a wiki-link id is made of. */
  predicate IsSlug(s: string) {
    IsRun(s, IsSlugChar)
  }

  /** A non-empty run of characters of one class: the regex `[class]+`. */
  predicate IsRun(s: string, inClass: char -> bool) {
    s != [] && forall i :: 0 <= i < |s| ==> inClass(s[i])
  }

  /**
   * `pathname.match(/^<prefix>([class]+)$/)`: the captured group when the whole
   * path is the literal prefix followed by a run of the class.
   */
  function MatchPathTail(prefix: string, pathname: string, inClass: char -> bool): (r: Option<string>)
    ensures r.Some? ==> IsRun(r.value, inClass) && pathname == prefix + r.value
    ensures r.None? ==> forall tail :: IsRun(tail, inClass) ==> pathname != prefix + tail
  {
    if |prefix| <= |pathname| && pathname[..|prefix|] == prefix && IsRun(pathname[|prefix|..], inClass) then
      assert pathname == prefix + pathname[|prefix|..];
      Some(pathname[|prefix|..])
    else
      assert forall tail :: pathname == prefix + tail ==> pathname[..|prefix|] == prefix && pathname[|prefix|..] == tail;
      None
  }

  lemma MatchPathTailExact(prefix: string, tail: string, inClass: char -> bool)
    requires IsRun(tail, inClass)
    ensures MatchPathTail(prefix, prefix + tail, inClass) == Some(tail)
  {
    var p := prefix + tail;
    assert p[..|prefix|] == prefix && p[|prefix|..] == tail;
  }

  /** `urlPrefix || "/"`: the empty prefix is falsy. */
  function PrefixOrRoot(urlPrefix: string): string {
    if urlPrefix != "" then urlPrefix else "/"
  }

  /** URL of a link target (render.ts). Never empty, always under the prefix, and a non-home URL ends in its slug. */
  function PageUrl(target: LinkTarget, urlPrefix: string): (url: string)
    ensures url != [] && StartsWith(url, urlPrefix)
    ensures target.kind != "home" ==> EndsWith(url, "/" + target.slug)
  {
    if target.kind == "home" then PrefixOrRoot(urlPrefix)
    else if target.kind == "post" then urlPrefix + "/posts/" + target.slug
    else urlPrefix + "/" + target.slug
  }

  /** Href of a navigation item (seo.ts). */
  function NavHref(item: NavItem, urlPrefix: string): (href: string)
    ensures href != [] && StartsWith(href, urlPrefix)
    ensures item.kind != "home" ==> EndsWith(href, "/" + item.slug)
  {
    if item.kind == "home" then PrefixOrRoot(urlPrefix)
    else if item.kind == "post" then urlPrefix + "/posts/" + item.slug
    else urlPrefix + "/" + item.slug
  }

  /** Public path of a page (format.ts). */
  function PagePath(kind: string, slug: string, urlPrefix: string): (path: string)
    ensures path != [] && StartsWith(path, urlPrefix)
    ensures kind != "home" ==> EndsWith(path, "/" + slug)
  {
    if kind == "home" then PrefixOrRoot(urlPrefix)
    else if kind == "post" then urlPrefix + "/posts/" + slug
    else urlPrefix + "/" + slug
  }

  /** The three copies agree on every input. */
  lemma UrlBuildersAgree(kind: string, id: string, slug: string, title: string, navLabel: string, order: Option<int>, urlPrefix: string)
    ensures PageUrl(LinkTarget(id, slug, kind, title), urlPrefix) == PagePath(kind, slug, urlPrefix)
    ensures NavHref(NavItem(id, slug, kind, navLabel, order), urlPrefix) == PagePath(kind, slug, urlPrefix)
  {
  }
}
