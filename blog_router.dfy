/**
 * The public blog router of src/content/index.ts: which page, listing or error
 * a request gets, from its method, its path and the page table.
 *
 * A reply carries the view the templates would render (the page, the post
 * listing, the navigation items and the page body) rather than HTML; the body
 * is the markdown after wiki-link resolution, before the markdown renderer.
 */
module BlogRouter {
  import opened Wrappers
  import opened JsString
  import opened ContentTypes
  import opened Urls
  import opened Http
  import PageStore
  import WikiLinks

  const DefaultTenantId: string := "_default"

  /** `tenantId ?? "_default"` and `urlPrefix = ""`: only a missing option takes the default. */
  datatype RouterOptions = RouterOptions(tenantId: Option<string>, urlPrefix: Option<string>)

  function TenantOf(options: RouterOptions): string {
    options.tenantId.GetOr(DefaultTenantId)
  }

  function PrefixOf(options: RouterOptions): string {
    options.urlPrefix.GetOr("")
  }

  /** What the templates are given. */
  datatype View =
    | NotFoundView(navItems: seq<NavItem>)
    | HomeView(page: Page, posts: seq<PageSummary>, navItems: seq<NavItem>, intro: Option<string>)
    | PostView(page: Page, body: string, navItems: seq<NavItem>)
    | ContentView(page: Page, body: string, navItems: seq<NavItem>)

  /** The JSON bodies of the API. */
  datatype ApiBody = PostList(posts: seq<PageSummary>) | PostDetail(post: Page) | ApiError(error: string)

  datatype Reply = HtmlReply(html: Response<View>) | JsonReply(json: Response<ApiBody>)

  /**
   * `renderPageContent` up to the markdown renderer: the page's markdown with
   * its wiki links resolved against the tenant's published pages.
   */
  function RenderPageContent(rows: seq<PageStore.PageRow>, markdown: string, tenantId: string, urlPrefix: string): (body: string)
    ensures WikiLinks.TokenIds(WikiLinks.Segments(markdown)) == [] ==> body == markdown
  {
    WikiLinks.ResolveLinks(markdown, rows, tenantId, urlPrefix).output
  }

  /** `page.seo?.noAiTraining`, as the flag handed to `html()`. */
  predicate NoAiTraining(page: Page) {
    page.seo.Some? && page.seo.value.noAiTraining == Some(true)
  }

  /** `pathname.match(/^<prefix>([a-z0-9-]+)$/)`. */
  function MatchSlugAfter(prefix: string, pathname: string): Option<string> {
    MatchPathTail(prefix, pathname, IsSlugChar)
  }

  function NotFound(rows: seq<PageStore.PageRow>, tenantId: string): Reply {
    HtmlReply(Html(NotFoundView(PageStore.GetNavItems(rows, tenantId)), Some(404), false))
  }

  /** GET `/`: the home page with the post listing, or the 404 page. */
  function HomeReply(rows: seq<PageStore.PageRow>, tenantId: string, urlPrefix: string): Reply {
    match PageStore.GetPageByKind(rows, "home", tenantId)
    case None => NotFound(rows, tenantId)
    case Some(page) =>
      var intro := if Trim(page.content) != "" then Some(RenderPageContent(rows, page.content, tenantId, urlPrefix)) else None;
      var view := HomeView(page, PageStore.ListPosts(rows, tenantId), PageStore.GetNavItems(rows, tenantId), intro);
      HtmlReply(Html(view, Some(200), NoAiTraining(page)))
  }

  /** GET `/posts/{slug}`: the post, or the 404 page. */
  function PostReply(slug: string, rows: seq<PageStore.PageRow>, tenantId: string, urlPrefix: string): Reply {
    match PageStore.GetPageBySlug(rows, slug, "post", tenantId)
    case None => NotFound(rows, tenantId)
    case Some(page) =>
      var body := RenderPageContent(rows, page.content, tenantId, urlPrefix);
      HtmlReply(Html(PostView(page, body, PageStore.GetNavItems(rows, tenantId)), Some(200), NoAiTraining(page)))
  }

  /** GET `/{slug}` once a page has been found. */
  function ContentReply(page: Page, rows: seq<PageStore.PageRow>, tenantId: string, urlPrefix: string): Reply {
    var body := RenderPageContent(rows, page.content, tenantId, urlPrefix);
    HtmlReply(Html(ContentView(page, body, PageStore.GetNavItems(rows, tenantId)), Some(200), NoAiTraining(page)))
  }

  /** GET `/api/posts/{slug}`: the post as JSON, or the JSON error with 404. */
  function ApiPostReply(slug: string, rows: seq<PageStore.PageRow>, tenantId: string): Reply {
    match PageStore.GetPageBySlug(rows, slug, "post", tenantId)
    case None => JsonReply(Json(ApiError("Post not found"), Some(404)))
    case Some(post) => JsonReply(Json(PostDetail(post), None))
  }

  /**
   * The request handler returned by `createBlogRouter`, for one request: the
   * checks of the source in their order, the later ones in `RouteAfterHome`,
   * `RouteAfterPost` and `RouteApi`.
   */
  function Route(verb: string, pathname: string, rows: seq<PageStore.PageRow>, options: RouterOptions): Reply {
    if pathname == "/" && verb == "GET" then
      HomeReply(rows, TenantOf(options), PrefixOf(options))
    else
      RouteAfterHome(verb, pathname, rows, options)
  }

  function RouteAfterHome(verb: string, pathname: string, rows: seq<PageStore.PageRow>, options: RouterOptions): Reply {
    var postMatch := MatchSlugAfter("/posts/", pathname);
    if postMatch.Some? && verb == "GET" then
      PostReply(postMatch.value, rows, TenantOf(options), PrefixOf(options))
    else
      RouteAfterPost(verb, pathname, rows, options)
  }

  function RouteAfterPost(verb: string, pathname: string, rows: seq<PageStore.PageRow>, options: RouterOptions): Reply {
    var tenantId := TenantOf(options);
    var pageMatch := MatchSlugAfter("/", pathname);
    if pageMatch.Some? && verb == "GET" && PageStore.GetPageBySlug(rows, pageMatch.value, "page", tenantId).Some? then
      ContentReply(PageStore.GetPageBySlug(rows, pageMatch.value, "page", tenantId).value, rows, tenantId, PrefixOf(options))
    else
      RouteApi(verb, pathname, rows, options)
  }

  function RouteApi(verb: string, pathname: string, rows: seq<PageStore.PageRow>, options: RouterOptions): Reply {
    var tenantId := TenantOf(options);
    var apiPostMatch := MatchSlugAfter("/api/posts/", pathname);
    if pathname == "/api/posts" && verb == "GET" then
      JsonReply(Json(PostList(PageStore.ListPosts(rows, tenantId)), None))
    else if apiPostMatch.Some? && verb == "GET" then
      ApiPostReply(apiPostMatch.value, rows, tenantId)
    else
      NotFound(rows, tenantId)
  }

  /** The page a successful HTML reply shows, if any. */
  function ShownPage(reply: Reply): Option<Page> {
    if reply.HtmlReply? && !reply.html.body.NotFoundView? then Some(reply.html.body.page) else None
  }

  // ------------------------------------------------------------------ path matching

  /** A prefix that ends in `/` after its leading `/` never matches `/{slug}`: a slug has no `/`. */
  lemma SlashedPrefixMisses(prefix: string, slug: string)
    requires IsSlug(slug) && |prefix| >= 2 && prefix[|prefix| - 1] == '/'
    ensures MatchSlugAfter(prefix, "/" + slug).None?
  {
    var p := "/" + slug;
    if |prefix| <= |p| {
      assert p[|prefix| - 1] == slug[|prefix| - 2];
      assert p[..|prefix|][|prefix| - 1] != prefix[|prefix| - 1];
    }
  }

  lemma MatchExact(prefix: string, slug: string)
    requires IsSlug(slug)
    ensures MatchSlugAfter(prefix, prefix + slug) == Some(slug)
  {
    MatchPathTailExact(prefix, slug, IsSlugChar);
  }

  // ------------------------------------------------------------------ the routes one by one

  /**
   * GET `/`: 404 with the navigation items when the tenant has no published home
   * page; otherwise 200 with that page, the post listing and the navigation, and
   * an intro body only when the home content is not blank.
   */
  lemma HomeRoute(rows: seq<PageStore.PageRow>, options: RouterOptions)
    ensures var tenantId := TenantOf(options);
      var reply := Route("GET", "/", rows, options);
      match PageStore.GetPageByKind(rows, "home", tenantId)
      case None => reply == NotFound(rows, tenantId)
      case Some(page) =>
        && reply.HtmlReply? && reply.html.status == 200
        && reply.html.body.HomeView? && reply.html.body.page == page
        && reply.html.body.posts == PageStore.ListPosts(rows, tenantId)
        && reply.html.body.navItems == PageStore.GetNavItems(rows, tenantId)
        && (reply.html.body.intro.Some? <==> Trim(page.content) != "")
  {
  }

  /** GET `/posts/{slug}`: the published post with that slug, or the HTML 404. */
  lemma PostRoute(slug: string, rows: seq<PageStore.PageRow>, options: RouterOptions)
    requires IsSlug(slug)
    ensures var tenantId := TenantOf(options);
      var reply := Route("GET", "/posts/" + slug, rows, options);
      match PageStore.GetPageBySlug(rows, slug, "post", tenantId)
      case None => reply == NotFound(rows, tenantId)
      case Some(page) =>
        && reply.HtmlReply? && reply.html.status == 200
        && reply.html.body == PostView(page, RenderPageContent(rows, page.content, TenantOf(options), PrefixOf(options)), PageStore.GetNavItems(rows, tenantId))
  {
    var p := "/posts/" + slug;
    assert p != "/" by {
      assert |p| > 1;
    }
    MatchExact("/posts/", slug);
    assert Route("GET", p, rows, options) == RouteAfterHome("GET", p, rows, options);
  }

  /**
   * GET `/{slug}`: the published page (kind "page") with that slug; without one
   * the request falls through the API checks to the HTML 404.
   */
  lemma PageRoute(slug: string, rows: seq<PageStore.PageRow>, options: RouterOptions)
    requires IsSlug(slug)
    ensures var tenantId := TenantOf(options);
      var reply := Route("GET", "/" + slug, rows, options);
      match PageStore.GetPageBySlug(rows, slug, "page", tenantId)
      case None => reply == NotFound(rows, tenantId)
      case Some(page) =>
        && reply.HtmlReply? && reply.html.status == 200
        && reply.html.body == ContentView(page, RenderPageContent(rows, page.content, TenantOf(options), PrefixOf(options)), PageStore.GetNavItems(rows, tenantId))
  {
    var p := "/" + slug;
    MatchExact("/", slug);
    assert p != "/";
    SlashedPrefixMisses("/posts/", slug);
    SlashedPrefixMisses("/api/posts/", slug);
    assert p != "/api/posts" by {
      if |p| == 10 {
        assert p[4] == slug[3];
      }
    }
    assert Route("GET", p, rows, options) == RouteAfterHome("GET", p, rows, options);
    assert RouteAfterHome("GET", p, rows, options) == RouteAfterPost("GET", p, rows, options);
    assert RouteApi("GET", p, rows, options) == NotFound(rows, TenantOf(options));
  }

  /** GET `/api/posts` answers the post listing with status 200. */
  lemma ApiListRoute(rows: seq<PageStore.PageRow>, options: RouterOptions)
    ensures Route("GET", "/api/posts", rows, options) == JsonReply(Json(PostList(PageStore.ListPosts(rows, TenantOf(options))), None))
    ensures Route("GET", "/api/posts", rows, options).json.status == 200
  {
    var p := "/api/posts";
    assert MatchSlugAfter("/posts/", p).None? by {
      assert p[..7][1] != "/posts/"[1];
    }
    assert MatchSlugAfter("/", p).None? by {
      assert p[1..][3] == '/' && !IsSlugChar(p[1..][3]);
      assert !IsSlug(p[1..]);
    }
    assert Route("GET", p, rows, options) == RouteAfterHome("GET", p, rows, options);
    assert RouteAfterHome("GET", p, rows, options) == RouteAfterPost("GET", p, rows, options);
    assert RouteAfterPost("GET", p, rows, options) == RouteApi("GET", p, rows, options);
  }

  /** GET `/api/posts/{slug}`: the post as JSON, or `{error: "Post not found"}` with 404. */
  lemma ApiPostRoute(slug: string, rows: seq<PageStore.PageRow>, options: RouterOptions)
    requires IsSlug(slug)
    ensures var reply := Route("GET", "/api/posts/" + slug, rows, options);
      match PageStore.GetPageBySlug(rows, slug, "post", TenantOf(options))
      case None => reply == JsonReply(Json(ApiError("Post not found"), Some(404))) && reply.json.status == 404
      case Some(post) => reply == JsonReply(Json(PostDetail(post), None)) && reply.json.status == 200
  {
    var p := "/api/posts/" + slug;
    MatchExact("/api/posts/", slug);
    assert p != "/" && p != "/api/posts";
    assert MatchSlugAfter("/posts/", p).None? by {
      assert p[1] == 'a';
      assert p[..7][1] != "/posts/"[1];
    }
    assert MatchSlugAfter("/", p).None? by {
      assert p[1..][3] == '/' && !IsSlugChar(p[1..][3]);
      assert !IsSlug(p[1..]);
    }
    assert Route("GET", p, rows, options) == RouteAfterHome("GET", p, rows, options);
    assert RouteAfterHome("GET", p, rows, options) == RouteAfterPost("GET", p, rows, options);
    assert RouteAfterPost("GET", p, rows, options) == RouteApi("GET", p, rows, options);
  }

  /** Any method other than GET gets the HTML 404, whatever the path. */
  lemma NonGetIsNotFound(verb: string, pathname: string, rows: seq<PageStore.PageRow>, options: RouterOptions)
    requires verb != "GET"
    ensures Route(verb, pathname, rows, options) == NotFound(rows, TenantOf(options))
    ensures Route(verb, pathname, rows, options).html.status == 404
  {
  }

  // ------------------------------------------------------------------ properties over every request

  /**
   * An HTML reply either shows a page, with status 200, as a published row of
   * the tenant, with the `X-Robots-Tag` header exactly when the page's own
   * metadata asks for it; or it is the 404 page, without that header.
   */
  predicate WellFormed(reply: Reply, rows: seq<PageStore.PageRow>, tenantId: string) {
    reply.HtmlReply? ==>
      if ShownPage(reply).Some? then
        var page := ShownPage(reply).value;
        && reply.html.status == 200
        && page.published
        && (exists row :: row in rows && row.tenantId == tenantId && row.published == 1 && page == PageStore.RowToPage(row))
        && ("X-Robots-Tag" in reply.html.headers <==> NoAiTraining(page))
      else
        reply.html.status == 404 && "X-Robots-Tag" !in reply.html.headers
  }

  /** Where each kind of page is shown: home only at `/`, a post at `/posts/{slug}`, a plain page at `/{slug}`. */
  predicate ShownWhere(reply: Reply, pathname: string) {
    ShownPage(reply).Some? ==>
      var page := ShownPage(reply).value;
      && (reply.html.body.HomeView? ==> page.kind == "home" && pathname == "/")
      && (reply.html.body.PostView? ==> page.kind == "post" && pathname == "/posts/" + page.slug)
      && (reply.html.body.ContentView? ==> page.kind == "page" && pathname == "/" + page.slug)
  }

  /** A page that a table lookup returned, shown with 200, makes a well-formed reply. */
  lemma ShownPageWellFormed(view: View, rows: seq<PageStore.PageRow>, tenantId: string, i: int)
    requires !view.NotFoundView? && view.page.published
    requires 0 <= i < |rows| && rows[i].tenantId == tenantId && view.page == PageStore.RowToPage(rows[i])
    ensures WellFormed(HtmlReply(Html(view, Some(200), NoAiTraining(view.page))), rows, tenantId)
  {
    assert rows[i] in rows;
  }

  lemma NotFoundWellFormed(rows: seq<PageStore.PageRow>, tenantId: string, pathname: string)
    ensures WellFormed(NotFound(rows, tenantId), rows, tenantId)
    ensures ShownWhere(NotFound(rows, tenantId), pathname)
  {
  }

  lemma HomeReplyWellFormed(rows: seq<PageStore.PageRow>, tenantId: string, urlPrefix: string)
    ensures WellFormed(HomeReply(rows, tenantId, urlPrefix), rows, tenantId)
    ensures ShownWhere(HomeReply(rows, tenantId, urlPrefix), "/")
  {
    var found := PageStore.GetPageByKind(rows, "home", tenantId);
    if found.None? {
      NotFoundWellFormed(rows, tenantId, "/");
    } else {
      var page := found.value;
      var i :| 0 <= i < |rows| && rows[i].tenantId == tenantId && page == PageStore.RowToPage(rows[i]);
      var intro := if Trim(page.content) != "" then Some(RenderPageContent(rows, page.content, tenantId, urlPrefix)) else None;
      var view := HomeView(page, PageStore.ListPosts(rows, tenantId), PageStore.GetNavItems(rows, tenantId), intro);
      assert HomeReply(rows, tenantId, urlPrefix) == HtmlReply(Html(view, Some(200), NoAiTraining(page)));
      ShownPageWellFormed(view, rows, tenantId, i);
    }
  }

  lemma PostReplyWellFormed(slug: string, rows: seq<PageStore.PageRow>, tenantId: string, urlPrefix: string)
    ensures WellFormed(PostReply(slug, rows, tenantId, urlPrefix), rows, tenantId)
    ensures ShownWhere(PostReply(slug, rows, tenantId, urlPrefix), "/posts/" + slug)
  {
    var found := PageStore.GetPageBySlug(rows, slug, "post", tenantId);
    if found.None? {
      NotFoundWellFormed(rows, tenantId, "/posts/" + slug);
    } else {
      var page := found.value;
      var i :| 0 <= i < |rows| && rows[i].tenantId == tenantId && page == PageStore.RowToPage(rows[i]);
      var view := PostView(page, RenderPageContent(rows, page.content, tenantId, urlPrefix), PageStore.GetNavItems(rows, tenantId));
      assert PostReply(slug, rows, tenantId, urlPrefix) == HtmlReply(Html(view, Some(200), NoAiTraining(page)));
      ShownPageWellFormed(view, rows, tenantId, i);
    }
  }

  lemma ContentReplyWellFormed(slug: string, rows: seq<PageStore.PageRow>, tenantId: string, urlPrefix: string)
    requires PageStore.GetPageBySlug(rows, slug, "page", tenantId).Some?
    ensures var page := PageStore.GetPageBySlug(rows, slug, "page", tenantId).value;
      WellFormed(ContentReply(page, rows, tenantId, urlPrefix), rows, tenantId)
      && ShownWhere(ContentReply(page, rows, tenantId, urlPrefix), "/" + slug)
  {
    var page := PageStore.GetPageBySlug(rows, slug, "page", tenantId).value;
    var i :| 0 <= i < |rows| && rows[i].tenantId == tenantId && page == PageStore.RowToPage(rows[i]);
    var view := ContentView(page, RenderPageContent(rows, page.content, tenantId, urlPrefix), PageStore.GetNavItems(rows, tenantId));
    assert ContentReply(page, rows, tenantId, urlPrefix) == HtmlReply(Html(view, Some(200), NoAiTraining(page)));
    ShownPageWellFormed(view, rows, tenantId, i);
  }

  /**
   * Every reply of the router is well formed: a page is only ever shown with
   * 200, as a published row of the router's tenant, with the robots header
   * taken from that page's metadata, and at the path of its kind.
   */
  lemma RepliesWellFormed(verb: string, pathname: string, rows: seq<PageStore.PageRow>, options: RouterOptions)
    ensures WellFormed(Route(verb, pathname, rows, options), rows, TenantOf(options))
    ensures ShownWhere(Route(verb, pathname, rows, options), pathname)
  {
    var tenantId := TenantOf(options);
    var urlPrefix := PrefixOf(options);
    var postMatch := MatchSlugAfter("/posts/", pathname);
    var pageMatch := MatchSlugAfter("/", pathname);
    if pathname == "/" && verb == "GET" {
      HomeReplyWellFormed(rows, tenantId, urlPrefix);
    } else if postMatch.Some? && verb == "GET" {
      PostReplyWellFormed(postMatch.value, rows, tenantId, urlPrefix);
    } else if pageMatch.Some? && verb == "GET" && PageStore.GetPageBySlug(rows, pageMatch.value, "page", tenantId).Some? {
      ContentReplyWellFormed(pageMatch.value, rows, tenantId, urlPrefix);
    } else {
      assert Route(verb, pathname, rows, options) == RouteApi(verb, pathname, rows, options);
      NotFoundWellFormed(rows, tenantId, pathname);
    }
  }

  /**
   * Every published post or page of the tenant whose slug is a valid slug, and
   * a published home page, is reachable at the path `pagePath` gives it (the
   * router sees the path with the tenant prefix already removed): the reply is
   * 200 and shows a page of that kind and slug.
   */
  lemma PublishedPagesReachable(row: PageStore.PageRow, rows: seq<PageStore.PageRow>, options: RouterOptions)
    requires row in rows && row.tenantId == TenantOf(options) && row.published == 1
    requires row.kind == "home" || ((row.kind == "post" || row.kind == "page") && IsSlug(row.slug))
    ensures var reply := Route("GET", PagePath(row.kind, row.slug, ""), rows, options);
      && reply.HtmlReply? && reply.html.status == 200 && ShownPage(reply).Some?
      && ShownPage(reply).value.kind == row.kind
      && (row.kind != "home" ==> ShownPage(reply).value.slug == row.slug)
  {
    var tenantId := TenantOf(options);
    if row.kind == "home" {
      assert PageStore.Selects(PageStore.PublishedByKind(row.kind), row, row.tenantId);
      assert PageStore.GetPageByKind(rows, "home", tenantId).Some?;
      assert PagePath(row.kind, row.slug, "") == "/";
      HomeRoute(rows, options);
    } else if row.kind == "post" {
      assert PageStore.Selects(PageStore.PublishedBySlug(row.slug, row.kind), row, row.tenantId);
      assert PageStore.GetPageBySlug(rows, row.slug, "post", tenantId).Some?;
      assert PagePath(row.kind, row.slug, "") == "/posts/" + row.slug;
      PostRoute(row.slug, rows, options);
    } else {
      assert PageStore.Selects(PageStore.PublishedBySlug(row.slug, row.kind), row, row.tenantId);
      assert PageStore.GetPageBySlug(rows, row.slug, "page", tenantId).Some?;
      assert PagePath(row.kind, row.slug, "") == "/" + row.slug;
      PageRoute(row.slug, rows, options);
    }
  }
}
