/**
 * The admin router of src/editor/index.ts: the logout / login / auth-guard
 * chain, the route each authorised request takes, the page built from the
 * editor form on save, and the effect of each route on the page table and the
 * site-bundle store.
 *
 * The built-in password gate of src/editor/auth.ts is reduced to the
 * configured password and whether the request's session cookie verifies.
 */
module EditorRouter {
  import opened Wrappers
  import opened JsString
  import opened ContentTypes
  import opened Urls
  import opened Http
  import PageStore
  import SiteBundle

  const DefaultTenantId: string := "_default"

  /** `createEditorRouter` options: a missing tenant or prefix takes its default, `skipAuth` defaults to false. */
  datatype EditorConfig = EditorConfig(tenantId: Option<string>, urlPrefix: Option<string>, skipAuth: bool)

  function TenantOf(cfg: EditorConfig): string {
    cfg.tenantId.GetOr(DefaultTenantId)
  }

  function AdminBase(cfg: EditorConfig): string {
    cfg.urlPrefix.GetOr("") + "/admin"
  }

  function EditorBase(cfg: EditorConfig): string {
    AdminBase(cfg) + "/editor"
  }

  /** The password gate: EDITOR_PASSWORD ("" when unset) and whether the request's signed session cookie verifies. */
  datatype Auth = Auth(password: string, sessionValid: bool)

  /** `editorRequiresAuth`: a password is configured. */
  predicate RequiresAuth(auth: Auth) {
    auth.password != ""
  }

  /** `isAuthenticated`: open access without a password, otherwise a session cookie that verifies (a throwing check reads as none). */
  predicate IsAuthenticated(auth: Auth) {
    !RequiresAuth(auth) || auth.sessionValid
  }

  /**
   * `verifyEditorPassword`: never without a configured password, otherwise the
   * plain strings compared for equality. The cases where `timingSafeEqual`
   * throws are read as a refused password.
   */
  predicate PasswordAccepted(auth: Auth, given: string) {
    auth.password != "" && given == auth.password
  }

  /** A request as the router sees it: method, path below the tenant prefix, and the parsed form body. */
  datatype Request = Request(verb: string, pathname: string, form: map<string, string>)

  /** `body.name`: undefined when the form has no such field. */
  function Field(form: map<string, string>, name: string): Option<string> {
    if name in form then Some(form[name]) else None
  }

  /** What a redirect does to the session cookie. */
  datatype Session = KeepSession | StartSession | EndSession

  /** What the admin templates are given. */
  datatype EditorView =
    | OverviewView
    | LoginView(error: Option<string>)
    | SiteEditorView(bundle: Option<SiteBundle.Bundle>, revisions: seq<SiteBundle.RevisionInfo>, current: Option<nat>)
    | PageListView(pages: seq<Page>)
    | PageFormView(page: Option<Page>)

  datatype Outcome = Shown(page: Response<EditorView>) | Redirected(redirect: Response<()>, session: Session)

  /** The route a request takes: either an answer that needs no store, or an operation on the stores. */
  datatype Action =
    | Answer(outcome: Outcome)
    | ShowSite
    | SaveBundle(html: string, css: string, js: string)
    | UseMinimal
    | UseRevision(revisionId: nat)
    | DeleteRevision(revisionId: nat)
    | ListPages
    | EditPage(pageId: string)
    | SavePage(form: PageForm)
    | DeletePage(pageId: string)

  function RedirectTo(location: string, session: Session): Action {
    Answer(Redirected(Redirect(location, None), session))
  }

  function Show(view: EditorView): Action {
    Answer(Shown(Html(view, None, false)))
  }

  /** `[a-zA-Z0-9_-]`: the characters of a page id in the edit and delete routes. */
  predicate IsPageIdChar(c: char) {
    ('a' <= c <= 'z') || ('A' <= c <= 'Z') || ('0' <= c <= '9') || c == '_' || c == '-'
  }

  /** The ids the edit route leaves to the other routes. */
  predicate IsReservedId(id: string) {
    id == "new" || id == "save" || id == "login" || id == "delete"
  }

  /** The logout, login and auth-guard steps, then the authorised routes. */
  function Decide(req: Request, cfg: EditorConfig, auth: Auth): Action {
    var get := req.verb == "GET";
    var post := req.verb == "POST";
    if req.pathname == "/admin/logout" && (post || get) then
      RedirectTo(AdminBase(cfg), EndSession)
    else if !cfg.skipAuth && req.pathname == "/admin/login" && get then
      if !RequiresAuth(auth) then RedirectTo(AdminBase(cfg), KeepSession) else Show(LoginView(None))
    else if !cfg.skipAuth && req.pathname == "/admin/login" && post then
      if !PasswordAccepted(auth, Field(req.form, "password").GetOr("")) then Show(LoginView(Some("Incorrect password.")))
      else RedirectTo(AdminBase(cfg), StartSession)
    else if !cfg.skipAuth && !IsAuthenticated(auth) && RequiresAuth(auth) then
      RedirectTo(AdminBase(cfg) + "/login", KeepSession)
    else
      Authorised(req, cfg)
  }

  /** The routes behind the auth guard, tried in order: overview, site bundle, revisions, pages. */
  function Authorised(req: Request, cfg: EditorConfig): Action {
    var get := req.verb == "GET";
    var post := req.verb == "POST";
    var path := req.pathname;
    if path == "/admin" && get then Show(OverviewView)
    else if path == "/admin/site" && get then ShowSite
    else if path == "/admin/site/save" && post then
      SaveBundle(Field(req.form, "html").GetOr(""), Field(req.form, "css").GetOr(""), Field(req.form, "js").GetOr(""))
    else if path == "/admin/site/use-minimal" && post then UseMinimal
    else RevisionRoutes(req, cfg)
  }

  /** `/admin/site/revision/use/(\d+)` and `/admin/site/revision/delete/(\d+)`, by POST. */
  function RevisionRoutes(req: Request, cfg: EditorConfig): Action {
    var post := req.verb == "POST";
    var useMatch := MatchPathTail("/admin/site/revision/use/", req.pathname, IsDigit);
    var deleteMatch := MatchPathTail("/admin/site/revision/delete/", req.pathname, IsDigit);
    if useMatch.Some? && post then UseRevision(DigitsValue(useMatch.value))
    else if deleteMatch.Some? && post then DeleteRevision(DigitsValue(deleteMatch.value))
    else PageRoutes(req, cfg)
  }

  /** The page list, the new and edit forms, save, and delete. */
  function PageRoutes(req: Request, cfg: EditorConfig): Action {
    var get := req.verb == "GET";
    var post := req.verb == "POST";
    var path := req.pathname;
    var editMatch := MatchPathTail("/admin/editor/", path, IsPageIdChar);
    var deleteMatch := MatchPathTail("/admin/editor/delete/", path, IsPageIdChar);
    if path == "/admin/editor" && get then ListPages
    else if path == "/admin/editor/new" && get then Show(PageFormView(None))
    else if editMatch.Some? && get && !IsReservedId(editMatch.value) then EditPage(editMatch.value)
    else if path == "/admin/editor/save" && post then SavePage(PageFormOf(req.form))
    else if deleteMatch.Some? && post then DeletePage(deleteMatch.value)
    else RedirectTo(AdminBase(cfg), KeepSession)
  }

  // ------------------------------------------------------------------ the decision chain

  /** Logout is served before any auth check, for GET and POST alike, and ends the session. */
  lemma LogoutBeforeAuth(verb: string, form: map<string, string>, cfg: EditorConfig, auth: Auth)
    requires verb == "GET" || verb == "POST"
    ensures Decide(Request(verb, "/admin/logout", form), cfg, auth) == RedirectTo(AdminBase(cfg), EndSession)
  {
  }

  /**
   * With the built-in gate on and a password set, a request without a valid
   * session that is not a login or logout request is redirected to the login
   * page and touches no store.
   */
  lemma AuthGuard(req: Request, cfg: EditorConfig, auth: Auth)
    requires !cfg.skipAuth && RequiresAuth(auth) && !auth.sessionValid
    requires !(req.pathname == "/admin/logout" && (req.verb == "GET" || req.verb == "POST"))
    requires !(req.pathname == "/admin/login" && (req.verb == "GET" || req.verb == "POST"))
    ensures Decide(req, cfg, auth) == RedirectTo(AdminBase(cfg) + "/login", KeepSession)
  {
  }

  /** Without a valid session (and with a password set) no request reaches a store: only answers, never operations. */
  lemma UnauthenticatedNeverTouchesStore(req: Request, cfg: EditorConfig, auth: Auth)
    requires !cfg.skipAuth && RequiresAuth(auth) && !auth.sessionValid
    ensures Decide(req, cfg, auth).Answer?
  {
  }

  /** The login form starts a session exactly when the password is accepted. */
  lemma LoginStartsSession(form: map<string, string>, cfg: EditorConfig, auth: Auth)
    requires !cfg.skipAuth
    ensures var a := Decide(Request("POST", "/admin/login", form), cfg, auth);
      && (a.Answer? && a.outcome.Redirected? && a.outcome.session == StartSession
          <==> PasswordAccepted(auth, Field(form, "password").GetOr("")))
      && (!PasswordAccepted(auth, Field(form, "password").GetOr("")) ==> a == Show(LoginView(Some("Incorrect password."))))
  {
  }

  /** With `skipAuth` the caller has authenticated: everything but logout goes straight to the routes. */
  lemma SkipAuthGoesStraightToRoutes(req: Request, cfg: EditorConfig, auth: Auth)
    requires cfg.skipAuth
    requires !(req.pathname == "/admin/logout" && (req.verb == "GET" || req.verb == "POST"))
    ensures Decide(req, cfg, auth) == Authorised(req, cfg)
  {
  }

  /**
   * The edit route takes only ids of `[a-zA-Z0-9_-]+` under `/admin/editor/`,
   * never a reserved one, and only for GET.
   */
  lemma EditRouteIds(req: Request, cfg: EditorConfig)
    ensures Authorised(req, cfg).EditPage? ==>
      var id := Authorised(req, cfg).pageId;
      && req.verb == "GET" && req.pathname == "/admin/editor/" + id
      && IsRun(id, IsPageIdChar) && !IsReservedId(id)
  {
  }

  /** A reserved id under `/admin/editor/` never reaches the edit route. */
  lemma ReservedIdsNotEdited(id: string, req: Request, cfg: EditorConfig)
    requires IsReservedId(id) && req.pathname == "/admin/editor/" + id
    ensures !Authorised(req, cfg).EditPage?
  {
  }

  /**
   * The revision use and delete routes take only all-digit ids, by POST, and
   * pass on their decimal value (what `parseInt(id, 10)` gives for digits).
   */
  lemma RevisionRouteIds(req: Request, cfg: EditorConfig)
    ensures Authorised(req, cfg).UseRevision? ==>
      && req.verb == "POST"
      && exists d :: (IsDigits(d) && req.pathname == "/admin/site/revision/use/" + d
        && ParseInt(d) == Some(Authorised(req, cfg).revisionId as int))
    ensures Authorised(req, cfg).DeleteRevision? ==>
      && req.verb == "POST"
      && exists d :: (IsDigits(d) && req.pathname == "/admin/site/revision/delete/" + d
        && ParseInt(d) == Some(Authorised(req, cfg).revisionId as int))
  {
    var a := Authorised(req, cfg);
    if a.UseRevision? || a.DeleteRevision? {
      assert a == RevisionRoutes(req, cfg);
      assert !PageRoutes(req, cfg).UseRevision? && !PageRoutes(req, cfg).DeleteRevision?;
      var useMatch := MatchPathTail("/admin/site/revision/use/", req.pathname, IsDigit);
      var deleteMatch := MatchPathTail("/admin/site/revision/delete/", req.pathname, IsDigit);
      if useMatch.Some? && req.verb == "POST" {
        ParseIntOfDigits(useMatch.value);
      } else {
        ParseIntOfDigits(deleteMatch.value);
      }
    }
  }

  // ------------------------------------------------------------------ the page a save builds

  /** The fields of the page editor form that a save reads (`body.id`, `body.content`, ...). */
  datatype PageForm = PageForm(
    id: Option<string>,
    content: Option<string>,
    title: Option<string>,
    slug: Option<string>,
    kind: Option<string>,
    excerpt: Option<string>,
    tags: Option<string>,
    date: Option<string>,
    published: Option<string>,
    navLabel: Option<string>,
    navOrder: Option<string>)

  function PageFormOf(body: map<string, string>): PageForm {
    PageForm(
      Field(body, "id"), Field(body, "content"), Field(body, "title"), Field(body, "slug"),
      Field(body, "kind"), Field(body, "excerpt"), Field(body, "tags"), Field(body, "date"),
      Field(body, "published"), Field(body, "nav_label"), Field(body, "nav_order"))
  }

  /** `!body.id || body.id.trim() === ""`: a form without a usable id creates a page. */
  predicate IsNewSave(form: PageForm) {
    !Truthy(form.id) || Trim(form.id.value) == ""
  }

  /** A new page gets the fresh id (`randomUUID()`), an existing one its trimmed id. */
  function SavedPageId(form: PageForm, freshId: string): string {
    if IsNewSave(form) then freshId else Trim(form.id.value)
  }

  /** `now.slice(0, 10)`: the date part of an ISO timestamp. */
  function Today(now: string): (r: string)
    ensures |r| == if |now| < 10 then |now| else 10
    ensures StartsWith(now, r)
  {
    if |now| < 10 then now else now[..10]
  }

  /**
   * `body.content ?? ""`, except that an update without content keeps the
   * stored page's content when that is non-empty.
   */
  function SavedContent(form: PageForm, isNew: bool, existing: Option<Page>): string {
    var content := form.content.GetOr("");
    if !isNew && content == "" && existing.Some? && existing.value.content != "" then existing.value.content
    else content
  }

  /** `.map(t => t.trim()).filter(Boolean)`. */
  function CleanTags(parts: seq<string>): (tags: seq<string>)
    ensures |tags| <= |parts|
    ensures forall t :: t in tags ==> t != "" && Trim(t) == t
  {
    if parts == [] then []
    else
      var t := Trim(parts[0]);
      var head := if t == "" then [] else [t];
      var rest := CleanTags(parts[1..]);
      assert forall x :: x in head ==> x == t;
      TrimIdempotent(parts[0]);
      head + rest
  }

  /** The `tags` field: split at commas, trimmed, empty entries dropped. */
  function SplitTags(s: string): (tags: seq<string>)
    ensures forall t :: t in tags ==> t != "" && Trim(t) == t
  {
    CleanTags(Split(s, ','))
  }

  /** A tag as the form can carry it through a save unchanged. */
  predicate CleanTag(t: string) {
    t != "" && Trim(t) == t && ',' !in t
  }

  /** `(slug || "").trim().toLowerCase()`: no surrounding white space and no upper-case letter. */
  function SlugOf(raw: string): (slug: string)
    ensures forall i :: 0 <= i < |slug| ==> !('A' <= slug[i] <= 'Z')
    ensures slug == [] || (!IsJsSpace(slug[0]) && !IsJsSpace(slug[|slug| - 1]))
  {
    var trimmed := Trim(raw);
    var slug := ToLower(trimmed);
    if slug != [] then
      LowerCharSpace(trimmed[0]);
      LowerCharSpace(trimmed[|trimmed| - 1]);
      slug
    else slug
  }

  /** The nav entry: present exactly when the label has a non-blank value; the order is `parseInt(nav_order || "0", 10)`. */
  function SavedNav(form: PageForm): Option<NavInfo> {
    if Truthy(form.navLabel) && Trim(form.navLabel.value) != "" then
      Some(NavInfo(Trim(form.navLabel.value), ParseInt(OrElse(form.navOrder, "0"))))
    else None
  }

  /**
   * The page `POST /admin/editor/save` writes. `existing` is the stored page
   * under the saved id; it is consulted only for the content. The editor form
   * has no fields for `seo` and `scripts`, so a save writes neither.
   */
  function SavedPage(form: PageForm, freshId: string, existing: Option<Page>, now: string): Page {
    var isNew := IsNewSave(form);
    Page(
      SavedPageId(form, freshId),
      SlugOf(OrElse(form.slug, "")),
      Trim(OrElse(form.title, "")),
      SavedContent(form, isNew, existing),
      Trim(OrElse(form.excerpt, "")),
      SplitTags(OrElse(form.tags, "")),
      OrElse(form.date, Today(now)),
      if isNew then None else Some(Today(now)),
      form.published == Some("on"),
      None,
      None,
      OrElse(form.kind, "post"),
      SavedNav(form))
  }

  /** A new page takes the fresh id and has no `updated`; an update keeps its trimmed, non-empty id and is updated today. */
  lemma SavedIdentity(form: PageForm, freshId: string, existing: Option<Page>, now: string)
    ensures var p := SavedPage(form, freshId, existing, now);
      && (IsNewSave(form) ==> p.id == freshId && p.updated.None?)
      && (!IsNewSave(form) ==> p.id != "" && Trim(p.id) == p.id && p.updated == Some(Today(now)))
  {
    if !IsNewSave(form) {
      TrimIdempotent(form.id.value);
    }
  }

  /** The slug is trimmed and has no upper-case letter; title and excerpt are trimmed. */
  lemma SavedText(form: PageForm, freshId: string, existing: Option<Page>, now: string)
    ensures var p := SavedPage(form, freshId, existing, now);
      && (forall i :: 0 <= i < |p.slug| ==> !('A' <= p.slug[i] <= 'Z'))
      && (p.slug == [] || (!IsJsSpace(p.slug[0]) && !IsJsSpace(p.slug[|p.slug| - 1])))
      && Trim(p.title) == p.title && Trim(p.excerpt) == p.excerpt
  {
    TrimIdempotent(OrElse(form.title, ""));
    TrimIdempotent(OrElse(form.excerpt, ""));
  }

  /** Every saved tag is non-empty, trimmed and free of commas. */
  lemma SavedTags(form: PageForm, freshId: string, existing: Option<Page>, now: string)
    ensures forall t :: t in SavedPage(form, freshId, existing, now).tags ==> CleanTag(t)
  {
    SplitTagsHaveNoComma(OrElse(form.tags, ""));
  }

  /** Published exactly when the checkbox sent "on"; the date and kind are never empty; no `seo` and no `scripts`. */
  lemma SavedFlags(form: PageForm, freshId: string, existing: Option<Page>, now: string)
    ensures var p := SavedPage(form, freshId, existing, now);
      && (now != "" || Truthy(form.date) ==> p.date != "")
      && (p.published <==> form.published == Some("on"))
      && p.kind != ""
      && p.seo.None? && p.scripts.None?
  {
  }

  /** A nav entry exactly when the label is not blank, carrying the trimmed label. */
  lemma SavedNavEntry(form: PageForm, freshId: string, existing: Option<Page>, now: string)
    ensures var nav := SavedPage(form, freshId, existing, now).nav;
      && (nav.Some? <==> Truthy(form.navLabel) && Trim(form.navLabel.value) != "")
      && (nav.Some? ==> nav.value.navLabel != "" && Trim(nav.value.navLabel) == nav.value.navLabel)
  {
    if SavedNav(form).Some? {
      TrimIdempotent(form.navLabel.value);
    }
  }

  lemma SplitTagsHaveNoComma(s: string)
    ensures forall t :: t in SplitTags(s) ==> CleanTag(t)
  {
    CleanTagsKeepOut(Split(s, ','), ',');
  }

  /** Trimming and dropping entries never introduces a character. */
  lemma {:induction false} CleanTagsKeepOut(parts: seq<string>, c: char)
    requires forall p :: p in parts ==> c !in p
    ensures forall t :: t in CleanTags(parts) ==> c !in t
  {
    if parts != [] {
      assert parts[0] in parts;
      assert forall p :: p in parts[1..] ==> p in parts;
      CleanTagsKeepOut(parts[1..], c);
      var t := Trim(parts[0]);
      assert forall i :: 0 <= i < |t| ==> t[i] in parts[0];
    }
  }

  /**
   * An update never erases content: a form without content keeps the stored
   * page's non-empty content, and a form with content writes exactly that.
   */
  lemma ContentNeverErased(form: PageForm, freshId: string, existing: Option<Page>, now: string)
    ensures var p := SavedPage(form, freshId, existing, now);
      && (Truthy(form.content) ==> p.content == form.content.value)
      && (!IsNewSave(form) && existing.Some? && existing.value.content != "" ==> p.content != "")
      && (IsNewSave(form) ==> p.content == form.content.GetOr(""))
  {
  }

  /** The edit form shows tags as `tags.join(", ")`; a save reads back the same tags. */
  lemma {:induction false} TagsRoundTrip(tags: seq<string>)
    requires forall t :: t in tags ==> CleanTag(t)
    ensures SplitTags(Join(tags, ", ")) == tags
  {
    if tags == [] {
      assert Split("", ',') == [""];
      assert Trim("") == "";
    } else if |tags| == 1 {
      assert tags[0] in tags;
      SplitNoSep(tags[0], ',');
      CleanTagsCons(tags[0], []);
    } else {
      assert forall t :: t in tags[1..] ==> t in tags;
      TagsRoundTrip(tags[1..]);
      TagsJoinStep(tags);
    }
  }

  /** The first tag, then `", "` and the rest: the first tag comes out, the rest is read as on its own. */
  lemma TagsJoinStep(tags: seq<string>)
    requires |tags| > 1 && CleanTag(tags[0])
    ensures SplitTags(Join(tags, ", ")) == [tags[0]] + SplitTags(Join(tags[1..], ", "))
  {
    var rest := Join(tags[1..], ", ");
    var spaced := " " + rest;
    assert Join(tags, ", ") == tags[0] + [','] + spaced by {
      assert Join(tags, ", ") == tags[0] + ", " + rest;
      CommaSpace(tags[0], rest);
    }
    assert Split(Join(tags, ", "), ',') == [tags[0]] + Split(spaced, ',') by {
      SplitAfter(tags[0], spaced, ',');
    }
    assert SplitTags(Join(tags, ", ")) == [tags[0]] + SplitTags(spaced) by {
      CleanTagsCons(tags[0], Split(spaced, ','));
    }
    LeadingSpaceIgnored(rest);
  }

  lemma CommaSpace(a: string, b: string)
    ensures a + ", " + b == a + [','] + (" " + b)
  {
    assert ", " == [','] + " ";
  }

  /** A tag that is already clean is kept as it is. */
  lemma CleanTagsCons(t: string, parts: seq<string>)
    requires t != "" && Trim(t) == t
    ensures CleanTags([t] + parts) == [t] + CleanTags(parts)
  {
    assert ([t] + parts)[0] == t;
    assert ([t] + parts)[1..] == parts;
  }

  /** A space after the comma is trimmed away. */
  lemma LeadingSpaceIgnored(s: string)
    ensures SplitTags(" " + s) == SplitTags(s)
  {
    var parts := Split(s, ',');
    var spaced := Split(" " + s, ',');
    assert (" " + s)[1..] == s;
    assert spaced == [" " + parts[0]] + parts[1..];
    TrimLeadingSpace(parts[0]);
    assert spaced[1..] == parts[1..];
  }

  /**
   * The fields of the edit form for page `p` as the browser submits them: the
   * content the editor holds, the checkbox only when checked, the date input's
   * `date.slice(0, 10)`, a missing nav as empty fields.
   */
  function EditForm(p: Page, content: string): PageForm {
    PageForm(
      Some(p.id), Some(content), Some(p.title), Some(p.slug), Some(p.kind), Some(p.excerpt),
      Some(Join(p.tags, ", ")), Some(Today(p.date)),
      if p.published then Some("on") else None,
      Some(if p.nav.Some? then p.nav.value.navLabel else ""),
      Some(if p.nav.Some? && p.nav.value.order.Some? then IntToString(p.nav.value.order.value) else ""))
  }

  /** What the edit form can show and submit back unchanged. */
  predicate Editable(p: Page) {
    && p.id != "" && Trim(p.id) == p.id
    && IsSlug(p.slug)
    && Trim(p.title) == p.title && Trim(p.excerpt) == p.excerpt
    && (forall t :: t in p.tags ==> CleanTag(t))
    && p.date != ""
    && (p.kind == "post" || p.kind == "page" || p.kind == "home")
    && (p.nav.Some? ==> (p.nav.value.navLabel != "" && Trim(p.nav.value.navLabel) == p.nav.value.navLabel
                         && p.nav.value.order.Some?))
  }

  /**
   * Opening a stored page in the editor and saving without changes writes the
   * page back: only `updated` becomes today, the date loses any time part, and
   * the `seo` and `scripts` the form cannot carry are dropped.
   */
  lemma EditFormRoundTrip(p: Page, freshId: string, now: string)
    requires Editable(p)
    ensures SavedPage(EditForm(p, p.content), freshId, Some(p), now)
      == p.(date := Today(p.date), updated := Some(Today(now)), seo := None, scripts := None)
  {
    var form := EditForm(p, p.content);
    var r := SavedPage(form, freshId, Some(p), now);
    FilledIdentity(form, p, freshId, now);
    FilledText(form, p, freshId, now);
    FilledTags(form, p, freshId, now);
    FilledFlags(form, p, freshId, now);
    NavRoundTrip(p);
    assert r.nav == p.nav;
  }

  lemma FilledIdentity(form: PageForm, p: Page, freshId: string, now: string)
    requires form.id == Some(p.id) && form.content == Some(p.content)
    requires p.id != "" && Trim(p.id) == p.id
    ensures var r := SavedPage(form, freshId, Some(p), now);
      && r.id == p.id && r.content == p.content && r.updated == Some(Today(now))
  {
    assert !IsNewSave(form);
  }

  lemma FilledText(form: PageForm, p: Page, freshId: string, now: string)
    requires form.slug == Some(p.slug) && form.title == Some(p.title) && form.excerpt == Some(p.excerpt)
    requires IsSlug(p.slug) && Trim(p.title) == p.title && Trim(p.excerpt) == p.excerpt
    ensures var r := SavedPage(form, freshId, Some(p), now);
      && r.slug == p.slug && r.title == p.title && r.excerpt == p.excerpt
  {
    SlugOfSlug(p.slug);
  }

  lemma FilledTags(form: PageForm, p: Page, freshId: string, now: string)
    requires form.tags == Some(Join(p.tags, ", "))
    requires forall t :: t in p.tags ==> CleanTag(t)
    ensures SavedPage(form, freshId, Some(p), now).tags == p.tags
  {
    TagsRoundTrip(p.tags);
  }

  lemma FilledFlags(form: PageForm, p: Page, freshId: string, now: string)
    requires form.date == Some(Today(p.date)) && form.kind == Some(p.kind)
    requires form.published == if p.published then Some("on") else None
    requires p.date != "" && p.kind != ""
    ensures var r := SavedPage(form, freshId, Some(p), now);
      && r.date == Today(p.date) && r.published == p.published && r.kind == p.kind
      && r.seo.None? && r.scripts.None?
  {
  }

  /** A slug that already matches `[a-z0-9-]+` is kept as it is. */
  lemma SlugOfSlug(slug: string)
    requires IsSlug(slug)
    ensures SlugOf(slug) == slug
  {
    assert Trim(slug) == slug by {
      assert !IsJsSpace(slug[0]) && !IsJsSpace(slug[|slug| - 1]);
      TrimUnique(slug, 0, |slug|);
    }
    assert ToLower(slug) == slug;
  }

  /** The nav fields of the edit form read back as the page's nav entry. */
  lemma NavRoundTrip(p: Page)
    requires p.nav.Some? ==> (p.nav.value.navLabel != "" && Trim(p.nav.value.navLabel) == p.nav.value.navLabel
                              && p.nav.value.order.Some?)
    ensures SavedNav(EditForm(p, p.content)) == p.nav
  {
    var form := EditForm(p, p.content);
    if p.nav.Some? {
      var navLabel := p.nav.value.navLabel;
      var n := p.nav.value.order.value;
      var shown := IntToString(n);
      assert form.navLabel == Some(navLabel) && form.navOrder == Some(shown);
      assert shown != [] by {
        assert NatToString(if n < 0 then -n else n) != [];
      }
      assert OrElse(form.navOrder, "0") == shown;
      ParseIntOfIntToString(n);
      assert SavedNav(form) == Some(NavInfo(navLabel, Some(n)));
    } else {
      assert form.navLabel == Some("");
    }
  }


  // ------------------------------------------------------------------ the handler

  function ToSite(cfg: EditorConfig): Outcome {
    Redirected(Redirect(AdminBase(cfg) + "/site", None), KeepSession)
  }

  /**
   * The request handler: decide the route, then run it against the page table
   * and the site-bundle store of the configured tenant. `now` is the request's
   * ISO timestamp, `freshId` the `randomUUID()` a new page would get, and
   * `defaultCss` the built-in minimal stylesheet.
   */
  method Handle(pages: PageStore.PageTable, bundles: SiteBundle.RevisionStore, req: Request, cfg: EditorConfig, auth: Auth,
                now: string, freshId: string, defaultCss: string) returns (out: Outcome)
    requires pages.Valid() && bundles.Valid()
    modifies pages, bundles
    ensures pages.Valid() && bundles.Valid()
    ensures var t := TenantOf(cfg);
      match Decide(req, cfg, auth)
      case Answer(o) =>
        out == o && unchanged(pages, bundles)
      case ShowSite =>
        && unchanged(pages, bundles)
        && out == Shown(Html(SiteEditorView(
             SiteBundle.GetSiteBundle(bundles.revisions, bundles.pointers, t),
             SiteBundle.ListRevisions(bundles.revisions, t),
             SiteBundle.CurrentRevisionId(bundles.pointers, t)), None, false))
      case SaveBundle(html, css, js) =>
        && unchanged(pages) && out == ToSite(cfg)
        && bundles.revisions == SiteBundle.AfterAdd(old(bundles.revisions), SiteBundle.Revision(old(bundles.nextId), t, html, css, js, now))
        && bundles.pointers == SiteBundle.SetPointer(old(bundles.pointers), t, Some(old(bundles.nextId)), now)
        && SiteBundle.GetSiteBundle(bundles.revisions, bundles.pointers, t) == Some(SiteBundle.Bundle(html, css, js, now))
      case UseMinimal =>
        && unchanged(pages) && out == ToSite(cfg)
        && var before := SiteBundle.GetSiteBundle(old(bundles.revisions), old(bundles.pointers), t);
           var html := if before.Some? then before.value.html else "";
           var js := if before.Some? then before.value.js else "";
           && bundles.revisions == SiteBundle.AfterAdd(old(bundles.revisions), SiteBundle.Revision(old(bundles.nextId), t, html, defaultCss, js, now))
           && bundles.pointers == SiteBundle.SetPointer(old(bundles.pointers), t, Some(old(bundles.nextId)), now)
           && SiteBundle.GetSiteBundle(bundles.revisions, bundles.pointers, t) == Some(SiteBundle.Bundle(html, defaultCss, js, now))
      case UseRevision(id) =>
        && unchanged(pages) && out == ToSite(cfg)
        && bundles.revisions == old(bundles.revisions)
        && bundles.pointers == SiteBundle.SetPointer(old(bundles.pointers), t, Some(id), now)
      case DeleteRevision(id) =>
        && unchanged(pages) && out == ToSite(cfg)
        && bundles.revisions == SiteBundle.RemoveRevision(old(bundles.revisions), id, t)
        && bundles.pointers == SiteBundle.AfterDeletePointers(old(bundles.revisions), old(bundles.pointers), id, t, now)
      case ListPages =>
        && unchanged(pages, bundles)
        && out == Shown(Html(PageListView(PageStore.ListAllPages(pages.rows, t)), None, false))
      case EditPage(id) =>
        && unchanged(pages, bundles)
        && var found := PageStore.GetPageById(pages.rows, id, t);
           out == if found.None? then Redirected(Redirect(EditorBase(cfg), None), KeepSession)
                  else Shown(Html(PageFormView(found), None, false))
      case SavePage(form) =>
        && unchanged(bundles)
        && var id := SavedPageId(form, freshId);
           var page := SavedPage(form, freshId, PageStore.GetPageById(old(pages.rows), id, t), now);
           && pages.rows == PageStore.UpsertRow(old(pages.rows), PageStore.PageToRow(page, t))
           && PageStore.GetPageById(pages.rows, id, t) == Some(PageStore.Stored(page))
           && out == Redirected(Redirect(EditorBase(cfg) + "/" + id, None), KeepSession)
      case DeletePage(id) =>
        && unchanged(bundles)
        && pages.rows == PageStore.DeleteRow(old(pages.rows), id, t)
        && PageStore.GetPageById(pages.rows, id, t).None?
        && out == Redirected(Redirect(EditorBase(cfg), None), KeepSession)
  {
    var t := TenantOf(cfg);
    var action := Decide(req, cfg, auth);
    match action
    case Answer(o) =>
      out := o;
    case ShowSite =>
      var view := SiteEditorView(
        SiteBundle.GetSiteBundle(bundles.revisions, bundles.pointers, t),
        SiteBundle.ListRevisions(bundles.revisions, t),
        SiteBundle.CurrentRevisionId(bundles.pointers, t));
      out := Shown(Html(view, None, false));
    case SaveBundle(html, css, js) =>
      var _ := bundles.AddRevision(html, css, js, t, now);
      out := ToSite(cfg);
    case UseMinimal =>
      var before := SiteBundle.GetSiteBundle(bundles.revisions, bundles.pointers, t);
      var html := if before.Some? then before.value.html else "";
      var js := if before.Some? then before.value.js else "";
      var _ := bundles.AddRevision(html, defaultCss, js, t, now);
      out := ToSite(cfg);
    case UseRevision(id) =>
      bundles.SetCurrent(id, t, now);
      out := ToSite(cfg);
    case DeleteRevision(id) =>
      bundles.DeleteRevision(id, t, now);
      out := ToSite(cfg);
    case ListPages =>
      out := Shown(Html(PageListView(PageStore.ListAllPages(pages.rows, t)), None, false));
    case EditPage(id) =>
      var found := PageStore.GetPageById(pages.rows, id, t);
      if found.None? {
        out := Redirected(Redirect(EditorBase(cfg), None), KeepSession);
      } else {
        out := Shown(Html(PageFormView(found), None, false));
      }
    case SavePage(form) =>
      var id := SavedPageId(form, freshId);
      var existing := PageStore.GetPageById(pages.rows, id, t);
      var page := SavedPage(form, freshId, existing, now);
      pages.Upsert(page, t);
      out := Redirected(Redirect(EditorBase(cfg) + "/" + id, None), KeepSession);
    case DeletePage(id) =>
      pages.Delete(id, t);
      out := Redirected(Redirect(EditorBase(cfg), None), KeepSession);
  }
}
