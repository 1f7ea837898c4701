# nobodyreads, modelled in Dafny

nobodyreads is a multi-tenant blog engine. Every page row belongs to one tenant and is one of three kinds: `home`, `post` or `page`. The public router serves four kinds of request:

- the home page;
- posts at `/posts/{slug}`;
- plain pages at `/{slug}`;
- a small JSON API.

Markdown content may link to other pages by a stable id with `[[id]]` or `[[id|text]]`. These links are resolved at render time against the tenant's published pages, so they follow renames.

A password-gated editor lets the owner create, edit and delete pages. It also manages the *site bundle*: the HTML shell, stylesheet and script of the site. The bundle is stored as an append-only history of revisions per tenant, with a movable "current" pointer and a retention of the 50 newest revisions.

Other parts of the core are modelled as well:

- the SEO helpers, which write the `<meta>` head and the JSON-LD blocks;
- the HTML escaping and response helpers;
- the front-matter parsing of the markdown publishing script;
- the browser-side markdown editor (slug auto-fill, Tab and Shift-Tab, the toolbar);
- the live preview of the site editor.

## How the model is laid out

One module per core source file. Shared modules hold the JavaScript string primitives the code relies on:

- `trim`, `toLowerCase`, `split`, `join`, `replaceAll` and `parseInt`;
- SQL `ORDER BY`, as a sort by a total preorder;
- the `Option` type that stands for `undefined` and SQL `NULL`.

| file | module | models |
|---|---|---|
| `wrappers.dfy` | `Wrappers` | `Option` (`undefined` / `NULL`, `??`) |
| `js_string.dfy` | `JsString` | ECMAScript string operations used by the core |
| `ordering.dfy` | `Ordering` | SQL `ORDER BY` (BINARY collation, insertion sort) |
| `content_types.dfy` | `ContentTypes` | the page record and its projections |
| `urls.dfy` | `Urls` | `pageUrl`, `navHref`, `pagePath`, the slug pattern |
| `page_store.dfy` | `PageStore` | `src/content/db.ts` (page table and its queries) |
| `wiki_links.dfy` | `WikiLinks` | `src/content/render.ts` (`[[id]]` resolution) |
| `blog_router.dfy` | `BlogRouter` | `src/content/index.ts` (public router) |
| `http.dfy` | `Http` | `src/shared/http.ts` (escaping, responses, MIME) |
| `seo.dfy` | `Seo` | `src/shared/seo.ts` (meta tags, JSON-LD) |
| `site_bundle.dfy` | `SiteBundle` | `src/shared/site-bundle.ts` (revision store) |
| `editor_router.dfy` | `EditorRouter` | `src/editor/index.ts` (editor router) |
| `publish.dfy` | `Publish` | `scripts/publish.ts` (front matter) |
| `text_editor.dfy` | `TextEditor` | `public/editor.js` (markdown editor) |
| `site_preview.dfy` | `SitePreview` | `src/editor/site-editor.ts`, `public/site-editor.js` (preview) |

### Modelling decisions

- **Tables.** A database table is a sequence of rows in table order. The page table is a class `PageStore.PageTable`, and its `Upsert` and `Delete` methods reassign `rows`. The revision store is a class `SiteBundle.RevisionStore` with fields `revisions`, `pointers` and `nextId`. Its three write operations are methods. Every query is a function of the table's contents, and each class keeps an invariant `Valid()`:
  - pages: the key (page id, tenant) is unique;
  - revisions: ids ascend in table order and stay below `nextId`.
- **Queries.** A query with `LIMIT 1` and no `ORDER BY` returns the first matching row in table order. A query with `ORDER BY` returns a permutation of the matching rows, sorted by the comparison. The order of equal keys is left open, as SQLite leaves it.
- **Request handlers.** The asynchronous handlers become a pure *decision* (which action a request takes) plus a method that runs that action against the two stores. `Promise.all` is read as sequential reads of the same state.
- **Inputs from outside.** The clock (`new Date().toISOString()`), `randomUUID()` and the built-in stylesheet are parameters.
  - The editor's authentication is reduced to the facts the router consults: whether a password is set, whether the session cookie is valid, and the configured password.
  - A parsed front-matter value is a small YAML datatype. A parsed form body is a `map<string, string>`.
- **Text editor.** The `<textarea>` is a class `TextEditor.TextArea`. Its `value`, `selectionStart`, `selectionEnd` and `setRangeText` follow the HTML standard's setter rules:
  - a new value moves the caret to the end;
  - setting the end before the start pulls the start down with it.

  The key handlers and toolbar buttons are methods on it. The slug auto-fill state of the page form is a class `TextEditor.SlugAutoFill`.
- **Where a comment and the code differ, the code is followed.**
  - The comment at `src/shared/site-bundle.ts:146` calls the prune to 50 revisions "best-effort cleanup". The prune statement is awaited like the others, with no `try`/`catch`, so a failing prune would fail the write. Database failures are not modelled at all, so in the model the prune always happens.
  - The site editor route calls `siteEditorPage` with four arguments (`src/editor/index.ts:124`), while `src/editor/templates.ts:112` declares two. The model keeps all three values the route reads, in the view it returns.

## Model

| member | source | states |
|---|---|---|
| PageStore.RowToPage | src/content/db.ts:6-25 | `rowToPage`; specified by `RowRoundTrip` |
| PageStore.PageToRow | src/content/db.ts:178-218 | the values `upsertPage` binds; specified by `RowRoundTrip` |
| PageStore.RowRoundTrip | src/content/db.ts:6-25 | writing a page as a row and reading it back with `rowToPage` gives the page as stored; the row carries the tenant it was written for |
| PageStore.Select | src/content/db.ts:64 | the rows a `WHERE` clause selects: exactly the table rows satisfying it, none invented |
| PageStore.First | src/content/db.ts:86 | `rows[0]` of a `LIMIT 1` query: the index of the first matching row, with no match before it; none iff nothing matches |
| PageStore.FirstPageCons | src/content/db.ts:86 | the first match of a table is its head when the head matches, otherwise the first match of the rest |
| PageStore.StrLeAntisymmetric | src/content/db.ts:142 | BINARY collation: two strings each at most the other are equal |
| PageStore.NewerFirstIsPreorder | src/content/db.ts:65 | `ORDER BY date DESC` compares by a total preorder |
| PageStore.NavOrderFirstIsPreorder | src/content/db.ts:112 | `ORDER BY nav_order ASC` (NULL first) compares by a total preorder |
| PageStore.KindThenNewerIsPreorder | src/content/db.ts:142 | `ORDER BY kind ASC, date DESC` compares by a total preorder |
| PageStore.ListPosts | src/content/db.ts:60-69 | sorted newest first; a permutation of the tenant's published posts as summaries; each entry is such a post |
| PageStore.GetPageBySlug | src/content/db.ts:72-87 | none exactly when no published page of that slug and kind exists in the tenant; otherwise the first such row, published with that slug and kind |
| PageStore.GetPageByKind | src/content/db.ts:90-104 | none exactly when the tenant has no published page of that kind; otherwise the first such row |
| PageStore.GetNavItems | src/content/db.ts:107-116 | sorted by nav order; a permutation of the tenant's published rows that have a nav label; each item is one of them |
| PageStore.ResolvePageLinks | src/content/db.ts:119-133 | no ids gives no targets; each target is a published page of the tenant whose id was asked for; every such page is returned |
| PageStore.ListAllPages | src/content/db.ts:136-146 | sorted by kind, then newest first; a permutation of all the tenant's pages, drafts included |
| PageStore.GetPageById | src/content/db.ts:149-163 | none exactly when no row has that id in that tenant; otherwise a page with that id |
| PageStore.UpsertRow | src/content/db.ts:178-218 | the insert-or-update grows the table by at most one row |
| PageStore.DeleteRow | src/content/db.ts:166-175 | the delete never adds rows |
| PageStore.UpsertKeepsKeysUnique | src/content/db.ts:178-218 | `ON CONFLICT (page_id, tenant_id)` keeps the key unique; every row after is the new row or an old one |
| PageStore.DeleteKeepsKeysUnique | src/content/db.ts:166-175 | a delete keeps the key unique and keeps only old rows |
| PageStore.UpsertThenGet | src/content/db.ts:178-218 | read-after-write: after saving a page, `getPageById` returns it as stored |
| PageStore.UpsertKeepsOtherPages | src/content/db.ts:178-218 | saving a page changes the lookup of no other (id, tenant) key |
| PageStore.DeleteThenGet | src/content/db.ts:166-175 | after a delete the (id, tenant) key is gone from the table |
| PageStore.DeleteKeepsOtherPages | src/content/db.ts:166-175 | a delete changes the lookup of no other (id, tenant) key |
| PageStore.UpsertInvisibleToOtherTenants | src/content/db.ts:178-218 | a write for one tenant changes no query result of another tenant |
| PageStore.DeleteInvisibleToOtherTenants | src/content/db.ts:166-175 | a delete for one tenant changes no query result of another tenant |
| PageStore.TenantIsolation | src/content/db.ts:72-104 | a page saved for one tenant never becomes visible to another tenant's list, lookup or nav queries |
| PageStore.UpsertFirstRow | src/content/db.ts:86 | a write for another tenant does not change which row a tenant's `LIMIT 1` query returns |
| PageStore.PageTable.constructor | src/content/db.ts:178 | the table starts empty and valid |
| PageStore.PageTable.Upsert | src/content/db.ts:178-218 | the rows become the insert-or-update result; the saved page reads back as stored; every other key reads as before; the key stays unique |
| PageStore.PageTable.Delete | src/content/db.ts:166-175 | the rows lose the (id, tenant) key and nothing else changes for any other key; the key stays unique |
| WikiLinks.IdRun | src/content/render.ts:14 | `[a-z0-9-]+` read greedily: the longest prefix of slug characters |
| WikiLinks.TextRun | src/content/render.ts:14 | `[^\]]+` read greedily: the longest prefix without `]` |
| WikiLinks.MatchAt | src/content/render.ts:14 | a token read at the start of a string is a valid token and is spelled out there |
| WikiLinks.MatchAfterId | src/content/render.ts:14 | after `[[` and an id, a match keeps that id, is valid and is spelled out in the input |
| WikiLinks.IdRunStops | src/content/render.ts:14 | the greedy id run stops exactly at the first non-slug character |
| WikiLinks.TextRunStops | src/content/render.ts:14 | the greedy text run stops exactly at the first `]` |
| WikiLinks.MatchPlainToken | src/content/render.ts:14 | `[[id]]` is recognised as the token with that id and no text |
| WikiLinks.MatchTextToken | src/content/render.ts:14 | `[[id\|text]]` is recognised as the token with that id and that text |
| WikiLinks.AfterIdText | src/content/render.ts:14 | an id followed by `\|text]]` reads as the token with that text |
| WikiLinks.MatchAtComplete | src/content/render.ts:14 | every string the pattern describes at a position is found there: the reader misses no token |
| WikiLinks.MatchAtSound | src/content/render.ts:14 | the reader finds nothing exactly when no valid token starts at the position |
| WikiLinks.Segments | src/content/render.ts:40-41 | `matchAll`: the markdown split into plain text and valid tokens |
| WikiLinks.SegmentsSpellInput | src/content/render.ts:40-41 | the segments spell out the markdown exactly: nothing is lost or added by the scan |
| WikiLinks.TokenIds | src/content/render.ts:43 | the ids of the matches: exactly the ids of the link segments |
| WikiLinks.Distinct | src/content/render.ts:43 | `[...new Set(ids)]`: no duplicates, the same ids |
| WikiLinks.LookupMap | src/content/render.ts:45 | `new Map(targets.map(...))`: every target's id is a key; each key maps to a target of the list with that id; any other target with that id lies before the last entry |
| WikiLinks.LookupMapLast | src/content/render.ts:45 | the map is built entry by entry: its keys are the last target's id and the earlier keys; the last target's id maps to the last target; every other key maps as in the map of the earlier targets |
| WikiLinks.LookupMapLastWins | src/content/render.ts:45 | later entries overwrite earlier ones: a target with no later target of the same id is what its id maps to |
| WikiLinks.RenderToken | src/content/render.ts:48-53 | the replacement callback; specified by `BrokenLink` and `ResolvedLink` |
| WikiLinks.RenderSegments | src/content/render.ts:48-53 | `markdown.replace(LINK_PATTERN, …)` over the scanned segments; specified by `RenderedParts` and `RenderSegmentsConcat` |
| WikiLinks.RenderedParts | src/content/render.ts:48-53 | one part per segment: a plain character is kept, a token is replaced by its callback result |
| WikiLinks.RenderSegmentsConcat | src/content/render.ts:48-53 | the rendering is the parts put together in segment order |
| WikiLinks.RenderedPartsAgainstTable | src/content/render.ts:44-53 | against the page table: plain characters kept; a token without a published page of the tenant becomes `[broken link: id]`; any other becomes a link to that published page |
| WikiLinks.RenderWithoutTokens | src/content/render.ts:48-53 | segments without tokens render as their own text |
| WikiLinks.ResolveLinks | src/content/render.ts:33-54 | markdown without tokens is returned unchanged and nothing is looked up; otherwise the distinct ids of the tokens are looked up, each once |
| WikiLinks.ResolveLinksOutput | src/content/render.ts:33-54 | with tokens: the output is the segments of the input rendered in order; plain text kept; every token's id looked up; each unknown or unpublished id becomes `[broken link: id]`; each other token a link `[text](url)` to its published page |
| WikiLinks.LookupKnowsPublished | src/content/render.ts:44-45 | an asked-for id is in the lookup exactly when the tenant has a published page with it, and then maps to that page's target |
| WikiLinks.BrokenLink | src/content/render.ts:50 | a token with no published page in the tenant becomes `[broken link: id]` |
| WikiLinks.ResolvedLink | src/content/render.ts:51-52 | a resolved token becomes `[text](url)`: its own text, else the target's title, and the URL of the target's current slug |
| Urls.PageUrl | src/content/render.ts:17-21 | a non-empty URL under the prefix, ending in `/slug` for every kind but home |
| Urls.NavHref | src/shared/seo.ts:179-183 | a non-empty href under the prefix, ending in `/slug` for every kind but home |
| Urls.PagePath | astro/lib/format.ts:10-17 | a non-empty path under the prefix, ending in `/slug` for every kind but home |
| Urls.UrlBuildersAgree | astro/lib/format.ts:10-17 | the three URL builders agree on every kind and slug |
| Urls.MatchPathTail | src/content/index.ts:92 | an anchored `^prefix(class+)$` match: the captured tail is a run of the class and prefix + tail is the path; no match iff no such tail exists |
| Urls.MatchPathTailExact | src/content/index.ts:92 | prefix + a run of the class always matches, capturing that run |
| BlogRouter.RenderPageContent | src/content/index.ts:41-49 | markdown without link tokens reaches the renderer unchanged |
| BlogRouter.SlashedPrefixMisses | src/content/index.ts:92 | `/slug` never matches a pattern with a longer slash-ended prefix such as `/posts/` |
| BlogRouter.MatchExact | src/content/index.ts:107 | prefix + a slug matches that route, capturing the slug |
| BlogRouter.Route | src/content/index.ts:69-139 | the handler's checks in their order; specified by `HomeRoute`, `PostRoute`, `PageRoute`, `ApiListRoute`, `ApiPostRoute`, `NonGetIsNotFound` and `RepliesWellFormed` |
| BlogRouter.RouteApi | src/content/index.ts:124-138 | the API checks, then the 404 page; specified by `ApiListRoute` and `ApiPostRoute` |
| BlogRouter.HomeReply | src/content/index.ts:71-89 | specified by `HomeRoute` and `HomeReplyWellFormed` |
| BlogRouter.PostReply | src/content/index.ts:92-104 | specified by `PostRoute` and `PostReplyWellFormed` |
| BlogRouter.ContentReply | src/content/index.ts:107-121 | specified by `PageRoute` and `ContentReplyWellFormed` |
| BlogRouter.ApiPostReply | src/content/index.ts:129-134 | specified by `ApiPostRoute` |
| BlogRouter.HomeRoute | src/content/index.ts:71-89 | GET `/`: the 404 page when the tenant has no published home page; else 200 with that page, the post listing and nav, and an intro iff the content is not blank |
| BlogRouter.PostRoute | src/content/index.ts:92-104 | GET `/posts/{slug}`: the published post with its rendered content and nav, or the 404 page |
| BlogRouter.PageRoute | src/content/index.ts:107-121 | GET `/{slug}`: the published plain page with that slug, else falling through the API checks to the 404 page |
| BlogRouter.ApiListRoute | src/content/index.ts:124-127 | GET `/api/posts`: the post listing as JSON with status 200 |
| BlogRouter.ApiPostRoute | src/content/index.ts:129-134 | GET `/api/posts/{slug}`: the post as JSON with 200, or `{error: "Post not found"}` with 404 |
| BlogRouter.NonGetIsNotFound | src/content/index.ts:137-138 | every request that is not a GET gets the HTML 404 page |
| BlogRouter.ShownPageWellFormed | src/content/index.ts:86-88 | a published page the table returned, shown with 200, makes a well-formed reply |
| BlogRouter.NotFoundWellFormed | src/content/index.ts:137-138 | the 404 page has status 404 and no robots header |
| BlogRouter.HomeReplyWellFormed | src/content/index.ts:71-89 | the home reply is well formed and shows only the home page, at `/` |
| BlogRouter.PostReplyWellFormed | src/content/index.ts:92-104 | the post reply is well formed and shows only a post, at its own slug |
| BlogRouter.ContentReplyWellFormed | src/content/index.ts:107-121 | the page reply is well formed and shows only a plain page, at its own slug |
| BlogRouter.RepliesWellFormed | src/content/index.ts:69-139 | every reply shows a page only with 200, only as a published row of the router's tenant, with `X-Robots-Tag` iff the page opts out of AI training, and at its kind's path |
| BlogRouter.PublishedPagesReachable | src/content/index.ts:69-121 | every published home page, post and plain page of the tenant is served with 200 at the path `pagePath` gives it |
| Http.EscapeHtml | src/shared/http.ts:24-30 | the four replaces in order; specified by `EscapeHtmlIsPerChar`, `EscapeHtmlNoMarkup`, `EscapeHtmlAmpersands`, `UnescapeEscapeHtml` and `EscapeHtmlPlain` |
| Http.ReplaceCharIsReplaceAll | src/shared/http.ts:26 | a global one-character regex replace is the literal `replaceAll` of that character |
| Http.ReplaceCharAppend | src/shared/http.ts:26 | a one-character replace works piece by piece over concatenation |
| Http.ReplaceCharAbsent | src/shared/http.ts:26 | a string without the character is left unchanged |
| Http.ReplaceCharOne | src/shared/http.ts:26 | on one character: the replacement if it is the character, else the character itself |
| Http.LaterStepsKeep | src/shared/http.ts:27-29 | the last three replaces leave a string without `<`, `>`, `"` alone |
| Http.EscapeHtmlOneChar | src/shared/http.ts:24-30 | on one character, the chain of replaces gives that character's entity |
| Http.EscapeHtmlIsPerChar | src/shared/http.ts:24-30 | because `&` is replaced first, the chain equals escaping each character on its own: no entity is escaped twice |
| Http.EscapeHtmlNoMarkup | src/shared/http.ts:24-30 | the output never contains `<`, `>` or `"` |
| Http.EscapeEachNoMarkup | src/shared/http.ts:24-30 | the per-character escape never outputs `<`, `>` or `"` |
| Http.EscapeEachAmpersands | src/shared/http.ts:24-30 | every `&` in the per-character output begins one of the four entities |
| Http.EscapeHtmlAmpersands | src/shared/http.ts:24-30 | every `&` in the output begins one of the four entities |
| Http.UnescapeEscapeHtml | src/shared/http.ts:24-30 | escaping is lossless: decoding the four entities gives back the input |
| Http.UnescapeEscapeEach | src/shared/http.ts:24-30 | decoding the per-character escape gives back the input |
| Http.UnescapeOne | src/shared/http.ts:24-30 | decoding reads one escaped character back and continues with the rest |
| Http.UnescapeEntity | src/shared/http.ts:26-29 | each of the four entities decodes to its character |
| Http.EscapeHtmlPlain | src/shared/http.ts:24-30 | text with none of `&<>"` is returned unchanged; a single quote is never escaped |
| Http.EscapeEachPlain | src/shared/http.ts:24-30 | the per-character escape leaves plain text unchanged |
| Http.Html | src/shared/http.ts:38-52 | status defaults to 200; the HTML content type; `X-Robots-Tag: noai, noimageai` exactly when AI training is opted out |
| Http.Json | src/shared/http.ts:54-57 | status defaults to 200; only the JSON content type header |
| Http.Redirect | src/shared/http.ts:59-62 | status defaults to 302; only a `Location` header |
| Http.MimeType | src/shared/http.ts:84 | the table's type for a known extension, `application/octet-stream` otherwise; never empty |
| Seo.SiteFromEnv | src/shared/seo.ts:4-5 | an unset or empty variable falls back to the built-in URL or name; neither is ever empty |
| Seo.Description | src/shared/seo.ts:10 | the page metadata's description if truthy, else the layout's, else empty |
| Seo.CanonicalUrl | src/shared/seo.ts:11-12 | the metadata's canonical URL if truthy, else site URL + pathname when a pathname is set, else empty |
| Seo.ImageUrl | src/shared/seo.ts:67-70 | an image starting with `http` is kept; any other is put under the site URL |
| Seo.ImageUrlIsAbsolute | src/shared/seo.ts:67-70 | with an `http` site URL every image URL is absolute |
| Seo.RobotsDirectivesOrder | src/shared/seo.ts:20-30 | each directive is present exactly when its flag is true; noai and noimageai come together; order noindex, nofollow, noai, noimageai; no line without any flag |
| Seo.MetaTags | src/shared/seo.ts:7-89 | the tags `buildMetaTags` pushes, in order; specified by `MetaTagsMatchTable` and the `…Consistent` lemmas |
| Seo.RenderTags | src/shared/seo.ts:7-89 | one rendered line per tag, in order |
| Seo.BuildMetaTags | src/shared/seo.ts:91 | the joined head contains the rendered line of every tag `MetaTags` lists |
| Seo.BlocksConsistent | src/shared/seo.ts:14-89 | every block of tags carries, for each key, the value the source's rules give it |
| Seo.HeadConsistent | src/shared/seo.ts:14-35 | the description, robots and canonical lines carry the values of their rules |
| Seo.OpenGraphConsistent | src/shared/seo.ts:37-56 | the Open Graph lines carry the values of their rules |
| Seo.TwitterConsistent | src/shared/seo.ts:58-72 | the Twitter card lines carry the values of their rules |
| Seo.AttributionConsistent | src/shared/seo.ts:74-89 | the author, expertise and abstract lines carry the values of their rules |
| Seo.MetaTagsMatchTable | src/shared/seo.ts:7-92 | a key is in the head exactly when its rule gives a value, and every tag with that key carries that value |
| Seo.WitnessTag | src/shared/seo.ts:7-92 | a key whose rule gives a value has a tag in the head |
| Seo.JoinAvoids | src/shared/seo.ts:28 | joining parts free of a character with a separator free of it gives a string free of it |
| Seo.AttributesQuoteSafe | src/shared/seo.ts:14-89 | no attribute value but `twitter:card` can contain `"`, so no value can break out of its attribute |
| Seo.UnescapedTags | src/shared/seo.ts:26-60 | only the robots line and the `twitter:card` line are written unescaped |
| Seo.OpenGraphUnnamed | src/shared/seo.ts:37-56 | every Open Graph line is a `property` tag |
| Seo.AttributionEscaped | src/shared/seo.ts:74-89 | every attribution line is a `name` tag with its value escaped |
| Seo.TwitterUnescaped | src/shared/seo.ts:58-72 | among the Twitter lines only the card type is unescaped |
| Seo.StructuredData | src/shared/seo.ts:94-176 | the JSON-LD blocks; specified by `StructuredDataBlocks`, `ArticleFields` and `ArticleOptionalFields` |
| Seo.StructuredDataBlocks | src/shared/seo.ts:94-176 | a BlogPosting block exists exactly for a post and comes first; a FAQ block exists exactly for a non-empty layout FAQ, comes last and lists it |
| Seo.FaqReadFromLayoutMeta | src/shared/seo.ts:156 | the FAQ is read from the layout's metadata: without it there is no FAQ block, whatever the page holds |
| Seo.ArticleFields | src/shared/seo.ts:98-117 | headline, date, description (metadata's or the excerpt), post URL and publisher URL of the BlogPosting |
| Seo.ArticleOptionalFields | src/shared/seo.ts:119-148 | dateModified, keywords, image, author (and its description), citations and abstract are present exactly when the page supplies them |
| SiteBundle.TenantRevisions | src/shared/site-bundle.ts:98-103 | the rows `WHERE tenant_id = ?`: exactly the tenant's revisions, none invented |
| SiteBundle.FindRevision | src/shared/site-bundle.ts:51-58 | the revision with that id in that tenant, or none when there is none |
| SiteBundle.Latest | src/shared/site-bundle.ts:75-91 | `ORDER BY revision_id DESC LIMIT 1`: a revision of the tenant with the highest id; none iff the tenant has none |
| SiteBundle.CurrentRevisionId | src/shared/site-bundle.ts:108-122 | the pointer's target, or none without a pointer row; specified through `GetSiteBundle` and `SetCurrentThenGet` |
| SiteBundle.GetSiteBundle | src/shared/site-bundle.ts:35-92 | a pointer to an existing revision of the tenant returns that revision; otherwise non-empty legacy columns win over the newest revision; otherwise the newest revision; none exactly when the tenant has no revisions and no legacy content |
| SiteBundle.ListRevisions | src/shared/site-bundle.ts:94-106 | one entry per revision of the tenant; each entry's `updatedAt` is its creation time |
| SiteBundle.NewestFirst | src/shared/site-bundle.ts:102 | `ORDER BY revision_id DESC` of ascending rows: the rows reversed |
| SiteBundle.ListRevisionsContents | src/shared/site-bundle.ts:94-106 | the listing holds exactly the tenant's revisions, and with ascending storage strictly newest first |
| SiteBundle.TenantRevisionsAscending | src/shared/site-bundle.ts:97-101 | a tenant's revisions keep the table's ascending id order |
| SiteBundle.ReadsSeeOnlyOwnRevisions | src/shared/site-bundle.ts:35-92 | lookups by id and the latest lookup see only the tenant's own revisions |
| SiteBundle.SetCurrentThenGet | src/shared/site-bundle.ts:162-176 | after pointing the tenant at an existing revision, `getSiteBundle` returns that revision, whatever the legacy columns and newer revisions hold |
| SiteBundle.AddKeepsNewest | src/shared/site-bundle.ts:146-157 | adding a revision newer than every stored one keeps it, keeps ids ascending, and leaves no id above it |
| SiteBundle.NextAddKeeps | src/shared/site-bundle.ts:124-160 | the newest revision of a table survives the add of a newer revision, and ids stay ascending |
| SiteBundle.RollbackAfterTwoAdds | src/shared/site-bundle.ts:124-176 | rollback: after adding `a` then `b` and pointing the tenant back at `a`, `a` still exists and `getSiteBundle` returns it |
| SiteBundle.DanglingPointerFallsThrough | src/shared/site-bundle.ts:47-91 | a pointer to a deleted revision, with no legacy content, falls through to the newest revision, or to none |
| SiteBundle.Prune | src/shared/site-bundle.ts:146-157 | the `DELETE … OFFSET 50` of one tenant; specified by `PruneBound`, `PruneRemovesOnlyOld` and `PruneNoop` |
| SiteBundle.KeepRetained | src/shared/site-bundle.ts:146-157 | the kept rows are exactly those the prune retains, in order |
| SiteBundle.KeepRetainedOtherTenants | src/shared/site-bundle.ts:146-157 | pruning one tenant keeps every other tenant's revisions |
| SiteBundle.KeepRetainedAscending | src/shared/site-bundle.ts:146-157 | pruning keeps the ascending id order |
| SiteBundle.NewerCountOfKept | src/shared/site-bundle.ts:146-157 | pruning never increases the count of newer revisions |
| SiteBundle.NewerCountAllAbove | src/shared/site-bundle.ts:153-154 | when all rows are newer than an id, its newer count is the tenant's total |
| SiteBundle.OldestRank | src/shared/site-bundle.ts:153-154 | the oldest revision has every other revision newer than it |
| SiteBundle.PruneBound | src/shared/site-bundle.ts:146-157 | `LIMIT -1 OFFSET 50`: after pruning the tenant has at most 50 revisions |
| SiteBundle.PruneRemovesOnlyOld | src/shared/site-bundle.ts:146-157 | other tenants are untouched; a revision survives exactly when fewer than 50 of the tenant's revisions are newer |
| SiteBundle.NewerCountBelowTotal | src/shared/site-bundle.ts:153-154 | a revision is never newer than itself, so its newer count is below the total |
| SiteBundle.NewerCountAtMostTotal | src/shared/site-bundle.ts:153-154 | a newer count never exceeds the tenant's total |
| SiteBundle.KeepRetainedAll | src/shared/site-bundle.ts:146-157 | when every row is retained, pruning keeps all of them |
| SiteBundle.PruneNoop | src/shared/site-bundle.ts:146-157 | with at most 50 revisions the prune deletes nothing |
| SiteBundle.NewerCountNone | src/shared/site-bundle.ts:153-154 | the newest revision has nothing newer |
| SiteBundle.SetPointer | src/shared/site-bundle.ts:137-144 | the upsert of the pointer row sets the tenant's current id and time and leaves other tenants' pointers alone |
| SiteBundle.RemoveRevision | src/shared/site-bundle.ts:183-187 | exactly the row with that id and tenant is removed |
| SiteBundle.RemoveRevisionAscending | src/shared/site-bundle.ts:183-187 | removing a row keeps the ascending id order |
| SiteBundle.RemoveRevisionOtherTenants | src/shared/site-bundle.ts:183-187 | a delete in one tenant with another tenant's id removes nothing of the other tenant |
| SiteBundle.AfterAdd | src/shared/site-bundle.ts:124-157 | the table after insert then prune; specified by `AddEffects` |
| SiteBundle.AddEffects | src/shared/site-bundle.ts:124-160 | after the insert and the prune: ids ascending and none above the new one; `getSiteBundle` returns the new content; at most 50 for the tenant; other tenants' revisions unchanged; sound pointers stay sound |
| SiteBundle.AddThenGet | src/shared/site-bundle.ts:124-160 | after adding, the new revision is found, is current, and `getSiteBundle` returns its content |
| SiteBundle.AddRetention | src/shared/site-bundle.ts:124-160 | adding keeps ids ascending, keeps the new revision, leaves at most 50 for the tenant and leaves other tenants' revisions alone |
| SiteBundle.TenantRevisionsAppend | src/shared/site-bundle.ts:130-134 | appending another tenant's row does not change this tenant's revisions |
| SiteBundle.SameTenantView | src/shared/site-bundle.ts:35-92 | two tables with the same revisions for a tenant answer its lookups alike |
| SiteBundle.AddKeepsPointersSound | src/shared/site-bundle.ts:124-160 | adding keeps every tenant's current pointer at an existing revision of that tenant |
| SiteBundle.DeleteKeepsPointersSound | src/shared/site-bundle.ts:178-211 | deleting keeps every tenant's current pointer at an existing revision of that tenant |
| SiteBundle.DeleteRepointsToLatest | src/shared/site-bundle.ts:189-210 | deleting the current revision moves the pointer to the newest remaining one, or NULL when none is left |
| SiteBundle.RevisionStore.constructor | src/shared/site-bundle.ts:130 | an empty store; ids start at 1 |
| SiteBundle.RevisionStore.AddRevision | src/shared/site-bundle.ts:124-160 | returns a fresh id; insert, pointer upsert and prune as specified; read-after-write; at most 50 kept; other tenants untouched; pointers stay sound |
| SiteBundle.RevisionStore.SetCurrent | src/shared/site-bundle.ts:162-176 | revisions unchanged; the tenant's pointer set to the given id, which is not checked; when that revision exists, `getSiteBundle` now returns it |
| SiteBundle.RevisionStore.DeleteRevision | src/shared/site-bundle.ts:178-211 | the row removed; the pointer repaired only when it pointed at the deleted id; pointers stay sound |
| EditorRouter.Decide | src/editor/index.ts:78-249 | the action each request takes; specified by `LogoutBeforeAuth`, `AuthGuard`, `UnauthenticatedNeverTouchesStore`, `LoginStartsSession`, `SkipAuthGoesStraightToRoutes`, `EditRouteIds` and `RevisionRouteIds` |
| EditorRouter.RequiresAuth | src/editor/auth.ts:32-34 | `editorRequiresAuth`: a password is configured; used by `AuthGuard` and `LoginStartsSession` |
| EditorRouter.IsAuthenticated | src/editor/auth.ts:37-47 | `isAuthenticated`: open access without a password, else a verified session cookie; used by `AuthGuard` and `UnauthenticatedNeverTouchesStore` |
| EditorRouter.PasswordAccepted | src/editor/auth.ts:78-83 | `verifyEditorPassword`: false without a configured password, else equality of the plain strings; used by `LoginStartsSession` |
| EditorRouter.LogoutBeforeAuth | src/editor/index.ts:79-83 | logout by GET or POST is served before any auth check and ends the session |
| EditorRouter.AuthGuard | src/editor/index.ts:105-111 | with the built-in gate, a password set and no valid session, every non-login request is redirected to the login page |
| EditorRouter.UnauthenticatedNeverTouchesStore | src/editor/index.ts:87-111 | without a valid session no request reaches a store operation |
| EditorRouter.LoginStartsSession | src/editor/index.ts:93-103 | a login POST starts a session exactly when the password is accepted; otherwise the form comes back with "Incorrect password." |
| EditorRouter.SkipAuthGoesStraightToRoutes | src/editor/index.ts:87 | with `skipAuth` every request but logout goes straight to the routes |
| EditorRouter.EditRouteIds | src/editor/index.ts:182-195 | the edit route is taken only by GET, only for `[a-zA-Z0-9_-]+` ids, never for a reserved id |
| EditorRouter.ReservedIdsNotEdited | src/editor/index.ts:186 | `new`, `save`, `login` and `delete` never reach the edit route |
| EditorRouter.RevisionRouteIds | src/editor/index.ts:155-167 | the revision routes are taken only by POST with an all-digit id, passing its `parseInt` value |
| EditorRouter.Today | src/editor/index.ts:224-225 | `now.slice(0, 10)`: a prefix of the timestamp of at most 10 characters |
| EditorRouter.CleanTags | src/editor/index.ts:222-223 | every kept tag is non-empty and trimmed; none added |
| EditorRouter.SplitTags | src/editor/index.ts:220-223 | every tag read from the field is non-empty and trimmed |
| EditorRouter.SlugOf | src/editor/index.ts:216 | the saved slug has no upper-case letter and no white space at either end |
| EditorRouter.SavedPage | src/editor/index.ts:199-236 | the page a save writes; specified by `SavedIdentity`, `SavedText`, `SavedTags`, `SavedFlags`, `SavedNavEntry` and `ContentNeverErased` |
| EditorRouter.SavedNav | src/editor/index.ts:228-231 | the nav entry of a save; specified by `SavedNavEntry` and `NavRoundTrip` |
| EditorRouter.SavedIdentity | src/editor/index.ts:202-203 | a new page gets the fresh id and no `updated`; an update keeps its trimmed id and is dated today |
| EditorRouter.SavedText | src/editor/index.ts:216-219 | slug trimmed and lower-case; title and excerpt trimmed |
| EditorRouter.SavedTags | src/editor/index.ts:220-223 | every saved tag is non-empty, trimmed and comma-free |
| EditorRouter.SavedFlags | src/editor/index.ts:224-227 | published exactly when the checkbox sent `on`; date and kind never empty; `seo` and `scripts` not written |
| EditorRouter.SavedNavEntry | src/editor/index.ts:228-231 | a nav entry exactly when the label is not blank, carrying the trimmed label |
| EditorRouter.SplitTagsHaveNoComma | src/editor/index.ts:220-223 | tags read from the field contain no comma |
| EditorRouter.CleanTagsKeepOut | src/editor/index.ts:222-223 | trimming and filtering introduce no character |
| EditorRouter.ContentNeverErased | src/editor/index.ts:206-212 | an update without content keeps the stored non-empty content; content sent is written as sent |
| EditorRouter.TagsRoundTrip | src/editor/index.ts:220-223 | clean tags shown as `tags.join(", ")` read back as the same tags |
| EditorRouter.TagsJoinStep | src/editor/index.ts:220-223 | the first tag and the rest of a joined list are read back separately |
| EditorRouter.CleanTagsCons | src/editor/index.ts:222-223 | a clean tag is kept as it is |
| EditorRouter.LeadingSpaceIgnored | src/editor/index.ts:222 | a space after the comma is trimmed away |
| EditorRouter.EditForm | src/editor/templates.ts:273-354 | the fields `editorPage` fills from a page; specified by `EditFormRoundTrip` and the `Filled…` lemmas |
| EditorRouter.EditFormRoundTrip | src/editor/index.ts:199-236 | opening a page in the editor and saving unchanged writes it back, with only `updated` set to today, the date's time part dropped, and `seo` and `scripts` lost |
| EditorRouter.FilledIdentity | src/editor/index.ts:202-212 | a filled-in form keeps the page's id and content and dates the update today |
| EditorRouter.FilledText | src/editor/index.ts:216-219 | a filled-in form keeps the page's slug, title and excerpt |
| EditorRouter.FilledTags | src/editor/index.ts:220-223 | a filled-in form keeps the page's tags |
| EditorRouter.FilledFlags | src/editor/index.ts:224-227 | a filled-in form keeps date, published flag and kind |
| EditorRouter.SlugOfSlug | src/editor/index.ts:216 | a slug matching `[a-z0-9-]+` is kept as it is |
| EditorRouter.NavRoundTrip | src/editor/index.ts:228-231 | the nav fields of the form read back as the page's nav entry |
| EditorRouter.Handle | src/editor/index.ts:78-249 | each action's reply and store change: reads leave both stores unchanged; each write changes only its own store, as the store operation specifies; saved pages read back; save and use-minimal each append one revision, move the pointer to it and prune; use-minimal keeps the current html and js with the default stylesheet |
| Publish.ParseKind | scripts/publish.ts:19-27 | always a valid kind: the given one when valid, else `post` |
| Publish.ParseKindFixedPoint | scripts/publish.ts:19-27 | a parsed kind parses to itself |
| Publish.ParseNav | scripts/publish.ts:30-35 | a nav entry exactly for an object with a string label and a numeric order, carrying both |
| Publish.Strings | scripts/publish.ts:59 | only string entries are kept |
| Publish.FaqEntries | scripts/publish.ts:65-70 | no more entries than the list |
| Publish.FaqEntriesWellTyped | scripts/publish.ts:65-70 | every kept FAQ item comes from a list entry with a string question and answer |
| Publish.ReadString | scripts/publish.ts:45-48 | a string field is copied when it is a string, and then the metadata counts as present |
| Publish.ReadBool | scripts/publish.ts:52-53 | a boolean field is copied when it is a boolean, and then the metadata counts as present |
| Publish.ReadTwitterCard | scripts/publish.ts:49-51 | the card is copied only when it is `summary` or `summary_large_image` |
| Publish.ReadCitations | scripts/publish.ts:58-61 | a list's string entries are copied; only a non-empty result counts as present |
| Publish.ReadFaq | scripts/publish.ts:64-72 | a list's well-typed entries are copied; only a non-empty result counts as present |
| Publish.ParseSeoFrontmatter | scripts/publish.ts:38-79 | metadata exactly when the value is an object with at least one recognised field, and every field is the well-typed value from the input |
| Publish.OtherTwitterCardIgnored | scripts/publish.ts:49-51 | another card name alone does not make metadata |
| Publish.EmptyCitationsKept | scripts/publish.ts:58-61 | an all-non-string citations list is kept as an empty list when another field makes metadata |
| Publish.StringsKeepsAllStrings | scripts/publish.ts:59 | a list of strings is kept whole and in order |
| Publish.MapStr | scripts/publish.ts:59 | a list of strings as YAML values, of the same length |
| Publish.FirstMissing | scripts/publish.ts:91-97 | the first of title, slug, date, excerpt that is falsy; none exactly when all are present |
| Publish.PageIdValue | scripts/publish.ts:102 | `data.id \|\| data.slug`; specified by `IdDefaultsToSlug` |
| Publish.IdDefaultsToSlug | scripts/publish.ts:102 | with the required fields present the id is always set, and is the slug when no id is given |
| Publish.StoredPublished | scripts/publish.ts:115 | `data.published ?? false` as stored; specified by `PublishedDefaultsToDraft` |
| Publish.PublishedDefaultsToDraft | scripts/publish.ts:115 | a file is stored as published exactly when `published` is truthy |
| TextEditor.KeepSlugText | public/editor.js:60 | only `[\w\s-]` characters survive, taken from the input |
| TextEditor.DashForRuns | public/editor.js:61 | every character is a hyphen or an input character that is neither white space nor `_` |
| TextEditor.CollapseDashes | public/editor.js:62 | no two hyphens in a row, and only input characters |
| TextEditor.StripEndDashesEnds | public/editor.js:63 | without double hyphens, stripping one hyphen at each end leaves none at either end |
| TextEditor.TrimmedLower | public/editor.js:58-59 | trimming a lower-cased string leaves no upper-case letter |
| TextEditor.TrimKeepsChars | public/editor.js:59 | trimming introduces no character |
| TextEditor.CollapsedSlugChars | public/editor.js:56-62 | before the last step only slug characters and no double hyphens remain |
| TextEditor.ToSlug | public/editor.js:56-64 | `toSlug`; specified by `ToSlugShaped`, `ToSlugMatchesPattern`, `SlugShapedFixed` and `ToSlugIdempotent` |
| TextEditor.ToSlugShaped | public/editor.js:56-64 | every `toSlug` result is `[a-z0-9-]*`, with no hyphen at either end and none doubled |
| TextEditor.ToSlugMatchesPattern | public/editor.js:56-64 | a non-empty auto-filled slug satisfies the slug field's `[a-z0-9-]+` pattern |
| TextEditor.ToLowerFixed | public/editor.js:58 | lower-casing leaves text without upper-case letters alone |
| TextEditor.KeepSlugTextFixed | public/editor.js:60 | the first replace leaves `[\w\s-]` text alone |
| TextEditor.DashForRunsFixed | public/editor.js:61 | the second replace leaves text without white space and `_` alone |
| TextEditor.CollapseDashesFixed | public/editor.js:62 | the third replace leaves text without double hyphens alone |
| TextEditor.NoSpaceTrimmed | public/editor.js:59 | text without white space is its own trim |
| TextEditor.StripEndDashesFixed | public/editor.js:63 | the last replace leaves text without end hyphens alone |
| TextEditor.SlugShapedCaseAndSpace | public/editor.js:58-59 | lower-casing and trimming leave a slug alone |
| TextEditor.SlugShapedClasses | public/editor.js:60-61 | the character-class replaces leave a slug alone |
| TextEditor.SlugShapedFixed | public/editor.js:56-64 | `toSlug` leaves a slug alone |
| TextEditor.ToSlugIdempotent | public/editor.js:56-64 | `toSlug(toSlug(t)) == toSlug(t)` |
| TextEditor.SlugAutoFill.constructor | public/editor.js:54-67 | a page is new when the id input exists and is empty; auto-fill starts on |
| TextEditor.SlugAutoFill.SlugInput | public/editor.js:69-71 | typing in the slug field keeps the typed text and stops auto-fill for good on a new page |
| TextEditor.SlugAutoFill.TitleInput | public/editor.js:73-77 | the slug follows the title, slug-shaped, only on a new page not edited by hand; otherwise it is unchanged |
| TextEditor.LineStart | public/editor.js:90-94 | the start of the caret's line: after the last newline before it, with none in between |
| TextEditor.Unindent | public/editor.js:97 | `replace(/^  /gm, "")` never lengthens the text |
| TextEditor.UnindentMidLine | public/editor.js:97 | inside a line nothing is removed |
| TextEditor.UnindentOneLine | public/editor.js:97 | on one line exactly its two leading spaces go, if it has them |
| TextEditor.UnindentLines | public/editor.js:97 | lines are unindented independently: every line terminator restarts the rule |
| TextEditor.IndentBefore | public/editor.js:95-101 | the caret moves back two characters exactly when its line starts with two spaces before it |
| TextEditor.TextArea.constructor | public/editor.js:85-86 | a textarea with the given value and an in-range selection |
| TextEditor.TextArea.SetValue | public/editor.js:100 | a new value moves the caret to its end; the same value keeps the selection |
| TextEditor.TextArea.SetSelectionStart | public/editor.js:101 | clamped to the value; the end is pushed up to it |
| TextEditor.TextArea.SetSelectionEnd | public/editor.js:102 | clamped to the value; an end before the start pulls the start down |
| TextEditor.TextArea.SetRangeText | public/editor.js:141 | the range is replaced; `select` selects the insertion, `end` puts the caret after it |
| TextEditor.TextArea.Tab | public/editor.js:103-107 | the selection is replaced by two spaces and the caret follows them |
| TextEditor.TextArea.ShiftTab | public/editor.js:88-102 | the caret's line through the selection end is unindented line by line; text around it is kept; the end moves back by exactly what was removed; the start moves back by the caret line's indent, within the line |
| TextEditor.TextArea.WrapSelection | public/editor.js:135-146 | `before + s + after` replaces the selection, `s` being the selection, else the placeholder, else `text`; afterwards exactly `s` is selected |
| TextEditor.TextArea.InsertAtLineStart | public/editor.js:148-156 | the prefix goes in at the start of the caret's line and the caret follows it |
| TextEditor.TextArea.ToolbarAction | public/editor.js:158-178 | an unknown toolbar action changes nothing |
| TextEditor.TextArea.Shortcut | public/editor.js:114-131 | keys other than B and I change nothing |
| SitePreview.Replacements | src/editor/site-editor.ts:77-83 | one placeholder per template token |
| SitePreview.EditorValue | src/editor/site-editor.ts:36-39 | a missing editor reads as the empty string, a present one as its text |
| SitePreview.ReplaceInOrderAbsent | public/site-editor.js:24-30 | layout html with none of the tokens passes the substitution chain unchanged |
| SitePreview.SubstituteTokens | src/editor/site-editor.ts:77-83 | the six `replaceAll` calls in order; specified by `SubstituteNoTokens`, `SubstituteLayout` and `SubstitutionOrderMatters` |
| SitePreview.ReplaceSlot | src/editor/site-editor.ts:77-83 | in a layout of brace-free text and distinct tokens, replacing one token fills exactly its slots and nothing else |
| SitePreview.SubstituteLayout | src/editor/site-editor.ts:77-83 | every occurrence of every token in a layout is replaced by its own placeholder and the text between them is kept |
| SitePreview.SubstitutionOrderMatters | src/editor/site-editor.ts:78-82 | the passes run in order: `{{n{{authLinksBlock}}av}}` comes out as a literal `{{nav}}`, because the `{{nav}}` pass ran before the one that put it together |
| SitePreview.SubstituteNoTokens | src/editor/site-editor.ts:77-83 | the six `replaceAll` calls leave a layout without tokens unchanged |
| SitePreview.ResolveBody | src/editor/site-editor.ts:84-86 | `{{content}}` replaced, else the content appended; specified by `ContentAlwaysPresent` |
| SitePreview.BuildPreviewHtml | src/editor/site-editor.ts:70-100 | the preview document; specified by `StyleVerbatim`, `ScriptVerbatim`, `ContentAlwaysPresent` and `SubstituteLayout` |
| SitePreview.BuildPreviewFromEditors | src/editor/site-editor.ts:70-73 | each missing pane read as ""; specified by `EditorValue` and `NoEditorsPreview` |
| SitePreview.ContentAlwaysPresent | src/editor/site-editor.ts:84-86 | the placeholder content always ends up in the body: in place of `{{content}}`, or appended on a new line |
| SitePreview.StyleVerbatim | src/editor/site-editor.ts:93 | the css is put into the document verbatim |
| SitePreview.ScriptVerbatim | src/editor/site-editor.ts:97 | the js is put into the document verbatim |
| SitePreview.NoEditorsPreview | src/editor/site-editor.ts:71-73 | with every pane missing the preview is the empty layout plus the content |
| SitePreview.EmptyLayoutBody | public/site-editor.js:31-33 | an empty layout becomes just the appended content |
| JsString.OrElse | src/editor/index.ts:216-219 | `a \|\| b`: `a` when present and non-empty, else `b` |
| JsString.SpaceEnd | src/editor/index.ts:217 | the first non-white-space index at or after a position |
| JsString.SpaceStart | src/editor/index.ts:217 | the end of the last non-white-space character before a position |
| JsString.TrimStart | src/editor/index.ts:230 | only leading white space is removed, and all of it |
| JsString.TrimEnd | public/editor.js:59 | only trailing white space is removed, and all of it |
| JsString.Trim | src/editor/index.ts:217 | `s` without its leading and trailing white space; nothing else removed |
| JsString.TrimUnique | src/editor/index.ts:217 | any cut that removes only white space and leaves non-space ends is `trim()` |
| JsString.TrimStartKeeps | src/editor/index.ts:230 | a string starting with no white space is its own `trimStart()` |
| JsString.TrimIdempotent | src/editor/index.ts:217 | trimming twice is trimming once |
| JsString.TrimLeadingSpace | src/editor/index.ts:222 | one leading space makes no difference to `trim()` |
| JsString.LowerChar | src/editor/index.ts:216 | an ASCII capital becomes lower-case; every other character is kept |
| JsString.LowerCharSpace | src/editor/index.ts:216 | lower-casing neither creates nor removes white space |
| JsString.ToLower | src/editor/index.ts:216 | character by character lower-casing, same length |
| JsString.Split | src/editor/index.ts:221 | at least one part, none holding the separator, joining back to the input |
| JsString.SplitAfter | src/editor/index.ts:221 | a separator-free part then the separator: that part comes first, the rest splits on its own |
| JsString.SplitNoSep | src/editor/index.ts:221 | a string without the separator is one part |
| JsString.Join | src/editor/index.ts:220-223 | `parts.join(sep)`; specified by `Split` and `SplitJoin` |
| JsString.JoinContainsPart | src/shared/seo.ts:91 | `parts.join(sep)` contains each of the parts |
| JsString.SplitJoin | src/editor/index.ts:221 | split undoes join when no part holds the separator |
| JsString.ReplaceAll | src/editor/site-editor.ts:77-83 | `replaceAll` with a literal pattern; specified by `ReplaceAllAbsent`, `ReplaceAllKeepsPrefix`, `ReplaceAllAtMatch` and `ReplaceAllSplit` |
| JsString.ReplaceAllKeepsPrefix | src/editor/site-editor.ts:77-83 | a prefix at none of whose positions the pattern starts comes through unchanged, and the rest is replaced on its own |
| JsString.ReplaceAllAtMatch | src/editor/site-editor.ts:77-83 | a match at the start becomes the replacement, and the rest is replaced on its own |
| JsString.ReplaceAllSplit | src/editor/site-editor.ts:77-83 | matches are found left to right: at the first occurrence the string splits into the unchanged text before it, the replacement, and the replaced rest |
| JsString.ReplaceAllAbsent | src/editor/site-editor.ts:77-83 | a string without the pattern is unchanged |
| JsString.ReplaceAllSelf | src/editor/site-editor.ts:77-83 | replacing a pattern by itself changes nothing |
| JsString.ReplaceAllPresent | src/editor/site-editor.ts:85 | where the pattern occurs, the replacement occurs in the result |
| JsString.NatToString | src/editor/site-editor.ts:81 | `String(n)` is a run of decimal digits |
| JsString.NatToStringValue | src/editor/site-editor.ts:81 | the digits of `String(n)` have the value `n` |
| JsString.DigitPrefix | src/editor/index.ts:230 | the longest digit prefix |
| JsString.ParseInt | src/editor/index.ts:230 | `NaN` exactly when no digit follows the leading white space and sign |
| JsString.ParseIntOfIntToString | src/editor/index.ts:230 | `parseInt(String(n), 10) == n` |
| JsString.ParseIntOfDigits | src/editor/index.ts:157 | `parseInt` of a run of digits is its decimal value |
| JsString.DigitPrefixAll | src/editor/index.ts:157 | a run of digits is its own digit prefix |
| Ordering.StrLeTotal | src/content/db.ts:142 | BINARY collation orders any two strings |
| Ordering.StrLeTransitive | src/content/db.ts:142 | BINARY collation is transitive |
| Ordering.Insert | src/content/db.ts:65 | inserting adds exactly the element |
| Ordering.SortBy | src/content/db.ts:65 | `ORDER BY` returns a permutation of the rows |
| Ordering.InsertSorted | src/content/db.ts:65 | inserting into a sorted list keeps it sorted |
| Ordering.SortBySorted | src/content/db.ts:65 | `ORDER BY` returns the rows sorted by the comparison |
| Ordering.MapSeq | src/content/db.ts:68 | `rows.map(f)`: same length, `f` applied to each row in place |

## Left out

- Markdown rendering (`renderMarkdown`, the `marked` library) is not modelled. The router passes the resolved markdown on, and the model stops there.
- HTML templates and layouts (`src/content/templates.ts`, `src/editor/templates.ts`) are reduced to view values. These record what each page shows (page, posts, nav, rendered body, revision list), not the markup.
- JSON text is not modelled: `JSON.stringify` of the API replies and of the JSON-LD objects, and `JSON.parse` of `tags`, `seo` and `scripts`. Values are kept in decoded form, so `PageStore.RowRoundTrip` assumes that JSON encoding round-trips.
- The cookie side of `src/editor/auth.ts` is not modelled: the HMAC-SHA256 signature of the session token, reading the `editor_session` cookie, and setting or clearing it (`createEditorSession`, `clearEditorSession`). Whether the cookie verifies is the parameter `sessionValid`. `editorRequiresAuth`, `isAuthenticated` and `verifyEditorPassword` are modelled as `EditorRouter.RequiresAuth`, `EditorRouter.IsAuthenticated` and `EditorRouter.PasswordAccepted`.
- The clock, `randomUUID()`, the environment and the built-in stylesheet are parameters. The current year of the preview is a parameter too.
- `Promise.all` concurrency and database failures are not modelled. SQL statements are atomic state changes, without transactions across the statements of one operation.
- `parseFormBody` (URL-encoded form decoding) is not modelled: the router receives the decoded fields. In `serveStatic`, only the MIME choice is modelled; file lookup and the traversal check are file-system I/O.
- Numbers are mathematical integers. JavaScript's IEEE doubles, YAML floats and `nav_order` values that are not integers are not modelled. A `NaN` nav order is stored as SQL `NULL`.
- JsString.LowerChar maps only ASCII capitals. Full Unicode `toLowerCase` is not modelled.
- Strings are sequences of characters, not UTF-16 code units. The `<textarea>` value is not newline-normalised (`\r\n` to `\n`).
- TextEditor.TextArea.SetRangeText models only the `select` and `end` selection modes, the two the editor uses.
- Ctrl+S (`form.requestSubmit()`) and the focus handling of the editor page are browser I/O and are not modelled. TextEditor.TextArea.Shortcut models B and I only.
- The site editor's preview debounce timer, the iframe `srcdoc` write, the tab switching and CodeMirror's document model are not modelled. `SitePreview` models the document the preview builds.
- Publish's file loop (reading the directory, `gray-matter` parsing, `process.exit`, the database connection) is not modelled. Front matter reaches the model as parsed YAML values. A FAQ entry keeps only its question and answer; other keys are dropped.
- `getLatestSiteBundleRevisionId` and `isAuthenticatedRequest` are imported by `astro/pages/preview/revision.json.ts` but are not defined in the repository's files. The preview endpoint is not part of this model.
- The Astro front end (`astro/`) is not modelled, apart from `pagePath`.
- Seo.BuildMetaTags states that every tag's line occurs in the joined string, not that the string splits back into exactly those lines: an escaped value may itself contain a newline. The tags themselves are specified through `MetaTags`, `RenderTags` and `MetaTagsMatchTable`.
- EditorRouter.PasswordAccepted and EditorRouter.IsAuthenticated do not model the cases where `src/editor/auth.ts` throws. `verifyEditorPassword` throws a `RangeError` when the given password has the configured UTF-16 length but a different UTF-8 byte length (`timingSafeEqual`, auth.ts:81-82). `verify` can throw the same way (auth.ts:25-26). `decodeURIComponent` throws a `URIError` on a malformed cookie (auth.ts:46). Where the source throws, the model answers "Incorrect password." or "no valid session".
- PageStore.GetPageById states none-iff-absent and the id. That the page is the first matching row follows from `First`, but it is not restated in this contract.
- PageStore.UpsertRow and PageStore.DeleteRow state length bounds only. Their contents are stated by `UpsertKeepsKeysUnique`, `UpsertThenGet`, `DeleteThenGet` and the tenant-isolation lemmas.
- TextEditor.TextArea.ToolbarAction and TextEditor.TextArea.Shortcut state only that an unknown action changes nothing. Each known action calls `WrapSelection` or `InsertAtLineStart`, whose contracts state the effect.
- The order of rows with equal sort keys is unspecified: SQLite does not fix it, and neither does the model.
