/**
 * The page table and its tenant-scoped queries (src/content/db.ts).
 *
 * The table is a sequence of rows in storage order, keyed by (page_id, tenant_id).
 * A `SELECT ... LIMIT 1` without `ORDER BY` returns the first matching row in
 * that order. Queries are functions of the rows; `upsertPage` and `deletePage`
 * change the table in place and are methods of `PageTable`.
 */
module PageStore {
  import opened Wrappers
  import opened ContentTypes
  import opened Ordering

  /**
   * One row of the `page` table. `tags`, `scripts` and `seo` are JSON text in the
   * store; JSON encoding is lossless on these values, so the model keeps the
   * decoded value. `published` is the INTEGER the store holds (1 or 0).
   */
  datatype PageRow = PageRow(
    pageId: string,
    tenantId: string,
    slug: string,
    title: string,
    content: string,
    excerpt: string,
    tags: seq<string>,
    date: string,
    updated: Option<string>,
    published: int,
    scripts: Option<seq<string>>,
    seo: Option<PageMeta>,
    kind: string,
    navLabel: Option<string>,
    navOrder: Option<int>)

  // ------------------------------------------------------------------ row mappers

  /** `rowToPage`: an empty `updated` reads back as absent; `published` is `published = 1`. */
  function RowToPage(row: PageRow): Page {
    Page(
      row.pageId, row.slug, row.title, row.content, row.excerpt, row.tags, row.date,
      if row.updated.Some? && row.updated.value != "" then row.updated else None,
      row.published == 1,
      row.scripts, row.seo, row.kind,
      if row.navLabel.Some? then Some(NavInfo(row.navLabel.value, row.navOrder)) else None)
  }

  function RowToPageSummary(row: PageRow): PageSummary {
    PageSummary(row.pageId, row.slug, row.title, row.excerpt, row.tags, row.date)
  }

  /** `rowToNavItem`; only applied to rows whose `nav_label` is not NULL. */
  function RowToNavItem(row: PageRow): NavItem {
    NavItem(row.pageId, row.slug, row.kind, row.navLabel.GetOr(""), row.navOrder)
  }

  function RowToLinkTarget(row: PageRow): LinkTarget {
    LinkTarget(row.pageId, row.slug, row.kind, row.title)
  }

  /** The values `upsertPage` binds for a page of `tenantId`. */
  function PageToRow(page: Page, tenantId: string): PageRow {
    PageRow(
      page.id, tenantId, page.slug, page.title, page.content, page.excerpt, page.tags, page.date,
      page.updated,
      if page.published then 1 else 0,
      page.scripts, page.seo, page.kind,
      if page.nav.Some? then Some(page.nav.value.navLabel) else None,
      if page.nav.Some? then page.nav.value.order else None)
  }

  /** What a page looks like after a trip through the store: an empty `updated` becomes absent. */
  function Stored(page: Page): Page {
    if page.updated == Some("") then page.(updated := None) else page
  }

  /** Writing a page and mapping its row back loses nothing except an empty `updated`. */
  lemma RowRoundTrip(page: Page, tenantId: string)
    ensures RowToPage(PageToRow(page, tenantId)) == Stored(page)
    ensures PageToRow(page, tenantId).tenantId == tenantId
  {
  }

  // ------------------------------------------------------------------ WHERE clauses

  /** The `WHERE` clauses of the queries, apart from `tenant_id = ?`, which every query has. */
  datatype Where =
    | PublishedPosts                                  // published = 1 AND kind = 'post'
    | PublishedBySlug(slug: string, kind: string)     // slug = ? AND kind = ? AND published = 1
    | PublishedByKind(kind: string)                   // kind = ? AND published = 1
    | PublishedNav                                    // published = 1 AND nav_label IS NOT NULL
    | PublishedIn(ids: seq<string>)                   // page_id IN (...) AND published = 1
    | ById(id: string)                                // page_id = ?
    | AnyRow                                          // (tenant only)

  predicate Selects(w: Where, row: PageRow, tenantId: string) {
    row.tenantId == tenantId &&
    match w
    case PublishedPosts => row.published == 1 && row.kind == "post"
    case PublishedBySlug(slug, kind) => row.slug == slug && row.kind == kind && row.published == 1
    case PublishedByKind(kind) => row.kind == kind && row.published == 1
    case PublishedNav => row.published == 1 && row.navLabel.Some?
    case PublishedIn(ids) => row.pageId in ids && row.published == 1
    case ById(id) => row.pageId == id
    case AnyRow => true
  }

  /** The rows a `WHERE` clause selects, in storage order. */
  function Select(rows: seq<PageRow>, w: Where, tenantId: string): (r: seq<PageRow>)
    ensures |r| <= |rows|
    ensures forall i :: 0 <= i < |r| ==> r[i] in rows && Selects(w, r[i], tenantId)
    ensures forall i :: 0 <= i < |rows| && Selects(w, rows[i], tenantId) ==> rows[i] in r
  {
    if rows == [] then []
    else if Selects(w, rows[0], tenantId) then [rows[0]] + Select(rows[1..], w, tenantId)
    else Select(rows[1..], w, tenantId)
  }

  /** `... LIMIT 1` without `ORDER BY`: the position of the first selected row. */
  function First(rows: seq<PageRow>, w: Where, tenantId: string): (r: Option<nat>)
    ensures r.Some? ==> r.value < |rows| && Selects(w, rows[r.value], tenantId)
    ensures r.Some? ==> forall j :: 0 <= j < r.value ==> !Selects(w, rows[j], tenantId)
    ensures r.None? ==> forall j :: 0 <= j < |rows| ==> !Selects(w, rows[j], tenantId)
  {
    if rows == [] then None
    else if Selects(w, rows[0], tenantId) then Some(0)
    else match First(rows[1..], w, tenantId)
      case None => None
      case Some(k) => Some(k + 1)
  }

  function FirstPage(rows: seq<PageRow>, w: Where, tenantId: string): Option<Page> {
    match First(rows, w, tenantId)
    case None => None
    case Some(i) => Some(RowToPage(rows[i]))
  }

  /** The first selected row of a non-empty table: the head when it is selected, else the first of the rest. */
  lemma FirstPageCons(rows: seq<PageRow>, w: Where, tenantId: string)
    requires rows != []
    ensures FirstPage(rows, w, tenantId)
      == if Selects(w, rows[0], tenantId) then Some(RowToPage(rows[0])) else FirstPage(rows[1..], w, tenantId)
  {
    if !Selects(w, rows[0], tenantId) {
      var k := First(rows[1..], w, tenantId);
      if k.Some? {
        assert rows[k.value + 1] == rows[1..][k.value];
      }
    }
  }

  // ------------------------------------------------------------------ sort orders

  /** `ORDER BY date DESC` on post summaries. */
  predicate NewerFirst(a: PageSummary, b: PageSummary) {
    StrLe(b.date, a.date)
  }

  /** `ORDER BY nav_order ASC`; SQLite puts NULL first. */
  predicate NavOrderFirst(a: NavItem, b: NavItem) {
    a.order.None? || (b.order.Some? && a.order.value <= b.order.value)
  }

  /** `ORDER BY kind ASC, date DESC`. */
  predicate KindThenNewer(a: Page, b: Page) {
    if a.kind == b.kind then StrLe(b.date, a.date) else StrLe(a.kind, b.kind)
  }

  lemma StrLeAntisymmetric(a: string, b: string)
    requires StrLe(a, b) && StrLe(b, a)
    ensures a == b
    decreases |a|
  {
    if a != [] && b != [] {
      StrLeAntisymmetric(a[1..], b[1..]);
      assert a == [a[0]] + a[1..] && b == [b[0]] + b[1..];
    }
  }

  lemma NewerFirstIsPreorder()
    ensures TotalPreorder(NewerFirst)
  {
    forall a, b ensures NewerFirst(a, b) || NewerFirst(b, a) {
      StrLeTotal(a.date, b.date);
    }
    forall a, b, c | NewerFirst(a, b) && NewerFirst(b, c) ensures NewerFirst(a, c) {
      StrLeTransitive(c.date, b.date, a.date);
    }
  }

  lemma NavOrderFirstIsPreorder()
    ensures TotalPreorder(NavOrderFirst)
  {
  }

  lemma KindThenNewerIsPreorder()
    ensures TotalPreorder(KindThenNewer)
  {
    forall a, b ensures KindThenNewer(a, b) || KindThenNewer(b, a) {
      StrLeTotal(a.date, b.date);
      StrLeTotal(a.kind, b.kind);
    }
    forall a, b, c | KindThenNewer(a, b) && KindThenNewer(b, c) ensures KindThenNewer(a, c) {
      if a.kind == b.kind && b.kind == c.kind {
        StrLeTransitive(c.date, b.date, a.date);
      } else if a.kind != b.kind && b.kind != c.kind {
        StrLeTransitive(a.kind, b.kind, c.kind);
        if a.kind == c.kind {
          StrLeAntisymmetric(a.kind, b.kind);
        }
      }
    }
  }

  // ------------------------------------------------------------------ queries

  /** `listPosts`: the tenant's published posts, newest first. */
  function ListPosts(rows: seq<PageRow>, tenantId: string): (r: seq<PageSummary>)
    ensures SortedBy(r, NewerFirst)
    ensures multiset(r) == multiset(MapSeq(Select(rows, PublishedPosts, tenantId), RowToPageSummary))
    ensures forall i :: 0 <= i < |r| ==>
      exists row :: (row in rows && row.tenantId == tenantId && row.published == 1 && row.kind == "post"
        && r[i] == RowToPageSummary(row))
  {
    var all := MapSeq(Select(rows, PublishedPosts, tenantId), RowToPageSummary);
    NewerFirstIsPreorder();
    SortBySorted(all, NewerFirst);
    var r := SortBy(all, NewerFirst);
    assert forall i :: 0 <= i < |r| ==> r[i] in all by {
      forall i | 0 <= i < |r| ensures r[i] in all {
        assert r[i] in multiset(r);
      }
    }
    r
  }

  /** `getPageBySlug`: the first published row with that slug and kind, or nothing. */
  function GetPageBySlug(rows: seq<PageRow>, slug: string, kind: string, tenantId: string): (r: Option<Page>)
    ensures r.None? <==> forall row :: row in rows ==> !Selects(PublishedBySlug(slug, kind), row, tenantId)
    ensures r.Some? ==> r.value.published && r.value.slug == slug && r.value.kind == kind
    ensures r.Some? ==> exists i :: (0 <= i < |rows| && rows[i].tenantId == tenantId && r.value == RowToPage(rows[i])
      && forall j :: 0 <= j < i ==> !Selects(PublishedBySlug(slug, kind), rows[j], tenantId))
  {
    FirstPage(rows, PublishedBySlug(slug, kind), tenantId)
  }

  /** `getPageByKind`: the first published row of that kind, or nothing. */
  function GetPageByKind(rows: seq<PageRow>, kind: string, tenantId: string): (r: Option<Page>)
    ensures r.None? <==> forall row :: row in rows ==> !Selects(PublishedByKind(kind), row, tenantId)
    ensures r.Some? ==> r.value.published && r.value.kind == kind
    ensures r.Some? ==> exists i :: (0 <= i < |rows| && rows[i].tenantId == tenantId && r.value == RowToPage(rows[i])
      && forall j :: 0 <= j < i ==> !Selects(PublishedByKind(kind), rows[j], tenantId))
  {
    FirstPage(rows, PublishedByKind(kind), tenantId)
  }

  /** `getNavItems`: the tenant's published rows with a navigation label, by ascending order. */
  function GetNavItems(rows: seq<PageRow>, tenantId: string): (r: seq<NavItem>)
    ensures SortedBy(r, NavOrderFirst)
    ensures multiset(r) == multiset(MapSeq(Select(rows, PublishedNav, tenantId), RowToNavItem))
    ensures forall i :: 0 <= i < |r| ==>
      exists row :: (row in rows && row.tenantId == tenantId && row.published == 1 && row.navLabel.Some?
        && r[i] == RowToNavItem(row))
  {
    var sel := Select(rows, PublishedNav, tenantId);
    var all := MapSeq(sel, RowToNavItem);
    NavOrderFirstIsPreorder();
    SortBySorted(all, NavOrderFirst);
    var r := SortBy(all, NavOrderFirst);
    forall i | 0 <= i < |r|
      ensures exists row :: (row in rows && row.tenantId == tenantId && row.published == 1 && row.navLabel.Some?
        && r[i] == RowToNavItem(row))
    {
      assert r[i] in multiset(all);
      var k :| 0 <= k < |all| && all[k] == r[i];
      assert sel[k] in rows && Selects(PublishedNav, sel[k], tenantId);
    }
    r
  }

  /**
   * `resolvePageLinks`: with no ids the answer is empty and does not depend on the
   * table (the source returns before querying); otherwise exactly the tenant's
   * published rows whose id is asked for.
   */
  function ResolvePageLinks(rows: seq<PageRow>, ids: seq<string>, tenantId: string): (r: seq<LinkTarget>)
    ensures |ids| == 0 ==> r == []
    ensures forall i :: 0 <= i < |r| ==>
      (r[i].id in ids && exists row :: (row in rows && row.tenantId == tenantId && row.published == 1 && r[i] == RowToLinkTarget(row)))
    ensures forall row ::
      (row in rows && row.tenantId == tenantId && row.published == 1 && row.pageId in ids) ==> RowToLinkTarget(row) in r
  {
    if |ids| == 0 then []
    else
      var sel := Select(rows, PublishedIn(ids), tenantId);
      var r := MapSeq(sel, RowToLinkTarget);
      assert forall row :: row in rows && Selects(PublishedIn(ids), row, tenantId) ==> RowToLinkTarget(row) in r by {
        forall row | row in rows && Selects(PublishedIn(ids), row, tenantId)
          ensures RowToLinkTarget(row) in r
        {
          var i :| 0 <= i < |rows| && rows[i] == row;
          var k :| 0 <= k < |sel| && sel[k] == row;
          assert r[k] == RowToLinkTarget(row);
        }
      }
      r
  }

  /** `listAllPages`: every row of the tenant, drafts included, by kind then newest first. */
  function ListAllPages(rows: seq<PageRow>, tenantId: string): (r: seq<Page>)
    ensures SortedBy(r, KindThenNewer)
    ensures multiset(r) == multiset(MapSeq(Select(rows, AnyRow, tenantId), RowToPage))
    ensures |r| == |Select(rows, AnyRow, tenantId)|
  {
    var all := MapSeq(Select(rows, AnyRow, tenantId), RowToPage);
    KindThenNewerIsPreorder();
    SortBySorted(all, KindThenNewer);
    assert |SortBy(all, KindThenNewer)| == |multiset(SortBy(all, KindThenNewer))|;
    SortBy(all, KindThenNewer)
  }

  /** `getPageById`: the row with that key, published or not. */
  function GetPageById(rows: seq<PageRow>, pageId: string, tenantId: string): (r: Option<Page>)
    ensures r.None? <==> forall row :: row in rows ==> !(row.pageId == pageId && row.tenantId == tenantId)
    ensures r.Some? ==> r.value.id == pageId
  {
    FirstPage(rows, ById(pageId), tenantId)
  }

  // ------------------------------------------------------------------ writes

  predicate SameKey(a: PageRow, b: PageRow) {
    a.pageId == b.pageId && a.tenantId == b.tenantId
  }

  /** The primary key (page_id, tenant_id) is unique. */
  predicate KeysUnique(rows: seq<PageRow>) {
    forall i, j :: 0 <= i < j < |rows| ==> !SameKey(rows[i], rows[j])
  }

  /** `INSERT ... ON CONFLICT (page_id, tenant_id) DO UPDATE SET <every other column>`. */
  function UpsertRow(rows: seq<PageRow>, row: PageRow): (r: seq<PageRow>)
    ensures |r| == |rows| || |r| == |rows| + 1
  {
    if rows == [] then [row]
    else if SameKey(rows[0], row) then [row] + rows[1..]
    else [rows[0]] + UpsertRow(rows[1..], row)
  }

  /** `DELETE FROM page WHERE page_id = ? AND tenant_id = ?`. */
  function DeleteRow(rows: seq<PageRow>, pageId: string, tenantId: string): (r: seq<PageRow>)
    ensures |r| <= |rows|
  {
    if rows == [] then []
    else if rows[0].pageId == pageId && rows[0].tenantId == tenantId then DeleteRow(rows[1..], pageId, tenantId)
    else [rows[0]] + DeleteRow(rows[1..], pageId, tenantId)
  }

  lemma {:induction false} UpsertKeepsKeysUnique(rows: seq<PageRow>, row: PageRow)
    requires KeysUnique(rows)
    ensures KeysUnique(UpsertRow(rows, row))
    ensures forall x :: x in UpsertRow(rows, row) ==> x == row || x in rows
  {
    if rows != [] {
      assert KeysUnique(rows[1..]);
      UpsertKeepsKeysUnique(rows[1..], row);
      if !SameKey(rows[0], row) {
        var tail := UpsertRow(rows[1..], row);
        forall j | 0 <= j < |tail| ensures !SameKey(rows[0], tail[j]) {
          assert tail[j] in tail;
          if tail[j] != row {
            var m :| 0 <= m < |rows[1..]| && rows[1..][m] == tail[j];
            assert rows[m + 1] == tail[j];
          }
        }
      }
    }
  }

  lemma {:induction false} DeleteKeepsKeysUnique(rows: seq<PageRow>, pageId: string, tenantId: string)
    requires KeysUnique(rows)
    ensures KeysUnique(DeleteRow(rows, pageId, tenantId))
    ensures forall x :: x in DeleteRow(rows, pageId, tenantId) ==> x in rows
  {
    if rows != [] {
      assert KeysUnique(rows[1..]);
      DeleteKeepsKeysUnique(rows[1..], pageId, tenantId);
      var tail := DeleteRow(rows[1..], pageId, tenantId);
      forall j | 0 <= j < |tail| ensures !SameKey(rows[0], tail[j]) {
        assert tail[j] in tail;
        var m :| 0 <= m < |rows[1..]| && rows[1..][m] == tail[j];
        assert rows[m + 1] == tail[j];
      }
    }
  }

  /** Round trip: after `upsertPage`, `getPageById` returns the page written, in every field. */
  lemma {:induction false} UpsertThenGet(rows: seq<PageRow>, page: Page, tenantId: string)
    requires KeysUnique(rows)
    ensures GetPageById(UpsertRow(rows, PageToRow(page, tenantId)), page.id, tenantId) == Some(Stored(page))
  {
    var row := PageToRow(page, tenantId);
    var u := UpsertRow(rows, row);
    RowRoundTrip(page, tenantId);
    FirstPageCons(u, ById(page.id), tenantId);
    if rows != [] && !SameKey(rows[0], row) {
      assert KeysUnique(rows[1..]);
      UpsertThenGet(rows[1..], page, tenantId);
      assert u[1..] == UpsertRow(rows[1..], row);
    }
  }

  /** `upsertPage` leaves the page under every other key as it was, in this tenant and in all others. */
  lemma {:induction false} UpsertKeepsOtherPages(rows: seq<PageRow>, row: PageRow, pageId: string, tenantId: string)
    requires !(row.pageId == pageId && row.tenantId == tenantId)
    ensures GetPageById(UpsertRow(rows, row), pageId, tenantId) == GetPageById(rows, pageId, tenantId)
  {
    var u := UpsertRow(rows, row);
    FirstPageCons(u, ById(pageId), tenantId);
    if rows != [] {
      FirstPageCons(rows, ById(pageId), tenantId);
      if SameKey(rows[0], row) {
        assert u[1..] == rows[1..];
      } else {
        UpsertKeepsOtherPages(rows[1..], row, pageId, tenantId);
        assert u[1..] == UpsertRow(rows[1..], row);
      }
    }
  }

  /** After `deletePage` the key is gone. */
  lemma {:induction false} DeleteThenGet(rows: seq<PageRow>, pageId: string, tenantId: string)
    ensures GetPageById(DeleteRow(rows, pageId, tenantId), pageId, tenantId).None?
    ensures forall row :: row in DeleteRow(rows, pageId, tenantId) ==> !(row.pageId == pageId && row.tenantId == tenantId)
  {
    if rows != [] {
      DeleteThenGet(rows[1..], pageId, tenantId);
    }
  }

  /** `deletePage` leaves the page under every other key as it was. */
  lemma {:induction false} DeleteKeepsOtherPages(rows: seq<PageRow>, pageId: string, tenantId: string, otherId: string, otherTenant: string)
    requires !(otherId == pageId && otherTenant == tenantId)
    ensures GetPageById(DeleteRow(rows, pageId, tenantId), otherId, otherTenant) == GetPageById(rows, otherId, otherTenant)
  {
    if rows != [] {
      DeleteKeepsOtherPages(rows[1..], pageId, tenantId, otherId, otherTenant);
      var d := DeleteRow(rows, pageId, tenantId);
      FirstPageCons(rows, ById(otherId), otherTenant);
      if !(rows[0].pageId == pageId && rows[0].tenantId == tenantId) {
        assert d == [rows[0]] + DeleteRow(rows[1..], pageId, tenantId);
        assert d[1..] == DeleteRow(rows[1..], pageId, tenantId);
        FirstPageCons(d, ById(otherId), otherTenant);
      }
    }
  }

  /** Tenant isolation for writes: a write for one tenant selects the same rows as before for every other tenant. */
  lemma {:induction false} UpsertInvisibleToOtherTenants(rows: seq<PageRow>, row: PageRow, w: Where, tenantId: string)
    requires row.tenantId != tenantId
    ensures Select(UpsertRow(rows, row), w, tenantId) == Select(rows, w, tenantId)
  {
    if rows != [] && !SameKey(rows[0], row) {
      UpsertInvisibleToOtherTenants(rows[1..], row, w, tenantId);
    }
  }

  lemma {:induction false} DeleteInvisibleToOtherTenants(rows: seq<PageRow>, pageId: string, owner: string, w: Where, tenantId: string)
    requires owner != tenantId
    ensures Select(DeleteRow(rows, pageId, owner), w, tenantId) == Select(rows, w, tenantId)
  {
    if rows != [] {
      DeleteInvisibleToOtherTenants(rows[1..], pageId, owner, w, tenantId);
    }
  }

  /** Every public listing of one tenant is unaffected by writes of another. */
  lemma TenantIsolation(rows: seq<PageRow>, page: Page, owner: string, tenantId: string)
    requires owner != tenantId
    ensures var after := UpsertRow(rows, PageToRow(page, owner));
      && ListPosts(after, tenantId) == ListPosts(rows, tenantId)
      && GetNavItems(after, tenantId) == GetNavItems(rows, tenantId)
      && ListAllPages(after, tenantId) == ListAllPages(rows, tenantId)
    ensures forall slug, kind ::
      GetPageBySlug(UpsertRow(rows, PageToRow(page, owner)), slug, kind, tenantId) == GetPageBySlug(rows, slug, kind, tenantId)
  {
    var row := PageToRow(page, owner);
    UpsertInvisibleToOtherTenants(rows, row, PublishedPosts, tenantId);
    UpsertInvisibleToOtherTenants(rows, row, PublishedNav, tenantId);
    UpsertInvisibleToOtherTenants(rows, row, AnyRow, tenantId);
    forall slug, kind
      ensures GetPageBySlug(UpsertRow(rows, row), slug, kind, tenantId) == GetPageBySlug(rows, slug, kind, tenantId)
    {
      UpsertFirstRow(rows, row, PublishedBySlug(slug, kind), tenantId);
    }
  }

  /** The first selected row for another tenant is the same row after an upsert. */
  lemma {:induction false} UpsertFirstRow(rows: seq<PageRow>, row: PageRow, w: Where, tenantId: string)
    requires row.tenantId != tenantId
    ensures FirstPage(UpsertRow(rows, row), w, tenantId) == FirstPage(rows, w, tenantId)
  {
    var u := UpsertRow(rows, row);
    FirstPageCons(u, w, tenantId);
    if rows != [] {
      FirstPageCons(rows, w, tenantId);
      if SameKey(rows[0], row) {
        assert u[1..] == rows[1..];
      } else {
        UpsertFirstRow(rows[1..], row, w, tenantId);
        assert u[1..] == UpsertRow(rows[1..], row);
      }
    }
  }

  // ------------------------------------------------------------------ the table

  class PageTable {
    var rows: seq<PageRow>

    ghost predicate Valid()
      reads this
    {
      KeysUnique(rows)
    }

    constructor ()
      ensures Valid() && rows == []
    {
      rows := [];
    }

    /** `upsertPage`: insert, or overwrite every mutable column of the row with the same key. */
    method Upsert(page: Page, tenantId: string)
      requires Valid()
      modifies this
      ensures Valid()
      ensures rows == UpsertRow(old(rows), PageToRow(page, tenantId))
      ensures GetPageById(rows, page.id, tenantId) == Some(Stored(page))
      ensures forall id, t :: !(id == page.id && t == tenantId) ==> GetPageById(rows, id, t) == GetPageById(old(rows), id, t)
    {
      var row := PageToRow(page, tenantId);
      UpsertKeepsKeysUnique(rows, row);
      UpsertThenGet(rows, page, tenantId);
      forall id, t | !(id == page.id && t == tenantId)
        ensures GetPageById(UpsertRow(rows, row), id, t) == GetPageById(rows, id, t)
      {
        UpsertKeepsOtherPages(rows, row, id, t);
      }
      rows := UpsertRow(rows, row);
    }

    /** `deletePage`: remove the row with that key, if any. */
    method Delete(pageId: string, tenantId: string)
      requires Valid()
      modifies this
      ensures Valid()
      ensures rows == DeleteRow(old(rows), pageId, tenantId)
      ensures GetPageById(rows, pageId, tenantId).None?
      ensures forall id, t :: !(id == pageId && t == tenantId) ==> GetPageById(rows, id, t) == GetPageById(old(rows), id, t)
    {
      DeleteKeepsKeysUnique(rows, pageId, tenantId);
      DeleteThenGet(rows, pageId, tenantId);
      forall id, t | !(id == pageId && t == tenantId)
        ensures GetPageById(DeleteRow(rows, pageId, tenantId), id, t) == GetPageById(rows, id, t)
      {
        DeleteKeepsOtherPages(rows, pageId, tenantId, id, t);
      }
      rows := DeleteRow(rows, pageId, tenantId);
    }
  }
}
