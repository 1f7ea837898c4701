/**
 * The site-bundle revision store (src/shared/site-bundle.ts).
 *
 * State: the `site_bundle_revision` table (rows in storage order, which is
 * ascending `revision_id` because ids only grow), one `site_bundle` pointer row
 * per tenant, and the id counter of the revision table. Reads are functions of
 * that state; `addSiteBundleRevision`, `setCurrentSiteBundleRevision` and
 * `deleteSiteBundleRevision` are methods of `RevisionStore`.
 */
module SiteBundle {
  import opened Wrappers

  /** The retention bound of `addSiteBundleRevision` (`LIMIT -1 OFFSET 50`). */
  const RetainedRevisions: nat := 50

  /** What a read returns: the active html/css/js and when it was written. */
  datatype Bundle = Bundle(html: string, css: string, js: string, updatedAt: string)

  /** A row of `site_bundle_revision`; NULL html/css/js read back as "" and are stored as "". */
  datatype Revision = Revision(revisionId: nat, tenantId: string, html: string, css: string, js: string, createdAt: string)

  /** What `listSiteBundleRevisions` returns for one row. */
  datatype RevisionInfo = RevisionInfo(revisionId: nat, html: string, css: string, js: string, updatedAt: string, createdAt: string)

  /**
   * A row of `site_bundle`: the current pointer plus the inline html/css/js of the
   * schema before revisions existed ("" when NULL).
   */
  datatype Pointer = Pointer(current: Option<nat>, html: string, css: string, js: string, updatedAt: string)

  function RevisionBundle(r: Revision): Bundle {
    Bundle(r.html, r.css, r.js, r.createdAt)
  }

  /** `rowToRevision`: a revision's `updatedAt` is its `createdAt`. */
  function ToRevisionInfo(r: Revision): RevisionInfo {
    RevisionInfo(r.revisionId, r.html, r.css, r.js, r.createdAt, r.createdAt)
  }

  /** `rowToBundle` on the pointer row's inline fields. */
  function LegacyBundle(p: Pointer): Bundle {
    Bundle(p.html, p.css, p.js, p.updatedAt)
  }

  predicate HasLegacyContent(p: Pointer) {
    p.html != "" || p.css != "" || p.js != ""
  }

  /** Storage order is ascending id order, and ids are distinct. */
  predicate Ascending(revs: seq<Revision>) {
    forall i, j :: 0 <= i < j < |revs| ==> revs[i].revisionId < revs[j].revisionId
  }

  // ------------------------------------------------------------------ reads

  /** `WHERE tenant_id = ?`, in storage order. */
  function TenantRevisions(revs: seq<Revision>, tenantId: string): (r: seq<Revision>)
    ensures |r| <= |revs|
    ensures forall i :: 0 <= i < |r| ==> r[i] in revs && r[i].tenantId == tenantId
    ensures forall i :: 0 <= i < |revs| && revs[i].tenantId == tenantId ==> revs[i] in r
  {
    if revs == [] then []
    else if revs[0].tenantId == tenantId then [revs[0]] + TenantRevisions(revs[1..], tenantId)
    else TenantRevisions(revs[1..], tenantId)
  }

  /** `WHERE revision_id = ? AND tenant_id = ? LIMIT 1`. */
  function FindRevision(revs: seq<Revision>, id: nat, tenantId: string): (r: Option<Revision>)
    ensures r.Some? ==> r.value in revs && r.value.revisionId == id && r.value.tenantId == tenantId
    ensures r.None? ==> forall x :: x in revs ==> !(x.revisionId == id && x.tenantId == tenantId)
  {
    if revs == [] then None
    else if revs[0].revisionId == id && revs[0].tenantId == tenantId then Some(revs[0])
    else FindRevision(revs[1..], id, tenantId)
  }

  /** `WHERE tenant_id = ? ORDER BY revision_id DESC LIMIT 1`: the tenant's revision with the highest id. */
  function Latest(revs: seq<Revision>, tenantId: string): (r: Option<Revision>)
    ensures r.Some? ==> r.value in revs && r.value.tenantId == tenantId
    ensures r.Some? ==> forall x :: x in revs && x.tenantId == tenantId ==> x.revisionId <= r.value.revisionId
    ensures r.None? <==> forall x :: x in revs ==> x.tenantId != tenantId
  {
    if revs == [] then None
    else
      var rest := Latest(revs[1..], tenantId);
      assert forall x :: x in revs ==> x == revs[0] || x in revs[1..];
      if revs[0].tenantId == tenantId && (rest.None? || rest.value.revisionId < revs[0].revisionId) then Some(revs[0])
      else rest
  }

  function LatestId(revs: seq<Revision>, tenantId: string): Option<nat> {
    match Latest(revs, tenantId)
    case None => None
    case Some(r) => Some(r.revisionId)
  }

  /** `getCurrentSiteBundleRevisionId`: the pointer's target, or null without a pointer row. */
  function CurrentRevisionId(pointers: map<string, Pointer>, tenantId: string): Option<nat> {
    if tenantId in pointers then pointers[tenantId].current else None
  }

  /**
   * `getSiteBundle`: the revision the current-revision row refers to, if it exists for this tenant;
   * else the pointer row's inline content, if any of it is non-empty; else the
   * tenant's newest revision; else nothing.
   */
  function GetSiteBundle(revs: seq<Revision>, pointers: map<string, Pointer>, tenantId: string): (r: Option<Bundle>)
    ensures r.Some? ==>
      (exists x :: x in revs && x.tenantId == tenantId && r.value == RevisionBundle(x))
      || (tenantId in pointers && HasLegacyContent(pointers[tenantId]) && r.value == LegacyBundle(pointers[tenantId]))
    ensures r.None? <==> TenantRevisions(revs, tenantId) == [] && !(tenantId in pointers && HasLegacyContent(pointers[tenantId]))
    // first: the revision the current-revision row refers to, when it exists for this tenant
    ensures CurrentRevisionId(pointers, tenantId).Some? && FindRevision(revs, CurrentRevisionId(pointers, tenantId).value, tenantId).Some?
      ==> r == Some(RevisionBundle(FindRevision(revs, CurrentRevisionId(pointers, tenantId).value, tenantId).value))
    // then: the inline content of the pointer row, ahead of any revision the row does not refer to
    ensures tenantId in pointers && HasLegacyContent(pointers[tenantId])
      && (CurrentRevisionId(pointers, tenantId).None? || FindRevision(revs, CurrentRevisionId(pointers, tenantId).value, tenantId).None?)
      ==> r == Some(LegacyBundle(pointers[tenantId]))
  {
    assert Latest(revs, tenantId).None? ==> TenantRevisions(revs, tenantId) == [] by {
      if TenantRevisions(revs, tenantId) != [] {
        assert TenantRevisions(revs, tenantId)[0] in revs;
      }
    }
    var latest := match Latest(revs, tenantId)
      case None => None
      case Some(x) => Some(RevisionBundle(x));
    if tenantId in pointers then
      var p := pointers[tenantId];
      var pointed := if p.current.Some? then FindRevision(revs, p.current.value, tenantId) else None;
      if pointed.Some? then Some(RevisionBundle(pointed.value))
      else if HasLegacyContent(p) then Some(LegacyBundle(p))
      else latest
    else latest
  }

  /** `listSiteBundleRevisions`: the tenant's revisions, newest first (see `ListRevisionsContents`). */
  function ListRevisions(revs: seq<Revision>, tenantId: string): (r: seq<RevisionInfo>)
    ensures |r| == |TenantRevisions(revs, tenantId)|
    ensures forall i :: 0 <= i < |r| ==> r[i].updatedAt == r[i].createdAt
  {
    NewestFirst(TenantRevisions(revs, tenantId))
  }

  /** The rows read back from last to first. */
  function NewestFirst(own: seq<Revision>): (r: seq<RevisionInfo>)
    ensures |r| == |own|
    ensures forall i :: 0 <= i < |r| ==> r[i] == ToRevisionInfo(own[|own| - 1 - i])
  {
    if own == [] then []
    else
      assert forall j :: 0 <= j < |own| - 1 ==> own[1..][j] == own[j + 1];
      NewestFirst(own[1..]) + [ToRevisionInfo(own[0])]
  }

  /** The listing holds exactly the tenant's revisions, in strictly descending id order. */
  lemma ListRevisionsContents(revs: seq<Revision>, tenantId: string)
    ensures var r := ListRevisions(revs, tenantId);
      && (forall i :: 0 <= i < |r| ==> exists x :: x in revs && x.tenantId == tenantId && r[i] == ToRevisionInfo(x))
      && (forall x :: x in revs && x.tenantId == tenantId ==> ToRevisionInfo(x) in r)
    ensures Ascending(revs) ==>
      var r := ListRevisions(revs, tenantId);
      forall i, j :: 0 <= i < j < |r| ==> r[i].revisionId > r[j].revisionId
  {
    var own := TenantRevisions(revs, tenantId);
    var n := |own|;
    var r := ListRevisions(revs, tenantId);
    assert forall i :: 0 <= i < n ==> r[i] == ToRevisionInfo(own[n - 1 - i]);
    forall x | x in revs && x.tenantId == tenantId ensures ToRevisionInfo(x) in r {
      var k :| 0 <= k < |revs| && revs[k] == x;
      var m :| 0 <= m < n && own[m] == x;
      assert r[n - 1 - m] == ToRevisionInfo(x);
    }
    forall i | 0 <= i < n ensures exists x :: x in revs && x.tenantId == tenantId && r[i] == ToRevisionInfo(x) {
      assert own[n - 1 - i] in revs;
    }
    if Ascending(revs) {
      TenantRevisionsAscending(revs, tenantId);
    }
  }

  lemma {:induction false} TenantRevisionsAscending(revs: seq<Revision>, tenantId: string)
    ensures Ascending(revs) ==> Ascending(TenantRevisions(revs, tenantId))
  {
    if revs != [] && Ascending(revs) {
      assert Ascending(revs[1..]) by {
        assert forall i :: 0 <= i < |revs| - 1 ==> revs[1..][i] == revs[i + 1];
      }
      TenantRevisionsAscending(revs[1..], tenantId);
      var rest := TenantRevisions(revs[1..], tenantId);
      if revs[0].tenantId == tenantId {
        forall j | 0 <= j < |rest| ensures revs[0].revisionId < rest[j].revisionId {
          var k :| 0 <= k < |revs[1..]| && revs[1..][k] == rest[j];
          assert revs[k + 1] == rest[j];
        }
        AscendingCons(revs[0], rest);
      }
    }
  }

  lemma AscendingCons(x: Revision, rest: seq<Revision>)
    requires Ascending(rest)
    requires forall j :: 0 <= j < |rest| ==> x.revisionId < rest[j].revisionId
    ensures Ascending([x] + rest)
  {
    var s := [x] + rest;
    forall i, j | 0 <= i < j < |s| ensures s[i].revisionId < s[j].revisionId {
      assert s[j] == rest[j - 1];
      if i > 0 {
        assert s[i] == rest[i - 1];
      }
    }
  }

  /** Reads for one tenant see only that tenant's revisions. */
  lemma {:induction false} ReadsSeeOnlyOwnRevisions(revs: seq<Revision>, id: nat, tenantId: string)
    ensures FindRevision(TenantRevisions(revs, tenantId), id, tenantId) == FindRevision(revs, id, tenantId)
    ensures Latest(TenantRevisions(revs, tenantId), tenantId) == Latest(revs, tenantId)
  {
    if revs != [] {
      ReadsSeeOnlyOwnRevisions(revs[1..], id, tenantId);
    }
  }

  /** A null or dangling pointer whose inline fields are empty falls through to the newest revision. */
  lemma DanglingPointerFallsThrough(revs: seq<Revision>, pointers: map<string, Pointer>, tenantId: string)
    requires tenantId in pointers ==> !HasLegacyContent(pointers[tenantId])
    requires CurrentRevisionId(pointers, tenantId).Some? ==>
      FindRevision(revs, CurrentRevisionId(pointers, tenantId).value, tenantId).None?
    ensures Latest(revs, tenantId).Some? ==> GetSiteBundle(revs, pointers, tenantId) == Some(RevisionBundle(Latest(revs, tenantId).value))
    ensures Latest(revs, tenantId).None? ==> GetSiteBundle(revs, pointers, tenantId).None?
  {
  }

  /** Ids ascend strictly, so a revision is known by its id. */
  lemma AscendingUnique(revs: seq<Revision>, x: Revision, y: Revision)
    requires Ascending(revs) && x in revs && y in revs && x.revisionId == y.revisionId
    ensures x == y
  {
    var i :| 0 <= i < |revs| && revs[i] == x;
    var j :| 0 <= j < |revs| && revs[j] == y;
    assert i == j;
  }

  /** Pointing a tenant at one of its revisions makes that revision what `getSiteBundle` reads. */
  lemma SetCurrentThenGet(revs: seq<Revision>, pointers: map<string, Pointer>, id: nat, tenantId: string, now: string)
    requires FindRevision(revs, id, tenantId).Some?
    ensures GetSiteBundle(revs, SetPointer(pointers, tenantId, Some(id), now), tenantId)
      == Some(RevisionBundle(FindRevision(revs, id, tenantId).value))
  {
    assert CurrentRevisionId(SetPointer(pointers, tenantId, Some(id), now), tenantId) == Some(id);
  }

  // ------------------------------------------------------------------ retention

  /** How many revisions of the tenant have a higher id: the row's rank in `ORDER BY revision_id DESC`. */
  function NewerCount(revs: seq<Revision>, tenantId: string, id: nat): nat {
    if revs == [] then 0
    else (if revs[0].tenantId == tenantId && revs[0].revisionId > id then 1 else 0) + NewerCount(revs[1..], tenantId, id)
  }

  /** A row survives the prune unless it is the tenant's and at least 50 of the tenant's rows are newer. */
  predicate Retained(all: seq<Revision>, r: Revision, tenantId: string) {
    r.tenantId != tenantId || NewerCount(all, tenantId, r.revisionId) < RetainedRevisions
  }

  function KeepRetained(all: seq<Revision>, part: seq<Revision>, tenantId: string): (r: seq<Revision>)
    ensures |r| <= |part|
    ensures forall i :: 0 <= i < |r| ==> r[i] in part && Retained(all, r[i], tenantId)
    ensures forall i :: 0 <= i < |part| && Retained(all, part[i], tenantId) ==> part[i] in r
  {
    if part == [] then []
    else if Retained(all, part[0], tenantId) then [part[0]] + KeepRetained(all, part[1..], tenantId)
    else KeepRetained(all, part[1..], tenantId)
  }

  /**
   * `DELETE FROM site_bundle_revision WHERE revision_id IN (SELECT revision_id ...
   * WHERE tenant_id = ? ORDER BY revision_id DESC LIMIT -1 OFFSET 50)`.
   */
  function Prune(revs: seq<Revision>, tenantId: string): seq<Revision> {
    KeepRetained(revs, revs, tenantId)
  }

  lemma {:induction false} KeepRetainedOtherTenants(all: seq<Revision>, part: seq<Revision>, tenantId: string, other: string)
    requires other != tenantId
    ensures TenantRevisions(KeepRetained(all, part, tenantId), other) == TenantRevisions(part, other)
  {
    if part != [] {
      KeepRetainedOtherTenants(all, part[1..], tenantId, other);
    }
  }

  lemma {:induction false} KeepRetainedAscending(all: seq<Revision>, part: seq<Revision>, tenantId: string)
    requires Ascending(part)
    ensures Ascending(KeepRetained(all, part, tenantId))
  {
    if part != [] {
      KeepRetainedAscending(all, part[1..], tenantId);
      var rest := KeepRetained(all, part[1..], tenantId);
      forall j | 0 <= j < |rest| ensures part[0].revisionId < rest[j].revisionId {
        assert rest[j] in part[1..];
      }
    }
  }

  lemma {:induction false} NewerCountOfKept(all: seq<Revision>, part: seq<Revision>, tenantId: string, id: nat)
    ensures NewerCount(KeepRetained(all, part, tenantId), tenantId, id) <= NewerCount(part, tenantId, id)
  {
    if part != [] {
      NewerCountOfKept(all, part[1..], tenantId, id);
    }
  }

  lemma {:induction false} NewerCountAllAbove(revs: seq<Revision>, tenantId: string, id: nat)
    requires forall i :: 0 <= i < |revs| ==> revs[i].revisionId > id
    ensures NewerCount(revs, tenantId, id) == |TenantRevisions(revs, tenantId)|
  {
    if revs != [] {
      NewerCountAllAbove(revs[1..], tenantId, id);
    }
  }

  /** In ascending order, the tenant's oldest row has every other row of the tenant above it. */
  lemma {:induction false} OldestRank(revs: seq<Revision>, tenantId: string)
    requires Ascending(revs) && TenantRevisions(revs, tenantId) != []
    ensures NewerCount(revs, tenantId, TenantRevisions(revs, tenantId)[0].revisionId) == |TenantRevisions(revs, tenantId)| - 1
  {
    if revs[0].tenantId == tenantId {
      NewerCountAllAbove(revs[1..], tenantId, revs[0].revisionId);
    } else {
      OldestRank(revs[1..], tenantId);
    }
  }

  /** Retention: after the prune the tenant has at most 50 revisions. */
  lemma PruneBound(revs: seq<Revision>, tenantId: string)
    requires Ascending(revs)
    ensures |TenantRevisions(Prune(revs, tenantId), tenantId)| <= RetainedRevisions
  {
    var kept := Prune(revs, tenantId);
    KeepRetainedAscending(revs, revs, tenantId);
    var own := TenantRevisions(kept, tenantId);
    if own != [] {
      OldestRank(kept, tenantId);
      NewerCountOfKept(revs, revs, tenantId, own[0].revisionId);
      assert own[0] in kept;
      assert Retained(revs, own[0], tenantId);
    }
  }

  /** The prune removes only rows of the tenant, and exactly those with 50 or more newer rows of the tenant. */
  lemma PruneRemovesOnlyOld(revs: seq<Revision>, tenantId: string, other: string)
    requires other != tenantId
    ensures TenantRevisions(Prune(revs, tenantId), other) == TenantRevisions(revs, other)
    ensures forall x :: x in revs ==> (x in Prune(revs, tenantId) <==> Retained(revs, x, tenantId))
  {
    KeepRetainedOtherTenants(revs, revs, tenantId, other);
  }

  lemma {:induction false} NewerCountBelowTotal(revs: seq<Revision>, tenantId: string, k: nat)
    requires k < |revs| && revs[k].tenantId == tenantId
    ensures NewerCount(revs, tenantId, revs[k].revisionId) < |TenantRevisions(revs, tenantId)|
  {
    if k == 0 {
      NewerCountAtMostTotal(revs[1..], tenantId, revs[0].revisionId);
    } else {
      NewerCountBelowTotal(revs[1..], tenantId, k - 1);
    }
  }

  lemma {:induction false} NewerCountAtMostTotal(revs: seq<Revision>, tenantId: string, id: nat)
    ensures NewerCount(revs, tenantId, id) <= |TenantRevisions(revs, tenantId)|
  {
    if revs != [] {
      NewerCountAtMostTotal(revs[1..], tenantId, id);
    }
  }

  lemma {:induction false} KeepRetainedAll(all: seq<Revision>, part: seq<Revision>, tenantId: string)
    requires forall i :: 0 <= i < |part| ==> Retained(all, part[i], tenantId)
    ensures KeepRetained(all, part, tenantId) == part
  {
    if part != [] {
      KeepRetainedAll(all, part[1..], tenantId);
    }
  }

  /** With 50 revisions or fewer the prune deletes nothing. */
  lemma PruneNoop(revs: seq<Revision>, tenantId: string)
    requires |TenantRevisions(revs, tenantId)| <= RetainedRevisions
    ensures Prune(revs, tenantId) == revs
  {
    forall i | 0 <= i < |revs| ensures Retained(revs, revs[i], tenantId) {
      if revs[i].tenantId == tenantId {
        NewerCountBelowTotal(revs, tenantId, i);
      }
    }
    KeepRetainedAll(revs, revs, tenantId);
  }

  lemma {:induction false} NewerCountNone(revs: seq<Revision>, tenantId: string, id: nat)
    requires forall x :: x in revs && x.tenantId == tenantId ==> x.revisionId <= id
    ensures NewerCount(revs, tenantId, id) == 0
  {
    if revs != [] {
      NewerCountNone(revs[1..], tenantId, id);
    }
  }

  // ------------------------------------------------------------------ writes

  /**
   * `INSERT INTO site_bundle ... ON CONFLICT (tenant_id) DO UPDATE SET
   * current_revision_id, updated_at`: the inline fields of an existing row are kept,
   * a new row has none.
   */
  function SetPointer(pointers: map<string, Pointer>, tenantId: string, current: Option<nat>, now: string): (r: map<string, Pointer>)
    ensures tenantId in r && r[tenantId].current == current && r[tenantId].updatedAt == now
    ensures forall u :: u != tenantId ==> (u in r <==> u in pointers) && (u in pointers ==> r[u] == pointers[u])
  {
    if tenantId in pointers then pointers[tenantId := pointers[tenantId].(current := current, updatedAt := now)]
    else pointers[tenantId := Pointer(current, "", "", "", now)]
  }

  /** `DELETE FROM site_bundle_revision WHERE revision_id = ? AND tenant_id = ?`. */
  function RemoveRevision(revs: seq<Revision>, id: nat, tenantId: string): (r: seq<Revision>)
    ensures forall x :: x in r <==> x in revs && !(x.revisionId == id && x.tenantId == tenantId)
  {
    if revs == [] then []
    else if revs[0].revisionId == id && revs[0].tenantId == tenantId then RemoveRevision(revs[1..], id, tenantId)
    else [revs[0]] + RemoveRevision(revs[1..], id, tenantId)
  }

  lemma {:induction false} RemoveRevisionAscending(revs: seq<Revision>, id: nat, tenantId: string)
    requires Ascending(revs)
    ensures Ascending(RemoveRevision(revs, id, tenantId))
  {
    if revs != [] {
      RemoveRevisionAscending(revs[1..], id, tenantId);
      var rest := RemoveRevision(revs[1..], id, tenantId);
      forall j | 0 <= j < |rest| ensures revs[0].revisionId < rest[j].revisionId {
        assert rest[j] in revs[1..];
      }
    }
  }

  lemma {:induction false} RemoveRevisionOtherTenants(revs: seq<Revision>, id: nat, tenantId: string, other: string)
    requires other != tenantId
    ensures TenantRevisions(RemoveRevision(revs, id, tenantId), other) == TenantRevisions(revs, other)
  {
    if revs != [] {
      RemoveRevisionOtherTenants(revs[1..], id, tenantId, other);
    }
  }

  /** The revision table after `addSiteBundleRevision`: insert, then prune. */
  function AfterAdd(revs: seq<Revision>, row: Revision): seq<Revision> {
    Prune(revs + [row], row.tenantId)
  }

  /** The pointer row is null or refers to an existing revision of the same tenant. */
  predicate PointerSound(revs: seq<Revision>, pointers: map<string, Pointer>, tenantId: string) {
    CurrentRevisionId(pointers, tenantId).Some? ==>
      FindRevision(revs, CurrentRevisionId(pointers, tenantId).value, tenantId).Some?
  }

  /** Read after write: once a revision is added, it is current and it is what `getSiteBundle` returns. */
  lemma AddThenGet(revs: seq<Revision>, pointers: map<string, Pointer>, row: Revision)
    requires Ascending(revs) && forall x :: x in revs ==> x.revisionId < row.revisionId
    ensures FindRevision(AfterAdd(revs, row), row.revisionId, row.tenantId) == Some(row)
    ensures CurrentRevisionId(SetPointer(pointers, row.tenantId, Some(row.revisionId), row.createdAt), row.tenantId) == Some(row.revisionId)
    ensures GetSiteBundle(AfterAdd(revs, row), SetPointer(pointers, row.tenantId, Some(row.revisionId), row.createdAt), row.tenantId)
      == Some(Bundle(row.html, row.css, row.js, row.createdAt))
  {
    var all := revs + [row];
    var t := row.tenantId;
    assert forall x :: x in all ==> x == row || x in revs;
    NewerCountNone(all, t, row.revisionId);
    assert Retained(all, all[|revs|], t);
    var found := FindRevision(AfterAdd(revs, row), row.revisionId, t);
    assert found.Some?;
  }

  /** After an add the tenant keeps at most 50 revisions, the newest included, and other tenants keep theirs. */
  lemma AddRetention(revs: seq<Revision>, row: Revision, other: string)
    requires Ascending(revs) && forall x :: x in revs ==> x.revisionId < row.revisionId
    requires other != row.tenantId
    ensures Ascending(AfterAdd(revs, row))
    ensures |TenantRevisions(AfterAdd(revs, row), row.tenantId)| <= RetainedRevisions
    ensures row in AfterAdd(revs, row)
    ensures TenantRevisions(AfterAdd(revs, row), other) == TenantRevisions(revs, other)
  {
    var all := revs + [row];
    assert Ascending(all);
    KeepRetainedAscending(all, all, row.tenantId);
    PruneBound(all, row.tenantId);
    AddThenGet(revs, map[], row);
    KeepRetainedOtherTenants(all, all, row.tenantId, other);
    TenantRevisionsAppend(revs, row, other);
  }

  lemma {:induction false} TenantRevisionsAppend(revs: seq<Revision>, row: Revision, other: string)
    requires row.tenantId != other
    ensures TenantRevisions(revs + [row], other) == TenantRevisions(revs, other)
  {
    if revs != [] {
      assert (revs + [row])[1..] == revs[1..] + [row];
      TenantRevisionsAppend(revs[1..], row, other);
    }
  }

  lemma {:induction false} NewerCountAppend(revs: seq<Revision>, row: Revision, tenantId: string, id: nat)
    ensures NewerCount(revs + [row], tenantId, id)
      == NewerCount(revs, tenantId, id) + (if row.tenantId == tenantId && row.revisionId > id then 1 else 0)
  {
    if revs != [] {
      assert (revs + [row])[1..] == revs[1..] + [row];
      NewerCountAppend(revs[1..], row, tenantId, id);
    }
  }

  /** An added revision is kept, ids still ascend, and no kept revision is newer. */
  lemma AddKeepsNewest(revs: seq<Revision>, a: Revision)
    requires Ascending(revs) && forall x :: x in revs ==> x.revisionId < a.revisionId
    ensures a in AfterAdd(revs, a) && Ascending(AfterAdd(revs, a))
    ensures forall x :: x in AfterAdd(revs, a) ==> x.revisionId <= a.revisionId
  {
    AddThenGet(revs, map[], a);
    var all := revs + [a];
    assert Ascending(all);
    KeepRetainedAscending(all, all, a.tenantId);
    forall x | x in AfterAdd(revs, a) ensures x.revisionId <= a.revisionId {
      assert x in all;
    }
  }

  /** The revision added last survives the prune of the next add. */
  lemma NextAddKeeps(first: seq<Revision>, a: Revision, b: Revision)
    requires Ascending(first) && a in first && a.revisionId < b.revisionId
    requires forall x :: x in first ==> x.revisionId <= a.revisionId
    ensures a in AfterAdd(first, b) && Ascending(AfterAdd(first, b))
  {
    var all := first + [b];
    assert Ascending(all);
    NewerCountNone(first, a.tenantId, a.revisionId);
    NewerCountAppend(first, b, b.tenantId, a.revisionId);
    var k :| 0 <= k < |first| && first[k] == a;
    assert all[k] == a && Retained(all, a, b.tenantId);
    KeepRetainedAscending(all, all, b.tenantId);
  }

  /**
   * Rollback: after adding revision `a` and then `b`, pointing the tenant back at
   * `a` makes `getSiteBundle` return `a` again; the prune of the second add keeps it.
   */
  lemma RollbackAfterTwoAdds(revs: seq<Revision>, pointers: map<string, Pointer>, a: Revision, b: Revision, now: string)
    requires Ascending(revs) && (forall x :: x in revs ==> x.revisionId < a.revisionId) && a.revisionId < b.revisionId
    ensures var after := AfterAdd(AfterAdd(revs, a), b);
      var p1 := SetPointer(pointers, a.tenantId, Some(a.revisionId), a.createdAt);
      var p2 := SetPointer(p1, b.tenantId, Some(b.revisionId), b.createdAt);
      && FindRevision(after, a.revisionId, a.tenantId) == Some(a)
      && GetSiteBundle(after, SetPointer(p2, a.tenantId, Some(a.revisionId), now), a.tenantId) == Some(RevisionBundle(a))
  {
    var first := AfterAdd(revs, a);
    AddKeepsNewest(revs, a);
    NextAddKeeps(first, a, b);
    var after := AfterAdd(first, b);
    var found := FindRevision(after, a.revisionId, a.tenantId);
    assert found.Some?;
    AscendingUnique(after, found.value, a);
    var p1 := SetPointer(pointers, a.tenantId, Some(a.revisionId), a.createdAt);
    var p2 := SetPointer(p1, b.tenantId, Some(b.revisionId), b.createdAt);
    SetCurrentThenGet(after, p2, a.revisionId, a.tenantId, now);
  }

  /** Equal tenant views give equal lookups. */
  lemma SameTenantView(a: seq<Revision>, b: seq<Revision>, id: nat, tenantId: string)
    requires TenantRevisions(a, tenantId) == TenantRevisions(b, tenantId)
    ensures FindRevision(a, id, tenantId) == FindRevision(b, id, tenantId)
    ensures Latest(a, tenantId) == Latest(b, tenantId)
  {
    ReadsSeeOnlyOwnRevisions(a, id, tenantId);
    ReadsSeeOnlyOwnRevisions(b, id, tenantId);
  }

  /** `addSiteBundleRevision` keeps every tenant's pointer sound. */
  lemma AddKeepsPointersSound(revs: seq<Revision>, pointers: map<string, Pointer>, row: Revision, u: string)
    requires Ascending(revs) && forall x :: x in revs ==> x.revisionId < row.revisionId
    requires PointerSound(revs, pointers, u)
    ensures PointerSound(AfterAdd(revs, row), SetPointer(pointers, row.tenantId, Some(row.revisionId), row.createdAt), u)
  {
    AddThenGet(revs, pointers, row);
    if u != row.tenantId && CurrentRevisionId(pointers, u).Some? {
      AddRetention(revs, row, u);
      SameTenantView(AfterAdd(revs, row), revs, CurrentRevisionId(pointers, u).value, u);
    }
  }

  /** The pointer map after `deleteSiteBundleRevision`: repaired only when the deleted revision was current. */
  function AfterDeletePointers(revs: seq<Revision>, pointers: map<string, Pointer>, id: nat, tenantId: string, now: string): map<string, Pointer> {
    if CurrentRevisionId(pointers, tenantId) == Some(id) then
      SetPointer(pointers, tenantId, LatestId(RemoveRevision(revs, id, tenantId), tenantId), now)
    else pointers
  }

  /** `deleteSiteBundleRevision` keeps every tenant's pointer sound. */
  lemma DeleteKeepsPointersSound(revs: seq<Revision>, pointers: map<string, Pointer>, id: nat, tenantId: string, now: string, u: string)
    requires PointerSound(revs, pointers, u)
    ensures PointerSound(RemoveRevision(revs, id, tenantId), AfterDeletePointers(revs, pointers, id, tenantId, now), u)
  {
    var after := RemoveRevision(revs, id, tenantId);
    var ptrs := AfterDeletePointers(revs, pointers, id, tenantId, now);
    var cur := CurrentRevisionId(ptrs, u);
    if cur.Some? {
      if u != tenantId {
        RemoveRevisionOtherTenants(revs, id, tenantId, u);
        SameTenantView(after, revs, cur.value, u);
      } else if CurrentRevisionId(pointers, tenantId) == Some(id) {
        var latest := Latest(after, tenantId);
        assert latest.value in after;
      } else {
        var x := FindRevision(revs, cur.value, u).value;
        assert x in after;
      }
    }
  }

  /** After a delete, the repaired current-revision row refers to the tenant's newest remaining revision, or is null. */
  lemma DeleteRepointsToLatest(revs: seq<Revision>, pointers: map<string, Pointer>, id: nat, tenantId: string, now: string)
    requires CurrentRevisionId(pointers, tenantId) == Some(id)
    ensures var after := RemoveRevision(revs, id, tenantId);
      var cur := CurrentRevisionId(AfterDeletePointers(revs, pointers, id, tenantId, now), tenantId);
      && (cur.None? <==> forall x :: x in after ==> x.tenantId != tenantId)
      && (cur.Some? ==> cur.value != id && forall x :: x in after && x.tenantId == tenantId ==> x.revisionId <= cur.value)
  {
  }

  /** Everything `addSiteBundleRevision` promises, as a fact about the tables before and after. */
  lemma AddEffects(revs: seq<Revision>, pointers: map<string, Pointer>, row: Revision)
    requires Ascending(revs) && forall x :: x in revs ==> x.revisionId < row.revisionId
    ensures Ascending(AfterAdd(revs, row))
    ensures forall x :: x in AfterAdd(revs, row) ==> x.revisionId <= row.revisionId
    ensures GetSiteBundle(AfterAdd(revs, row), SetPointer(pointers, row.tenantId, Some(row.revisionId), row.createdAt), row.tenantId)
      == Some(Bundle(row.html, row.css, row.js, row.createdAt))
    ensures |TenantRevisions(AfterAdd(revs, row), row.tenantId)| <= RetainedRevisions
    ensures forall u :: u != row.tenantId ==> TenantRevisions(AfterAdd(revs, row), u) == TenantRevisions(revs, u)
    ensures forall u :: PointerSound(revs, pointers, u) ==>
      PointerSound(AfterAdd(revs, row), SetPointer(pointers, row.tenantId, Some(row.revisionId), row.createdAt), u)
  {
    AddThenGet(revs, pointers, row);
    AddKeepsNewest(revs, row);
    forall u | u != row.tenantId ensures TenantRevisions(AfterAdd(revs, row), u) == TenantRevisions(revs, u) {
      AddRetention(revs, row, u);
    }
    forall u | PointerSound(revs, pointers, u)
      ensures PointerSound(AfterAdd(revs, row), SetPointer(pointers, row.tenantId, Some(row.revisionId), row.createdAt), u)
    {
      AddKeepsPointersSound(revs, pointers, row, u);
    }
    var all := revs + [row];
    assert Ascending(all);
    PruneBound(all, row.tenantId);
  }

  // ------------------------------------------------------------------ the store

  class RevisionStore {
    var revisions: seq<Revision>
    var pointers: map<string, Pointer>
    var nextId: nat

    /** Rows are in ascending id order and every id is below the counter. */
    ghost predicate Valid()
      reads this
    {
      && Ascending(revisions)
      && (forall x :: x in revisions ==> x.revisionId < nextId)
      && nextId >= 1
    }

    constructor ()
      ensures Valid() && revisions == [] && pointers == map[] && nextId == 1
    {
      revisions := [];
      pointers := map[];
      nextId := 1;
    }

    /** `addSiteBundleRevision`: insert the revision, point the tenant at it, prune to the newest 50. */
    method AddRevision(html: string, css: string, js: string, tenantId: string, now: string) returns (id: nat)
      requires Valid()
      modifies this
      ensures Valid()
      ensures id == old(nextId) && forall x :: x in old(revisions) ==> x.revisionId != id
      ensures revisions == AfterAdd(old(revisions), Revision(id, tenantId, html, css, js, now))
      ensures pointers == SetPointer(old(pointers), tenantId, Some(id), now)
      ensures CurrentRevisionId(pointers, tenantId) == Some(id)
      ensures GetSiteBundle(revisions, pointers, tenantId) == Some(Bundle(html, css, js, now))
      ensures |TenantRevisions(revisions, tenantId)| <= RetainedRevisions
      ensures forall u :: u != tenantId ==> TenantRevisions(revisions, u) == TenantRevisions(old(revisions), u)
      ensures forall u :: PointerSound(old(revisions), old(pointers), u) ==> PointerSound(revisions, pointers, u)
    {
      id := nextId;
      var row := Revision(id, tenantId, html, css, js, now);
      AddEffects(revisions, pointers, row);
      revisions := revisions + [row];
      nextId := nextId + 1;
      pointers := SetPointer(pointers, tenantId, Some(id), now);
      revisions := Prune(revisions, tenantId);
    }

    /** `setCurrentSiteBundleRevision`: repoint without checking that the revision exists. */
    method SetCurrent(revisionId: nat, tenantId: string, now: string)
      requires Valid()
      modifies this
      ensures Valid()
      ensures revisions == old(revisions) && nextId == old(nextId)
      ensures pointers == SetPointer(old(pointers), tenantId, Some(revisionId), now)
      ensures FindRevision(revisions, revisionId, tenantId).Some? ==>
        GetSiteBundle(revisions, pointers, tenantId) == Some(RevisionBundle(FindRevision(revisions, revisionId, tenantId).value))
    {
      if FindRevision(revisions, revisionId, tenantId).Some? {
        SetCurrentThenGet(revisions, pointers, revisionId, tenantId, now);
      }
      pointers := SetPointer(pointers, tenantId, Some(revisionId), now);
    }

    /** `deleteSiteBundleRevision`: delete, then repair the current-revision row if it referred to the deleted revision. */
    method DeleteRevision(revisionId: nat, tenantId: string, now: string)
      requires Valid()
      modifies this
      ensures Valid()
      ensures revisions == RemoveRevision(old(revisions), revisionId, tenantId) && nextId == old(nextId)
      ensures pointers == AfterDeletePointers(old(revisions), old(pointers), revisionId, tenantId, now)
      ensures CurrentRevisionId(old(pointers), tenantId) != Some(revisionId) ==> pointers == old(pointers)
      ensures forall u :: PointerSound(old(revisions), old(pointers), u) ==> PointerSound(revisions, pointers, u)
    {
      var before := revisions;
      var beforePointers := pointers;
      RemoveRevisionAscending(revisions, revisionId, tenantId);
      forall u | PointerSound(before, beforePointers, u)
        ensures PointerSound(RemoveRevision(before, revisionId, tenantId), AfterDeletePointers(before, beforePointers, revisionId, tenantId, now), u)
      {
        DeleteKeepsPointersSound(before, beforePointers, revisionId, tenantId, now, u);
      }

      revisions := RemoveRevision(revisions, revisionId, tenantId);
      var currentId := CurrentRevisionId(pointers, tenantId);
      if currentId == Some(revisionId) {
        var latest := LatestId(revisions, tenantId);
        pointers := SetPointer(pointers, tenantId, latest, now);
      }
    }
  }
}
