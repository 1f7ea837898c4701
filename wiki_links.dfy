/**
 * Wiki-link resolution (src/content/render.ts): `[[id]]` and `[[id|text]]` tokens
 * in markdown become markdown links to the page's current URL, or a visible
 * broken-link marker.
 *
 * The token pattern `\[\[([a-z0-9-]+)(?:\|([^\]]+))?\]\]` never needs to
 * backtrack: after `[[` only the maximal run of id characters can be followed by
 * `]]` or `|`, and only the maximal run of non-`]` characters can be followed by
 * `]]`. `MatchAt` is that deterministic reading, and `MatchAtComplete` /
 * `MatchAtSound` show it accepts exactly the strings the pattern describes.
 */
module WikiLinks {
  import opened Wrappers
  import opened JsString
  import opened ContentTypes
  import opened Urls
  import PageStore

  /** `[^\]]+` */
  predicate ValidText(text: string) {
    text != [] && forall i :: 0 <= i < |text| ==> text[i] != ']'
  }

  /** One match of the pattern: the id group and the optional text group. */
  datatype LinkToken = LinkToken(id: string, text: Option<string>)

  predicate ValidToken(t: LinkToken) {
    IsSlug(t.id) && (t.text.Some? ==> ValidText(t.text.value))
  }

  /** The characters a token was read from. */
  function TokenSource(t: LinkToken): string {
    "[[" + t.id + (if t.text.Some? then "|" + t.text.value else "") + "]]"
  }

  /** The longest prefix of id characters. */
  function IdRun(s: string): (r: string)
    ensures |r| <= |s| && r == s[..|r|]
    ensures forall i :: 0 <= i < |r| ==> IsSlugChar(r[i])
    ensures |r| < |s| ==> !IsSlugChar(s[|r|])
  {
    if s != [] && IsSlugChar(s[0]) then [s[0]] + IdRun(s[1..]) else []
  }

  /** The longest prefix without `]`. */
  function TextRun(s: string): (r: string)
    ensures |r| <= |s| && r == s[..|r|]
    ensures forall i :: 0 <= i < |r| ==> r[i] != ']'
    ensures |r| < |s| ==> s[|r|] == ']'
  {
    if s != [] && s[0] != ']' then [s[0]] + TextRun(s[1..]) else []
  }

  /** A string that starts with `a`, then `b`, then `c`, starts with their concatenation. */
  lemma SplitsAs(s: string, a: string, b: string, c: string)
    requires StartsWith(s, a) && StartsWith(s[|a|..], b) && StartsWith(s[|a| + |b|..], c)
    ensures StartsWith(s, a + b + c)
  {
    assert s[..|a| + |b| + |c|] == s[..|a|] + s[|a|..][..|b|] + s[|a| + |b|..][..|c|];
  }

  /** The pattern anchored at the start of `s`. */
  function MatchAt(s: string): (r: Option<LinkToken>)
    ensures r.Some? ==> ValidToken(r.value) && StartsWith(s, TokenSource(r.value))
  {
    if !StartsWith(s, "[[") then None
    else
      var id := IdRun(s[2..]);
      if id == [] then None else MatchAfterId(s, id)
  }

  /** After `[[` and the maximal id run: `]]`, or `|`, the maximal text run and `]]`. */
  function MatchAfterId(s: string, id: string): (r: Option<LinkToken>)
    requires StartsWith(s, "[[") && IsSlug(id) && StartsWith(s[2..], id)
    ensures r.Some? ==> r.value.id == id && ValidToken(r.value) && StartsWith(s, TokenSource(r.value))
  {
    var rest := s[2 + |id|..];
    if StartsWith(rest, "]]") then
      SplitsAs(s, "[[", id, "]]");
      Some(LinkToken(id, None))
    else if rest != [] && rest[0] == '|' then
      var text := TextRun(rest[1..]);
      if text != [] && StartsWith(rest[1 + |text|..], "]]") then
        var t := LinkToken(id, Some(text));
        assert rest[..1 + |text| + 2] == "|" + text + "]]";
        SplitsAs(s, "[[", id, rest[..1 + |text| + 2]);
        assert TokenSource(t) == "[[" + id + rest[..1 + |text| + 2];
        Some(t)
      else None
    else None
  }

  lemma {:induction false} IdRunStops(id: string, rest: string)
    requires forall i :: 0 <= i < |id| ==> IsSlugChar(id[i])
    requires rest == [] || !IsSlugChar(rest[0])
    ensures IdRun(id + rest) == id
  {
    if id != [] {
      assert (id + rest)[1..] == id[1..] + rest;
      IdRunStops(id[1..], rest);
    }
  }

  lemma {:induction false} TextRunStops(text: string, rest: string)
    requires forall i :: 0 <= i < |text| ==> text[i] != ']'
    requires rest == [] || rest[0] == ']'
    ensures TextRun(text + rest) == text
  {
    if text != [] {
      assert (text + rest)[1..] == text[1..] + rest;
      TextRunStops(text[1..], rest);
    }
  }

  lemma MatchPlainToken(id: string, tail: string)
    requires IsSlug(id)
    ensures MatchAt("[[" + id + "]]" + tail) == Some(LinkToken(id, None))
  {
    var s := "[[" + id + "]]" + tail;
    assert s[..2] == "[[";
    assert s[2..] == id + ("]]" + tail);
    IdRunStops(id, "]]" + tail);
    assert s[2 + |id|..] == "]]" + tail;
  }

  lemma MatchTextToken(id: string, text: string, tail: string)
    requires IsSlug(id) && ValidText(text)
    ensures MatchAt("[[" + id + "|" + text + "]]" + tail) == Some(LinkToken(id, Some(text)))
  {
    var close := "]]" + tail;
    var body := text + close;
    var after := "|" + body;
    var s := "[[" + (id + after);
    assert s == "[[" + id + "|" + text + "]]" + tail;
    assert StartsWith(s, "[[") && StartsWith(s[2..], id) && s[2 + |id|..] == after by {
      assert s[..2] == "[[";
      assert s[2..] == id + after;
    }
    assert MatchAt(s) == MatchAfterId(s, id) by {
      assert s[2..] == id + after;
      IdRunStops(id, after);
    }
    AfterIdText(s, id, text, close);
  }

  /** `|text]]` after the id: the text group is the whole text. */
  lemma AfterIdText(s: string, id: string, text: string, close: string)
    requires StartsWith(s, "[[") && IsSlug(id) && StartsWith(s[2..], id)
    requires ValidText(text) && StartsWith(close, "]]") && s[2 + |id|..] == "|" + (text + close)
    ensures MatchAfterId(s, id) == Some(LinkToken(id, Some(text)))
  {
    var rest := s[2 + |id|..];
    assert !StartsWith(rest, "]]") by {
      assert rest[0] == '|';
    }
    assert rest[1..] == text + close;
    TextRunStops(text, close);
    assert (text + close)[|text|..] == close;
  }

  /** Every string of the shape the pattern describes is matched, with the same groups. */
  lemma MatchAtComplete(s: string, t: LinkToken)
    requires ValidToken(t) && StartsWith(s, TokenSource(t))
    ensures MatchAt(s) == Some(t)
  {
    var tail := s[|TokenSource(t)|..];
    if t.text.None? {
      assert s == "[[" + t.id + "]]" + tail;
      MatchPlainToken(t.id, tail);
    } else {
      assert s == "[[" + t.id + "|" + t.text.value + "]]" + tail;
      MatchTextToken(t.id, t.text.value, tail);
    }
  }

  /** So a position starts a match exactly when it starts a well-formed token: nothing else is touched. */
  lemma MatchAtSound(s: string)
    ensures MatchAt(s).None? <==> forall t :: ValidToken(t) ==> !StartsWith(s, TokenSource(t))
  {
    if MatchAt(s).None? {
      forall t | ValidToken(t) ensures !StartsWith(s, TokenSource(t)) {
        if StartsWith(s, TokenSource(t)) {
          MatchAtComplete(s, t);
        }
      }
    }
  }

  // ------------------------------------------------------------------ scanning

  /** The input cut into characters outside tokens and tokens, as a global scan reads it. */
  datatype Segment = Plain(c: char) | Link(token: LinkToken)

  function SegmentSource(seg: Segment): string {
    match seg
    case Plain(c) => [c]
    case Link(t) => TokenSource(t)
  }

  function SourceOf(segs: seq<Segment>): string {
    if segs == [] then [] else SegmentSource(segs[0]) + SourceOf(segs[1..])
  }

  /**
   * The scan of `matchAll` / `replace` with a global pattern: try a match at the
   * current position; on success continue after it, otherwise keep one character.
   */
  function Segments(s: string): (segs: seq<Segment>)
    ensures forall i :: 0 <= i < |segs| && segs[i].Link? ==> ValidToken(segs[i].token)
    decreases |s|
  {
    if s == [] then []
    else match MatchAt(s)
      case Some(t) => [Link(t)] + Segments(s[|TokenSource(t)|..])
      case None => [Plain(s[0])] + Segments(s[1..])
  }

  lemma SourceOfCons(seg: Segment, segs: seq<Segment>)
    ensures SourceOf([seg] + segs) == SegmentSource(seg) + SourceOf(segs)
  {
    assert ([seg] + segs)[1..] == segs;
  }

  /** The scan loses nothing: the segments spell out the input exactly. */
  lemma {:induction false} SegmentsSpellInput(s: string)
    ensures SourceOf(Segments(s)) == s
    decreases |s|
  {
    if s != [] {
      match MatchAt(s)
      case Some(t) =>
        var rest := s[|TokenSource(t)|..];
        SegmentsSpellInput(rest);
        SourceOfCons(Link(t), Segments(rest));
        assert s == TokenSource(t) + rest;
      case None =>
        SegmentsSpellInput(s[1..]);
        SourceOfCons(Plain(s[0]), Segments(s[1..]));
        assert s == [s[0]] + s[1..];
    }
  }

  /** `matches.map(m => m[1])`: the id of every token, in order, repeats included. */
  function TokenIds(segs: seq<Segment>): (ids: seq<string>)
    ensures forall i :: 0 <= i < |ids| ==> exists k :: 0 <= k < |segs| && segs[k].Link? && segs[k].token.id == ids[i]
    ensures forall k :: 0 <= k < |segs| && segs[k].Link? ==> segs[k].token.id in ids
  {
    if segs == [] then []
    else
      var rest := TokenIds(segs[1..]);
      forall i | 0 <= i < |rest|
        ensures exists k :: 0 <= k < |segs| && segs[k].Link? && segs[k].token.id == rest[i]
      {
        var k :| 0 <= k < |segs[1..]| && segs[1..][k].Link? && segs[1..][k].token.id == rest[i];
        assert segs[k + 1] == segs[1..][k];
      }
      if segs[0].Link? then [segs[0].token.id] + rest else rest
  }

  predicate NoDuplicates(ids: seq<string>) {
    forall i, j :: 0 <= i < j < |ids| ==> ids[i] != ids[j]
  }

  /** `[...new Set(ids)]`: every id once, at its first occurrence. */
  function Distinct(ids: seq<string>): (r: seq<string>)
    ensures NoDuplicates(r)
    ensures forall x :: x in r <==> x in ids
    decreases |ids|
  {
    if ids == [] then []
    else
      var last := ids[|ids| - 1];
      var front := Distinct(ids[..|ids| - 1]);
      assert forall x :: x in ids <==> x in ids[..|ids| - 1] || x == last;
      if last in front then front else front + [last]
  }

  /** `new Map(targets.map(t => [t.id, t]))`: a later entry with the same id replaces an earlier one. */
  function LookupMap(targets: seq<LinkTarget>): (m: map<string, LinkTarget>)
    ensures forall t :: t in targets ==> t.id in m
    ensures forall id :: id in m ==> m[id] in targets && m[id].id == id
    ensures forall id :: id in m ==> forall t :: t in targets && t.id == id ==> t == m[id] || t in targets[..|targets| - 1]
  {
    if targets == [] then map[]
    else
      var last := targets[|targets| - 1];
      var front := LookupMap(targets[..|targets| - 1]);
      assert forall t :: t in targets ==> t in targets[..|targets| - 1] || t == last;
      front[last.id := last]
  }

  /** The entry for one id after the last target is added. */
  lemma LookupMapLast(targets: seq<LinkTarget>, id: string)
    requires targets != []
    ensures var last := targets[|targets| - 1];
      var front := LookupMap(targets[..|targets| - 1]);
      && (id in LookupMap(targets) <==> id == last.id || id in front)
      && (id == last.id ==> LookupMap(targets)[id] == last)
      && (id != last.id && id in front ==> LookupMap(targets)[id] == front[id])
  {
  }

  /** No target after position `j` has the id of `targets[j]`, checked from the end. */
  predicate NoLaterId(targets: seq<LinkTarget>, j: nat)
    decreases |targets|
  {
    j < |targets| &&
    (j == |targets| - 1 || (targets[|targets| - 1].id != targets[j].id && NoLaterId(targets[..|targets| - 1], j)))
  }

  lemma {:induction false} NoLaterIdOfForall(targets: seq<LinkTarget>, j: nat)
    requires j < |targets| && forall k :: j < k < |targets| ==> targets[k].id != targets[j].id
    ensures NoLaterId(targets, j)
    decreases |targets|
  {
    var n := |targets| - 1;
    if j < n {
      var front := targets[..n];
      assert forall k :: j < k < n ==> front[k].id != front[j].id by {
        assert forall k :: 0 <= k < n ==> front[k] == targets[k];
      }
      NoLaterIdOfForall(front, j);
    }
  }

  lemma {:induction false} LookupMapNoLaterId(targets: seq<LinkTarget>, j: nat)
    requires NoLaterId(targets, j)
    ensures targets[j].id in LookupMap(targets) && LookupMap(targets)[targets[j].id] == targets[j]
    decreases |targets|
  {
    var n := |targets| - 1;
    var id := targets[j].id;
    if j < n {
      var front := targets[..n];
      LookupMapNoLaterId(front, j);
      assert front[j] == targets[j];
      LookupMapLast(targets, id);
    } else {
      LookupMapLast(targets, id);
    }
  }

  /** The entry for an id is the last target with that id: a later entry replaces an earlier one. */
  lemma LookupMapLastWins(targets: seq<LinkTarget>, j: nat)
    requires j < |targets| && forall k :: j < k < |targets| ==> targets[k].id != targets[j].id
    ensures targets[j].id in LookupMap(targets) && LookupMap(targets)[targets[j].id] == targets[j]
  {
    NoLaterIdOfForall(targets, j);
    LookupMapNoLaterId(targets, j);
  }

  /** The replacement callback for one token. */
  function RenderToken(t: LinkToken, lookup: map<string, LinkTarget>, urlPrefix: string): string {
    if t.id !in lookup then "[broken link: " + t.id + "]"
    else
      var target := lookup[t.id];
      var text := if t.text.Some? then t.text.value else target.title;
      "[" + text + "](" + PageUrl(target, urlPrefix) + ")"
  }

  /** What one segment becomes: a plain character stays, a token is rendered. */
  function RenderSegment(seg: Segment, lookup: map<string, LinkTarget>, urlPrefix: string): string {
    match seg
    case Plain(c) => [c]
    case Link(t) => RenderToken(t, lookup, urlPrefix)
  }

  function RenderSegments(segs: seq<Segment>, lookup: map<string, LinkTarget>, urlPrefix: string): string {
    if segs == [] then []
    else RenderSegment(segs[0], lookup, urlPrefix) + RenderSegments(segs[1..], lookup, urlPrefix)
  }

  function Concat(parts: seq<string>): string {
    if parts == [] then [] else parts[0] + Concat(parts[1..])
  }

  /** The rendering of each segment, one entry per segment. */
  function RenderedParts(segs: seq<Segment>, lookup: map<string, LinkTarget>, urlPrefix: string): (parts: seq<string>)
    ensures |parts| == |segs|
    ensures forall i :: 0 <= i < |segs| ==> parts[i] == RenderSegment(segs[i], lookup, urlPrefix)
  {
    if segs == [] then []
    else
      var rest := RenderedParts(segs[1..], lookup, urlPrefix);
      assert forall i :: 1 <= i < |segs| ==> segs[1..][i - 1] == segs[i];
      [RenderSegment(segs[0], lookup, urlPrefix)] + rest
  }

  /** The rendering is the concatenation of the segments' renderings, in order. */
  lemma {:induction false} RenderSegmentsConcat(segs: seq<Segment>, lookup: map<string, LinkTarget>, urlPrefix: string)
    ensures RenderSegments(segs, lookup, urlPrefix) == Concat(RenderedParts(segs, lookup, urlPrefix))
  {
    if segs != [] {
      RenderSegmentsConcat(segs[1..], lookup, urlPrefix);
      assert RenderedParts(segs, lookup, urlPrefix)[1..] == RenderedParts(segs[1..], lookup, urlPrefix);
    }
  }

  /** Text outside tokens is copied as is: with no token the rendering is the input. */
  lemma {:induction false} RenderWithoutTokens(segs: seq<Segment>, lookup: map<string, LinkTarget>, urlPrefix: string)
    requires forall i :: 0 <= i < |segs| ==> segs[i].Plain?
    ensures RenderSegments(segs, lookup, urlPrefix) == SourceOf(segs)
  {
    if segs != [] {
      RenderWithoutTokens(segs[1..], lookup, urlPrefix);
    }
  }

  /** The result of `resolveLinks`: the rewritten markdown and the ids passed to the lookup, if one was made. */
  datatype Resolution = Resolution(output: string, lookedUp: Option<seq<string>>)

  /**
   * `resolveLinks` against the page table: the distinct ids go to
   * `resolvePageLinks` once, and every token is rewritten from the answer.
   */
  function ResolveLinks(markdown: string, rows: seq<PageStore.PageRow>, tenantId: string, urlPrefix: string): (r: Resolution)
    ensures r.lookedUp.None? <==> TokenIds(Segments(markdown)) == []
    ensures r.lookedUp.None? ==> r.output == markdown
    ensures r.lookedUp.Some? ==>
      && NoDuplicates(r.lookedUp.value)
      && (forall id :: id in r.lookedUp.value <==> id in TokenIds(Segments(markdown)))
  {
    var segs := Segments(markdown);
    var ids := TokenIds(segs);
    if ids == [] then Resolution(markdown, None)
    else
      var query := Distinct(ids);
      var lookup := LookupMap(PageStore.ResolvePageLinks(rows, query, tenantId));
      Resolution(RenderSegments(segs, lookup, urlPrefix), Some(query))
  }

  /** The lookup built from `resolvePageLinks` knows an asked-for id exactly when a published page of the tenant has it. */
  lemma LookupKnowsPublished(rows: seq<PageStore.PageRow>, ids: seq<string>, tenantId: string, id: string)
    requires id in ids
    ensures var lookup := LookupMap(PageStore.ResolvePageLinks(rows, ids, tenantId));
      && (id in lookup <==> exists row :: row in rows && row.tenantId == tenantId && row.published == 1 && row.pageId == id)
      && (id in lookup ==>
            exists row :: (row in rows && row.tenantId == tenantId && row.published == 1 && row.pageId == id
              && lookup[id] == PageStore.RowToLinkTarget(row)))
  {
    var targets := PageStore.ResolvePageLinks(rows, ids, tenantId);
    var lookup := LookupMap(targets);
    if exists row :: row in rows && row.tenantId == tenantId && row.published == 1 && row.pageId == id {
      var row :| row in rows && row.tenantId == tenantId && row.published == 1 && row.pageId == id;
      assert PageStore.RowToLinkTarget(row) in targets;
    }
    if id in lookup {
      var k :| 0 <= k < |targets| && targets[k] == lookup[id];
    }
  }

  /** A token whose id has no published page in the tenant becomes the broken-link marker. */
  lemma BrokenLink(rows: seq<PageStore.PageRow>, ids: seq<string>, tenantId: string, t: LinkToken, urlPrefix: string)
    requires t.id in ids
    requires forall row :: row in rows && row.tenantId == tenantId && row.published == 1 ==> row.pageId != t.id
    ensures RenderToken(t, LookupMap(PageStore.ResolvePageLinks(rows, ids, tenantId)), urlPrefix) == "[broken link: " + t.id + "]"
  {
    LookupKnowsPublished(rows, ids, tenantId, t.id);
  }

  /**
   * A token whose id resolves becomes `[text](url)`: the custom text if given,
   * else the target's title, and the URL of the target's current slug.
   */
  lemma ResolvedLink(rows: seq<PageStore.PageRow>, ids: seq<string>, tenantId: string, t: LinkToken, urlPrefix: string)
    requires t.id in ids
    requires exists row :: row in rows && row.tenantId == tenantId && row.published == 1 && row.pageId == t.id
    ensures exists row :: (row in rows && row.tenantId == tenantId && row.published == 1 && row.pageId == t.id
      && RenderToken(t, LookupMap(PageStore.ResolvePageLinks(rows, ids, tenantId)), urlPrefix)
         == "[" + (if t.text.Some? then t.text.value else row.title) + "]("
            + PageUrl(PageStore.RowToLinkTarget(row), urlPrefix) + ")")
  {
    LookupKnowsPublished(rows, ids, tenantId, t.id);
  }

  predicate PublishedWithId(rows: seq<PageStore.PageRow>, tenantId: string, id: string) {
    exists row :: row in rows && row.tenantId == tenantId && row.published == 1 && row.pageId == id
  }

  /** `[text](url)` for a published page of the tenant with the token's id. */
  predicate LinksToPublished(part: string, t: LinkToken, rows: seq<PageStore.PageRow>, tenantId: string, urlPrefix: string) {
    exists row :: (row in rows && row.tenantId == tenantId && row.published == 1 && row.pageId == t.id
      && part == "[" + (if t.text.Some? then t.text.value else row.title) + "](" + PageUrl(PageStore.RowToLinkTarget(row), urlPrefix) + ")")
  }

  /** Each part of a rendering against the page table, for tokens whose ids were all asked for. */
  lemma RenderedPartsAgainstTable(segs: seq<Segment>, rows: seq<PageStore.PageRow>, ids: seq<string>, tenantId: string, urlPrefix: string)
    requires forall i :: 0 <= i < |segs| && segs[i].Link? ==> segs[i].token.id in ids
    ensures var parts := RenderedParts(segs, LookupMap(PageStore.ResolvePageLinks(rows, ids, tenantId)), urlPrefix);
      && (forall i :: 0 <= i < |segs| && segs[i].Plain? ==> parts[i] == [segs[i].c])
      && (forall i :: 0 <= i < |segs| && segs[i].Link? && !PublishedWithId(rows, tenantId, segs[i].token.id) ==>
            parts[i] == "[broken link: " + segs[i].token.id + "]")
      && (forall i :: 0 <= i < |segs| && segs[i].Link? && PublishedWithId(rows, tenantId, segs[i].token.id) ==>
            LinksToPublished(parts[i], segs[i].token, rows, tenantId, urlPrefix))
  {
    var parts := RenderedParts(segs, LookupMap(PageStore.ResolvePageLinks(rows, ids, tenantId)), urlPrefix);
    forall i | 0 <= i < |segs| && segs[i].Link? && !PublishedWithId(rows, tenantId, segs[i].token.id)
      ensures parts[i] == "[broken link: " + segs[i].token.id + "]"
    {
      BrokenLink(rows, ids, tenantId, segs[i].token, urlPrefix);
    }
    forall i | 0 <= i < |segs| && segs[i].Link? && PublishedWithId(rows, tenantId, segs[i].token.id)
      ensures LinksToPublished(parts[i], segs[i].token, rows, tenantId, urlPrefix)
    {
      ResolvedLink(rows, ids, tenantId, segs[i].token, urlPrefix);
    }
  }

  /**
   * `resolveLinks` end to end: the markdown is cut into characters and tokens that
   * spell it exactly; the output is the piece-by-piece rewriting of that cut, in
   * which every character outside a token is copied, and every token, whose id
   * was asked for, becomes the broken-link marker when no published page of the
   * tenant has its id, and otherwise `[text](url)` for such a page.
   */
  lemma ResolveLinksOutput(markdown: string, rows: seq<PageStore.PageRow>, tenantId: string, urlPrefix: string)
    ensures var r := ResolveLinks(markdown, rows, tenantId, urlPrefix);
      var segs := Segments(markdown);
      r.lookedUp.Some? ==>
        var parts := RenderedParts(segs, LookupMap(PageStore.ResolvePageLinks(rows, r.lookedUp.value, tenantId)), urlPrefix);
        && SourceOf(segs) == markdown
        && |parts| == |segs|
        && r.output == Concat(parts)
        && (forall i :: 0 <= i < |segs| && segs[i].Plain? ==> parts[i] == [segs[i].c])
        && (forall i :: 0 <= i < |segs| && segs[i].Link? ==> segs[i].token.id in r.lookedUp.value)
        && (forall i :: 0 <= i < |segs| && segs[i].Link? && !PublishedWithId(rows, tenantId, segs[i].token.id) ==>
              parts[i] == "[broken link: " + segs[i].token.id + "]")
        && (forall i :: 0 <= i < |segs| && segs[i].Link? && PublishedWithId(rows, tenantId, segs[i].token.id) ==>
              LinksToPublished(parts[i], segs[i].token, rows, tenantId, urlPrefix))
  {
    var r := ResolveLinks(markdown, rows, tenantId, urlPrefix);
    var segs := Segments(markdown);
    SegmentsSpellInput(markdown);
    if r.lookedUp.Some? {
      var ids := r.lookedUp.value;
      RenderSegmentsConcat(segs, LookupMap(PageStore.ResolvePageLinks(rows, ids, tenantId)), urlPrefix);
      assert forall i :: 0 <= i < |segs| && segs[i].Link? ==> segs[i].token.id in ids;
      RenderedPartsAgainstTable(segs, rows, ids, tenantId, urlPrefix);
    }
  }
}
