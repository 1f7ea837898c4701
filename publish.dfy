/**
 * The front-matter checks of the publishing script (scripts/publish.ts): the
 * `kind`, `nav` and `seo` parsers, the required-field check, and the defaults
 * for `id` and `published`.
 *
 * Front matter arrives as parsed YAML, modelled by `Yaml`. A property that is
 * absent (`undefined` in JavaScript) is `None`.
 */
module Publish {
  import opened Wrappers
  import opened ContentTypes

  /** A parsed YAML value. A date written unquoted is parsed to a `Date` object. */
  datatype Yaml =
    | YNull
    | YBool(b: bool)
    | YNum(n: int)
    | YStr(s: string)
    | YDate(isoDate: string)
    | YList(items: seq<Yaml>)
    | YObj(fields: map<string, Yaml>)

  /** JavaScript truthiness of a property value; `undefined` is falsy. */
  predicate IsTruthy(v: Option<Yaml>) {
    match v
    case None => false
    case Some(YNull) => false
    case Some(YBool(b)) => b
    case Some(YNum(n)) => n != 0
    case Some(YStr(s)) => s != ""
    case Some(_) => true
  }

  /** `typeof v === "object"` for a truthy value: lists, dates and mappings. */
  predicate IsObject(v: Yaml) {
    v.YList? || v.YDate? || v.YObj?
  }

  /** `v.name`: only a mapping has named properties. */
  function Prop(v: Yaml, name: string): Option<Yaml> {
    if v.YObj? && name in v.fields then Some(v.fields[name]) else None
  }

  function Get(data: map<string, Yaml>, name: string): Option<Yaml> {
    if name in data then Some(data[name]) else None
  }

  // ------------------------------------------------------------------ kind and nav

  predicate IsKind(s: string) {
    s == "home" || s == "page" || s == "post"
  }

  /** `parseKind`: a valid kind string is kept, anything else becomes "post". */
  function ParseKind(raw: Option<Yaml>): (kind: string)
    ensures IsKind(kind)
    ensures raw.Some? && raw.value.YStr? && IsKind(raw.value.s) ==> kind == raw.value.s
    ensures kind != "post" ==> raw == Some(YStr(kind))
  {
    if raw.Some? && raw.value.YStr? && IsKind(raw.value.s) then raw.value.s else "post"
  }

  /** What `parseKind` returns it accepts back unchanged. */
  lemma ParseKindFixedPoint(raw: Option<Yaml>)
    ensures ParseKind(Some(YStr(ParseKind(raw)))) == ParseKind(raw)
  {
  }

  /** `parseNav`: a mapping with a string `label` and a numeric `order`, else absent. */
  function ParseNav(raw: Option<Yaml>): (nav: Option<NavInfo>)
    ensures nav.Some? <==>
      raw.Some? && IsObject(raw.value)
      && Prop(raw.value, "label").Some? && Prop(raw.value, "label").value.YStr?
      && Prop(raw.value, "order").Some? && Prop(raw.value, "order").value.YNum?
    ensures nav.Some? ==>
      && Prop(raw.value, "label") == Some(YStr(nav.value.navLabel))
      && nav.value.order.Some? && Prop(raw.value, "order") == Some(YNum(nav.value.order.value))
  {
    if raw.None? || !IsTruthy(raw) || !IsObject(raw.value) then None
    else
      var navLabel := Prop(raw.value, "label");
      var order := Prop(raw.value, "order");
      if navLabel.None? || !navLabel.value.YStr? || order.None? || !order.value.YNum? then None
      else Some(NavInfo(navLabel.value.s, Some(order.value.n)))
  }

  // ------------------------------------------------------------------ seo

  function StrProp(v: Yaml, name: string): Option<string> {
    var p := Prop(v, name);
    if p.Some? && p.value.YStr? then Some(p.value.s) else None
  }

  function BoolProp(v: Yaml, name: string): Option<bool> {
    var p := Prop(v, name);
    if p.Some? && p.value.YBool? then Some(p.value.b) else None
  }

  predicate IsTwitterCard(s: string) {
    s == "summary" || s == "summary_large_image"
  }

  /** `twitterCard` is taken only when it is one of the two card names. */
  function TwitterCardProp(v: Yaml): Option<string> {
    var p := StrProp(v, "twitterCard");
    if p.Some? && IsTwitterCard(p.value) then p else None
  }

  /** `.filter(c => typeof c === "string")`. */
  function Strings(items: seq<Yaml>): (r: seq<string>)
    ensures |r| <= |items|
    ensures forall s :: s in r ==> YStr(s) in items
  {
    if items == [] then []
    else (if items[0].YStr? then [items[0].s] else []) + Strings(items[1..])
  }

  /** A list entry with a string `question` and a string `answer`. */
  function FaqEntry(v: Yaml): Option<FaqItem> {
    var q := StrProp(v, "question");
    var a := StrProp(v, "answer");
    if IsObject(v) && q.Some? && a.Some? then Some(FaqItem(q.value, a.value)) else None
  }

  /** The well-typed entries of a `faq` list, in order. */
  function FaqEntries(items: seq<Yaml>): (r: seq<FaqItem>)
    ensures |r| <= |items|
  {
    if items == [] then []
    else (if FaqEntry(items[0]).Some? then [FaqEntry(items[0]).value] else []) + FaqEntries(items[1..])
  }

  /** Every kept FAQ entry comes from a well-typed list entry. */
  lemma {:induction false} FaqEntriesWellTyped(items: seq<Yaml>)
    ensures forall f :: f in FaqEntries(items) ==> exists v :: v in items && FaqEntry(v) == Some(f)
  {
    if items != [] {
      FaqEntriesWellTyped(items[1..]);
      forall f | f in FaqEntries(items)
        ensures exists v :: v in items && FaqEntry(v) == Some(f)
      {
        if f in FaqEntries(items[1..]) {
          var v :| v in items[1..] && FaqEntry(v) == Some(f);
          assert v in items;
        } else {
          assert FaqEntry(items[0]) == Some(f);
        }
      }
    }
  }

  /** `citations`: the string entries of a list, when the property is a list. */
  function CitationsProp(v: Yaml): Option<seq<string>> {
    var p := Prop(v, "citations");
    if p.Some? && p.value.YList? then Some(Strings(p.value.items)) else None
  }

  function FaqProp(v: Yaml): Option<seq<FaqItem>> {
    var p := Prop(v, "faq");
    if p.Some? && p.value.YList? then Some(FaqEntries(p.value.items)) else None
  }

  /** The search-engine fields that set `hasValue`. */
  predicate SetsSeoField(v: Yaml) {
    || StrProp(v, "metaDescription").Some? || StrProp(v, "canonicalUrl").Some?
    || StrProp(v, "ogImage").Some? || StrProp(v, "ogType").Some?
    || TwitterCardProp(v).Some?
    || BoolProp(v, "noIndex").Some? || BoolProp(v, "noFollow").Some?
  }

  /** The attribution fields that set `hasValue`; the filtered citations count only when non-empty. */
  predicate SetsGeoField(v: Yaml) {
    || StrProp(v, "authorName").Some? || StrProp(v, "authorExpertise").Some?
    || (CitationsProp(v).Some? && CitationsProp(v).value != [])
  }

  /** The answer-engine and AI-training fields that set `hasValue`; the filtered FAQ counts only when non-empty. */
  predicate SetsAeoField(v: Yaml) {
    || (FaqProp(v).Some? && FaqProp(v).value != [])
    || StrProp(v, "tldr").Some?
    || BoolProp(v, "noAiTraining").Some?
  }

  /** Some recognised field sets `hasValue`. */
  predicate SetsValue(v: Yaml) {
    SetsSeoField(v) || SetsGeoField(v) || SetsAeoField(v)
  }

  predicate SeoFieldsRead(v: Yaml, m: PageMeta) {
    && m.metaDescription == StrProp(v, "metaDescription")
    && m.canonicalUrl == StrProp(v, "canonicalUrl")
    && m.ogImage == StrProp(v, "ogImage")
    && m.ogType == StrProp(v, "ogType")
    && m.twitterCard == TwitterCardProp(v)
    && m.noIndex == BoolProp(v, "noIndex")
    && m.noFollow == BoolProp(v, "noFollow")
  }

  predicate GeoFieldsRead(v: Yaml, m: PageMeta) {
    && m.authorName == StrProp(v, "authorName")
    && m.authorExpertise == StrProp(v, "authorExpertise")
    && m.citations == CitationsProp(v)
  }

  predicate AeoFieldsRead(v: Yaml, m: PageMeta) {
    && m.faq == FaqProp(v)
    && m.tldr == StrProp(v, "tldr")
    && m.noAiTraining == BoolProp(v, "noAiTraining")
  }

  /** Every field of `m` is the recognised, well-typed value of the same field of `v`, or absent. */
  predicate ReadFrom(v: Yaml, m: PageMeta) {
    SeoFieldsRead(v, m) && GeoFieldsRead(v, m) && AeoFieldsRead(v, m)
  }

  /** One string field: copied when it is a string, and then `hasValue` is raised. */
  method ReadString(v: Yaml, name: string, hasValue: bool) returns (field: Option<string>, hasValue': bool)
    ensures field == StrProp(v, name)
    ensures hasValue' <==> hasValue || field.Some?
  {
    field, hasValue' := None, hasValue;
    var p := StrProp(v, name);
    if p.Some? {
      field, hasValue' := p, true;
    }
  }

  /** One boolean field: copied when it is a boolean, and then `hasValue` is raised. */
  method ReadBool(v: Yaml, name: string, hasValue: bool) returns (field: Option<bool>, hasValue': bool)
    ensures field == BoolProp(v, name)
    ensures hasValue' <==> hasValue || field.Some?
  {
    field, hasValue' := None, hasValue;
    var p := BoolProp(v, name);
    if p.Some? {
      field, hasValue' := p, true;
    }
  }

  /** `twitterCard`: copied only when it names one of the two card kinds. */
  method ReadTwitterCard(v: Yaml, hasValue: bool) returns (field: Option<string>, hasValue': bool)
    ensures field == TwitterCardProp(v)
    ensures field.Some? ==> IsTwitterCard(field.value)
    ensures hasValue' <==> hasValue || field.Some?
  {
    field, hasValue' := None, hasValue;
    var p := StrProp(v, "twitterCard");
    if p.Some? && IsTwitterCard(p.value) {
      field, hasValue' := p, true;
    }
  }

  /** `citations`: the string entries of a list; only a non-empty result raises `hasValue`. */
  method ReadCitations(v: Yaml, hasValue: bool) returns (field: Option<seq<string>>, hasValue': bool)
    ensures field == CitationsProp(v)
    ensures hasValue' <==> hasValue || (field.Some? && field.value != [])
  {
    field, hasValue' := None, hasValue;
    var p := Prop(v, "citations");
    if p.Some? && p.value.YList? {
      var strings := Strings(p.value.items);
      field := Some(strings);
      if |strings| > 0 {
        hasValue' := true;
      }
    }
  }

  /** `faq`: the well-typed entries of a list; only a non-empty result raises `hasValue`. */
  method ReadFaq(v: Yaml, hasValue: bool) returns (field: Option<seq<FaqItem>>, hasValue': bool)
    ensures field == FaqProp(v)
    ensures hasValue' <==> hasValue || (field.Some? && field.value != [])
  {
    field, hasValue' := None, hasValue;
    var p := Prop(v, "faq");
    if p.Some? && p.value.YList? {
      var entries := FaqEntries(p.value.items);
      field := Some(entries);
      if |entries| > 0 {
        hasValue' := true;
      }
    }
  }

  /**
   * `parseSeoFrontmatter`: fills the metadata field by field and raises
   * `hasValue` on each recognised value; without one the result is absent.
   */
  method ParseSeoFrontmatter(raw: Option<Yaml>) returns (r: Option<PageMeta>)
    ensures r.Some? <==> raw.Some? && IsObject(raw.value) && SetsValue(raw.value)
    ensures r.Some? ==> ReadFrom(raw.value, r.value)
  {
    if raw.None? || !IsTruthy(raw) || !IsObject(raw.value) {
      return None;
    }
    var v := raw.value;
    var hasValue := false;

    // search-engine fields
    var metaDescription, canonicalUrl, ogImage, ogType, twitterCard, noIndex, noFollow;
    metaDescription, hasValue := ReadString(v, "metaDescription", hasValue);
    canonicalUrl, hasValue := ReadString(v, "canonicalUrl", hasValue);
    ogImage, hasValue := ReadString(v, "ogImage", hasValue);
    ogType, hasValue := ReadString(v, "ogType", hasValue);
    twitterCard, hasValue := ReadTwitterCard(v, hasValue);
    noIndex, hasValue := ReadBool(v, "noIndex", hasValue);
    noFollow, hasValue := ReadBool(v, "noFollow", hasValue);

    // attribution fields
    var authorName, authorExpertise, citations;
    authorName, hasValue := ReadString(v, "authorName", hasValue);
    authorExpertise, hasValue := ReadString(v, "authorExpertise", hasValue);
    citations, hasValue := ReadCitations(v, hasValue);

    // answer-engine fields and AI-training control
    var faq, tldr, noAiTraining;
    faq, hasValue := ReadFaq(v, hasValue);
    tldr, hasValue := ReadString(v, "tldr", hasValue);
    noAiTraining, hasValue := ReadBool(v, "noAiTraining", hasValue);

    var seo := PageMeta(metaDescription, canonicalUrl, ogImage, ogType, twitterCard, noIndex, noFollow,
                        authorName, authorExpertise, citations, faq, tldr, noAiTraining);
    r := if hasValue then Some(seo) else None;
  }

  /** A twitter card other than the two names is dropped, and alone it does not make metadata. */
  lemma OtherTwitterCardIgnored(card: string)
    requires !IsTwitterCard(card)
    ensures !SetsValue(YObj(map["twitterCard" := YStr(card)]))
  {
    var v := YObj(map["twitterCard" := YStr(card)]);
    assert StrProp(v, "twitterCard") == Some(card);
    assert forall name :: name != "twitterCard" ==> Prop(v, name).None?;
  }

  /**
   * Only non-string citations and another field: the empty filtered list is
   * kept on the result, because `tldr` alone makes the metadata present.
   */
  lemma EmptyCitationsKept()
    ensures var v := YObj(map["citations" := YList([YNum(1)]), "tldr" := YStr("t")]);
      && SetsValue(v) && CitationsProp(v) == Some([])
  {
    var v := YObj(map["citations" := YList([YNum(1)]), "tldr" := YStr("t")]);
    assert Strings([YNum(1)]) == [];
    assert StrProp(v, "tldr") == Some("t");
  }

  /** Filtering citations keeps exactly the strings, in their order. */
  lemma {:induction false} StringsKeepsAllStrings(items: seq<Yaml>, ss: seq<string>)
    requires items == MapStr(ss)
    ensures Strings(items) == ss
  {
    if ss != [] {
      assert items[1..] == MapStr(ss[1..]);
      StringsKeepsAllStrings(items[1..], ss[1..]);
    }
  }

  function MapStr(ss: seq<string>): (items: seq<Yaml>)
    ensures |items| == |ss|
  {
    if ss == [] then [] else [YStr(ss[0])] + MapStr(ss[1..])
  }

  // ------------------------------------------------------------------ required fields and defaults

  const Required: seq<string> := ["title", "slug", "date", "excerpt"]

  /**
   * The required-field check: the first of title, slug, date and excerpt that
   * is not truthy, checked in that order; none when all are present.
   */
  method FirstMissing(data: map<string, Yaml>) returns (missing: Option<string>)
    ensures missing.None? <==> forall i :: 0 <= i < |Required| ==> IsTruthy(Get(data, Required[i]))
    ensures missing.Some? ==>
      exists i :: 0 <= i < |Required| && missing.value == Required[i] && !IsTruthy(Get(data, Required[i]))
        && forall j :: 0 <= j < i ==> IsTruthy(Get(data, Required[j]))
  {
    var k := 0;
    while k < |Required|
      invariant 0 <= k <= |Required|
      invariant forall j :: 0 <= j < k ==> IsTruthy(Get(data, Required[j]))
    {
      if !IsTruthy(Get(data, Required[k])) {
        return Some(Required[k]);
      }
      k := k + 1;
    }
    return None;
  }

  /** `data.id || data.slug`. */
  function PageIdValue(data: map<string, Yaml>): Option<Yaml> {
    if IsTruthy(Get(data, "id")) then Get(data, "id") else Get(data, "slug")
  }

  /**
   * Once the required fields are present the id is always truthy: the given
   * id when it is truthy, otherwise the slug.
   */
  lemma IdDefaultsToSlug(data: map<string, Yaml>)
    requires forall i :: 0 <= i < |Required| ==> IsTruthy(Get(data, Required[i]))
    ensures IsTruthy(PageIdValue(data))
    ensures !IsTruthy(Get(data, "id")) ==> PageIdValue(data) == Get(data, "slug")
  {
    assert IsTruthy(Get(data, Required[1]));
  }

  /** `data.published ?? false`, as `upsertPage` stores it: truthy means published. */
  function StoredPublished(data: map<string, Yaml>): bool {
    var p := Get(data, "published");
    var value := if p.None? || p == Some(YNull) then Some(YBool(false)) else p;
    IsTruthy(value)
  }

  /** A file without `published` (or with `published: null` or `false`) is stored as a draft. */
  lemma PublishedDefaultsToDraft(data: map<string, Yaml>)
    ensures StoredPublished(data) <==> IsTruthy(Get(data, "published"))
  {
  }
}
