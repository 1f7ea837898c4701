/** The page record and its read-only projections (src/content/types.ts). */
module ContentTypes {
  import opened Wrappers

  datatype FaqItem = FaqItem(question: string, answer: string)

  /** SEO / GEO / AEO metadata of a page; every field is optional. */
  datatype PageMeta = PageMeta(
    metaDescription: Option<string>,
    canonicalUrl: Option<string>,
    ogImage: Option<string>,
    ogType: Option<string>,
    twitterCard: Option<string>,
    noIndex: Option<bool>,
    noFollow: Option<bool>,
    authorName: Option<string>,
    authorExpertise: Option<string>,
    citations: Option<seq<string>>,
    faq: Option<seq<FaqItem>>,
    tldr: Option<string>,
    noAiTraining: Option<bool>)

  const EmptyMeta := PageMeta(None, None, None, None, None, None, None, None, None, None, None, None, None)

  /**
   * Navigation entry of a page. `order` is a JavaScript number; `None` stands for
   * NaN (what `parseInt` gives for a non-numeric field) and for SQL NULL, which is
   * how the store keeps a NaN.
   */
  datatype NavInfo = NavInfo(navLabel: string, order: Option<int>)

  /**
   * A page. `kind` is "home", "page" or "post" by intent, but the store and the
   * editor never validate it, so it is kept as a string.
   */
  datatype Page = Page(
    id: string,
    slug: string,
    title: string,
    content: string,
    excerpt: string,
    tags: seq<string>,
    date: string,
    updated: Option<string>,
    published: bool,
    scripts: Option<seq<string>>,
    seo: Option<PageMeta>,
    kind: string,
    nav: Option<NavInfo>)

  datatype PageSummary = PageSummary(id: string, slug: string, title: string, excerpt: string, tags: seq<string>, date: string)

  datatype NavItem = NavItem(id: string, slug: string, kind: string, navLabel: string, order: Option<int>)

  datatype LinkTarget = LinkTarget(id: string, slug: string, kind: string, title: string)
}
