/**
 * Metadata for pages built from data (src/lib/dynamic-metadata.ts): a dispatch on the kind of
 * page, and helpers for posts, categories and tags.
 */
module DynamicMetadata {
  import opened Wrappers
  import opened Schema
  import opened Metadata

  const DescriptionCut := 160

  /** The argument of `generateDynamicMetadata`; `kind` is the `type` field. */
  datatype PageData = PageData(
    kind: string, title: string, description: string, author: Option<string>,
    publishedTime: Option<string>, modifiedTime: Option<string>, image: Option<string>, url: Option<string>)

  /** `generateDynamicMetadata(data)`. */
  function GenerateDynamicMetadata(d: PageData, envUrl: Option<string>): (r: PageMetadata)
    ensures d.kind == "user" ==> r.titleDefault == Some(d.title + "'s Profile") && r.openGraph.pageType == Some(Profile)
    ensures d.kind == "user" ==> r.creator == d.author && r.description == Some(d.description)
    ensures d.kind == "post" ==> r.openGraph.pageType == Some(Article) && r.titleDefault == Some(d.title)
    ensures d.kind !in {"post", "category", "tag", "user"} ==>
      r.titleDefault == Some(d.title) && r.description == Some(d.description) && r.openGraph.pageType == Some(Website)
  {
    if d.kind == "post" then PostPage(d.title, d.description, d.author, d.publishedTime, envUrl)
    else if d.kind == "category" then CategoryPage(d.title, d.description, envUrl)
    else if d.kind == "tag" then TagPage(d.title, envUrl)
    else if d.kind == "user" then
      GenerateMetadata(TitledConfig(d.title + "'s Profile", d.description).(author := Given(d.author), pageType := Given(Some(Profile))), envUrl)
    else GenerateMetadata(TitledConfig(d.title, d.description), envUrl)
  }

  /** A post page ignores the image, URL and modification time it is handed. */
  lemma PostIgnoresExtras(d: PageData, image: Option<string>, url: Option<string>, modifiedTime: Option<string>, env: Option<string>)
    requires d.kind == "post"
    ensures GenerateDynamicMetadata(d.(image := image, url := url, modifiedTime := modifiedTime), env)
         == GenerateDynamicMetadata(d, env)
    ensures GenerateDynamicMetadata(d, env).canonical == Some(AppUrl(env))
    ensures GenerateDynamicMetadata(d, env).openGraph.modifiedTime.None?
  {
  }

  /** A category page depends on its title and description only. */
  lemma CategoryUsesTitleAndDescription(d1: PageData, d2: PageData, env: Option<string>)
    requires d1.kind == d2.kind == "category"
    requires d1.title == d2.title && d1.description == d2.description
    ensures GenerateDynamicMetadata(d1, env) == GenerateDynamicMetadata(d2, env)
  {
  }

  /** A tag page depends on its title only. */
  lemma TagUsesTitleOnly(d1: PageData, d2: PageData, env: Option<string>)
    requires d1.kind == d2.kind == "tag" && d1.title == d2.title
    ensures GenerateDynamicMetadata(d1, env) == GenerateDynamicMetadata(d2, env)
  {
  }

  /**
   * `post.excerpt || post.content.slice(0, 160) + "..."`: the excerpt when it is non-empty,
   * otherwise at most 160 leading characters of the content followed by "...", even when the
   * content is shorter.
   */
  function PostDescription(excerpt: string, content: string): (d: string)
    ensures excerpt != "" ==> d == excerpt
    ensures excerpt == "" ==> |d| == (if |content| < DescriptionCut then |content| else DescriptionCut) + 3
    ensures excerpt == "" ==> d[|d| - 3..] == "..." && d[..|d| - 3] <= content
  {
    if excerpt != "" then excerpt
    else
      var cut := if |content| < DescriptionCut then |content| else DescriptionCut;
      var d := content[..cut] + "...";
      assert d[..|d| - 3] == content[..cut];
      d
  }

  /** What `generatePostMetadata` reads of a post and its author. */
  datatype PostInfo = PostInfo(title: string, excerpt: string, content: string, authorName: string,
                               publishedAt: Option<Time>)

  /** `generatePostMetadata(post)`; `iso` is `Date.prototype.toISOString`. */
  function PostMetadata(p: PostInfo, iso: Time -> string, envUrl: Option<string>): (r: PageMetadata)
    ensures r.titleDefault == Some(p.title)
    ensures r.description == Some(PostDescription(p.excerpt, p.content))
    ensures r.openGraph.pageType == Some(Article)
    ensures p.publishedAt.None? ==> r.openGraph.publishedTime.None?
    ensures r.authors.Some? <==> p.authorName != ""
  {
    PostPage(p.title, PostDescription(p.excerpt, p.content), Some(p.authorName),
             if p.publishedAt.Some? then Some(iso(p.publishedAt.value)) else None, envUrl)
  }

  /** `generateCategoryMetadata(category)`. */
  function CategoryMetadata(name: string, description: string, envUrl: Option<string>): (r: PageMetadata)
    ensures r == GenerateDynamicMetadata(PageData("category", name, description, None, None, None, None, None), envUrl)
  {
    CategoryPage(name, description, envUrl)
  }

  /** `generateTagMetadata(tag)`: the description, if any, is ignored. */
  function TagMetadata(name: string, description: Option<string>, envUrl: Option<string>): (r: PageMetadata)
    ensures r == GenerateDynamicMetadata(PageData("tag", name, "", None, None, None, None, None), envUrl)
  {
    TagPage(name, envUrl)
  }
}
