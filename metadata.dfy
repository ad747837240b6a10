/**
 * The page-metadata builder (src/lib/metadata.ts): a partial configuration spread over the site
 * defaults, then turned into the Next.js metadata record, plus the per-page presets.
 */
module Metadata {
  import opened Wrappers
  import opened Text

  const SiteName := "Next.js Blog App"
  const DefaultDescription := "A modern blog application built with Next.js, TypeScript, and Tailwind CSS"
  const DefaultKeywords := ["blog", "nextjs", "typescript", "tailwind", "react"]
  const DefaultImage := "/og-image.jpg"
  const LocalUrl := "http://localhost:3000"
  const OgImageWidth := 1200
  const OgImageHeight := 630

  datatype PageType = Website | Article | Profile

  /** JavaScript truthiness of an optional string: present and non-empty. */
  predicate Truthy(s: Option<string>) {
    s.Some? && s.value != ""
  }

  /** `process.env.NEXT_PUBLIC_APP_URL || "http://localhost:3000"`. */
  function AppUrl(env: Option<string>): (url: string)
    ensures Truthy(env) ==> url == env.value
    ensures !Truthy(env) ==> url == LocalUrl
    ensures url != ""
  {
    if Truthy(env) then env.value else LocalUrl
  }

  /**
   * One key of a partial configuration: `Absent` when the object does not have the key,
   * `Given(v)` when it does, with `v == None` for an explicit `undefined`.
   */
  datatype Key<T> = Absent | Given(v: Option<T>)

  /** `Partial<MetadataConfig>` as passed by a caller. */
  datatype Config = Config(
    title: Key<string>, description: Key<string>, keywords: Key<seq<string>>, image: Key<string>,
    url: Key<string>, pageType: Key<PageType>, author: Key<string>,
    publishedTime: Key<string>, modifiedTime: Key<string>)

  /** The empty configuration `{}`. */
  const NoConfig := Config(Absent, Absent, Absent, Absent, Absent, Absent, Absent, Absent, Absent)

  /** The configuration after `{ ...defaultMetadata, ...config }`: every field may be undefined. */
  datatype Merged = Merged(
    title: Option<string>, description: Option<string>, keywords: Option<seq<string>>,
    image: Option<string>, url: Option<string>, pageType: Option<PageType>, author: Option<string>,
    publishedTime: Option<string>, modifiedTime: Option<string>)

  /** `defaultMetadata`, whose URL comes from the environment. */
  function Defaults(envUrl: Option<string>): Merged {
    Merged(Some(SiteName), Some(DefaultDescription), Some(DefaultKeywords), Some(DefaultImage),
           Some(AppUrl(envUrl)), Some(Website), None, None, None)
  }

  /** Spread of one key: the caller's value whenever the key is present, even `undefined`. */
  function Over<T>(k: Key<T>, d: Option<T>): (r: Option<T>)
    ensures k.Given? ==> r == k.v
    ensures k.Absent? ==> r == d
  {
    if k.Given? then k.v else d
  }

  /** `{ ...defaults, ...config }`. */
  function Merge(d: Merged, c: Config): Merged {
    Merged(Over(c.title, d.title), Over(c.description, d.description), Over(c.keywords, d.keywords),
           Over(c.image, d.image), Over(c.url, d.url), Over(c.pageType, d.pageType),
           Over(c.author, d.author), Over(c.publishedTime, d.publishedTime),
           Over(c.modifiedTime, d.modifiedTime))
  }

  datatype OgImage = OgImage(url: string, width: nat, height: nat, alt: Option<string>)

  datatype OpenGraph = OpenGraph(
    pageType: Option<PageType>, locale: string, url: Option<string>, title: Option<string>,
    description: Option<string>, siteName: string, images: Option<seq<OgImage>>,
    publishedTime: Option<string>, modifiedTime: Option<string>)

  datatype Twitter = Twitter(
    card: string, title: Option<string>, description: Option<string>,
    images: Option<seq<string>>, creator: Option<string>)

  /** The parts of Next.js `Metadata` the builder computes from its input. */
  datatype PageMetadata = PageMetadata(
    titleDefault: Option<string>, titleTemplate: string, description: Option<string>,
    keywords: Option<string>, authors: Option<seq<string>>, creator: Option<string>,
    publisher: string, canonical: Option<string>, openGraph: OpenGraph, twitter: Twitter)

  /** The Twitter handle derived from an author name: lower-cased, whitespace removed, '@' in front. */
  function Handle(author: string): (h: string)
    ensures |h| >= 1 && h[0] == '@'
    ensures forall i :: 1 <= i < |h| ==> !IsJsWhitespace(h[i]) && !IsAsciiUpper(h[i])
    ensures h[1..] == StripWhitespace(Lower(author))
  {
    var body := StripWhitespace(Lower(author));
    StripKeepsNoUpper(Lower(author));
    "@" + body
  }

  /** Removing characters cannot introduce an upper-case letter. */
  lemma {:induction false} StripKeepsNoUpper(s: string)
    requires forall i :: 0 <= i < |s| ==> !IsAsciiUpper(s[i])
    ensures forall i :: 0 <= i < |StripWhitespace(s)| ==> !IsAsciiUpper(StripWhitespace(s)[i])
  {
    if s != [] {
      StripKeepsNoUpper(s[1..]);
    }
  }

  /** The metadata record built from a merged configuration. */
  function Build(m: Merged): PageMetadata {
    var images := if Truthy(m.image) then Some([OgImage(m.image.value, OgImageWidth, OgImageHeight, m.title)]) else None;
    PageMetadata(
      m.title,
      "%s | " + SiteName,
      m.description,
      if m.keywords.Some? then Some(Join(m.keywords.value, ", ")) else None,
      if Truthy(m.author) then Some([m.author.value]) else None,
      m.author,
      SiteName,
      m.url,
      OpenGraph(m.pageType, "en_US", m.url, m.title, m.description, SiteName, images,
                if Truthy(m.publishedTime) then m.publishedTime else None,
                if Truthy(m.modifiedTime) then m.modifiedTime else None),
      Twitter("summary_large_image", m.title, m.description,
              if Truthy(m.image) then Some([m.image.value]) else None,
              if Truthy(m.author) then Some(Handle(m.author.value)) else None))
  }

  /**
   * `generateMetadata(config)`, stated in terms of the caller's keys: a present key wins even when
   * it is `undefined`, an absent key keeps the default; the template and publisher never change.
   */
  function GenerateMetadata(c: Config, envUrl: Option<string>): (r: PageMetadata)
    ensures r.titleDefault == Over(c.title, Some(SiteName))
    ensures r.titleTemplate == "%s | " + SiteName && r.publisher == SiteName
    ensures r.description == Over(c.description, Some(DefaultDescription))
    ensures r.canonical == Over(c.url, Some(AppUrl(envUrl))) == r.openGraph.url
    ensures r.openGraph.pageType == Over(c.pageType, Some(Website))
    ensures c.keywords.Absent? ==> r.keywords == Some(Join(DefaultKeywords, ", "))
    ensures c.keywords.Given? ==> (r.keywords.Some? <==> c.keywords.v.Some?)
    ensures c.keywords.Given? && c.keywords.v.Some? ==> r.keywords == Some(Join(c.keywords.v.value, ", "))
    ensures r.authors.Some? <==> c.author.Given? && Truthy(c.author.v)
    ensures r.authors.Some? ==> r.authors.value == [c.author.v.value]
    ensures r.creator == Over(c.author, None)
    ensures r.twitter.creator.Some? <==> r.authors.Some?
    ensures r.twitter.creator.Some? ==> r.twitter.creator.value == "@" + StripWhitespace(Lower(c.author.v.value))
    ensures r.openGraph.images.Some? <==> Truthy(Over(c.image, Some(DefaultImage)))
    ensures r.openGraph.images.Some? <==> r.twitter.images.Some?
    ensures r.openGraph.images.Some? ==>
      r.openGraph.images.value == [OgImage(Over(c.image, Some(DefaultImage)).value, 1200, 630, r.titleDefault)]
    ensures r.openGraph.publishedTime.Some? <==> c.publishedTime.Given? && Truthy(c.publishedTime.v)
    ensures r.openGraph.modifiedTime.Some? <==> c.modifiedTime.Given? && Truthy(c.modifiedTime.v)
    ensures r.openGraph.publishedTime.Some? ==> r.openGraph.publishedTime == c.publishedTime.v
    ensures r.openGraph.modifiedTime.Some? ==> r.openGraph.modifiedTime == c.modifiedTime.v
  {
    Build(Merge(Defaults(envUrl), c))
  }

  /** The title template is the same whatever the configuration says. */
  lemma TemplateIgnoresConfig(c1: Config, c2: Config, env: Option<string>)
    ensures GenerateMetadata(c1, env).titleTemplate == GenerateMetadata(c2, env).titleTemplate
    ensures GenerateMetadata(c1, env).openGraph.siteName == GenerateMetadata(c2, env).openGraph.siteName == SiteName
  {
  }

  /** A configuration only with title and description. */
  function TitledConfig(title: string, description: string): Config {
    NoConfig.(title := Given(Some(title)), description := Given(Some(description)))
  }

  /** The fixed pages of `pageMetadata` that take no argument. */
  datatype StaticPage = Home | Dashboard | ProfilePage | Login | SignUp | ForgotPassword | ResetPassword | AdminUsers

  function StaticTitle(p: StaticPage): string {
    match p
    case Home => "Home"
    case Dashboard => "Dashboard"
    case ProfilePage => "Profile"
    case Login => "Login"
    case SignUp => "Sign Up"
    case ForgotPassword => "Forgot Password"
    case ResetPassword => "Reset Password"
    case AdminUsers => "User Management"
  }

  function StaticDescription(p: StaticPage): string {
    match p
    case Home => "Welcome to our modern blog platform. Discover amazing articles, tutorials, and insights."
    case Dashboard => "Your personal dashboard. View your profile, stats, and manage your account."
    case ProfilePage => "Manage your profile information, update your details, and view your activity."
    case Login => "Sign in to your account to access your dashboard and personalized content."
    case SignUp => "Create a new account to join our community and start your journey."
    case ForgotPassword => "Reset your password to regain access to your account."
    case ResetPassword => "Set a new password for your account."
    case AdminUsers => "Admin panel for managing users, roles, and permissions."
  }

  /** `pageMetadata.home()` and the other argument-less presets: a website page with the default image. */
  function StaticPageMetadata(p: StaticPage, envUrl: Option<string>): (r: PageMetadata)
    ensures r.titleDefault == Some(StaticTitle(p)) && r.description == Some(StaticDescription(p))
    ensures r.openGraph.pageType == Some(Website) && r.canonical == Some(AppUrl(envUrl))
    ensures r.twitter.images == Some([DefaultImage]) && r.authors.None?
  {
    GenerateMetadata(TitledConfig(StaticTitle(p), StaticDescription(p)), envUrl)
  }

  /** `pageMetadata.post(title, description, author, publishedTime)`. */
  function PostPage(title: string, description: string, author: Option<string>, publishedTime: Option<string>,
                    envUrl: Option<string>): (r: PageMetadata)
    ensures r.titleDefault == Some(title) && r.description == Some(description)
    ensures r.openGraph.pageType == Some(Article)
    ensures r.openGraph.images == Some([OgImage("/og-post.jpg", 1200, 630, Some(title))])
    ensures r.twitter.images == Some(["/og-post.jpg"])
    ensures r.authors.Some? <==> Truthy(author)
    ensures r.openGraph.publishedTime.Some? <==> Truthy(publishedTime)
    ensures r.openGraph.publishedTime.Some? ==> r.openGraph.publishedTime == publishedTime
    ensures r.openGraph.modifiedTime.None?
  {
    GenerateMetadata(TitledConfig(title, description).(author := Given(author), publishedTime := Given(publishedTime),
                                                       pageType := Given(Some(Article)), image := Given(Some("/og-post.jpg"))), envUrl)
  }

  /** `pageMetadata.category(name, description)`. */
  function CategoryPage(name: string, description: string, envUrl: Option<string>): (r: PageMetadata)
    ensures r.titleDefault == Some(name + " Articles")
    ensures r.description == Some("Explore articles and posts in the " + name + " category. " + description)
    ensures r.openGraph.pageType == Some(Website) && r.authors.None?
  {
    GenerateMetadata(TitledConfig(name + " Articles", "Explore articles and posts in the " + name + " category. " + description), envUrl)
  }

  /** `pageMetadata.tag(name)`. */
  function TagPage(name: string, envUrl: Option<string>): (r: PageMetadata)
    ensures r.titleDefault == Some("#" + name)
    ensures r.description == Some("Articles and posts tagged with " + name + ". Discover related content and insights.")
    ensures r.openGraph.pageType == Some(Website) && r.authors.None?
  {
    GenerateMetadata(TitledConfig("#" + name, "Articles and posts tagged with " + name + ". Discover related content and insights."), envUrl)
  }
}
