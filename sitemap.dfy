/**
 * The sitemap (src/app/sitemap.ts): five static pages, then one entry per published post, per
 * category and per tag; only the static pages when a query fails.
 */
module Sitemap {
  import opened Wrappers
  import opened Schema
  import opened Seqs
  import Metadata

  datatype Frequency = Daily | Weekly | Monthly

  /** One sitemap entry; the priority is kept in tenths (`0.8` is 8). */
  datatype Entry = Entry(url: string, lastModified: Time, changeFrequency: Frequency, priorityTenths: nat)

  /** The five static pages, all stamped `now`. */
  function StaticPages(base: string, now: Time): (es: seq<Entry>)
    ensures |es| == 5
    ensures forall i :: 0 <= i < 5 ==> es[i].lastModified == now
    ensures es[0].url == base && es[0].changeFrequency == Daily && es[0].priorityTenths == 10
    ensures es[1].url == base + "/dashboard" && es[1].changeFrequency == Daily && es[1].priorityTenths == 8
    ensures es[2].url == base + "/profile" && es[2].changeFrequency == Weekly && es[2].priorityTenths == 7
    ensures es[3].url == base + "/login" && es[3].changeFrequency == Monthly && es[3].priorityTenths == 5
    ensures es[4].url == base + "/signup" && es[4].changeFrequency == Monthly && es[4].priorityTenths == 5
  {
    [ Entry(base, now, Daily, 10),
      Entry(base + "/dashboard", now, Daily, 8),
      Entry(base + "/profile", now, Weekly, 7),
      Entry(base + "/login", now, Monthly, 5),
      Entry(base + "/signup", now, Monthly, 5) ]
  }

  function PostPages(base: string, posts: seq<Post>): (es: seq<Entry>)
    ensures |es| == |posts|
    ensures forall i :: 0 <= i < |posts| ==>
      es[i] == Entry(base + "/posts/" + posts[i].slug, posts[i].updatedAt, Weekly, 8)
  {
    seq(|posts|, i requires 0 <= i < |posts| => Entry(base + "/posts/" + posts[i].slug, posts[i].updatedAt, Weekly, 8))
  }

  function CategoryPages(base: string, categories: seq<Category>): (es: seq<Entry>)
    ensures |es| == |categories|
    ensures forall i :: 0 <= i < |categories| ==>
      es[i] == Entry(base + "/categories/" + categories[i].slug, categories[i].updatedAt, Weekly, 6)
  {
    seq(|categories|, i requires 0 <= i < |categories| =>
      Entry(base + "/categories/" + categories[i].slug, categories[i].updatedAt, Weekly, 6))
  }

  function TagPages(base: string, tags: seq<Tag>, now: Time): (es: seq<Entry>)
    ensures |es| == |tags|
    ensures forall i :: 0 <= i < |tags| ==> es[i] == Entry(base + "/tags/" + tags[i].slug, now, Monthly, 5)
  {
    seq(|tags|, i requires 0 <= i < |tags| => Entry(base + "/tags/" + tags[i].slug, now, Monthly, 5))
  }

  /**
   * `sitemap()` over the post, category and tag tables; `queryFails` says one of the three
   * queries threw, `envUrl` is `NEXT_PUBLIC_APP_URL`, `now` the clock.
   */
  function BuildSitemap(envUrl: Option<string>, now: Time, posts: seq<Post>, categories: seq<Category>,
                        tags: seq<Tag>, queryFails: bool): (r: seq<Entry>)
    ensures queryFails ==> r == StaticPages(Metadata.AppUrl(envUrl), now)
    ensures !queryFails ==> |r| == 5 + |Filter(IsPublished, posts)| + |categories| + |tags|
    ensures r[..5] == StaticPages(Metadata.AppUrl(envUrl), now)
  {
    var base := Metadata.AppUrl(envUrl);
    if queryFails then StaticPages(base, now)
    else StaticPages(base, now) + PostPages(base, Filter(IsPublished, posts))
         + CategoryPages(base, categories) + TagPages(base, tags, now)
  }

  /**
   * On success, the entries after the static ones are the published posts, then the categories,
   * then the tags, each in table order and under its own path.
   */
  lemma SitemapOrder(envUrl: Option<string>, now: Time, posts: seq<Post>, categories: seq<Category>, tags: seq<Tag>)
    ensures var r := BuildSitemap(envUrl, now, posts, categories, tags, false);
      var base := Metadata.AppUrl(envUrl);
      var pub := Filter(IsPublished, posts);
      && (forall i :: 0 <= i < |pub| ==> r[5 + i].url == base + "/posts/" + pub[i].slug)
      && (forall i :: 0 <= i < |categories| ==> r[5 + |pub| + i].url == base + "/categories/" + categories[i].slug)
      && (forall i :: 0 <= i < |tags| ==> r[5 + |pub| + |categories| + i].url == base + "/tags/" + tags[i].slug)
  {
    var r := BuildSitemap(envUrl, now, posts, categories, tags, false);
    var base := Metadata.AppUrl(envUrl);
    var pub := Filter(IsPublished, posts);
    var cp, tp := CategoryPages(base, categories), TagPages(base, tags, now);
    var front := StaticPages(base, now) + PostPages(base, pub);
    var middle := front + cp;
    assert r == middle + tp;
    assert r == front + (cp + tp);
    PostBlock(r, base, now, pub, cp + tp);
    CategoryBlock(r, front, base, categories, tp);
    TagBlock(r, middle, base, tags, now);
  }

  /** The post block starts right after the static pages. */
  lemma PostBlock(r: seq<Entry>, base: string, now: Time, pub: seq<Post>, rest: seq<Entry>)
    requires r == StaticPages(base, now) + PostPages(base, pub) + rest
    ensures forall i :: 0 <= i < |pub| ==> r[5 + i].url == base + "/posts/" + pub[i].slug
  {
  }

  /** The category block starts right after the post block. */
  lemma CategoryBlock(r: seq<Entry>, front: seq<Entry>, base: string, categories: seq<Category>, rest: seq<Entry>)
    requires r == front + CategoryPages(base, categories) + rest
    ensures forall i :: 0 <= i < |categories| ==>
      r[|front| + i].url == base + "/categories/" + categories[i].slug
  {
  }

  /** The tag block closes the sitemap. */
  lemma TagBlock(r: seq<Entry>, middle: seq<Entry>, base: string, tags: seq<Tag>, now: Time)
    requires r == middle + TagPages(base, tags, now)
    ensures forall i :: 0 <= i < |tags| ==> r[|middle| + i].url == base + "/tags/" + tags[i].slug
  {
  }

  /** Every published post has an entry under "/posts/". */
  lemma PublishedPostsListed(r: seq<Entry>, envUrl: Option<string>, now: Time, posts: seq<Post>,
                             categories: seq<Category>, tags: seq<Tag>, i: nat)
    requires r == BuildSitemap(envUrl, now, posts, categories, tags, false)
    requires i < |posts| && IsPublished(posts[i])
    ensures exists k :: 5 <= k < |r| && r[k].url == Metadata.AppUrl(envUrl) + "/posts/" + posts[i].slug
  {
    var base := Metadata.AppUrl(envUrl);
    var pub := Filter(IsPublished, posts);
    var pp := PostPages(base, pub);
    var front := StaticPages(base, now) + pp;
    assert r == front + CategoryPages(base, categories) + TagPages(base, tags, now);
    assert posts[i] in pub;
    var j :| 0 <= j < |pub| && pub[j] == posts[i];
    assert r[5 + j] == front[5 + j] == pp[j];
  }

  /** Every entry in the post block belongs to a published post. */
  lemma OnlyPublishedPostsListed(r: seq<Entry>, envUrl: Option<string>, now: Time, posts: seq<Post>,
                                 categories: seq<Category>, tags: seq<Tag>, k: nat)
    requires r == BuildSitemap(envUrl, now, posts, categories, tags, false)
    requires 5 <= k < 5 + |Filter(IsPublished, posts)|
    ensures exists i ::
      0 <= i < |posts| && IsPublished(posts[i]) && r[k].url == Metadata.AppUrl(envUrl) + "/posts/" + posts[i].slug
  {
    var base := Metadata.AppUrl(envUrl);
    var pub := Filter(IsPublished, posts);
    var pp := PostPages(base, pub);
    var front := StaticPages(base, now) + pp;
    assert r == front + CategoryPages(base, categories) + TagPages(base, tags, now);
    assert r[k] == front[k] == pp[k - 5];
    var post := pub[k - 5];
    assert post in posts && IsPublished(post);
    var i :| 0 <= i < |posts| && posts[i] == post;
  }
}
