/**
 * The post seeder: fifty posts written by authors, admins or super admins, each slugged from its
 * title; then, post by post, one to five distinct tags linked through post-tag rows.
 */
module SeedPosts {
  import opened Wrappers
  import opened Schema
  import opened Seqs
  import opened Slug
  import opened SeedSupport

  const PostCount := 50

  /** Who may write a seeded post. */
  predicate CanAuthor(u: User) {
    u.role == Author || u.role == Admin || u.role == SuperAdmin
  }

  /** `users.filter(u => u.role === 'author' || ...)`. */
  function AuthorPool(users: seq<User>): (pool: seq<User>)
    ensures forall i :: 0 <= i < |pool| ==> pool[i] in users && CanAuthor(pool[i])
    ensures forall i :: 0 <= i < |users| && CanAuthor(users[i]) ==> users[i] in pool
  {
    Filter(CanAuthor, users)
  }

  /**
   * The faker draws for one post: raw choices of author, category, status and view count,
   * the lorem texts, the image coin and URL, and the two past dates.
   */
  datatype PostDraw = PostDraw(
    authorRaw: nat, categoryRaw: nat, title: string, content: string, excerpt: string,
    statusRaw: nat, publishedDate: Time, imageCoin: bool, imageUrl: string,
    viewRaw: nat, createdAt: Time)

  /** The post row built from one set of draws; `statuses` are the values of the status enum. */
  function DraftPost(d: PostDraw, users: seq<User>, categories: seq<Category>, statuses: seq<PostStatus>,
                     id: Id, now: Time): (p: Post)
    requires |AuthorPool(users)| > 0 && |categories| > 0 && |statuses| > 0
    ensures exists i :: 0 <= i < |users| && users[i].id == p.authorId && CanAuthor(users[i])
    ensures exists i :: 0 <= i < |categories| && categories[i].id == p.categoryId
    ensures p.title == d.title && p.slug == Slugify(p.title) && IsSlug(p.slug)
    ensures p.status in statuses
    ensures p.publishedAt.Some? <==> p.status == Published
    ensures p.viewCount <= 1000
    ensures p.id == id && p.updatedAt == now
  {
    var author := Pick(AuthorPool(users), d.authorRaw);
    var category := Pick(categories, d.categoryRaw);
    var status := Pick(statuses, d.statusRaw);
    SlugifyShape(d.title);
    Post(id, d.title, Slugify(d.title), d.content, d.excerpt,
         if d.imageCoin then Some(d.imageUrl) else None,
         status, if status == Published then Some(d.publishedDate) else None,
         category.id, author.id, Between(d.viewRaw, 0, 1000), d.createdAt, now)
  }

  /**
   * `seedPosts()`: None, writing nothing, when faker has no author, category or status to draw
   * from (it throws before any row is created); otherwise the fifty created posts in order.
   */
  method SeedPosts(db: Database, users: seq<User>, categories: seq<Category>, statuses: seq<PostStatus>,
                   draws: nat -> PostDraw, postIds: nat -> Id, now: Time) returns (r: Option<seq<Post>>)
    modifies db`posts
    ensures r.None? <==> AuthorPool(users) == [] || categories == [] || statuses == []
    ensures r.None? ==> db.posts == old(db.posts)
    ensures r.Some? ==> |r.value| == PostCount && db.posts == old(db.posts) + r.value
    ensures r.Some? ==> forall i :: 0 <= i < |r.value| ==>
      r.value[i] == DraftPost(draws(i), users, categories, statuses, postIds(i), now)
  {
    if AuthorPool(users) == [] || categories == [] || statuses == [] {
      return None;
    }
    var posts := [];
    for i := 0 to PostCount
      invariant |posts| == i
      invariant forall k :: 0 <= k < i ==> posts[k] == DraftPost(draws(k), users, categories, statuses, postIds(k), now)
      invariant db.posts == old(db.posts) + posts
    {
      var p := DraftPost(draws(i), users, categories, statuses, postIds(i), now);
      db.CreatePost(p);
      ghost var before := posts;
      posts := posts + [p];
      forall k | 0 <= k < i + 1 ensures posts[k] == DraftPost(draws(k), users, categories, statuses, postIds(k), now) {
        if k < i {
          assert posts[k] == before[k];
        }
      }
    }
    r := Some(posts);
  }

  /** No seeded post is written by a member. */
  lemma SeededAuthorsAreNotMembers(posts: seq<Post>, users: seq<User>, categories: seq<Category>,
                                   statuses: seq<PostStatus>, draws: nat -> PostDraw, postIds: nat -> Id, now: Time)
    requires |AuthorPool(users)| > 0 && |categories| > 0 && |statuses| > 0
    requires forall i :: 0 <= i < |posts| ==> posts[i] == DraftPost(draws(i), users, categories, statuses, postIds(i), now)
    ensures forall i :: 0 <= i < |posts| ==>
      exists j :: 0 <= j < |users| && users[j].id == posts[i].authorId && users[j].role != Member
  {
    forall i | 0 <= i < |posts|
      ensures exists j :: 0 <= j < |users| && users[j].id == posts[i].authorId && users[j].role != Member
    {
      var p := DraftPost(draws(i), users, categories, statuses, postIds(i), now);
      var j :| 0 <= j < |users| && users[j].id == p.authorId && CanAuthor(users[j]);
      assert users[j].role != Member;
    }
  }

  /** `faker.helpers.arrayElements(tags, faker.number.int({ min: 1, max: 5 }))`. */
  function TagSelection(tags: seq<Tag>, countRaw: nat, picks: nat -> nat): (sel: seq<Tag>)
    ensures tags != [] ==> 1 <= |sel| <= 5
    ensures tags == [] ==> sel == []
    ensures forall j :: 0 <= j < |sel| ==> sel[j] in tags
    ensures Distinct(tags) ==> Distinct(sel)
  {
    Sample(tags, Between(countRaw, 1, 5) as nat, picks, 0)
  }

  /** The (post id, tag id) pair of each post-tag row. */
  function Links(rows: seq<PostTag>): (ls: seq<(Id, Id)>)
    ensures |ls| == |rows|
    ensures forall k :: 0 <= k < |rows| ==> ls[k] == (rows[k].postId, rows[k].tagId)
  {
    seq(|rows|, k requires 0 <= k < |rows| => (rows[k].postId, rows[k].tagId))
  }

  /** The links of one post to the tags chosen for it. */
  function Pairs(postId: Id, sel: seq<Tag>): (ls: seq<(Id, Id)>)
    ensures |ls| == |sel|
    ensures forall k :: 0 <= k < |sel| ==> ls[k] == (postId, sel[k].id)
  {
    seq(|sel|, k requires 0 <= k < |sel| => (postId, sel[k].id))
  }

  /** All links, post after post, in the order the loop creates them. */
  function PlannedLinks(posts: seq<Post>, selected: seq<seq<Tag>>): seq<(Id, Id)>
    requires |selected| == |posts|
  {
    if posts == [] then []
    else
      var k := |posts| - 1;
      PlannedLinks(posts[..k], selected[..k]) + Pairs(posts[k].id, selected[k])
  }

  /**
   * `seedPostTags()`: for each post, picks its tags and creates one post-tag row per tag.
   * `countRaw(i)` and `picks(i)` are the draws for the `i`-th post, `linkIds(n)` the id of the
   * `n`-th row created.
   */
  method SeedPostTags(db: Database, posts: seq<Post>, tags: seq<Tag>, countRaw: nat -> nat,
                      picks: nat -> nat -> nat, linkIds: nat -> Id) returns (selected: seq<seq<Tag>>)
    modifies db`postTags
    ensures |selected| == |posts|
    ensures forall i :: 0 <= i < |posts| ==> selected[i] == TagSelection(tags, countRaw(i), picks(i))
    ensures old(db.postTags) <= db.postTags
    ensures Links(db.postTags[|old(db.postTags)|..]) == PlannedLinks(posts, selected)
  {
    var start := |db.postTags|;
    selected := [];
    for i := 0 to |posts|
      invariant |selected| == i
      invariant forall k :: 0 <= k < i ==> selected[k] == TagSelection(tags, countRaw(k), picks(k))
      invariant old(db.postTags) <= db.postTags && |db.postTags| >= start
      invariant Links(db.postTags[start..]) == PlannedLinks(posts[..i], selected)
    {
      var sel := TagSelection(tags, countRaw(i), picks(i));
      LinkPost(db, start, posts[i].id, sel, linkIds);
      ghost var before := selected;
      selected := selected + [sel];
      assert posts[..i + 1][..i] == posts[..i] && selected[..i] == before;
      assert PlannedLinks(posts[..i + 1], selected) == PlannedLinks(posts[..i], before) + Pairs(posts[i].id, sel);
      forall k | 0 <= k < i + 1 ensures selected[k] == TagSelection(tags, countRaw(k), picks(k)) {
        if k < i {
          assert selected[k] == before[k];
        }
      }
    }
    assert posts[..|posts|] == posts;
  }

  /** The inner loop of `seedPostTags()`: one post-tag row per chosen tag, in order. */
  method LinkPost(db: Database, start: nat, postId: Id, sel: seq<Tag>, linkIds: nat -> Id)
    requires start <= |db.postTags|
    modifies db`postTags
    ensures old(db.postTags) <= db.postTags
    ensures Links(db.postTags[start..]) == Links(old(db.postTags)[start..]) + Pairs(postId, sel)
  {
    ghost var done := Links(db.postTags[start..]);
    for j := 0 to |sel|
      invariant old(db.postTags) <= db.postTags
      invariant Links(db.postTags[start..]) == done + Pairs(postId, sel[..j])
    {
      ghost var prev := db.postTags;
      db.CreatePostTag(PostTag(linkIds(|db.postTags| - start), postId, sel[j].id));
      assert Pairs(postId, sel[..j + 1]) == Pairs(postId, sel[..j]) + [(postId, sel[j].id)];
      assert Links(db.postTags[start..]) == Links(prev[start..]) + [(postId, sel[j].id)] by {
        assert db.postTags[start..] == prev[start..] + [db.postTags[|db.postTags| - 1]];
      }
    }
    assert sel[..|sel|] == sel;
  }

  /** With distinct post ids, the links of post `i` are exactly its chosen tags, in order. */
  lemma {:induction false} LinksOfPost(posts: seq<Post>, selected: seq<seq<Tag>>, i: nat)
    requires |selected| == |posts| && i < |posts|
    requires DistinctIds(posts)
    ensures Filter((l: (Id, Id)) => l.0 == posts[i].id, PlannedLinks(posts, selected)) == Pairs(posts[i].id, selected[i])
  {
    var k := |posts| - 1;
    LastPostApart(posts, i);
    if i == k {
      LinksOfLastPost(posts, selected);
    } else {
      LinksOfPost(posts[..k], selected[..k], i);
      LinksOfEarlierPost(posts, selected, i);
    }
  }

  /** The last post's links are the pairs it adds, since no earlier post shares its id. */
  lemma LinksOfLastPost(posts: seq<Post>, selected: seq<seq<Tag>>)
    requires |selected| == |posts| > 0
    requires forall a :: 0 <= a < |posts| - 1 ==> posts[a].id != posts[|posts| - 1].id
    ensures var k := |posts| - 1;
      Filter((l: (Id, Id)) => l.0 == posts[k].id, PlannedLinks(posts, selected)) == Pairs(posts[k].id, selected[k])
  {
    var k := |posts| - 1;
    var id := posts[k].id;
    var before, mine := PlannedLinks(posts[..k], selected[..k]), Pairs(id, selected[k]);
    assert PlannedLinks(posts, selected) == before + mine;
    forall a | 0 <= a < k ensures posts[..k][a].id != id {
      assert posts[..k][a] == posts[a];
    }
    FilterAppend((l: (Id, Id)) => l.0 == id, before, mine);
    FilterKeepsAll((l: (Id, Id)) => l.0 == id, mine);
    NoLinksOfAbsentPost(id, posts[..k], selected[..k]);
  }

  /** An earlier post's links all lie before the last post's pairs. */
  lemma LinksOfEarlierPost(posts: seq<Post>, selected: seq<seq<Tag>>, i: nat)
    requires |selected| == |posts| && i < |posts| - 1
    requires posts[|posts| - 1].id != posts[i].id && posts[..|posts| - 1][i] == posts[i]
    requires var k := |posts| - 1;
      Filter((l: (Id, Id)) => l.0 == posts[i].id, PlannedLinks(posts[..k], selected[..k])) == Pairs(posts[i].id, selected[..k][i])
    ensures Filter((l: (Id, Id)) => l.0 == posts[i].id, PlannedLinks(posts, selected)) == Pairs(posts[i].id, selected[i])
  {
    var k := |posts| - 1;
    var id := posts[i].id;
    var before, last := PlannedLinks(posts[..k], selected[..k]), Pairs(posts[k].id, selected[k]);
    assert PlannedLinks(posts, selected) == before + last;
    FilterAppend((l: (Id, Id)) => l.0 == id, before, last);
    FilterKeepsNone((l: (Id, Id)) => l.0 == id, last);
  }

  lemma {:induction false} NoLinksOfAbsentPost(id: Id, posts: seq<Post>, selected: seq<seq<Tag>>)
    requires |selected| == |posts|
    requires forall a :: 0 <= a < |posts| ==> posts[a].id != id
    ensures Filter((l: (Id, Id)) => l.0 == id, PlannedLinks(posts, selected)) == []
  {
    if posts != [] {
      var k := |posts| - 1;
      NoLinksOfAbsentPost(id, posts[..k], selected[..k]);
      FilterAppend((l: (Id, Id)) => l.0 == id, PlannedLinks(posts[..k], selected[..k]), Pairs(posts[k].id, selected[k]));
      FilterKeepsNone((l: (Id, Id)) => l.0 == id, Pairs(posts[k].id, selected[k]));
    }
  }

  /**
   * Each seeded post (ids distinct, tag list non-empty and duplicate-free) is linked to between
   * one and five tags, all distinct and all from the tag list.
   */
  lemma PostTagsPerPost(posts: seq<Post>, tags: seq<Tag>, selected: seq<seq<Tag>>,
                        countRaw: nat -> nat, picks: nat -> nat -> nat, i: nat)
    requires |selected| == |posts| && i < |posts|
    requires DistinctIds(posts)
    requires forall k :: 0 <= k < |posts| ==> selected[k] == TagSelection(tags, countRaw(k), picks(k))
    requires tags != []
    requires forall a, b :: 0 <= a < b < |tags| ==> tags[a].id != tags[b].id
    ensures var mine := Filter((l: (Id, Id)) => l.0 == posts[i].id, PlannedLinks(posts, selected));
      && 1 <= |mine| <= 5
      && Distinct(mine)
      && forall k :: 0 <= k < |mine| ==> exists t :: t in tags && mine[k] == (posts[i].id, t.id)
  {
    LinksOfPost(posts, selected, i);
    assert Distinct(tags);
    var sel := selected[i];
    var mine := Pairs(posts[i].id, sel);
    forall a, b | 0 <= a < b < |mine| ensures mine[a] != mine[b] {
      assert sel[a] != sel[b];
      var x :| 0 <= x < |tags| && tags[x] == sel[a];
      var y :| 0 <= y < |tags| && tags[y] == sel[b];
      assert x != y;
    }
  }
}
