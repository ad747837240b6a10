/**
 * The view seeder: for every published post, zero to a hundred views, each by a seeded user or
 * anonymous on a coin flip, dated between the post's creation and now, counted as created.
 */
module SeedViews {
  import opened Wrappers
  import opened Schema
  import opened Seqs
  import opened SeedSupport

  const MaxViewsPerPost := 100

  /** `posts.filter(p => p.status === 'published')`. */
  function ViewTargets(posts: seq<Post>): (ts: seq<Post>)
    ensures forall i :: 0 <= i < |ts| ==> ts[i] in posts && IsPublished(ts[i])
    ensures forall i :: 0 <= i < |posts| && IsPublished(posts[i]) ==> posts[i] in ts
  {
    Filter(IsPublished, posts)
  }

  /** The number of views drawn for each target: `faker.number.int({ min: 0, max: 100 })`. */
  function ViewCounts(targets: seq<Post>, countRaw: nat -> nat): (ns: seq<nat>)
    ensures |ns| == |targets|
    ensures forall i :: 0 <= i < |ns| ==> ns[i] <= MaxViewsPerPost
  {
    DrawCounts(|targets|, countRaw, MaxViewsPerPost)
  }

  /** The faker draws for one view: the user coin and choice, IP address, user agent and date choice. */
  datatype ViewDraw = ViewDraw(userCoin: bool, userRaw: nat, ipAddress: string, userAgent: string, dateRaw: nat)

  /** A view belongs to a target, is anonymous or by a seeded user, and is not dated before its post. */
  predicate ViewOk(v: PostView, targets: seq<Post>, users: seq<User>, now: Time) {
    && (exists t :: t in targets && v.postId == t.id && t.createdAt <= v.createdAt <= now)
    && (v.userId.None? || exists u :: u in users && v.userId.value == u.id)
  }

  predicate AllOk(rows: seq<PostView>, targets: seq<Post>, users: seq<User>, now: Time) {
    forall k :: 0 <= k < |rows| ==> ViewOk(rows[k], targets, users, now)
  }

  function PostIdsOf(rows: seq<PostView>): (ids: seq<Id>)
    ensures |ids| == |rows|
    ensures forall k :: 0 <= k < |rows| ==> ids[k] == rows[k].postId
  {
    seq(|rows|, k requires 0 <= k < |rows| => rows[k].postId)
  }

  /**
   * The inner loop of `seedPostViews()` for one post: `n` views, the `j`-th drawn by `draws(j)`
   * and given the id `ids(j)`. `ok` is false when faker throws part-way.
   */
  method ViewPost(db: Database, post: Post, targets: seq<Post>, users: seq<User>, n: nat,
                  draws: nat -> ViewDraw, ids: nat -> Id, now: Time) returns (written: nat, ok: bool)
    requires post in targets
    modifies db`views
    ensures old(db.views) <= db.views
    ensures written == |db.views| - |old(db.views)|
    ensures AllOk(db.views[|old(db.views)|..], targets, users, now)
    ensures ok ==> PostIdsOf(db.views[|old(db.views)|..]) == Repeat(post.id, n)
    ensures !ok ==> written < n && ((users == [] && draws(written).userCoin) || post.createdAt > now)
  {
    var start := |db.views|;
    written := 0;
    for j := 0 to n
      invariant old(db.views) <= db.views
      invariant written == |db.views| - start == j
      invariant AllOk(db.views[start..], targets, users, now)
      invariant PostIdsOf(db.views[start..]) == Repeat(post.id, j)
    {
      var d := draws(j);
      var userId: Option<Id> := None;
      if d.userCoin {
        if users == [] {
          return written, false;
        }
        userId := Some(Pick(users, d.userRaw).id);
      }
      var createdAt := DateBetween(post.createdAt, now, d.dateRaw);
      if createdAt.None? {
        return written, false;
      }
      var v := PostView(ids(j), post.id, userId, d.ipAddress, d.userAgent, createdAt.value);
      assert ViewOk(v, targets, users, now);
      ghost var prev := db.views;
      db.CreatePostView(v);
      assert db.views[start..] == prev[start..] + [v];
      assert Repeat(post.id, j + 1) == Repeat(post.id, j) + [post.id];
      written := written + 1;
    }
    ok := true;
  }

  /**
   * `seedPostViews()`. `countRaw(i)` and `draws(i, j)` are faker's draws for the `i`-th published
   * post and its `j`-th view, `viewIds(n)` the id of the `n`-th view, `now` the clock. `completed`
   * is false when faker throws: a coin asks for a user and there is none, or a post was created
   * after `now`; the rows written before the throw stay.
   */
  method SeedPostViews(db: Database, users: seq<User>, posts: seq<Post>, countRaw: nat -> nat,
                       draws: (nat, nat) -> ViewDraw, viewIds: nat -> Id, now: Time)
    returns (viewCount: nat, completed: bool)
    modifies db`views
    ensures old(db.views) <= db.views
    ensures viewCount == |db.views| - |old(db.views)|
    ensures AllOk(db.views[|old(db.views)|..], ViewTargets(posts), users, now)
    ensures completed ==>
      PostIdsOf(db.views[|old(db.views)|..])
        == PlannedPostIds(ViewTargets(posts), ViewCounts(ViewTargets(posts), countRaw))
    ensures !completed ==>
      exists i :: && 0 <= i < |ViewTargets(posts)|
                  && (|| ViewTargets(posts)[i].createdAt > now
                      || (users == [] && exists j :: 0 <= j < ViewCounts(ViewTargets(posts), countRaw)[i] && draws(i, j).userCoin))
  {
    var targets := ViewTargets(posts);
    var counts := ViewCounts(targets, countRaw);
    var start := |db.views|;
    viewCount := 0;
    for i := 0 to |targets|
      invariant old(db.views) <= db.views
      invariant viewCount == |db.views| - start
      invariant AllOk(db.views[start..], targets, users, now)
      invariant PostIdsOf(db.views[start..]) == PlannedPostIds(targets[..i], counts[..i])
    {
      ghost var prev := db.views;
      var written, ok := ViewPost(db, targets[i], targets, users, counts[i],
                                  (j: nat) => draws(i, j), (j: nat) => viewIds(viewCount + j), now);
      GrownSuffix(prev, db.views, start);
      AppendKeepsOk(prev[start..], db.views[|prev|..], targets, users, now);
      viewCount := viewCount + written;
      if !ok {
        assert written < counts[i];
        return viewCount, false;
      }
      PlannedStep(targets, counts, i);
    }
    assert targets[..|targets|] == targets;
    assert counts[..|counts|] == counts;
    completed := true;
  }

  /** Well-formedness and post ids of rows written in two batches. */
  lemma AppendKeepsOk(a: seq<PostView>, b: seq<PostView>, targets: seq<Post>, users: seq<User>, now: Time)
    ensures AllOk(a + b, targets, users, now) <==> AllOk(a, targets, users, now) && AllOk(b, targets, users, now)
    ensures PostIdsOf(a + b) == PostIdsOf(a) + PostIdsOf(b)
  {
    assert forall k :: 0 <= k < |a| ==> (a + b)[k] == a[k];
    assert forall k :: 0 <= k < |b| ==> (a + b)[|a| + k] == b[k];
  }

  /** Each published post (ids distinct) receives exactly its drawn number of views, at most a hundred. */
  lemma ViewsPerPost(posts: seq<Post>, countRaw: nat -> nat, i: nat)
    requires i < |ViewTargets(posts)|
    requires DistinctIds(posts)
    ensures var ts := ViewTargets(posts);
      var n := |Filter((x: Id) => x == ts[i].id, PlannedPostIds(ts, ViewCounts(ts, countRaw)))|;
      n == Between(countRaw(i), 0, MaxViewsPerPost) && n <= MaxViewsPerPost
  {
    var ts := ViewTargets(posts);
    FilterKeepsDistinctIds(IsPublished, posts);
    PlannedPerPost(ts, ViewCounts(ts, countRaw), i);
    DrawCountsAre(|ts|, countRaw, MaxViewsPerPost, i);
  }
}
