/**
 * The comment seeder: for each of the first thirty published posts, zero to ten comments by
 * seeded users, dated between the post's creation and now, counted as they are created.
 */
module SeedComments {
  import opened Wrappers
  import opened Schema
  import opened Seqs
  import opened SeedSupport

  const MaxCommentedPosts := 30
  const MaxCommentsPerPost := 10

  /** `publishedPosts.slice(0, 30)`. */
  function CommentTargets(posts: seq<Post>): (ts: seq<Post>)
    ensures |ts| == if |Filter(IsPublished, posts)| <= MaxCommentedPosts then |Filter(IsPublished, posts)| else MaxCommentedPosts
    ensures ts == Filter(IsPublished, posts)[..|ts|]
    ensures forall i :: 0 <= i < |ts| ==> ts[i] in posts && IsPublished(ts[i])
  {
    var published := Filter(IsPublished, posts);
    if |published| <= MaxCommentedPosts then published else published[..MaxCommentedPosts]
  }

  /** The number of comments drawn for each target: `faker.number.int({ min: 0, max: 10 })`. */
  function CommentCounts(targets: seq<Post>, countRaw: nat -> nat): (ns: seq<nat>)
    ensures |ns| == |targets|
    ensures forall i :: 0 <= i < |ns| ==> ns[i] <= MaxCommentsPerPost
  {
    DrawCounts(|targets|, countRaw, MaxCommentsPerPost)
  }

  /** The faker draws for one comment: author choice, lorem text and date choice. */
  datatype CommentDraw = CommentDraw(authorRaw: nat, content: string, dateRaw: nat)

  /** What every created comment satisfies: it belongs to a target, is written by a seeded user, and is not dated before its post. */
  predicate CommentOk(c: Comment, targets: seq<Post>, users: seq<User>, now: Time) {
    && (exists t :: t in targets && c.postId == t.id && t.createdAt <= c.createdAt <= now)
    && (exists u :: u in users && c.authorId == u.id)
  }

  predicate AllOk(rows: seq<Comment>, targets: seq<Post>, users: seq<User>, now: Time) {
    forall k :: 0 <= k < |rows| ==> CommentOk(rows[k], targets, users, now)
  }

  function PostIdsOf(rows: seq<Comment>): (ids: seq<Id>)
    ensures |ids| == |rows|
    ensures forall k :: 0 <= k < |rows| ==> ids[k] == rows[k].postId
  {
    seq(|rows|, k requires 0 <= k < |rows| => rows[k].postId)
  }

  /**
   * The inner loop of `seedComments()` for one post: `n` comments, the `j`-th drawn by `draws(j)`
   * and given the id `ids(j)`. `ok` is false when faker throws part-way.
   */
  method CommentOnPost(db: Database, post: Post, targets: seq<Post>, users: seq<User>, n: nat,
                       draws: nat -> CommentDraw, ids: nat -> Id, now: Time) returns (written: nat, ok: bool)
    requires post in targets
    modifies db`comments
    ensures old(db.comments) <= db.comments
    ensures written == |db.comments| - |old(db.comments)|
    ensures AllOk(db.comments[|old(db.comments)|..], targets, users, now)
    ensures ok ==> PostIdsOf(db.comments[|old(db.comments)|..]) == Repeat(post.id, n)
    ensures !ok ==> written < n && (users == [] || post.createdAt > now)
  {
    var start := |db.comments|;
    written := 0;
    for j := 0 to n
      invariant old(db.comments) <= db.comments
      invariant written == |db.comments| - start == j
      invariant AllOk(db.comments[start..], targets, users, now)
      invariant PostIdsOf(db.comments[start..]) == Repeat(post.id, j)
    {
      var d := draws(j);
      if users == [] {
        return written, false;
      }
      var author := Pick(users, d.authorRaw);
      var createdAt := DateBetween(post.createdAt, now, d.dateRaw);
      if createdAt.None? {
        return written, false;
      }
      var c := Comment(ids(j), d.content, post.id, author.id, createdAt.value, now);
      assert CommentOk(c, targets, users, now);
      ghost var prev := db.comments;
      db.CreateComment(c);
      assert db.comments[start..] == prev[start..] + [c];
      assert Repeat(post.id, j + 1) == Repeat(post.id, j) + [post.id];
      written := written + 1;
    }
    ok := true;
  }

  /**
   * `seedComments()`. `countRaw(i)` and `draws(i, j)` are faker's draws for the `i`-th target and
   * its `j`-th comment, `commentIds(n)` the id of the `n`-th comment, `now` the clock.
   * `completed` is false when faker throws: no user to pick, or a post created after `now`;
   * the rows written before the throw stay.
   */
  method SeedComments(db: Database, users: seq<User>, posts: seq<Post>, countRaw: nat -> nat,
                      draws: (nat, nat) -> CommentDraw, commentIds: nat -> Id, now: Time)
    returns (commentCount: nat, completed: bool)
    modifies db`comments
    ensures old(db.comments) <= db.comments
    ensures commentCount == |db.comments| - |old(db.comments)|
    ensures AllOk(db.comments[|old(db.comments)|..], CommentTargets(posts), users, now)
    ensures completed ==>
      PostIdsOf(db.comments[|old(db.comments)|..])
        == PlannedPostIds(CommentTargets(posts), CommentCounts(CommentTargets(posts), countRaw))
    ensures !completed ==>
      exists i :: && 0 <= i < |CommentTargets(posts)| && CommentCounts(CommentTargets(posts), countRaw)[i] > 0
                  && (users == [] || CommentTargets(posts)[i].createdAt > now)
  {
    var targets := CommentTargets(posts);
    var counts := CommentCounts(targets, countRaw);
    var start := |db.comments|;
    commentCount := 0;
    for i := 0 to |targets|
      invariant old(db.comments) <= db.comments
      invariant commentCount == |db.comments| - start
      invariant AllOk(db.comments[start..], targets, users, now)
      invariant PostIdsOf(db.comments[start..]) == PlannedPostIds(targets[..i], counts[..i])
    {
      ghost var prev := db.comments;
      var written, ok := CommentOnPost(db, targets[i], targets, users, counts[i],
                                       (j: nat) => draws(i, j), (j: nat) => commentIds(commentCount + j), now);
      GrownSuffix(prev, db.comments, start);
      AppendKeepsOk(prev[start..], db.comments[|prev|..], targets, users, now);
      commentCount := commentCount + written;
      if !ok {
        assert written < counts[i];
        return commentCount, false;
      }
      PlannedStep(targets, counts, i);
    }
    assert targets[..|targets|] == targets;
    assert counts[..|counts|] == counts;
    completed := true;
  }

  /** Well-formedness and post ids of rows written in two batches. */
  lemma AppendKeepsOk(a: seq<Comment>, b: seq<Comment>, targets: seq<Post>, users: seq<User>, now: Time)
    ensures AllOk(a + b, targets, users, now) <==> AllOk(a, targets, users, now) && AllOk(b, targets, users, now)
    ensures PostIdsOf(a + b) == PostIdsOf(a) + PostIdsOf(b)
  {
    assert forall k :: 0 <= k < |a| ==> (a + b)[k] == a[k];
    assert forall k :: 0 <= k < |b| ==> (a + b)[|a| + k] == b[k];
  }

  /** Each target post (ids distinct) receives exactly its drawn number of comments, at most ten. */
  lemma CommentsPerPost(posts: seq<Post>, countRaw: nat -> nat, i: nat)
    requires i < |CommentTargets(posts)|
    requires DistinctIds(posts)
    ensures var ts := CommentTargets(posts);
      var n := |Filter((x: Id) => x == ts[i].id, PlannedPostIds(ts, CommentCounts(ts, countRaw)))|;
      n == Between(countRaw(i), 0, MaxCommentsPerPost) && n <= MaxCommentsPerPost
  {
    var ts := CommentTargets(posts);
    FilterKeepsDistinctIds(IsPublished, posts);
    assert DistinctIds(ts) by {
      var f := Filter(IsPublished, posts);
      assert forall a :: 0 <= a < |ts| ==> ts[a] == f[a];
    }
    PlannedPerPost(ts, CommentCounts(ts, countRaw), i);
    DrawCountsAre(|ts|, countRaw, MaxCommentsPerPost, i);
  }

  /** The total planned is at most 10 comments for each of at most 30 posts. */
  lemma CommentTotalBound(posts: seq<Post>, countRaw: nat -> nat)
    ensures var ts := CommentTargets(posts);
      |PlannedPostIds(ts, CommentCounts(ts, countRaw))| <= MaxCommentsPerPost * MaxCommentedPosts
  {
    var ts := CommentTargets(posts);
    SumBounded(CommentCounts(ts, countRaw), MaxCommentsPerPost);
  }
}
