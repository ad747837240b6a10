/**
 * The randomness the seeders draw from faker, made explicit: each random choice is a raw
 * natural number supplied by the caller, reduced into the range faker would return.
 */
module SeedSupport {
  import opened Wrappers
  import opened Schema
  import opened Seqs

  /** `faker.number.int({ min: lo, max: hi })`. */
  function Between(raw: nat, lo: int, hi: int): (r: int)
    requires lo <= hi
    ensures lo <= r <= hi
  {
    lo + raw % (hi - lo + 1)
  }

  /** `faker.helpers.arrayElement(s)`; faker throws on an empty list, which callers check first. */
  function Pick<T>(s: seq<T>, raw: nat): (x: T)
    requires |s| > 0
    ensures x in s
  {
    s[raw % |s|]
  }

  /** `faker.date.between({ from, to })`; None when `to` is before `from` (faker throws). */
  function DateBetween(from: Time, to: Time, raw: nat): (r: Option<Time>)
    ensures r.Some? <==> from <= to
    ensures r.Some? ==> from <= r.value <= to
  {
    if from <= to then Some(Between(raw, from, to)) else None
  }

  /**
   * `faker.helpers.arrayElements(s, k)`: `k` elements at distinct positions of `s` (all of
   * them, in some order, when `k >= |s|`); `draw(step)` chooses among the positions left.
   */
  function Sample<T>(s: seq<T>, k: nat, draw: nat -> nat, step: nat): (r: seq<T>)
    ensures |r| == if k < |s| then k else |s|
    ensures forall i :: 0 <= i < |r| ==> r[i] in s
    ensures Distinct(s) ==> Distinct(r)
    decreases k
  {
    if k == 0 || s == [] then []
    else
      var j := draw(step) % |s|;
      var rest := s[..j] + s[j + 1..];
      var tail := Sample(rest, k - 1, draw, step + 1);
      RemoveAtKeepsDistinct(s, j);
      var r := [s[j]] + tail;
      ConsDistinct(s[j], tail, rest);
      r
  }

  /** Dropping position `j` keeps the other elements, and keeps a distinct list distinct without `s[j]`. */
  lemma RemoveAtKeepsDistinct<T>(s: seq<T>, j: nat)
    requires j < |s|
    ensures forall x :: x in s[..j] + s[j + 1..] ==> x in s
    ensures Distinct(s) ==> Distinct(s[..j] + s[j + 1..]) && s[j] !in s[..j] + s[j + 1..]
  {
    var rest := s[..j] + s[j + 1..];
    assert forall a :: 0 <= a < |rest| ==> rest[a] == s[if a < j then a else a + 1];
  }

  /** Prefixing an element absent from a distinct list built from `pool` keeps it distinct. */
  lemma ConsDistinct<T>(x: T, t: seq<T>, pool: seq<T>)
    requires forall i :: 0 <= i < |t| ==> t[i] in pool
    ensures Distinct(t) && x !in pool ==> Distinct([x] + t)
  {
    var r := [x] + t;
    assert forall a :: 1 <= a < |r| ==> r[a] == t[a - 1];
  }

  /** `n` copies of `x`. */
  function Repeat<T>(x: T, n: nat): (r: seq<T>)
    ensures |r| == n
    ensures forall i :: 0 <= i < n ==> r[i] == x
  {
    seq(n, i => x)
  }

  /** Sum of a sequence of counts. */
  function Sum(ns: seq<nat>): nat {
    if ns == [] then 0 else Sum(ns[..|ns| - 1]) + ns[|ns| - 1]
  }

  /** Sum of counts each at most `bound`. */
  lemma {:induction false} SumBounded(ns: seq<nat>, bound: nat)
    requires forall i :: 0 <= i < |ns| ==> ns[i] <= bound
    ensures Sum(ns) <= bound * |ns|
  {
    if ns != [] {
      SumBounded(ns[..|ns| - 1], bound);
    }
  }

  /**
   * The post ids of the rows a nested "for each post, create `counts[i]` rows" loop appends,
   * in creation order.
   */
  function PlannedPostIds(posts: seq<Post>, counts: seq<nat>): (ids: seq<Id>)
    requires |counts| == |posts|
    ensures |ids| == Sum(counts)
  {
    if posts == [] then []
    else
      var k := |posts| - 1;
      PlannedPostIds(posts[..k], counts[..k]) + Repeat(posts[k].id, counts[k])
  }

  /** One more post of the plan adds its block of ids at the end. */
  lemma PlannedStep(posts: seq<Post>, counts: seq<nat>, i: nat)
    requires |counts| == |posts| && i < |posts|
    ensures PlannedPostIds(posts[..i + 1], counts[..i + 1])
      == PlannedPostIds(posts[..i], counts[..i]) + Repeat(posts[i].id, counts[i])
  {
    assert posts[..i + 1][..i] == posts[..i];
    assert counts[..i + 1][..i] == counts[..i];
  }

  /** With distinct post ids, each post's id occurs in the plan exactly as often as its count says. */
  lemma {:induction false} PlannedPerPost(posts: seq<Post>, counts: seq<nat>, i: nat)
    requires |counts| == |posts| && i < |posts|
    requires DistinctIds(posts)
    ensures |Filter((x: Id) => x == posts[i].id, PlannedPostIds(posts, counts))| == counts[i]
  {
    var k := |posts| - 1;
    LastPostApart(posts, i);
    if i == k {
      PlannedForLastPost(posts, counts);
    } else {
      PlannedPerPost(posts[..k], counts[..k], i);
      PlannedForEarlierPost(posts, counts, i);
    }
  }

  /** The last post's id occurs only in its own block. */
  lemma PlannedForLastPost(posts: seq<Post>, counts: seq<nat>)
    requires |counts| == |posts| > 0
    requires forall a :: 0 <= a < |posts| - 1 ==> posts[a].id != posts[|posts| - 1].id
    ensures var k := |posts| - 1;
      |Filter((x: Id) => x == posts[k].id, PlannedPostIds(posts, counts))| == counts[k]
  {
    var k := |posts| - 1;
    var id := posts[k].id;
    var front, block := PlannedPostIds(posts[..k], counts[..k]), Repeat(id, counts[k]);
    assert PlannedPostIds(posts, counts) == front + block;
    forall a | 0 <= a < k ensures posts[..k][a].id != id {
      assert posts[..k][a] == posts[a];
    }
    FilterAppend((x: Id) => x == id, front, block);
    FilterKeepsAll((x: Id) => x == id, block);
    FilterAbsent(id, posts[..k], counts[..k]);
  }

  /** An earlier post's id does not occur in the last post's block. */
  lemma PlannedForEarlierPost(posts: seq<Post>, counts: seq<nat>, i: nat)
    requires |counts| == |posts| && i < |posts| - 1
    requires posts[|posts| - 1].id != posts[i].id && posts[..|posts| - 1][i] == posts[i]
    requires var k := |posts| - 1;
      |Filter((x: Id) => x == posts[i].id, PlannedPostIds(posts[..k], counts[..k]))| == counts[..k][i]
    ensures |Filter((x: Id) => x == posts[i].id, PlannedPostIds(posts, counts))| == counts[i]
  {
    var k := |posts| - 1;
    var id := posts[i].id;
    var front, block := PlannedPostIds(posts[..k], counts[..k]), Repeat(posts[k].id, counts[k]);
    assert PlannedPostIds(posts, counts) == front + block;
    FilterAppend((x: Id) => x == id, front, block);
    FilterKeepsNone((x: Id) => x == id, block);
  }

  /** An id that no post carries does not occur in the plan. */
  lemma {:induction false} FilterAbsent(id: Id, posts: seq<Post>, counts: seq<nat>)
    requires |counts| == |posts|
    requires forall a :: 0 <= a < |posts| ==> posts[a].id != id
    ensures |Filter((x: Id) => x == id, PlannedPostIds(posts, counts))| == 0
  {
    if posts != [] {
      var k := |posts| - 1;
      FilterAbsent(id, posts[..k], counts[..k]);
      FilterAppend((x: Id) => x == id, PlannedPostIds(posts[..k], counts[..k]), Repeat(posts[k].id, counts[k]));
      FilterKeepsNone((x: Id) => x == id, Repeat(posts[k].id, counts[k]));
    }
  }

  /** No two posts share an id. */
  predicate DistinctIds(posts: seq<Post>) {
    forall a, b :: 0 <= a < b < |posts| ==> posts[a].id != posts[b].id
  }

  /** Dropping the last post keeps ids distinct; the last post's id occurs nowhere before it. */
  lemma LastPostApart(posts: seq<Post>, i: nat)
    requires DistinctIds(posts) && i < |posts|
    ensures var k := |posts| - 1;
      && DistinctIds(posts[..k])
      && (i == k ==> forall a :: 0 <= a < k ==> posts[a].id != posts[i].id)
      && (i < k ==> posts[k].id != posts[i].id && posts[..k][i] == posts[i])
  {
    var k := |posts| - 1;
    var front := posts[..k];
    forall a, b | 0 <= a < b < |front| ensures front[a].id != front[b].id {
      assert front[a] == posts[a] && front[b] == posts[b];
    }
  }

  /** Filtering a list of posts with distinct ids keeps the ids distinct. */
  lemma {:induction false} FilterKeepsDistinctIds(p: Post -> bool, posts: seq<Post>)
    requires DistinctIds(posts)
    ensures DistinctIds(Filter(p, posts))
  {
    if posts != [] {
      var tail := posts[1..];
      assert DistinctIds(tail) by {
        assert forall a :: 0 <= a < |tail| ==> tail[a] == posts[a + 1];
      }
      FilterKeepsDistinctIds(p, tail);
      var rest := Filter(p, tail);
      forall k | 0 <= k < |rest| ensures rest[k].id != posts[0].id {
        var x :| 0 <= x < |tail| && tail[x] == rest[k];
        assert posts[x + 1] == tail[x];
      }
      if p(posts[0]) {
        var f := [posts[0]] + rest;
        assert Filter(p, posts) == f;
        forall a, b | 0 <= a < b < |f| ensures f[a].id != f[b].id {
          if a == 0 {
            assert f[b] == rest[b - 1];
          } else {
            assert f[a] == rest[a - 1] && f[b] == rest[b - 1];
          }
        }
      } else {
        assert Filter(p, posts) == rest;
      }
    }
  }

  /** The `i`-th entry of the list is faker's count for the `i`-th post, between 0 and `hi`. */
  function DrawCounts(n: nat, countRaw: nat -> nat, hi: nat): (ns: seq<nat>)
    ensures |ns| == n
    ensures forall i :: 0 <= i < n ==> ns[i] <= hi
  {
    if n == 0 then [] else DrawCounts(n - 1, countRaw, hi) + [Between(countRaw(n - 1), 0, hi) as nat]
  }

  /** Entry `i` of the counts is the reduction of the `i`-th raw draw. */
  lemma {:induction false} DrawCountsAre(n: nat, countRaw: nat -> nat, hi: nat, i: nat)
    requires i < n
    ensures DrawCounts(n, countRaw, hi)[i] == Between(countRaw(i), 0, hi)
  {
    if i < n - 1 {
      DrawCountsAre(n - 1, countRaw, hi, i);
    }
  }
}
