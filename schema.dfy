/**
 * The relational schema the application reads and writes, as value records, and the
 * database itself as an object whose tables are sequences of rows in storage order.
 * Only the tables and columns that the modelled code touches appear here.
 */
module Schema {
  import opened Wrappers

  /** Row ids (UUID strings in the database). */
  type Id = string

  /** Timestamps, in milliseconds. */
  type Time = int

  /** The global, application-wide role of a user. */
  datatype Role = Member | Author | Admin | SuperAdmin

  /** The role a member row gives a user inside one organisation; unrelated to `Role`. */
  datatype OrgRole = Owner | OrgAdmin | OrgMember

  /** Only the `published` value of the post status enum matters to the modelled code. */
  datatype PostStatus = Published | OtherStatus(name: string)

  datatype User = User(
    id: Id, name: string, email: string, emailVerified: bool, image: Option<string>,
    role: Role, createdAt: Time, updatedAt: Time)

  /** A login binding of a user; `password` holds a hash for the "credential" provider. */
  datatype Account = Account(
    id: Id, accountId: Id, providerId: string, userId: Id, password: Option<string>,
    createdAt: Time, updatedAt: Time)

  datatype Organization = Organization(id: Id, name: string, slug: string)

  /** A member row: one user in one organisation. */
  datatype Membership = Membership(id: Id, organizationId: Id, userId: Id, role: OrgRole)

  datatype Category = Category(id: Id, name: string, slug: string, updatedAt: Time)

  datatype Tag = Tag(id: Id, name: string, slug: string)

  datatype Post = Post(
    id: Id, title: string, slug: string, content: string, excerpt: string,
    featuredImage: Option<string>, status: PostStatus, publishedAt: Option<Time>,
    categoryId: Id, authorId: Id, viewCount: nat, createdAt: Time, updatedAt: Time)

  /** A post whose status is `published`. */
  predicate IsPublished(p: Post) {
    p.status == Published
  }

  datatype PostTag = PostTag(id: Id, postId: Id, tagId: Id)

  datatype Comment = Comment(
    id: Id, content: string, postId: Id, authorId: Id, createdAt: Time, updatedAt: Time)

  datatype PostView = PostView(
    id: Id, postId: Id, userId: Option<Id>, ipAddress: string, userAgent: string, createdAt: Time)

  /** `findUnique({ where: { id } })` on the user table. */
  function UserById(users: seq<User>, id: Id): (r: Option<User>)
    ensures r.Some? ==> r.value in users && r.value.id == id
    ensures r.None? <==> forall i :: 0 <= i < |users| ==> users[i].id != id
  {
    if users == [] then None
    else if users[0].id == id then Some(users[0])
    else UserById(users[1..], id)
  }

  /** The primary-key property of the user table. */
  predicate UniqueUserIds(users: seq<User>) {
    forall i, j :: 0 <= i < j < |users| ==> users[i].id != users[j].id
  }

  /** The member table after `delete({ where: { id } })`: every row with another id, in order. */
  function WithoutMember(members: seq<Membership>, id: Id): seq<Membership> {
    if members == [] then []
    else if members[0].id == id then WithoutMember(members[1..], id)
    else [members[0]] + WithoutMember(members[1..], id)
  }

  /** Only rows with another id remain after the delete, and every such row does. */
  lemma {:induction false} WithoutMemberKeeps(members: seq<Membership>, id: Id)
    ensures var r := WithoutMember(members, id);
      && (forall i :: 0 <= i < |r| ==> r[i] in members && r[i].id != id)
      && (forall m :: m in members && m.id != id ==> m in r)
  {
    if members != [] {
      WithoutMemberKeeps(members[1..], id);
      assert forall m :: m in members ==> m == members[0] || m in members[1..];
    }
  }

  /** Some member row carries this id. */
  predicate HasMemberId(members: seq<Membership>, id: Id) {
    exists i | 0 <= i < |members| :: members[i].id == id
  }

  /** The primary-key property of the member table. */
  predicate UniqueMemberIds(members: seq<Membership>) {
    forall i, j :: 0 <= i < j < |members| ==> members[i].id != members[j].id
  }

  /**
   * When row k is the only row carrying the id (as the primary key guarantees), deleting that id
   * removes exactly row k and keeps the order of the rest.
   */
  lemma {:induction false} WithoutPresentMember(members: seq<Membership>, id: Id, k: nat)
    requires k < |members| && members[k].id == id
    requires forall i :: 0 <= i < |members| && i != k ==> members[i].id != id
    ensures WithoutMember(members, id) == members[..k] + members[k + 1..]
  {
    var tail := members[1..];
    if k == 0 {
      forall i | 0 <= i < |tail| ensures tail[i].id != id {
        assert tail[i] == members[i + 1];
      }
      WithoutAbsentMember(tail, id);
      assert members[..0] + members[1..] == tail;
    } else {
      forall i | 0 <= i < |tail| && i != k - 1 ensures tail[i].id != id {
        assert tail[i] == members[i + 1];
      }
      WithoutPresentMember(tail, id, k - 1);
      assert members[0].id != id;
      var front, back := tail[..k - 1], tail[k..];
      assert [members[0]] + front == members[..k];
      assert back == members[k + 1..];
      assert [members[0]] + (front + back) == ([members[0]] + front) + back;
    }
  }

  /** In a table with unique ids, only row k carries row k's id. */
  lemma UniqueIdsOneRow(members: seq<Membership>, k: nat)
    requires UniqueMemberIds(members) && k < |members|
    ensures forall i :: 0 <= i < |members| && i != k ==> members[i].id != members[k].id
  {
    forall i | 0 <= i < |members| && i != k ensures members[i].id != members[k].id {
      if i < k {
        assert members[i].id != members[k].id;
      } else {
        assert members[k].id != members[i].id;
      }
    }
  }

  /** Deleting an id that no row carries changes nothing. */
  lemma {:induction false} WithoutAbsentMember(members: seq<Membership>, id: Id)
    requires forall i :: 0 <= i < |members| ==> members[i].id != id
    ensures WithoutMember(members, id) == members
  {
    if members != [] {
      WithoutAbsentMember(members[1..], id);
    }
  }

  /**
   * The database behind the Prisma client. Each `Create*` method is one `create` call and
   * appends one row; `DeleteMember` is `member.delete`, which fails when no row has the id.
   */
  class Database {
    var users: seq<User>
    var accounts: seq<Account>
    var organizations: seq<Organization>
    var members: seq<Membership>
    var categories: seq<Category>
    var tags: seq<Tag>
    var posts: seq<Post>
    var postTags: seq<PostTag>
    var comments: seq<Comment>
    var views: seq<PostView>

    method CreateUser(u: User)
      modifies this`users
      ensures users == old(users) + [u]
    {
      users := users + [u];
    }

    method CreateAccount(a: Account)
      modifies this`accounts
      ensures accounts == old(accounts) + [a]
    {
      accounts := accounts + [a];
    }

    method CreateTag(t: Tag)
      modifies this`tags
      ensures tags == old(tags) + [t]
    {
      tags := tags + [t];
    }

    method CreatePost(p: Post)
      modifies this`posts
      ensures posts == old(posts) + [p]
    {
      posts := posts + [p];
    }

    method CreatePostTag(pt: PostTag)
      modifies this`postTags
      ensures postTags == old(postTags) + [pt]
    {
      postTags := postTags + [pt];
    }

    method CreateComment(c: Comment)
      modifies this`comments
      ensures comments == old(comments) + [c]
    {
      comments := comments + [c];
    }

    method CreatePostView(v: PostView)
      modifies this`views
      ensures views == old(views) + [v]
    {
      views := views + [v];
    }

    /** Returns false, changing nothing, when no row has the id (Prisma throws in that case). */
    method DeleteMember(id: Id) returns (deleted: bool)
      modifies this`members
      ensures deleted <==> HasMemberId(old(members), id)
      ensures members == if deleted then WithoutMember(old(members), id) else old(members)
    {
      deleted := HasMemberId(members, id);
      if deleted {
        members := WithoutMember(members, id);
      }
    }
  }
}
