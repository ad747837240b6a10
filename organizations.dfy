/**
 * Read-only organisation queries (src/server/organizations.ts) over the member and
 * organisation tables, with Prisma's `findMany`/`findFirst` as filters in table order.
 */
module Organizations {
  import opened Wrappers
  import opened Schema
  import opened Seqs

  /** `members.map(m => m.organizationId)` over the current user's member rows. */
  function MemberOrgIds(members: seq<Membership>, userId: Id): (ids: seq<Id>)
    ensures forall i :: 0 <= i < |members| && members[i].userId == userId ==> members[i].organizationId in ids
    ensures forall id :: id in ids ==> exists i :: 0 <= i < |members| && members[i].userId == userId && members[i].organizationId == id
  {
    if members == [] then []
    else
      var rest := MemberOrgIds(members[1..], userId);
      assert forall id :: id in rest ==> exists i :: 1 <= i < |members| && members[i].userId == userId && members[i].organizationId == id by {
        forall id | id in rest ensures exists i :: 1 <= i < |members| && members[i].userId == userId && members[i].organizationId == id {
          var j :| 0 <= j < |members[1..]| && members[1..][j].userId == userId && members[1..][j].organizationId == id;
          assert members[j + 1] == members[1..][j];
        }
      }
      if members[0].userId == userId then [members[0].organizationId] + rest else rest
  }

  /** `getOrganizations`: the organisation rows whose id is in the user's membership id list. */
  function GetOrganizations(userId: Id, members: seq<Membership>, orgs: seq<Organization>): (r: seq<Organization>)
    ensures IsSubsequence(r, orgs)
    ensures forall i :: 0 <= i < |r| ==>
              (r[i] in orgs && exists j :: 0 <= j < |members| && members[j].userId == userId && members[j].organizationId == r[i].id)
    ensures forall o, j :: o in orgs && 0 <= j < |members| && members[j].userId == userId && members[j].organizationId == o.id
              ==> o in r
  {
    var ids := MemberOrgIds(members, userId);
    Filter((o: Organization) => o.id in ids, orgs)
  }

  /**
   * The result depends on the member rows only through the set of organisation ids they name,
   * so several member rows for one organisation do not repeat it.
   */
  lemma SameOrgIdsSameOrganizations(userId: Id, m1: seq<Membership>, m2: seq<Membership>, orgs: seq<Organization>)
    requires forall id :: id in MemberOrgIds(m1, userId) <==> id in MemberOrgIds(m2, userId)
    ensures GetOrganizations(userId, m1, orgs) == GetOrganizations(userId, m2, orgs)
  {
    var ids1 := MemberOrgIds(m1, userId);
    var ids2 := MemberOrgIds(m2, userId);
    FilterCongruent((o: Organization) => o.id in ids1, (o: Organization) => o.id in ids2, orgs);
  }

  /** A duplicated member row leaves the result unchanged. */
  lemma DuplicateMembershipIgnored(userId: Id, members: seq<Membership>, extra: Membership, orgs: seq<Organization>)
    requires extra in members
    ensures GetOrganizations(userId, members + [extra], orgs) == GetOrganizations(userId, members, orgs)
  {
    var m2 := members + [extra];
    forall id ensures id in MemberOrgIds(m2, userId) <==> id in MemberOrgIds(members, userId) {
      if id in MemberOrgIds(m2, userId) {
        var i :| 0 <= i < |m2| && m2[i].userId == userId && m2[i].organizationId == id;
        if i == |members| {
          var k :| 0 <= k < |members| && members[k] == extra;
          assert members[k].userId == userId && members[k].organizationId == id;
        } else {
          assert members[i] == m2[i];
        }
      }
      if id in MemberOrgIds(members, userId) {
        var i :| 0 <= i < |members| && members[i].userId == userId && members[i].organizationId == id;
        assert m2[i] == members[i];
      }
    }
    SameOrgIdsSameOrganizations(userId, m2, members, orgs);
  }

  /** With unique organisation rows in the table, no organisation is returned twice. */
  lemma NoDuplicateOrganizations(userId: Id, members: seq<Membership>, orgs: seq<Organization>)
    requires Distinct(orgs)
    ensures Distinct(GetOrganizations(userId, members, orgs))
  {
    var ids := MemberOrgIds(members, userId);
    FilterDistinct((o: Organization) => o.id in ids, orgs);
  }

  /**
   * `getActiveOrganization`: null without a member row; otherwise the first organisation whose
   * id is the first member row's `organizationId`, or null when there is none.
   */
  function GetActiveOrganization(userId: Id, members: seq<Membership>, orgs: seq<Organization>): (r: Option<Organization>)
    ensures (forall i :: 0 <= i < |members| ==> members[i].userId != userId) ==> r.None?
    ensures r.Some? ==> r.value in orgs
    ensures r.Some? ==> exists k :: && 0 <= k < |members| && members[k].userId == userId
                                    && (forall j :: 0 <= j < k ==> members[j].userId != userId)
                                    && r.value.id == members[k].organizationId
    ensures forall k :: (&& 0 <= k < |members| && members[k].userId == userId
                         && (forall j :: 0 <= j < k ==> members[j].userId != userId)
                         && (exists o :: o in orgs && o.id == members[k].organizationId))
                        ==> r.Some?
  {
    match FirstIndex((m: Membership) => m.userId == userId, members)
    case None => None
    case Some(k) =>
      var orgId := members[k].organizationId;
      FindFirst((o: Organization) => o.id == orgId, orgs)
  }

  /** A member row joined with its user (`include: { user: true }`). */
  datatype MemberWithUser = MemberWithUser(member: Membership, user: Option<User>)

  /** The organisation with its member rows (`include: { members: ... }`). */
  datatype OrganizationWithMembers = OrganizationWithMembers(organization: Organization, members: seq<MemberWithUser>)

  function JoinUsers(members: seq<Membership>, users: seq<User>): (r: seq<MemberWithUser>)
    ensures |r| == |members|
    ensures forall i :: 0 <= i < |r| ==> r[i].member == members[i] && r[i].user == UserById(users, members[i].userId)
  {
    if members == [] then []
    else [MemberWithUser(members[0], UserById(users, members[0].userId))] + JoinUsers(members[1..], users)
  }

  /**
   * `getOrganizationBySlug`: the first organisation with the slug, with its member rows in
   * table order each joined to its user; null when there is none or the query throws.
   */
  function GetOrganizationBySlug(slug: string, orgs: seq<Organization>, members: seq<Membership>, users: seq<User>, queryThrows: bool)
    : (r: Option<OrganizationWithMembers>)
    ensures queryThrows ==> r.None?
    ensures !queryThrows ==> (r.Some? <==> exists i :: 0 <= i < |orgs| && orgs[i].slug == slug)
    ensures r.Some? ==> exists k :: && 0 <= k < |orgs| && orgs[k] == r.value.organization && orgs[k].slug == slug
                                    && forall j :: 0 <= j < k ==> orgs[j].slug != slug
    ensures r.Some? ==> forall i :: 0 <= i < |r.value.members| ==>
              r.value.members[i].member in members && r.value.members[i].member.organizationId == r.value.organization.id
    ensures r.Some? ==> forall m :: (m in members && m.organizationId == r.value.organization.id) ==>
              (exists i :: 0 <= i < |r.value.members| && r.value.members[i].member == m)
    ensures r.Some? ==> forall i :: 0 <= i < |r.value.members| ==>
              r.value.members[i].user == UserById(users, r.value.members[i].member.userId)
  {
    if queryThrows then None
    else match FirstIndex((o: Organization) => o.slug == slug, orgs)
      case None => None
      case Some(k) =>
        var org := orgs[k];
        var rows := Filter((m: Membership) => m.organizationId == org.id, members);
        Some(OrganizationWithMembers(org, JoinUsers(rows, users)))
  }
}
