/**
 * The admin statistics cards (src/components/admin/user-stats.tsx): totals, verified and
 * unverified counts, and the per-role counts accumulated into a map and shown with a 0 default.
 */
module UserStats {
  import opened Schema
  import opened Seqs

  /** Number of users holding `role`. */
  function CountRole(users: seq<User>, role: Role): nat {
    |Filter((u: User) => u.role == role, users)|
  }

  predicate IsVerified(u: User) { u.emailVerified }

  predicate IsUnverified(u: User) { !u.emailVerified }

  function CountVerified(users: seq<User>): nat {
    |Filter(IsVerified, users)|
  }

  /** The three headline numbers. */
  datatype Totals = Totals(totalUsers: nat, verifiedUsers: nat, unverifiedUsers: int)

  /** `totalUsers`, `verifiedUsers` and `unverifiedUsers = totalUsers - verifiedUsers`. */
  function ComputeTotals(users: seq<User>): (t: Totals)
    ensures t.totalUsers == |users|
    ensures t.verifiedUsers == CountVerified(users)
    ensures t.unverifiedUsers == |Filter(IsUnverified, users)|
    ensures 0 <= t.unverifiedUsers <= t.totalUsers
  {
    FilterSplits(IsVerified, IsUnverified, users);
    Totals(|users|, CountVerified(users), |users| - CountVerified(users))
  }

  /** Every element is kept by exactly one of `p` and its negation `q`. */
  lemma {:induction false} FilterSplits<T>(p: T -> bool, q: T -> bool, s: seq<T>)
    requires forall i :: 0 <= i < |s| ==> q(s[i]) == !p(s[i])
    ensures |Filter(p, s)| + |Filter(q, s)| == |s|
  {
    if s != [] {
      FilterSplits(p, q, s[1..]);
    }
  }

  /** Appending one user raises that user's role count by one and no other. */
  lemma CountRoleStep(users: seq<User>, i: nat, role: Role)
    requires i < |users|
    ensures CountRole(users[..i + 1], role) == CountRole(users[..i], role) + (if users[i].role == role then 1 else 0)
  {
    assert users[..i + 1] == users[..i] + [users[i]];
    FilterAppend((u: User) => u.role == role, users[..i], [users[i]]);
  }

  /** `counts` holds, for each role some user has, the number of users with it, and no other key. */
  predicate Tallies(counts: map<Role, nat>, users: seq<User>) {
    forall role :: (role in counts <==> CountRole(users, role) > 0)
                   && (role in counts ==> counts[role] == CountRole(users, role))
  }

  /** One step of the `reduce`: `acc[user.role] = (acc[user.role] || 0) + 1`. */
  function Bump(counts: map<Role, nat>, role: Role): map<Role, nat> {
    counts[role := (if role in counts then counts[role] else 0) + 1]
  }

  /** Each step of the `reduce` keeps the tally exact for the users seen so far. */
  lemma TallyStep(counts: map<Role, nat>, users: seq<User>, i: nat)
    requires i < |users| && Tallies(counts, users[..i])
    ensures Tallies(Bump(counts, users[i].role), users[..i + 1])
  {
    forall r ensures CountRole(users[..i + 1], r) == CountRole(users[..i], r) + (if users[i].role == r then 1 else 0) {
      CountRoleStep(users, i, r);
    }
  }

  /** The `reduce` that builds `roleCounts`: a role is a key exactly when some user holds it. */
  method RoleCounts(users: seq<User>) returns (counts: map<Role, nat>)
    ensures forall role :: role in counts <==> CountRole(users, role) > 0
    ensures forall role :: role in counts ==> counts[role] == CountRole(users, role)
  {
    counts := map[];
    var i := 0;
    while i < |users|
      invariant 0 <= i <= |users|
      invariant Tallies(counts, users[..i])
    {
      TallyStep(counts, users, i);
      counts := Bump(counts, users[i].role);
      i := i + 1;
    }
    assert users[..|users|] == users;
  }

  /** `roleCounts.x || 0`. */
  function Displayed(counts: map<Role, nat>, role: Role): nat {
    if role in counts then counts[role] else 0
  }

  datatype RoleStat = RoleStat(role: string, count: nat)

  /** `roleStats`, in display order. */
  function RoleStats(counts: map<Role, nat>): (stats: seq<RoleStat>)
    ensures |stats| == 4
    ensures stats[0] == RoleStat("Super Admin", Displayed(counts, SuperAdmin))
    ensures stats[1] == RoleStat("Admin", Displayed(counts, Admin))
    ensures stats[2] == RoleStat("Author", Displayed(counts, Author))
    ensures stats[3] == RoleStat("Member", Displayed(counts, Member))
  {
    [ RoleStat("Super Admin", Displayed(counts, SuperAdmin)),
      RoleStat("Admin", Displayed(counts, Admin)),
      RoleStat("Author", Displayed(counts, Author)),
      RoleStat("Member", Displayed(counts, Member)) ]
  }

  /** The four role counts partition the users. */
  lemma {:induction false} RoleCountsPartition(users: seq<User>)
    ensures CountRole(users, SuperAdmin) + CountRole(users, Admin) + CountRole(users, Author) + CountRole(users, Member) == |users|
  {
    if users != [] {
      RoleCountsPartition(users[1..]);
    }
  }

  /** With the map `RoleCounts` builds, the displayed counts are the true counts and sum to the total. */
  lemma DisplayedCountsSumToTotal(users: seq<User>, counts: map<Role, nat>)
    requires forall role :: role in counts <==> CountRole(users, role) > 0
    requires forall role :: role in counts ==> counts[role] == CountRole(users, role)
    ensures forall role :: Displayed(counts, role) == CountRole(users, role)
    ensures var stats := RoleStats(counts);
            stats[0].count + stats[1].count + stats[2].count + stats[3].count == |users|
  {
    RoleCountsPartition(users);
  }
}
