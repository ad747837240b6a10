/**
 * The user seeder: a super admin, an admin, five authors and ten members, then one credential
 * account per created user, all holding the hash of the one seed password.
 */
module SeedUsers {
  import opened Wrappers
  import opened Schema
  import opened Seqs
  import UserStats

  const SeedPassword := "asdffdsa"
  const UserCount := 17

  /** What faker supplies for one user: full name, email, avatar URL, a past date and a coin. */
  datatype FakePerson = FakePerson(fullName: string, email: string, avatar: string, pastDate: Time, coin: bool)

  /** The role of the `i`-th created user: super admin, admin, then 5 authors, then members. */
  function SeedRole(i: nat): Role {
    if i == 0 then SuperAdmin
    else if i == 1 then Admin
    else if i < 7 then Author
    else Member
  }

  /** The `i`-th user row, built from its fresh id, its faker draws and the clock. */
  function SeedUser(i: nat, id: Id, p: FakePerson, now: Time): (u: User)
    ensures u.id == id && u.role == SeedRole(i)
    ensures i == 0 ==> u.name == "Super Admin" && u.email == "superadmin@example.com"
    ensures i == 1 ==> u.name == "Admin User" && u.email == "admin@example.com"
    ensures i >= 2 ==> u.name == p.fullName && u.email == p.email
    ensures u.emailVerified <==> i < 7 || p.coin
    ensures u.image == Some(p.avatar) && u.createdAt == p.pastDate && u.updatedAt == now
  {
    var name := if i == 0 then "Super Admin" else if i == 1 then "Admin User" else p.fullName;
    var email := if i == 0 then "superadmin@example.com" else if i == 1 then "admin@example.com" else p.email;
    User(id, name, email, i < 7 || p.coin, Some(p.avatar), SeedRole(i), p.pastDate, now)
  }

  /** The credential account the seeder pairs with user `u`. */
  function SeedAccount(u: User, hashed: string, id: Id, now: Time): (a: Account)
    ensures a.accountId == u.id && a.userId == u.id && a.providerId == "credential"
    ensures a.password == Some(hashed) && a.createdAt == u.createdAt
  {
    Account(id, u.id, "credential", u.id, Some(hashed), u.createdAt, now)
  }

  /** The accounts for `users`, in the same order; `accountIds(i)` is the `i`-th fresh id. */
  function SeedAccounts(users: seq<User>, hashed: string, accountIds: nat -> Id, now: Time): (accts: seq<Account>)
    ensures |accts| == |users|
    ensures forall i :: 0 <= i < |users| ==> accts[i] == SeedAccount(users[i], hashed, accountIds(i), now)
  {
    seq(|users|, i requires 0 <= i < |users| => SeedAccount(users[i], hashed, accountIds(i), now))
  }

  /**
   * `seedUsers()`: `hash` is argon2, `userIds`/`accountIds` the fresh UUIDs, `people(i)` the
   * faker draws for the `i`-th user and `now` the clock.
   */
  method SeedUsers(db: Database, hash: string -> string, userIds: nat -> Id, accountIds: nat -> Id,
                   people: nat -> FakePerson, now: Time) returns (users: seq<User>)
    modifies db`users, db`accounts
    ensures |users| == UserCount
    ensures forall i :: 0 <= i < |users| ==> users[i] == SeedUser(i, userIds(i), people(i), now)
    ensures db.users == old(db.users) + users
    ensures db.accounts == old(db.accounts) + SeedAccounts(users, hash(SeedPassword), accountIds, now)
  {
    var hashed := hash(SeedPassword);
    users := [];
    for i := 0 to UserCount
      invariant |users| == i
      invariant forall k :: 0 <= k < i ==> users[k] == SeedUser(k, userIds(k), people(k), now)
      invariant db.users == old(db.users) + users
      invariant db.accounts == old(db.accounts)
    {
      var u := SeedUser(i, userIds(i), people(i), now);
      db.CreateUser(u);
      users := users + [u];
    }
    ghost var before := db.accounts;
    for i := 0 to |users|
      invariant db.accounts == before + SeedAccounts(users[..i], hashed, accountIds, now)
      invariant db.users == old(db.users) + users
    {
      db.CreateAccount(SeedAccount(users[i], hashed, accountIds(i), now));
      assert SeedAccounts(users[..i + 1], hashed, accountIds, now)
          == SeedAccounts(users[..i], hashed, accountIds, now) + [SeedAccount(users[i], hashed, accountIds(i), now)];
    }
    assert users[..|users|] == users;
  }

  /** How many of the first `n` seeded users hold `role`. */
  function PlannedRoleCount(n: nat, role: Role): nat {
    if n == 0 then 0 else PlannedRoleCount(n - 1, role) + (if SeedRole(n - 1) == role then 1 else 0)
  }

  /** The plan in closed form. */
  lemma {:induction false} PlannedRoleCounts(n: nat)
    ensures PlannedRoleCount(n, SuperAdmin) == (if n >= 1 then 1 else 0)
    ensures PlannedRoleCount(n, Admin) == (if n >= 2 then 1 else 0)
    ensures PlannedRoleCount(n, Author) == (if n >= 7 then 5 else if n >= 2 then n - 2 else 0)
    ensures PlannedRoleCount(n, Member) == (if n >= 7 then n - 7 else 0)
  {
    if n > 0 {
      PlannedRoleCounts(n - 1);
    }
  }

  lemma {:induction false} RoleCountFollowsPlan(users: seq<User>, n: nat, role: Role)
    requires n <= |users|
    requires forall i :: 0 <= i < |users| ==> users[i].role == SeedRole(i)
    ensures UserStats.CountRole(users[..n], role) == PlannedRoleCount(n, role)
  {
    if n == 0 {
      assert users[..0] == [];
    } else {
      RoleCountFollowsPlan(users, n - 1, role);
      UserStats.CountRoleStep(users, n - 1, role);
    }
  }

  /** The seeded roster: 17 users, of whom 1 super admin, 1 admin, 5 authors and 10 members. */
  lemma SeededRoleMix(users: seq<User>, userIds: nat -> Id, people: nat -> FakePerson, now: Time)
    requires |users| == UserCount
    requires forall i :: 0 <= i < |users| ==> users[i] == SeedUser(i, userIds(i), people(i), now)
    ensures UserStats.CountRole(users, SuperAdmin) == 1
    ensures UserStats.CountRole(users, Admin) == 1
    ensures UserStats.CountRole(users, Author) == 5
    ensures UserStats.CountRole(users, Member) == 10
  {
    assert users[..17] == users;
    assert forall i :: 0 <= i < |users| ==> users[i].role == SeedRole(i);
    PlannedRoleCounts(17);
    RoleCountFollowsPlan(users, 17, SuperAdmin);
    RoleCountFollowsPlan(users, 17, Admin);
    RoleCountFollowsPlan(users, 17, Author);
    RoleCountFollowsPlan(users, 17, Member);
  }

  /** The two fixed accounts and all five authors are email-verified; members follow their coin. */
  lemma SeededVerification(users: seq<User>, userIds: nat -> Id, people: nat -> FakePerson, now: Time)
    requires |users| == UserCount
    requires forall i :: 0 <= i < |users| ==> users[i] == SeedUser(i, userIds(i), people(i), now)
    ensures users[0].email == "superadmin@example.com" && users[0].emailVerified
    ensures users[1].email == "admin@example.com" && users[1].emailVerified
    ensures forall i :: 0 <= i < |users| && users[i].role == Author ==> users[i].emailVerified
  {
  }

  /**
   * With distinct user ids, every seeded user has exactly one credential account, the one at its
   * own position, and every account stores the same hash.
   */
  lemma OneAccountPerUser(users: seq<User>, hashed: string, accountIds: nat -> Id, now: Time)
    requires forall a, b :: 0 <= a < b < |users| ==> users[a].id != users[b].id
    ensures forall i, j :: 0 <= i < |users| && 0 <= j < |users| ==>
      (SeedAccounts(users, hashed, accountIds, now)[j].userId == users[i].id <==> i == j)
    ensures forall j :: 0 <= j < |users| ==>
      var a := SeedAccounts(users, hashed, accountIds, now)[j];
      a.accountId == a.userId && a.providerId == "credential" && a.password == Some(hashed)
  {
  }
}
