/**
 * The global admin check `isAdmin` (src/server/permissions.ts): resolve the session, look up
 * the session user's role, and allow exactly the `admin` and `superAdmin` roles. The function
 * only reads; every path, including a thrown error, yields a result record.
 */
module Permissions {
  import opened Wrappers
  import opened Schema

  /** What `auth.api.getSession` produced: no session, a session for a user, or a thrown error. */
  datatype SessionLookup = NoSession | SignedIn(userId: Id) | SessionThrew(thrown: string)

  /** The record `isAdmin` returns; `error == None` is the source's `error: null`. */
  datatype AdminCheck = AdminCheck(success: bool, error: Option<string>)

  const NotAuthenticated := "Not authenticated"
  const UserNotFound := "User not found"
  const InsufficientPermissions := "Insufficient permissions"
  const CheckFailed := "Failed to check permissions"

  predicate IsAdminRole(role: Role) {
    role == Admin || role == SuperAdmin
  }

  /** `error || "Failed to check permissions"`: an empty thrown message is falsy. */
  function ThrownError(thrown: string): (e: string)
    ensures e != ""
    ensures thrown != "" ==> e == thrown
  {
    if thrown == "" then CheckFailed else thrown
  }

  /**
   * `isAdmin()`. `lookupThrew` is the error, if any, thrown while importing the database
   * handle or running the user lookup.
   */
  function IsAdmin(session: SessionLookup, users: seq<User>, lookupThrew: Option<string>): (r: AdminCheck)
    ensures r.success <==> session.SignedIn? && lookupThrew.None?
                           && UserById(users, session.userId).Some?
                           && IsAdminRole(UserById(users, session.userId).value.role)
    ensures r.error.None? <==> r.success
    ensures r.error.Some? ==> r.error.value != ""
    ensures session.NoSession? ==> r.error == Some(NotAuthenticated)
    ensures session.SessionThrew? ==> r.error == Some(ThrownError(session.thrown))
    ensures session.SignedIn? && lookupThrew.Some? ==> r.error == Some(ThrownError(lookupThrew.value))
    ensures session.SignedIn? && lookupThrew.None? && UserById(users, session.userId).None?
            ==> r.error == Some(UserNotFound)
    ensures (session.SignedIn? && lookupThrew.None? && UserById(users, session.userId).Some? && !r.success)
            ==> r.error == Some(InsufficientPermissions)
  {
    match session
    case SessionThrew(thrown) => AdminCheck(false, Some(ThrownError(thrown)))
    case NoSession => AdminCheck(false, Some(NotAuthenticated))
    case SignedIn(id) =>
      if lookupThrew.Some? then AdminCheck(false, Some(ThrownError(lookupThrew.value)))
      else match UserById(users, id)
        case None => AdminCheck(false, Some(UserNotFound))
        case Some(user) =>
          var isAdminUser := user.role == Admin || user.role == SuperAdmin;
          AdminCheck(isAdminUser, if isAdminUser then None else Some(InsufficientPermissions))
  }

  /** Whatever the session and the user table hold, a `member` or `author` caller is refused. */
  lemma NonAdminRolesRefused(id: Id, users: seq<User>, user: User)
    requires UniqueUserIds(users)
    requires user in users && user.id == id
    requires user.role == Member || user.role == Author
    ensures IsAdmin(SignedIn(id), users, None) == AdminCheck(false, Some(InsufficientPermissions))
  {
    UniqueIdLookup(users, user);
  }

  /** With unique user ids, a signed-in caller passes exactly when their own row has an admin role. */
  lemma AdminIffRole(id: Id, users: seq<User>)
    requires UniqueUserIds(users)
    ensures IsAdmin(SignedIn(id), users, None).success
            <==> exists u :: u in users && u.id == id && IsAdminRole(u.role)
  {
    if u :| u in users && u.id == id && IsAdminRole(u.role) {
      UniqueIdLookup(users, u);
    }
  }

  /** Under unique ids, the lookup by a row's id finds that very row. */
  lemma {:induction false} UniqueIdLookup(users: seq<User>, user: User)
    requires UniqueUserIds(users)
    requires user in users
    ensures UserById(users, user.id) == Some(user)
  {
    if users[0] != user {
      assert user in users[1..];
      var k :| 0 <= k < |users[1..]| && users[1..][k] == user;
      assert users[0].id != users[k + 1].id;
      assert UniqueUserIds(users[1..]);
      UniqueIdLookup(users[1..], user);
    }
  }
}
