/**
 * Organisation membership mutations (src/server/members.ts): `addMember` wraps a foreign call
 * and turns any failure into one fixed error; `removeMember` deletes a member row by id.
 *
 * `removeMember` guards with `if (!admin)`, where `admin` is the record `isAdmin()` returns.
 * A record is an object and every object is truthy in JavaScript, so that guard never fires and
 * a non-admin caller removes members too. `RemoveMemberAsWritten` models the code as written;
 * `RemoveMember` is the evidently intended version, which tests the record's `success` field.
 */
module Members {
  import opened Wrappers
  import opened Schema
  import Permissions

  /** The JavaScript values a guard like `!x` may be applied to. */
  datatype JsValue = JsUndefined | JsNull | JsBool(b: bool) | JsNumber(n: int) | JsString(s: string) | JsObject

  /** JavaScript truthiness (NaN and -0 are not represented). */
  predicate Truthy(v: JsValue) {
    match v
    case JsUndefined => false
    case JsNull => false
    case JsBool(b) => b
    case JsNumber(n) => n != 0
    case JsString(s) => s != ""
    case JsObject => true
  }

  /** The value `await isAdmin()` evaluates to: an object literal on every path. */
  function AsJsValue(check: Permissions.AdminCheck): JsValue {
    JsObject
  }

  /** The record both membership operations return. */
  datatype ActionResult = ActionResult(success: bool, error: Option<string>)

  const NotAuthorizedToRemove := "You are not authorized to remove members."
  const FailedToRemove := "Failed to remove member."
  const FailedToAdd := "Failed to add member."

  /** `if (!admin)` as written: blocks only a falsy value. */
  predicate BlocksAsWritten(check: Permissions.AdminCheck) {
    !Truthy(AsJsValue(check))
  }

  /** The intended guard: block every caller the admin check did not pass. */
  predicate BlocksIntended(check: Permissions.AdminCheck) {
    !check.success
  }

  /** The guard as written lets every admin-check result through. */
  lemma GuardAsWrittenNeverBlocks(check: Permissions.AdminCheck)
    ensures !BlocksAsWritten(check)
  {
  }

  /** A concrete input that shows the discrepancy: a signed-in `member` fails the admin check yet passes the guard. */
  lemma NonAdminPassesWrittenGuard()
    ensures var users := [User("u1", "Mo", "mo@example.com", true, None, Member, 0, 0)];
            var check := Permissions.IsAdmin(Permissions.SignedIn("u1"), users, None);
            !check.success && !BlocksAsWritten(check) && BlocksIntended(check)
  {
    var users := [User("u1", "Mo", "mo@example.com", true, None, Member, 0, 0)];
    assert UserById(users, "u1") == Some(users[0]);
  }

  /**
   * `removeMember` as written: whatever the admin check returned, deletes the row with
   * `memberId`; the delete fails (no change) when no row has that id or the store throws.
   */
  method RemoveMemberAsWritten(db: Database, check: Permissions.AdminCheck, memberId: Id, deleteThrows: bool)
    returns (r: ActionResult)
    modifies db`members
    ensures r.success <==> !deleteThrows && HasMemberId(old(db.members), memberId)
    ensures r.success ==> r.error.None? && db.members == WithoutMember(old(db.members), memberId)
    ensures !r.success ==> r.error == Some(FailedToRemove) && db.members == old(db.members)
  {
    if BlocksAsWritten(check) {
      assert false;
      return ActionResult(false, Some(NotAuthorizedToRemove));
    }
    r := DeleteOrFail(db, memberId, deleteThrows);
  }

  /** `removeMember` with the guard on `success`: a caller the admin check refused changes nothing. */
  method RemoveMember(db: Database, check: Permissions.AdminCheck, memberId: Id, deleteThrows: bool)
    returns (r: ActionResult)
    modifies db`members
    ensures !check.success ==> r == ActionResult(false, Some(NotAuthorizedToRemove)) && db.members == old(db.members)
    ensures r.success <==> check.success && !deleteThrows && HasMemberId(old(db.members), memberId)
    ensures r.success ==> r.error.None? && db.members == WithoutMember(old(db.members), memberId)
    ensures check.success && !r.success ==> r.error == Some(FailedToRemove) && db.members == old(db.members)
  {
    if BlocksIntended(check) {
      return ActionResult(false, Some(NotAuthorizedToRemove));
    }
    r := DeleteOrFail(db, memberId, deleteThrows);
  }

  /** The `try { delete } catch { ... }` block shared by both versions. */
  method DeleteOrFail(db: Database, memberId: Id, deleteThrows: bool) returns (r: ActionResult)
    modifies db`members
    ensures r.success <==> !deleteThrows && HasMemberId(old(db.members), memberId)
    ensures r.success ==> r.error.None? && db.members == WithoutMember(old(db.members), memberId)
    ensures !r.success ==> r.error == Some(FailedToRemove) && db.members == old(db.members)
  {
    if deleteThrows {
      return ActionResult(false, Some(FailedToRemove));
    }
    var deleted := db.DeleteMember(memberId);
    if deleted {
      r := ActionResult(true, None);
    } else {
      r := ActionResult(false, Some(FailedToRemove));
    }
  }

  /** With unique member ids, a successful removal drops exactly the one row with `memberId`. */
  lemma RemovalDropsOneRow(members: seq<Membership>, memberId: Id)
    requires UniqueMemberIds(members) && HasMemberId(members, memberId)
    ensures |WithoutMember(members, memberId)| == |members| - 1
    ensures forall m :: m in members && m.id != memberId ==> m in WithoutMember(members, memberId)
  {
    var k :| 0 <= k < |members| && members[k].id == memberId;
    UniqueIdsOneRow(members, k);
    WithoutPresentMember(members, memberId, k);
    forall m | m in members && m.id != memberId ensures m in WithoutMember(members, memberId) {
      var i :| 0 <= i < |members| && members[i] == m;
    }
  }

  /**
   * `addMember`: `addFailure` is the outcome of `auth.api.addMember` (None when it returned);
   * any failure is rethrown as the one fixed error.
   */
  function AddMember(addFailure: Option<string>): (r: Result<(), string>)
    ensures r.Ok? <==> addFailure.None?
    ensures r.Err? ==> r.error == FailedToAdd
  {
    if addFailure.Some? then Err(FailedToAdd) else Ok(())
  }
}
