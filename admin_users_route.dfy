/**
 * `POST /api/admin/users` (src/app/api/admin/users/route.ts): the admin gate, then schema
 * validation of the JSON body, then the e-mail uniqueness check, then two writes: the user row
 * and after it the credential account holding the password hash. The writes are not atomic.
 */
module AdminUsersRoute {
  import opened Wrappers
  import opened Schema
  import Permissions
  import opened Text

  /** A value found under one key of the JSON body. */
  datatype Field = Absent | Str(s: string) | Bool(b: bool) | OtherJson

  /**
   * The parsed JSON body: an object, reduced to the keys the schema reads, or a JSON value of
   * another type (`null`, an array, a string, a number or a boolean), named as zod names it.
   */
  datatype RequestBody =
    | RequestBody(name: Field, email: Field, password: Field, role: Field, emailVerified: Field)
    | NonObject(received: string)

  /** One entry of the validation error's `issues`. */
  datatype Issue = Issue(path: string, message: string)

  /** The data `createUserSchema.parse` returns. */
  datatype CreateInput = CreateInput(name: string, email: string, password: string, role: Role, emailVerified: bool)

  /** The user projection sent back; it has no password field. */
  datatype UserView = UserView(
    id: Id, name: string, email: string, role: Role, emailVerified: bool, createdAt: Time, updatedAt: Time)

  datatype Body =
    | ErrorBody(error: string)
    | InvalidBody(error: string, details: seq<Issue>)
    | CreatedBody(success: bool, user: UserView)

  datatype Response = Response(status: nat, body: Body)

  /**
   * Outcomes of the foreign calls the handler makes: whether `getCurrentUser` throws, the
   * session and user-lookup outcomes seen by `isAdmin`, whether the e-mail lookup, the hash or
   * either create throws, the two `randomUUID` values and the clock.
   */
  datatype Env = Env(
    currentUserThrows: bool,
    session: Permissions.SessionLookup, roleLookupThrew: Option<string>,
    emailLookupThrows: bool, hashThrows: bool, userCreateThrows: bool, accountCreateThrows: bool,
    userId: Id, accountId: Id, now: Time)

  const Unauthorized := "Unauthorized"
  const InvalidInputData := "Invalid input data"
  const EmailAlreadyExists := "Email already exists"
  const InternalServerError := "Internal server error"
  const CredentialProvider := "credential"

  /** The literal names of the role enum. */
  function RoleName(r: Role): string {
    match r
    case Member => "member"
    case Author => "author"
    case Admin => "admin"
    case SuperAdmin => "superAdmin"
  }

  /** `z.enum(["member", "author", "admin", "superAdmin"])` on a string. */
  function ParseRole(s: string): (r: Option<Role>)
    ensures r.Some? ==> RoleName(r.value) == s
    ensures (exists role :: RoleName(role) == s) ==> r.Some?
  {
    if s == "member" then Some(Member)
    else if s == "author" then Some(Author)
    else if s == "admin" then Some(Admin)
    else if s == "superAdmin" then Some(SuperAdmin)
    else None
  }

  /** Parsing a role name gives the role back. */
  lemma ParseRoleName(r: Role)
    ensures ParseRole(RoleName(r)) == Some(r)
  {
  }

  /** Issues of a `z.string().min(n, message)` field; zod compares `length`, in UTF-16 code units. */
  function MinLengthIssues(path: string, f: Field, n: nat, message: string): (r: seq<Issue>)
    ensures |r| <= 1 && (r == [] <==> f.Str? && Utf16Length(f.s) >= n)
  {
    match f
    case Absent => [Issue(path, "Required")]
    case Str(s) => if Utf16Length(s) < n then [Issue(path, message)] else []
    case _ => [Issue(path, "Expected string")]
  }

  function EmailIssues(f: Field, validEmail: string -> bool): (r: seq<Issue>)
    ensures |r| <= 1 && (r == [] <==> f.Str? && validEmail(f.s))
  {
    match f
    case Absent => [Issue("email", "Required")]
    case Str(s) => if validEmail(s) then [] else [Issue("email", "Invalid email address")]
    case _ => [Issue("email", "Expected string")]
  }

  function RoleIssues(f: Field): (r: seq<Issue>)
    ensures |r| <= 1 && (|r| == 0 <==> f.Str? && ParseRole(f.s).Some?)
  {
    match f
    case Absent => [Issue("role", "Required")]
    case Str(s) => if ParseRole(s).Some? then [] else [Issue("role", RoleMessage + ", received '" + s + "'")]
    case _ => [Issue("role", "Expected " + RoleOptions)]
  }

  const RoleOptions := "'member' | 'author' | 'admin' | 'superAdmin'"
  const RoleMessage := "Invalid enum value. Expected " + RoleOptions

  function VerifiedIssues(f: Field): (r: seq<Issue>)
    ensures |r| <= 1 && (r == [] <==> f.Absent? || f.Bool?)
  {
    match f
    case Absent => []
    case Bool(_) => []
    case _ => [Issue("emailVerified", "Expected boolean")]
  }

  /** The single root issue `z.object` reports for a body that is not an object. */
  function NonObjectIssue(received: string): Issue {
    Issue("", "Expected object, received " + received)
  }

  /** Every issue of `createUserSchema`, in the order of the schema's keys. */
  function Issues(body: RequestBody, validEmail: string -> bool): seq<Issue> {
    match body
    case NonObject(received) => [NonObjectIssue(received)]
    case RequestBody(name, email, password, role, emailVerified) =>
      MinLengthIssues("name", name, 2, "Name must be at least 2 characters")
      + EmailIssues(email, validEmail)
      + MinLengthIssues("password", password, 8, "Password must be at least 8 characters")
      + RoleIssues(role)
      + VerifiedIssues(emailVerified)
  }

  /** The body's data meets every rule of `createUserSchema`. */
  predicate AcceptedBody(body: RequestBody, validEmail: string -> bool) {
    && body.RequestBody?
    && body.name.Str? && Utf16Length(body.name.s) >= 2
    && body.email.Str? && validEmail(body.email.s)
    && body.password.Str? && Utf16Length(body.password.s) >= 8
    && body.role.Str? && ParseRole(body.role.s).Some?
    && (body.emailVerified.Absent? || body.emailVerified.Bool?)
  }

  /** `createUserSchema.parse(body)`: the parsed input, or every issue found. */
  function Validate(body: RequestBody, validEmail: string -> bool): (r: Result<CreateInput, seq<Issue>>)
    ensures r.Ok? <==> AcceptedBody(body, validEmail)
    ensures r.Err? ==> |r.error| > 0
    ensures body.NonObject? ==> r == Err([NonObjectIssue(body.received)])
    ensures r.Ok? ==> && r.value.name == body.name.s && r.value.email == body.email.s
                      && r.value.password == body.password.s && RoleName(r.value.role) == body.role.s
                      && r.value.emailVerified == (body.emailVerified.Bool? && body.emailVerified.b)
  {
    var issues := Issues(body, validEmail);
    IssuesEmptyIffAccepted(body, validEmail);
    if issues != [] then Err(issues)
    else
      var verified := match body.emailVerified case Bool(b) => b case _ => false;
      Ok(CreateInput(body.name.s, body.email.s, body.password.s, ParseRole(body.role.s).value, verified))
  }

  /** The schema reports no issue exactly when the body meets every rule. */
  lemma IssuesEmptyIffAccepted(body: RequestBody, validEmail: string -> bool)
    ensures Issues(body, validEmail) == [] <==> AcceptedBody(body, validEmail)
  {
    if body.RequestBody? {
      var a := MinLengthIssues("name", body.name, 2, "Name must be at least 2 characters");
      var b := EmailIssues(body.email, validEmail);
      var c := MinLengthIssues("password", body.password, 8, "Password must be at least 8 characters");
      var d := RoleIssues(body.role);
      var e := VerifiedIssues(body.emailVerified);
      assert |Issues(body, validEmail)| == |a| + |b| + |c| + |d| + |e|;
    }
  }

  /** `emailVerified` left out of the body is stored as false. */
  lemma VerifiedDefaultsFalse(body: RequestBody, validEmail: string -> bool)
    requires body.RequestBody? && body.emailVerified.Absent?
    requires Validate(body, validEmail).Ok?
    ensures !Validate(body, validEmail).value.emailVerified
  {
  }

  /** A password shorter than 8 UTF-16 code units is always refused, whatever else the body holds. */
  lemma ShortPasswordRefused(body: RequestBody, validEmail: string -> bool)
    requires body.RequestBody? && body.password.Str? && Utf16Length(body.password.s) < 8
    ensures Validate(body, validEmail).Err?
    ensures Issue("password", "Password must be at least 8 characters") in Validate(body, validEmail).error
  {
  }

  /** Four characters above U+FFFF are eight code units: the password passes `min(8)`. */
  lemma AstralPasswordAccepted()
    ensures var pw := "\U{1F600}\U{1F600}\U{1F600}\U{1F600}";
            |pw| == 4 && MinLengthIssues("password", Str(pw), 8, "Password must be at least 8 characters") == []
  {
    var pw := "\U{1F600}\U{1F600}\U{1F600}\U{1F600}";
    assert pw[1..][1..][1..][1..] == [];
  }

  predicate EmailTaken(users: seq<User>, email: string) {
    exists i | 0 <= i < |users| :: users[i].email == email
  }

  /** Where the handler stands once every check before the first write is done. */
  datatype Gate =
    | Fault            // a foreign call threw: 500
    | Forbidden        // the admin check failed: 403
    | Invalid(issues: seq<Issue>)   // 400 with the validation issues
    | Duplicate        // the e-mail is already used: 400
    | Admitted(input: CreateInput)

  /** The checks before any write, in the handler's order; `body == None` is an unparsable request body. */
  function Screen(users: seq<User>, env: Env, body: Option<RequestBody>, validEmail: string -> bool): (g: Gate)
    ensures g.Forbidden? <==> !env.currentUserThrows && !Permissions.IsAdmin(env.session, users, env.roleLookupThrew).success
    ensures g.Invalid? <==> && !env.currentUserThrows && Permissions.IsAdmin(env.session, users, env.roleLookupThrew).success
                            && body.Some? && !AcceptedBody(body.value, validEmail)
    ensures g.Invalid? ==> Validate(body.value, validEmail) == Err(g.issues) && g.issues != []
    ensures g.Invalid? && body.value.NonObject? ==> g.issues == [NonObjectIssue(body.value.received)]
    ensures g.Duplicate? <==> && !env.currentUserThrows && Permissions.IsAdmin(env.session, users, env.roleLookupThrew).success
                              && body.Some? && AcceptedBody(body.value, validEmail)
                              && !env.emailLookupThrows && EmailTaken(users, body.value.email.s)
    ensures g.Fault? <==> || env.currentUserThrows
                          || (Permissions.IsAdmin(env.session, users, env.roleLookupThrew).success
                              && (body.None? || (AcceptedBody(body.value, validEmail) && env.emailLookupThrows)))
    ensures g.Admitted? <==> && !env.currentUserThrows && Permissions.IsAdmin(env.session, users, env.roleLookupThrew).success
                             && body.Some? && AcceptedBody(body.value, validEmail)
                             && !env.emailLookupThrows && !EmailTaken(users, body.value.email.s)
    ensures g.Admitted? ==> Validate(body.value, validEmail) == Ok(g.input)
  {
    if env.currentUserThrows then Fault
    else if !Permissions.IsAdmin(env.session, users, env.roleLookupThrew).success then Forbidden
    else if body.None? then Fault
    else match Validate(body.value, validEmail)
      case Err(issues) => Invalid(issues)
      case Ok(input) =>
        if env.emailLookupThrows then Fault
        else if EmailTaken(users, input.email) then Duplicate
        else Admitted(input)
  }

  /** The admin gate runs before the body is read: a refused caller is refused whatever the body. */
  lemma ForbiddenWhateverTheBody(users: seq<User>, env: Env, b1: Option<RequestBody>, b2: Option<RequestBody>, validEmail: string -> bool)
    requires Screen(users, env, b1, validEmail).Forbidden?
    ensures Screen(users, env, b2, validEmail).Forbidden?
  {
  }

  /** A caller whose own role is `member` or `author` never gets past the gate. */
  lemma NonAdminCallerForbidden(users: seq<User>, env: Env, body: Option<RequestBody>, validEmail: string -> bool, caller: User)
    requires UniqueUserIds(users) && caller in users
    requires env.session == Permissions.SignedIn(caller.id) && env.roleLookupThrew.None? && !env.currentUserThrows
    requires caller.role == Member || caller.role == Author
    ensures Screen(users, env, body, validEmail) == Forbidden
  {
    Permissions.NonAdminRolesRefused(caller.id, users, caller);
  }

  /** The response for a request stopped before any write. */
  function Refusal(g: Gate): (r: Response)
    requires !g.Admitted?
    ensures g.Forbidden? <==> r.status == 403
    ensures r.status == 400 <==> g.Invalid? || g.Duplicate?
    ensures r.status == 500 <==> g.Fault?
    ensures g.Forbidden? ==> r.body == ErrorBody("Unauthorized")
    ensures g.Invalid? ==> r.body == InvalidBody("Invalid input data", g.issues)
    ensures g.Duplicate? ==> r.body == ErrorBody("Email already exists")
    ensures g.Fault? ==> r.body == ErrorBody("Internal server error")
  {
    match g
    case Fault => Response(500, ErrorBody(InternalServerError))
    case Forbidden => Response(403, ErrorBody(Unauthorized))
    case Invalid(issues) => Response(400, InvalidBody(InvalidInputData, issues))
    case Duplicate => Response(400, ErrorBody(EmailAlreadyExists))
  }

  /** The user row the handler creates. */
  function NewUser(input: CreateInput, env: Env): User {
    User(env.userId, input.name, input.email, input.emailVerified, None, input.role, env.now, env.now)
  }

  /** The credential account row paired with `user`. */
  function CredentialAccount(user: User, hashed: string, env: Env): Account {
    Account(env.accountId, user.id, CredentialProvider, user.id, Some(hashed), env.now, env.now)
  }

  /** The projection returned on success. */
  function View(u: User): (v: UserView)
    ensures v.id == u.id && v.name == u.name && v.email == u.email && v.role == u.role
    ensures v.emailVerified == u.emailVerified && v.createdAt == u.createdAt && v.updatedAt == u.updatedAt
  {
    UserView(u.id, u.name, u.email, u.role, u.emailVerified, u.createdAt, u.updatedAt)
  }

  /** `POST`: only the user and account tables can change. */
  method Post(db: Database, env: Env, body: Option<RequestBody>, validEmail: string -> bool, hash: string -> string)
    returns (resp: Response)
    modifies db`users, db`accounts
    ensures var g := Screen(old(db.users), env, body, validEmail);
      && (!g.Admitted? ==> db.users == old(db.users) && db.accounts == old(db.accounts) && resp == Refusal(g))
      && (g.Admitted? && (env.hashThrows || env.userCreateThrows) ==>
            db.users == old(db.users) && db.accounts == old(db.accounts)
            && resp == Response(500, ErrorBody(InternalServerError)))
      && (g.Admitted? && !env.hashThrows && !env.userCreateThrows && env.accountCreateThrows ==>
            db.users == old(db.users) + [NewUser(g.input, env)] && db.accounts == old(db.accounts)
            && resp == Response(500, ErrorBody(InternalServerError)))
      && (g.Admitted? && !env.hashThrows && !env.userCreateThrows && !env.accountCreateThrows ==>
            && db.users == old(db.users) + [NewUser(g.input, env)]
            && db.accounts == old(db.accounts) + [CredentialAccount(NewUser(g.input, env), hash(g.input.password), env)]
            && resp == Response(200, CreatedBody(true, View(NewUser(g.input, env)))))
  {
    var g := Screen(db.users, env, body, validEmail);
    if !g.Admitted? {
      return Refusal(g);
    }
    var input := g.input;
    if env.hashThrows {
      return Response(500, ErrorBody(InternalServerError));
    }
    var hashedPassword := hash(input.password);
    if env.userCreateThrows {
      return Response(500, ErrorBody(InternalServerError));
    }
    var user := NewUser(input, env);
    db.CreateUser(user);
    if env.accountCreateThrows {
      return Response(500, ErrorBody(InternalServerError));
    }
    db.CreateAccount(CredentialAccount(user, hashedPassword, env));
    resp := Response(200, CreatedBody(true, View(user)));
  }

  /** On success the e-mail is new, the new rows are paired by id, and the stored secret is the hash. */
  lemma CreatedRowsArePaired(input: CreateInput, env: Env, hash: string -> string)
    ensures var u := NewUser(input, env);
            var a := CredentialAccount(u, hash(input.password), env);
            && a.userId == u.id && a.accountId == u.id && a.providerId == "credential"
            && a.password == Some(hash(input.password))
            && u.name == input.name && u.email == input.email && u.role == input.role
            && u.emailVerified == input.emailVerified
  {
  }
}
