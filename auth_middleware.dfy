/**
  The authentication middleware and the gates that run after it:
  bearer-header parsing, the verifier's answer, find-or-create of the user
  record, the deactivation check, error classification, and the role and
  permission gates.
 */
module AuthMiddleware {
  import opened Outcomes
  import opened Text
  import opened UserModel
  import opened Store

  const BearerPrefix := "Bearer "

  /** The token of an `Authorization` header: what follows "Bearer ", when the header starts with it. */
  function BearerToken(header: Option<string>): (token: Option<string>)
    ensures token.Some? <==> header.Some? && |header.value| >= 7 && header.value[..7] == BearerPrefix
    ensures token.Some? ==> header.value == BearerPrefix + token.value
  {
    if header.Some? && |header.value| >= |BearerPrefix| && header.value[..|BearerPrefix|] == BearerPrefix
    then Some(header.value[|BearerPrefix|..])
    else None
  }

  /** The claims of a verified ID token. */
  datatype Claims = Claims(uid: string, email: Option<string>, name: Option<string>)

  /** What the identity provider answers for a token: its claims, or the error code it throws. */
  datatype Verification = Verified(claims: Claims) | VerifyFailed(code: string)

  /** The catch block: two verifier codes have their own message, everything else is an invalid token. */
  function ClassifyFailure(code: string): (e: AuthError)
    ensures e == TokenExpired <==> code == "auth/id-token-expired"
    ensures e == TokenRevoked <==> code == "auth/id-token-revoked"
    ensures e == TokenExpired || e == TokenRevoked || e == InvalidToken
  {
    if code == "auth/id-token-expired" then TokenExpired
    else if code == "auth/id-token-revoked" then TokenRevoked
    else InvalidToken
  }

  /** `name || email.split('@')[0]`; None when both are missing (the split throws). */
  function DisplayNameFor(c: Claims): (r: Option<string>)
    ensures Truthy(c.name) ==> r == c.name
    ensures !Truthy(c.name) ==> (r.Some? <==> c.email.Some?)
    ensures !Truthy(c.name) && r.Some? ==>
      '@' !in r.value && |r.value| <= |c.email.value| && c.email.value[..|r.value|] == r.value
  {
    if Truthy(c.name) then c.name
    else if c.email.Some? then Some(Before(c.email.value, '@'))
    else None
  }

  /** The record created for an unseen uid, or None when creating it throws: no name and no email,
      a record failing validation, or an email already stored (the unique index). */
  function Provision(users: seq<User>, c: Claims, now: int): (r: Option<User>)
    ensures r.Some? ==> r.value.firebaseUid == c.uid && r.value.role == UserRole && r.value.isActive
    ensures r.Some? ==> DisplayNameFor(c).Some? && r.value.displayName == Trim(DisplayNameFor(c).value)
    ensures r.Some? ==> !EmailTaken(users, r.value.email)
  {
    match DisplayNameFor(c)
    case None => None
    case Some(name) =>
      if c.email.None? then None
      else match NewUser(c.uid, c.email.value, name, now)
        case None => None
        case Some(u) => if EmailTaken(users, u.email) then None else Some(u)
  }

  /** The outcome of `authenticateUser`: the user bound to `req.user`, or the response sent instead. */
  datatype AuthResult = Admitted(user: User) | Refused(response: Response)

  /** `a` and `b` are the same record except, perhaps, for the login time. */
  predicate SameButLogin(a: User, b: User) {
    a.(lastLogin := b.lastLogin) == b
  }

  /** A known uid: only that record's login time is written, then the deactivation check. */
  function ReturningLogin(users: seq<User>, i: nat, now: int): (r: (seq<User>, AuthResult))
    requires i < |users|
    requires forall k :: 0 <= k < i ==> users[k].firebaseUid != users[i].firebaseUid
    ensures r.0 == users[i := WithLastLogin(users[i], now)]
    ensures r.1 == if users[i].isActive then Admitted(r.0[i]) else Refused(Forbidden(Deactivated))
    ensures UserIndex(r.0, users[i].firebaseUid) == Some(i)
    ensures UsersValid(users) ==> UsersValid(r.0)
  {
    var users' := users[i := WithLastLogin(users[i], now)];
    FirstUserIndex(users', i);
    if !users[i].isActive then (users', Refused(Forbidden(Deactivated))) else (users', Admitted(users'[i]))
  }

  /** An unseen uid: one record is appended, or the creation throws and the request gets 401. */
  function FirstLogin(users: seq<User>, c: Claims, now: int): (r: (seq<User>, AuthResult))
    requires UserIndex(users, c.uid).None?
    ensures Provision(users, c, now).None? ==> r == (users, Refused(Unauthorized(InvalidToken)))
    ensures Provision(users, c, now).Some? ==>
      && r.0 == users + [Provision(users, c, now).value]
      && r.1 == Admitted(r.0[|users|])
      && UserIndex(r.0, c.uid) == Some(|users|)
    ensures UsersValid(users) ==> UsersValid(r.0)
  {
    match Provision(users, c, now)
    case None => (users, Refused(Unauthorized(InvalidToken)))
    case Some(u) =>
      var users' := users + [u];
      FirstUserIndex(users', |users|);
      assert UsersValid(users) ==> UsersValid(users') by {
        if UsersValid(users) { AppendUserKeepsValid(users, u); }
      }
      (users', Admitted(u))
  }

  /** `authenticateUser` over the users table: the new table and the outcome. */
  function Authentication(users: seq<User>, header: Option<string>, verify: string -> Verification, now: int)
    : (r: (seq<User>, AuthResult))
    // A missing or malformed header: 401 before the verifier or the store is consulted.
    ensures BearerToken(header).None? ==> r == (users, Refused(Unauthorized(MissingToken)))
    // A rejected token: 401 with the classified reason, nothing stored.
    ensures BearerToken(header).Some? && verify(BearerToken(header).value).VerifyFailed? ==>
      r == (users, Refused(Unauthorized(ClassifyFailure(verify(BearerToken(header).value).code))))
    // Every refusal is a 401 or the deactivation 403.
    ensures r.1.Refused? ==> r.1.response.Unauthorized? || r.1.response == Forbidden(Deactivated)
    // An admitted user is active and is the stored record for its uid.
    ensures r.1.Admitted? ==>
      && r.1.user.isActive
      && UserIndex(r.0, r.1.user.firebaseUid).Some?
      && r.0[UserIndex(r.0, r.1.user.firebaseUid).value] == r.1.user
    // An admitted user is the one the verified token names.
    ensures r.1.Admitted? ==>
      && BearerToken(header).Some? && verify(BearerToken(header).value).Verified?
      && r.1.user.firebaseUid == verify(BearerToken(header).value).claims.uid
    // Existing records change at most in their login time; at most one record is added, at the end.
    ensures |r.0| == |users| || |r.0| == |users| + 1
    ensures forall i :: 0 <= i < |users| ==> SameButLogin(users[i], r.0[i])
    ensures UsersValid(users) ==> UsersValid(r.0)
  {
    match BearerToken(header)
    case None => (users, Refused(Unauthorized(MissingToken)))
    case Some(token) =>
      match verify(token)
      case VerifyFailed(code) => (users, Refused(Unauthorized(ClassifyFailure(code))))
      case Verified(c) => Login(users, c, now)
  }

  /** A verified token: the stored record for its uid, or one created on first login. */
  function Login(users: seq<User>, c: Claims, now: int): (r: (seq<User>, AuthResult))
    // A stored uid: only its record's login time is written, and it gets in exactly when active.
    ensures UserIndex(users, c.uid).Some? ==>
      var i := UserIndex(users, c.uid).value;
      && r.0 == users[i := WithLastLogin(users[i], now)]
      && r.1 == if users[i].isActive then Admitted(WithLastLogin(users[i], now)) else Refused(Forbidden(Deactivated))
    // An unseen uid goes through the first-login creation.
    ensures UserIndex(users, c.uid).None? ==> r == FirstLogin(users, c, now)
    ensures UsersValid(users) ==> UsersValid(r.0)
  {
    match UserIndex(users, c.uid)
    case Some(i) => ReturningLogin(users, i, now)
    case None => FirstLogin(users, c, now)
  }

  /** The verifier's answer for the token in `header`, when there is one. */
  function VerificationOf(header: Option<string>, verify: string -> Verification): Option<Verification> {
    match BearerToken(header)
    case None => None
    case Some(token) => Some(verify(token))
  }

  /** Authenticating twice with the same token never adds a record the second time: the table
      after the second call differs from the one after the first only in login times. */
  lemma ReauthenticationAddsNoUser(users: seq<User>, header: Option<string>, verify: string -> Verification,
                                   t1: int, t2: int)
    ensures var first := Authentication(users, header, verify, t1).0;
            var second := Authentication(first, header, verify, t2).0;
            |second| == |first| && forall i :: 0 <= i < |first| ==> SameButLogin(first[i], second[i])
  {
    var first := Authentication(users, header, verify, t1).0;
    var v := VerificationOf(header, verify);
    if v.Some? && v.value.Verified? {
      var c := v.value.claims;
      if UserIndex(users, c.uid).None? {
        match Provision(users, c, t1)
        case None =>
          assert first == users;
          assert Provision(users, c, t2).None?;
        case Some(u) =>
          assert first == users + [u];
          assert first[|users|].firebaseUid == c.uid;
          assert UserIndex(first, c.uid).Some?;
      } else {
        assert |first| == |users|;
        var i := UserIndex(users, c.uid).value;
        assert first[i].firebaseUid == c.uid;
        assert UserIndex(first, c.uid).Some?;
      }
    }
  }

  /** A verified token whose uid is stored: that record's login time is written and nothing else
      changes; the request goes on with the record exactly when it is active, and gets 403 otherwise. */
  lemma StoredUidSignsIn(users: seq<User>, header: Option<string>, verify: string -> Verification, now: int)
    requires BearerToken(header).Some? && verify(BearerToken(header).value).Verified?
    requires UserIndex(users, verify(BearerToken(header).value).claims.uid).Some?
    ensures var i := UserIndex(users, verify(BearerToken(header).value).claims.uid).value;
      Authentication(users, header, verify, now) ==
        (users[i := WithLastLogin(users[i], now)],
         if users[i].isActive then Admitted(WithLastLogin(users[i], now)) else Refused(Forbidden(Deactivated)))
  {
    assert Authentication(users, header, verify, now) == Login(users, verify(BearerToken(header).value).claims, now);
  }

  /** A stored, deactivated user is refused with 403 whatever the role, and only the login time
      of that record is written. */
  lemma DeactivatedAlwaysRefused(users: seq<User>, header: Option<string>, verify: string -> Verification,
                                 now: int, i: nat)
    requires UidsUnique(users) && i < |users| && !users[i].isActive
    requires BearerToken(header).Some? && verify(BearerToken(header).value).Verified?
    requires verify(BearerToken(header).value).claims.uid == users[i].firebaseUid
    ensures Authentication(users, header, verify, now) ==
      (users[i := WithLastLogin(users[i], now)], Refused(Forbidden(Deactivated)))
  {
    UserIndexOf(users, i);
  }

  /** An unseen uid creates exactly one record, appended to the table, with role 'user', active, and
      the display name taken from the token's name or else the email's local part. */
  lemma FirstLoginCreatesOneUser(users: seq<User>, header: Option<string>, verify: string -> Verification,
                                 now: int, c: Claims)
    requires BearerToken(header).Some? && verify(BearerToken(header).value) == Verified(c)
    requires UserIndex(users, c.uid).None?
    requires Provision(users, c, now).Some?
    ensures var r := Authentication(users, header, verify, now);
      && |r.0| == |users| + 1 && r.0[..|users|] == users
      && r.1 == Admitted(r.0[|users|])
      && r.0[|users|].firebaseUid == c.uid && r.0[|users|].role == UserRole && r.0[|users|].isActive
      && r.0[|users|].displayName == Trim(if Truthy(c.name) then c.name.value else Before(c.email.value, '@'))
  {
    var r := Authentication(users, header, verify, now);
    assert r.0 == users + [Provision(users, c, now).value];
  }

  /** A gate after authentication: the request goes on, or this response is sent. */
  datatype Gate = Pass | Halt(response: Response)

  /** `authorize(...allowedRoles)`. */
  function Authorize(ctx: Option<User>, allowed: seq<string>): (g: Gate)
    ensures g == Pass <==> ctx.Some? && ctx.value.role in allowed
    ensures ctx.None? ==> g == Halt(Unauthorized(AuthenticationRequired))
    ensures ctx.Some? && ctx.value.role !in allowed ==> g == Halt(Forbidden(RoleRequired))
  {
    if ctx.None? then Halt(Unauthorized(AuthenticationRequired))
    else if ctx.value.role !in allowed then Halt(Forbidden(RoleRequired))
    else Pass
  }

  /** `requirePermission(permission)`. A role naming an inherited member of the permission table
      makes `hasPermission` throw; Express answers the thrown error with 500. */
  function RequirePermission(ctx: Option<User>, permission: string): (g: Gate)
    ensures g == Pass <==> ctx.Some? && HasPermission(ctx.value, permission)
    ensures ctx.None? ==> g == Halt(Unauthorized(AuthenticationRequired))
    ensures ctx.Some? && InheritedName(ctx.value.role) ==> g == Halt(ServerError)
    ensures ctx.Some? && !InheritedName(ctx.value.role) && !HasPermission(ctx.value, permission) ==>
      g == Halt(Forbidden(PermissionRequired))
  {
    if ctx.None? then Halt(Unauthorized(AuthenticationRequired))
    else if InheritedName(ctx.value.role) then Halt(ServerError)
    else if !HasPermission(ctx.value, permission) then Halt(Forbidden(PermissionRequired))
    else Pass
  }

  /** `adminOnly = authorize('admin')`. */
  function AdminOnly(ctx: Option<User>): (g: Gate)
    ensures g == Pass <==> ctx.Some? && ctx.value.role == AdminRole
  {
    Authorize(ctx, [AdminRole])
  }

  /** `managerOrAdmin = authorize('manager', 'admin')`. */
  function ManagerOrAdmin(ctx: Option<User>): (g: Gate)
    ensures g == Pass <==> ctx.Some? && (ctx.value.role == ManagerRole || ctx.value.role == AdminRole)
  {
    Authorize(ctx, [ManagerRole, AdminRole])
  }

  /** The role gates and the permission gate agree on who passes: admin-only is exactly
      manage:users, manager-or-admin is exactly update:all-tasks, and create:tasks admits
      every recognised role. */
  lemma RoleGatesMatchPermissions(ctx: Option<User>)
    ensures AdminOnly(ctx).Pass? <==> RequirePermission(ctx, ManageUsers).Pass?
    ensures ManagerOrAdmin(ctx).Pass? <==> RequirePermission(ctx, UpdateAllTasks).Pass?
    ensures RequirePermission(ctx, CreateTasks).Pass? <==> ctx.Some? && IsRole(ctx.value.role)
  {
  }

  /** `authenticateUser` against the store. */
  method AuthenticateUser(db: Db, header: Option<string>, verify: string -> Verification, now: int)
    returns (result: AuthResult)
    requires db.Valid()
    modifies db`users
    ensures db.Valid()
    ensures (db.users, result) == Authentication(old(db.users), header, verify, now)
  {
    ghost var spec := Authentication(db.users, header, verify, now);
    var token := BearerToken(header);
    if token.None? {
      result := Refused(Unauthorized(MissingToken));
      assert spec == (db.users, result);
    } else {
      var verification := verify(token.value);
      if verification.VerifyFailed? {
        result := Refused(Unauthorized(ClassifyFailure(verification.code)));
        assert spec == (db.users, result);
      } else {
        assert spec == Login(db.users, verification.claims, now);
        result := SignIn(db, verification.claims, now);
      }
    }
  }

  /** The lookup-or-create step of `authenticateUser` against the store, then the active check. */
  method SignIn(db: Db, c: Claims, now: int) returns (result: AuthResult)
    requires db.Valid()
    modifies db`users
    ensures db.Valid()
    ensures (db.users, result) == Login(old(db.users), c, now)
  {
    ghost var spec := Login(db.users, c, now);
    var i := FindUser(db.users, c.uid);
    if i < 0 {
      assert spec == FirstLogin(db.users, c, now);
      result := FirstSignIn(db, c, now);
    } else {
      assert spec == ReturningLogin(db.users, i, now);
      result := ReturningSignIn(db, i, now);
    }
  }

  /** An unseen uid: the record is created and stored, or creation fails and nothing is stored. */
  method FirstSignIn(db: Db, c: Claims, now: int) returns (result: AuthResult)
    requires db.Valid() && UserIndex(db.users, c.uid).None?
    modifies db`users
    ensures db.Valid()
    ensures (db.users, result) == FirstLogin(old(db.users), c, now)
  {
    var created := Provision(db.users, c, now);
    if created.None? {
      result := Refused(Unauthorized(InvalidToken));
    } else {
      var user := created.value;
      FirstLoginAppends(db.users, c, now);
      db.users := db.users + [user];
      result := if user.isActive then Admitted(user) else Refused(Forbidden(Deactivated));
    }
  }

  /** A successful first login appends the created record to a valid table and keeps it valid. */
  lemma FirstLoginAppends(users: seq<User>, c: Claims, now: int)
    requires UsersValid(users) && UserIndex(users, c.uid).None? && Provision(users, c, now).Some?
    ensures var u := Provision(users, c, now).value;
      && u.isActive && UsersValid(users + [u])
      && FirstLogin(users, c, now) == (users + [u], Admitted(u))
  {
    var u := Provision(users, c, now).value;
    AppendUserKeepsValid(users, u);
  }

  /** A stored uid: its login time is written, then the active flag decides. */
  method ReturningSignIn(db: Db, i: nat, now: int) returns (result: AuthResult)
    requires db.Valid() && i < |db.users|
    requires forall k :: 0 <= k < i ==> db.users[k].firebaseUid != db.users[i].firebaseUid
    modifies db`users
    ensures db.Valid()
    ensures (db.users, result) == ReturningLogin(old(db.users), i, now)
  {
    db.UpdateLastLogin(i, now);
    var user := db.users[i];
    result := if user.isActive then Admitted(user) else Refused(Forbidden(Deactivated));
  }

}
