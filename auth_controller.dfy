/**
  The user-directory controller: the requester's own profile (read and
  allow-listed update) and the admin operations over other users (list with
  filters and pagination, role change, status toggle, delete, statistics).
 */
module AuthController {
  import opened Outcomes
  import opened Text
  import opened UserModel
  import opened Store
  import opened Paging
  import opened AuthMiddleware

  // ---------------------------------------------------------------------------------------------
  // getProfile

  /** A profile response: the stored record and the permissions of the authenticated user. */
  datatype ProfileReply = ProfileReply(response: Response, user: Option<User>, permissions: seq<string>)

  method GetProfile(users: seq<User>, requester: User) returns (reply: ProfileReply)
    ensures UserIndex(users, requester.firebaseUid).None? ==> reply == ProfileReply(NotFound, None, [])
    ensures UserIndex(users, requester.firebaseUid).Some? ==>
      reply == ProfileReply(Ok, Some(users[UserIndex(users, requester.firebaseUid).value]), Permissions(requester.role))
  {
    var i := FindUser(users, requester.firebaseUid);
    if i < 0 {
      return ProfileReply(NotFound, None, []);
    }
    return ProfileReply(Ok, Some(users[i]), Permissions(requester.role));
  }

  // ---------------------------------------------------------------------------------------------
  // updateProfile

  /** A value in a request body, as far as the profile update looks at it. */
  datatype Value = Text(text: string) | ProfileObject(profile: Profile)

  /** The keys `updateProfile` accepts. */
  const AllowedKeys: seq<string> := ["displayName", "profile"]

  /** The `updates` object built from the body's entries (in key order, later entries win). */
  function AllowedPart(body: seq<(string, Value)>): (m: map<string, Value>)
    ensures forall k :: k in m ==> k in AllowedKeys
    ensures forall k :: k in m <==> k in AllowedKeys && exists i :: 0 <= i < |body| && body[i].0 == k
    ensures forall i :: 0 <= i < |body| && body[i].0 in AllowedKeys
                        && (forall j :: i < j < |body| ==> body[j].0 != body[i].0)
                        ==> m[body[i].0] == body[i].1
  {
    if |body| == 0 then map[]
    else
      var init := body[..|body| - 1];
      var last := body[|body| - 1];
      var m := AllowedPart(init);
      assert forall i :: 0 <= i < |init| ==> init[i] == body[i];
      if last.0 in AllowedKeys then m[last.0 := last.1] else m
  }

  /** The `forEach` over `Object.keys(req.body)` that copies allowed keys into `updates`. */
  method FilterUpdates(body: seq<(string, Value)>) returns (updates: map<string, Value>)
    ensures updates == AllowedPart(body)
  {
    updates := map[];
    for i := 0 to |body|
      invariant updates == AllowedPart(body[..i])
    {
      assert body[..i + 1][..i] == body[..i];
      var (key, value) := body[i];
      if key in AllowedKeys {
        updates := updates[key := value];
      }
    }
    assert body[..|body|] == body;
  }

  /** The record after `findOneAndUpdate` with validators: a display name must be a string that is
      non-empty and at most 50 characters after trimming (stored trimmed), a profile an object;
      None when validation or casting fails. */
  function ApplyProfileUpdates(u: User, updates: map<string, Value>): (r: Option<User>)
    ensures r.Some? ==> r.value.(displayName := u.displayName, profile := u.profile) == u
    ensures r.Some? && "displayName" !in updates ==> r.value.displayName == u.displayName
    ensures r.Some? && "displayName" in updates ==>
      updates["displayName"].Text? && r.value.displayName == Trim(updates["displayName"].text)
      && 0 < |r.value.displayName| <= 50
    ensures r.Some? && "profile" in updates ==>
      updates["profile"].ProfileObject? && r.value.profile == Some(updates["profile"].profile)
    ensures r.Some? && "profile" !in updates ==> r.value.profile == u.profile
  {
    var named :=
      if "displayName" !in updates then Some(u)
      else match updates["displayName"]
        case Text(s) => if ValidDisplayName(s) then Some(u.(displayName := Trim(s))) else None
        case ProfileObject(_) => None;
    if named.None? then None
    else if "profile" !in updates then named
    else match updates["profile"]
      case ProfileObject(p) => Some(named.value.(profile := Some(p)))
      case Text(_) => None
  }

  /** `updateProfile` over the users table. */
  function ProfileUpdate(users: seq<User>, requester: User, body: seq<(string, Value)>): (r: (seq<User>, Response))
    ensures |AllowedPart(body)| == 0 ==> r == (users, BadRequest(NoValidUpdates))
    ensures r.1 == Ok <==>
      && |AllowedPart(body)| > 0
      && UserIndex(users, requester.firebaseUid).Some?
      && ApplyProfileUpdates(users[UserIndex(users, requester.firebaseUid).value], AllowedPart(body)).Some?
    ensures r.1 == Ok ==> var i := UserIndex(users, requester.firebaseUid).value;
      r.0 == users[i := ApplyProfileUpdates(users[i], AllowedPart(body)).value]
    ensures r.1 != Ok ==> r.0 == users
    // No stored record for the requester: 404.
    ensures |AllowedPart(body)| > 0 && UserIndex(users, requester.firebaseUid).None? ==> r.1 == NotFound
    // The record exists but the update fails validation or casting: the catch block's 500.
    ensures |AllowedPart(body)| > 0 && UserIndex(users, requester.firebaseUid).Some? &&
            ApplyProfileUpdates(users[UserIndex(users, requester.firebaseUid).value], AllowedPart(body)).None? ==>
      r.1 == ServerError
    ensures UsersValid(users) ==> UsersValid(r.0)
  {
    var updates := AllowedPart(body);
    if |updates| == 0 then (users, BadRequest(NoValidUpdates))
    else match UserIndex(users, requester.firebaseUid)
      case None => (users, NotFound)
      case Some(i) =>
        match ApplyProfileUpdates(users[i], updates)
        case None => (users, ServerError)
        case Some(u) =>
          var users' := users[i := u];
          assert forall j :: 0 <= j < |users| ==>
            users'[j].firebaseUid == users[j].firebaseUid && users'[j].email == users[j].email && users'[j].role == users[j].role;
          (users', Ok)
  }

  /** A body with no allowed key never touches the table, whatever else it carries (role,
      isActive, email...); and no update changes anything but the display name and profile. */
  lemma ProfileUpdateCannotEscalate(users: seq<User>, requester: User, body: seq<(string, Value)>)
    requires forall i :: 0 <= i < |body| ==> body[i].0 !in AllowedKeys
    ensures ProfileUpdate(users, requester, body) == (users, BadRequest(NoValidUpdates))
  {
    assert AllowedPart(body) == map[];
  }

  method UpdateProfile(db: Db, requester: User, body: seq<(string, Value)>) returns (response: Response)
    requires db.Valid()
    modifies db`users
    ensures db.Valid()
    ensures (db.users, response) == ProfileUpdate(old(db.users), requester, body)
  {
    var updates := FilterUpdates(body);
    if |updates| == 0 {
      return BadRequest(NoValidUpdates);
    }
    var i := FindUser(db.users, requester.firebaseUid);
    if i < 0 {
      return NotFound;
    }
    var updated := ApplyProfileUpdates(db.users[i], updates);
    if updated.None? {
      return ServerError;
    }
    assert ProfileUpdate(db.users, requester, body) == (db.users[i := updated.value], Ok);
    db.users := db.users[i := updated.value];
    return Ok;
  }

  // ---------------------------------------------------------------------------------------------
  // getAllUsers

  /** The query string of the user list (page and limit already parsed). */
  datatype UserQuery = UserQuery(page: nat, limit: nat, role: Option<string>, isActive: Option<string>, search: Option<string>)

  /** The filter document: role, active flag, and the `$or` text search on display name and email. */
  datatype UserFilter = UserFilter(role: Option<string>, isActive: Option<bool>, search: Option<string>)

  /** What the store matches; `hit(text, u)` stands for the case-insensitive regex test on
      display name and email. */
  predicate UserAdmits(f: UserFilter, u: User, hit: (string, User) -> bool) {
    && (f.role.Some? ==> u.role == f.role.value)
    && (f.isActive.Some? ==> u.isActive == f.isActive.value)
    && (f.search.Some? ==> hit(f.search.value, u))
  }

  /** Which users a list request selects, user by user: a truthy role must match; an `isActive`
      parameter that is present at all selects active users when it is exactly "true" and
      inactive users otherwise; a truthy search must hit. */
  predicate UserListed(q: UserQuery, u: User, hit: (string, User) -> bool) {
    && (Truthy(q.role) ==> u.role == q.role.value)
    && (q.isActive.Some? ==> u.isActive == (q.isActive.value == "true"))
    && (Truthy(q.search) ==> hit(q.search.value, u))
  }

  method BuildUserFilter(q: UserQuery) returns (f: UserFilter)
    ensures forall u, hit {:trigger UserAdmits(f, u, hit)} :: UserAdmits(f, u, hit) <==> UserListed(q, u, hit)
  {
    f := UserFilter(None, None, None);
    if Truthy(q.role) {
      f := f.(role := q.role);
    }
    if q.isActive.Some? {
      f := f.(isActive := Some(q.isActive.value == "true"));
    }
    if Truthy(q.search) {
      f := f.(search := q.search);
    }
  }

  function MatchingUsers(users: seq<User>, q: UserQuery, hit: (string, User) -> bool): (r: seq<User>)
    ensures |r| <= |users|
    ensures forall u :: u in r <==> u in users && UserListed(q, u, hit)
  {
    if |users| == 0 then []
    else
      var init := users[..|users| - 1];
      var last := users[|users| - 1];
      assert users == init + [last];
      MatchingUsers(init, q, hit) + (if UserListed(q, last, hit) then [last] else [])
  }

  /** `getAllUsers`: one page of the matching users and the pagination object. */
  method GetAllUsers(users: seq<User>, q: UserQuery, hit: (string, User) -> bool)
    returns (page: seq<User>, info: Pagination)
    requires q.page >= 1 && q.limit >= 1
    ensures page == Window(MatchingUsers(users, q, hit), Skip(q.page, q.limit), q.limit)
    ensures info == Paginate(q.page, q.limit, |MatchingUsers(users, q, hit)|, |page|)
  {
    var f := BuildUserFilter(q);
    var matched: seq<User> := [];
    for i := 0 to |users|
      invariant matched == MatchingUsers(users[..i], q, hit)
    {
      assert users[..i + 1][..i] == users[..i];
      if UserAdmits(f, users[i], hit) {
        matched := matched + [users[i]];
      }
    }
    assert users[..|users|] == users;
    page := Window(matched, Skip(q.page, q.limit), q.limit);
    info := Paginate(q.page, q.limit, |matched|, |page|);
  }

  /** As written, an empty `isActive` parameter (what the "All Status" choice sends) selects
      inactive users only: no active user is listed, whatever else the query says. */
  lemma EmptyStatusHidesActiveUsers(q: UserQuery, u: User, hit: (string, User) -> bool)
    requires q.isActive == Some("") && u.isActive
    ensures !UserListed(q, u, hit)
  {
  }

  /** The evident intent: an empty `isActive`, like an empty `role`, applies no filter. */
  predicate UserListedIntended(q: UserQuery, u: User, hit: (string, User) -> bool) {
    && (Truthy(q.role) ==> u.role == q.role.value)
    && (Truthy(q.isActive) ==> u.isActive == (q.isActive.value == "true"))
    && (Truthy(q.search) ==> hit(q.search.value, u))
  }

  /** With the intended rule, an empty `isActive` is the same as leaving it out, so the "All
      Status" choice lists active and inactive users alike; "true" and "false" behave as before. */
  lemma IntendedEmptyStatusListsAll(q: UserQuery, u: User, hit: (string, User) -> bool)
    ensures q.isActive == Some("") ==>
      (UserListedIntended(q, u, hit) <==> UserListedIntended(q.(isActive := None), u, hit))
    ensures Truthy(q.isActive) ==> (UserListedIntended(q, u, hit) <==> UserListed(q, u, hit))
    ensures q.isActive.None? ==> (UserListedIntended(q, u, hit) <==> UserListed(q, u, hit))
  {
  }

  // ---------------------------------------------------------------------------------------------
  // updateUserRole, toggleUserStatus, deleteUser

  /** `updateUserRole`: the role is validated first, then the self check, then the lookup. */
  function RoleChange(users: seq<User>, requester: User, target: string, role: Option<string>)
    : (r: (seq<User>, Response))
    ensures role.None? || !IsRole(role.value) ==> r == (users, BadRequest(InvalidRole))
    ensures role.Some? && IsRole(role.value) && target == requester.firebaseUid ==> r == (users, BadRequest(SelfTarget))
    ensures r.1 == Ok <==>
      role.Some? && IsRole(role.value) && target != requester.firebaseUid && UserIndex(users, target).Some?
    ensures r.1 == Ok ==> var k := UserIndex(users, target).value; r.0 == users[k := users[k].(role := role.value)]
    ensures r.1 != Ok ==> r.0 == users
    ensures UsersValid(users) ==> UsersValid(r.0)
  {
    if role.None? || !IsRole(role.value) then (users, BadRequest(InvalidRole))
    else if target == requester.firebaseUid then (users, BadRequest(SelfTarget))
    else match UserIndex(users, target)
      case None => (users, NotFound)
      case Some(k) =>
        var users' := users[k := users[k].(role := role.value)];
        assert forall j :: 0 <= j < |users| ==>
          users'[j].firebaseUid == users[j].firebaseUid && users'[j].email == users[j].email;
        (users', Ok)
  }

  /** `toggleUserStatus`: the self check, then the lookup, then `isActive` is negated. */
  function StatusToggle(users: seq<User>, requester: User, target: string): (r: (seq<User>, Response))
    ensures target == requester.firebaseUid ==> r == (users, BadRequest(SelfTarget))
    ensures target != requester.firebaseUid && UserIndex(users, target).None? ==> r == (users, NotFound)
    ensures r.1 == Ok <==> target != requester.firebaseUid && UserIndex(users, target).Some?
    ensures r.1 == Ok ==> var k := UserIndex(users, target).value;
      r.0 == users[k := users[k].(isActive := !users[k].isActive)]
    ensures r.1 != Ok ==> r.0 == users
    ensures UsersValid(users) ==> UsersValid(r.0)
  {
    if target == requester.firebaseUid then (users, BadRequest(SelfTarget))
    else match UserIndex(users, target)
      case None => (users, NotFound)
      case Some(k) =>
        var users' := users[k := users[k].(isActive := !users[k].isActive)];
        assert forall j :: 0 <= j < |users| ==>
          users'[j].firebaseUid == users[j].firebaseUid && users'[j].email == users[j].email && users'[j].role == users[j].role;
        (users', Ok)
  }

  /** Toggling the same user twice restores the table. */
  lemma ToggleTwiceRestores(users: seq<User>, requester: User, target: string)
    ensures var once := StatusToggle(users, requester, target).0;
            StatusToggle(once, requester, target).0 == users
  {
    var r := StatusToggle(users, requester, target);
    if r.1 == Ok {
      var k := UserIndex(users, target).value;
      assert r.0[k].firebaseUid == target;
      FirstUserIndex(r.0, k);
    }
  }

  /** `deleteUser`: the self check, then `findOneAndDelete`; tasks are not touched. */
  function Removal(users: seq<User>, requester: User, target: string): (r: (seq<User>, Response))
    ensures target == requester.firebaseUid ==> r == (users, BadRequest(SelfTarget))
    ensures target != requester.firebaseUid && UserIndex(users, target).None? ==> r == (users, NotFound)
    ensures r.1 == Ok <==> target != requester.firebaseUid && UserIndex(users, target).Some?
    ensures r.1 == Ok ==> var k := UserIndex(users, target).value; r.0 == RemoveAt(users, k)
    ensures r.1 != Ok ==> r.0 == users
    ensures UsersValid(users) ==> UsersValid(r.0) && (r.1 == Ok ==> UserIndex(r.0, target).None?)
  {
    if target == requester.firebaseUid then (users, BadRequest(SelfTarget))
    else match UserIndex(users, target)
      case None => (users, NotFound)
      case Some(k) =>
        assert UsersValid(users) ==> UsersValid(RemoveAt(users, k)) && UserIndex(RemoveAt(users, k), target).None? by {
          if UsersValid(users) { RemoveUserKeepsValid(users, k); }
        }
        (RemoveAt(users, k), Ok)
  }

  /** Every self-targeted admin operation is a 400 that changes nothing, whatever the payload. */
  lemma SelfTargetAlwaysRejected(users: seq<User>, requester: User, role: Option<string>)
    ensures var r := RoleChange(users, requester, requester.firebaseUid, role);
            StatusCode(r.1) == 400 && r.0 == users
    ensures StatusToggle(users, requester, requester.firebaseUid) == (users, BadRequest(SelfTarget))
    ensures Removal(users, requester, requester.firebaseUid) == (users, BadRequest(SelfTarget))
  {
  }

  /** A deleted user whose token still verifies is provisioned again on the next request: a new,
      active record with role 'user', whatever role and status the deleted record had. */
  lemma DeletedUserComesBack(users: seq<User>, requester: User, target: string,
                             header: Option<string>, verify: string -> Verification, now: int)
    requires UsersValid(users)
    requires Removal(users, requester, target).1 == Ok
    requires BearerToken(header).Some? && verify(BearerToken(header).value).Verified?
    requires verify(BearerToken(header).value).claims.uid == target
    requires Provision(Removal(users, requester, target).0, verify(BearerToken(header).value).claims, now).Some?
    ensures var after := Removal(users, requester, target).0;
            var r := Authentication(after, header, verify, now);
            && |r.0| == |after| + 1
            && r.1.Admitted? && r.1.user.firebaseUid == target
            && r.1.user.role == UserRole && r.1.user.isActive
  {
  }

  method UpdateUserRole(db: Db, requester: User, target: string, role: Option<string>) returns (response: Response)
    requires db.Valid()
    modifies db`users
    ensures db.Valid()
    ensures (db.users, response) == RoleChange(old(db.users), requester, target, role)
  {
    if role.None? || !IsRole(role.value) {
      return BadRequest(InvalidRole);
    }
    if target == requester.firebaseUid {
      return BadRequest(SelfTarget);
    }
    var k := FindUser(db.users, target);
    if k < 0 {
      return NotFound;
    }
    assert RoleChange(db.users, requester, target, role) == (db.users[k := db.users[k].(role := role.value)], Ok);
    db.users := db.users[k := db.users[k].(role := role.value)];
    return Ok;
  }

  method ToggleUserStatus(db: Db, requester: User, target: string) returns (response: Response)
    requires db.Valid()
    modifies db`users
    ensures db.Valid()
    ensures (db.users, response) == StatusToggle(old(db.users), requester, target)
  {
    if target == requester.firebaseUid {
      return BadRequest(SelfTarget);
    }
    var k := FindUser(db.users, target);
    if k < 0 {
      return NotFound;
    }
    var user := db.users[k];
    user := user.(isActive := !user.isActive);
    assert StatusToggle(db.users, requester, target) == (db.users[k := user], Ok);
    db.users := db.users[k := user];
    return Ok;
  }

  method DeleteUser(db: Db, requester: User, target: string) returns (response: Response)
    requires db.Valid()
    modifies db`users
    ensures db.Valid()
    ensures (db.users, response) == Removal(old(db.users), requester, target)
    ensures db.tasks == old(db.tasks)
  {
    if target == requester.firebaseUid {
      return BadRequest(SelfTarget);
    }
    var k := FindUser(db.users, target);
    if k < 0 {
      return NotFound;
    }
    assert Removal(db.users, requester, target) == (RemoveAt(db.users, k), Ok);
    RemoveUserKeepsValid(db.users, k);
    db.users := RemoveAt(db.users, k);
    return Ok;
  }

  // ---------------------------------------------------------------------------------------------
  // getUserStats

  datatype UserStats = UserStats(totalUsers: nat, activeUsers: nat, inactiveUsers: nat,
                                 admins: nat, managers: nat, users: nat)

  /** The `$group` stage over all users. */
  function CountUsers(us: seq<User>): (s: UserStats)
    ensures s.totalUsers == |us|
    ensures s.activeUsers + s.inactiveUsers == s.totalUsers
    ensures s.admins + s.managers + s.users <= s.totalUsers
    ensures RolesValid(us) ==> s.admins + s.managers + s.users == s.totalUsers
    ensures us == [] ==> s == UserStats(0, 0, 0, 0, 0, 0)
  {
    if |us| == 0 then UserStats(0, 0, 0, 0, 0, 0)
    else
      var init := us[..|us| - 1];
      var u := us[|us| - 1];
      assert RolesValid(us) ==> RolesValid(init);
      AddUser(CountUsers(init), u)
  }

  /** One user's contribution added to the counts. */
  function AddUser(s: UserStats, u: User): UserStats {
    UserStats(s.totalUsers + 1, s.activeUsers + Count(u.isActive), s.inactiveUsers + Count(!u.isActive),
              s.admins + Count(u.role == AdminRole), s.managers + Count(u.role == ManagerRole),
              s.users + Count(u.role == UserRole))
  }

  /** Counting one more user adds that user's contribution. */
  lemma CountOneMore(us: seq<User>, i: nat)
    requires i < |us|
    ensures CountUsers(us[..i + 1]) == AddUser(CountUsers(us[..i]), us[i])
  {
    assert us[..i + 1][..i] == us[..i];
  }

  function Min(a: nat, b: nat): nat {
    if a < b then a else b
  }

  predicate Below(idx: seq<nat>, n: nat) {
    forall a :: 0 <= a < |idx| ==> idx[a] < n
  }

  predicate Distinct(idx: seq<nat>) {
    forall a, b :: 0 <= a < b < |idx| ==> idx[a] != idx[b]
  }

  /** Creation times never increase along `idx`. */
  predicate NewestFirstOrder(users: seq<User>, idx: seq<nat>)
    requires Below(idx, |users|)
  {
    forall a, b :: 0 <= a < b < |idx| ==> users[idx[a]].createdAt >= users[idx[b]].createdAt
  }

  /** Nobody among `users[..n]` left out of `idx` is newer than anyone listed. */
  predicate NoneNewerLeftOut(users: seq<User>, n: nat, idx: seq<nat>)
    requires n <= |users| && Below(idx, |users|)
  {
    forall j, a :: 0 <= j < n && j !in idx && 0 <= a < |idx| ==> users[j].createdAt <= users[idx[a]].createdAt
  }

  /** `idx` lists the newest `min(k, n)` users of `users[..n]`, newest first: distinct positions,
      non-increasing creation times, and nobody left out is newer than anyone listed. */
  predicate NewestOf(users: seq<User>, n: nat, idx: seq<nat>, k: nat)
    requires n <= |users|
  {
    && |idx| == Min(n, k)
    && Below(idx, n)
    && Distinct(idx)
    && NewestFirstOrder(users, idx)
    && NoneNewerLeftOut(users, n, idx)
    && (n <= k ==> forall j :: 0 <= j < n ==> j in idx)
  }

  function Insert(idx: seq<nat>, p: nat, i: nat): (r: seq<nat>)
    requires p <= |idx|
    ensures |r| == |idx| + 1 && r[p] == i
    ensures forall a :: 0 <= a < p ==> r[a] == idx[a]
    ensures forall a :: p < a < |r| ==> r[a] == idx[a - 1]
  {
    idx[..p] + [i] + idx[p..]
  }

  /** `User.find().sort({ createdAt: -1 }).limit(k)`, by insertion into a sorted list of at most k. */
  method Newest(users: seq<User>, k: nat) returns (idx: seq<nat>)
    ensures NewestOf(users, |users|, idx, k)
  {
    idx := [];
    for i := 0 to |users|
      invariant NewestOf(users, i, idx, k)
    {
      var p := 0;
      while p < |idx| && users[idx[p]].createdAt >= users[i].createdAt
        invariant 0 <= p <= |idx|
        invariant forall a :: 0 <= a < p ==> users[idx[a]].createdAt >= users[i].createdAt
      {
        p := p + 1;
      }
      if p < |idx| || |idx| < k {
        var inserted := Insert(idx, p, i);
        InsertOrdered(users, i, idx, p);
        if |idx| < k {
          InsertWhileShort(users, i, idx, k, p);
          idx := inserted;
        } else {
          InsertAndDrop(users, i, idx, k, p);
          idx := inserted[..k];
        }
      } else {
        OlderThanAllListed(users, i, idx, k);
      }
    }
  }

  /** Inserting user `i` in its place keeps the list ordered and free of repeats. */
  lemma InsertOrdered(users: seq<User>, i: nat, idx: seq<nat>, p: nat)
    requires i < |users| && Below(idx, i) && Distinct(idx) && NewestFirstOrder(users, idx)
    requires p <= |idx|
    requires forall a :: 0 <= a < p ==> users[idx[a]].createdAt >= users[i].createdAt
    requires p < |idx| ==> users[idx[p]].createdAt < users[i].createdAt
    ensures var r := Insert(idx, p, i); Below(r, i + 1) && Distinct(r) && NewestFirstOrder(users, r)
  {
    var r := Insert(idx, p, i);
    forall a, b | 0 <= a < b < |r| ensures users[r[a]].createdAt >= users[r[b]].createdAt && r[a] != r[b] {
      if a == p {
        assert users[idx[p]].createdAt >= users[idx[b - 1]].createdAt;
      }
    }
  }

  /** Inserting `i` into a list holding every position below `i` gives one holding every
      position up to `i`. */
  lemma InsertKeepsAll(idx: seq<nat>, p: nat, i: nat)
    requires p <= |idx| && forall j :: 0 <= j < i ==> j in idx
    ensures forall j :: 0 <= j < i + 1 ==> j in Insert(idx, p, i)
  {
    var r := Insert(idx, p, i);
    forall j | 0 <= j < i + 1 ensures j in r {
      if j < i {
        assert j in idx;
        var b :| 0 <= b < |idx| && idx[b] == j;
        assert r[if b < p then b else b + 1] == j;
      } else {
        assert r[p] == i;
      }
    }
  }

  /** While fewer than k are listed, every earlier user is listed, and so is user `i` after it. */
  lemma InsertWhileShort(users: seq<User>, i: nat, idx: seq<nat>, k: nat, p: nat)
    requires i < |users| && NewestOf(users, i, idx, k) && p <= |idx| && |idx| < k
    requires var r := Insert(idx, p, i); Below(r, i + 1) && Distinct(r) && NewestFirstOrder(users, r)
    ensures NewestOf(users, i + 1, Insert(idx, p, i), k)
  {
    var r := Insert(idx, p, i);
    assert i <= k && |idx| == i;
    InsertKeepsAll(idx, p, i);
    assert |r| == Min(i + 1, k);
    assert NoneNewerLeftOut(users, i + 1, r);
  }

  /** With k already listed and user `i` newer than the one at `p`, the oldest listed drops out. */
  lemma InsertAndDrop(users: seq<User>, i: nat, idx: seq<nat>, k: nat, p: nat)
    requires i < |users| && NewestOf(users, i, idx, k) && p < |idx| && |idx| == k
    requires users[idx[p]].createdAt < users[i].createdAt
    requires var r := Insert(idx, p, i); Below(r, i + 1) && Distinct(r) && NewestFirstOrder(users, r)
    ensures NewestOf(users, i + 1, Insert(idx, p, i)[..k], k)
  {
    var r := Insert(idx, p, i);
    var kept := r[..k];
    assert k <= i;
    forall j, a | 0 <= j < i + 1 && j !in kept && 0 <= a < |kept|
      ensures users[j].createdAt <= users[kept[a]].createdAt
    {
      DroppedNoNewer(users, i, idx, k, p, j, a);
    }
  }

  /** One pair of the previous lemma: whoever is left out after the drop is no newer than
      the one kept at `a`. */
  lemma DroppedNoNewer(users: seq<User>, i: nat, idx: seq<nat>, k: nat, p: nat, j: nat, a: nat)
    requires i < |users| && NewestOf(users, i, idx, k) && p < |idx| && |idx| == k
    requires users[idx[p]].createdAt < users[i].createdAt
    requires var r := Insert(idx, p, i); Below(r, i + 1) && Distinct(r) && NewestFirstOrder(users, r)
    requires j < i + 1 && j !in Insert(idx, p, i)[..k] && a < k
    ensures users[j].createdAt <= users[Insert(idx, p, i)[a]].createdAt
  {
    var r := Insert(idx, p, i);
    if j in r {
      var b :| 0 <= b < |r| && r[b] == j;
      assert r[..k] == Insert(idx, p, i)[..k];
      assert b == k;
    } else {
      assert j != i && j !in idx;
      if r[a] == i {
        assert users[j].createdAt <= users[idx[p]].createdAt;
      } else {
        assert r[a] == (if a < p then idx[a] else idx[a - 1]);
      }
    }
  }

  /** With k already listed and user `i` no newer than any of them, the list stays as it is. */
  lemma OlderThanAllListed(users: seq<User>, i: nat, idx: seq<nat>, k: nat)
    requires i < |users| && NewestOf(users, i, idx, k) && |idx| == k
    requires forall a :: 0 <= a < |idx| ==> users[idx[a]].createdAt >= users[i].createdAt
    ensures NewestOf(users, i + 1, idx, k)
  {
  }

  /** The records at the positions `idx`. */
  function Select(users: seq<User>, idx: seq<nat>): (r: seq<User>)
    requires Below(idx, |users|)
    ensures |r| == |idx|
    ensures forall a :: 0 <= a < |idx| ==> r[a] == users[idx[a]]
  {
    if |idx| == 0 then [] else [users[idx[0]]] + Select(users, idx[1..])
  }

  /** The `$group` stage as one pass over the users. */
  method CountAll(users: seq<User>) returns (stats: UserStats)
    ensures stats == CountUsers(users)
  {
    stats := UserStats(0, 0, 0, 0, 0, 0);
    for i := 0 to |users|
      invariant stats == CountUsers(users[..i])
    {
      CountOneMore(users, i);
      stats := AddUser(stats, users[i]);
    }
    assert users[..|users|] == users;
  }

  /** `getUserStats`: the counts, and the five newest users (their positions and records),
      newest first. */
  method GetUserStats(users: seq<User>) returns (stats: UserStats, newest: seq<nat>, recent: seq<User>)
    ensures stats == CountUsers(users)
    ensures NewestOf(users, |users|, newest, 5)
    ensures recent == Select(users, newest)
  {
    stats := CountAll(users);
    newest := Newest(users, 5);
    recent := Select(users, newest);
  }
}
