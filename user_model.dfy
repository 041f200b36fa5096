/**
  The User document of the user directory: its fields and defaults, the
  permission list derived from the role, `hasPermission`, and the validation
  a new record passes before it is saved (required fields, trimmed display
  name of at most 50 characters, trimmed lower-case email).
 */
module UserModel {
  import opened Outcomes
  import opened Text

  const UserRole := "user"
  const ManagerRole := "manager"
  const AdminRole := "admin"

  /** The role enum of the schema. */
  const Roles: seq<string> := [UserRole, ManagerRole, AdminRole]

  predicate IsRole(r: string) {
    r == UserRole || r == ManagerRole || r == AdminRole
  }

  const ReadOwnTasks := "read:own-tasks"
  const ReadAllTasks := "read:all-tasks"
  const CreateTasks := "create:tasks"
  const UpdateAllTasks := "update:all-tasks"
  const DeleteAllTasks := "delete:all-tasks"
  const ManageUsers := "manage:users"

  datatype Profile = Profile(avatar: Option<string>, department: Option<string>, phoneNumber: Option<string>)

  /** A stored user. Timestamps are integers supplied by the caller's clock. */
  datatype User = User(
    firebaseUid: string,
    email: string,
    displayName: string,
    role: string,
    isActive: bool,
    lastLogin: int,
    createdAt: int,
    profile: Option<Profile>)

  /** The keys every object literal inherits from `Object.prototype`. Looking one of them up in the
      permission table yields the inherited member, which is truthy, so `|| []` does not apply and
      `includes` is not a function of it: `hasPermission` throws for such a role. */
  predicate InheritedName(key: string) {
    key in {"constructor", "__proto__", "toString", "toLocaleString", "valueOf", "hasOwnProperty",
            "isPrototypeOf", "propertyIsEnumerable", "__defineGetter__", "__defineSetter__",
            "__lookupGetter__", "__lookupSetter__"}
  }

  /** The `permissions` virtual: a fixed list per role, the empty list for any other string. Roles
      naming an inherited member make the source throw instead (`InheritedName`); this list is
      the permissions such a role holds, none. */
  function Permissions(role: string): seq<string> {
    if role == UserRole then [ReadOwnTasks, CreateTasks]
    else if role == ManagerRole then [ReadAllTasks, CreateTasks, UpdateAllTasks]
    else if role == AdminRole then [ReadAllTasks, CreateTasks, UpdateAllTasks, DeleteAllTasks, ManageUsers]
    else []
  }

  /** `user.hasPermission(p)`: membership in the derived list. */
  predicate HasPermission(u: User, p: string) {
    p in Permissions(u.role)
  }

  /** The permission table, read row by row: which role grants which permission. */
  lemma PermissionTable(role: string, p: string)
    ensures p in Permissions(role) <==>
      || (role == UserRole && (p == ReadOwnTasks || p == CreateTasks))
      || (role == ManagerRole && (p == ReadAllTasks || p == CreateTasks || p == UpdateAllTasks))
      || (role == AdminRole && (p == ReadAllTasks || p == CreateTasks || p == UpdateAllTasks
                                || p == DeleteAllTasks || p == ManageUsers))
  {
  }

  /** A role outside the enum fails closed: no permission at all (for an `InheritedName` role the
      source's lookup throws rather than returning the empty list, see `RequirePermission`). */
  lemma UnknownRoleHasNoPermission(u: User, p: string)
    requires !IsRole(u.role)
    ensures Permissions(u.role) == []
    ensures !HasPermission(u, p)
  {
  }

  /** Every recognised role may create tasks; only admin may delete any task or manage users;
      only user holds read:own-tasks. */
  lemma PermissionHighlights(role: string)
    ensures IsRole(role) <==> CreateTasks in Permissions(role)
    ensures ManageUsers in Permissions(role) <==> role == AdminRole
    ensures DeleteAllTasks in Permissions(role) <==> role == AdminRole
    ensures ReadOwnTasks in Permissions(role) <==> role == UserRole
  {
  }

  /** The tiers are nested for manager and admin: whatever a manager holds, an admin holds. */
  lemma ManagerWithinAdmin(p: string)
    ensures p in Permissions(ManagerRole) ==> p in Permissions(AdminRole)
    ensures p in Permissions(UserRole) && p != ReadOwnTasks ==> p in Permissions(ManagerRole)
  {
  }

  /** The lists have no repeated entry. */
  lemma PermissionsDistinct(role: string)
    ensures forall i, j :: 0 <= i < j < |Permissions(role)| ==> Permissions(role)[i] != Permissions(role)[j]
  {
  }

  /** The email as stored: lower-cased and trimmed. */
  function NormalizeEmail(e: string): (r: string)
    ensures IsTrimmed(r)
    ensures NoUpper(r)
  {
    ToLowerNoUpper(e);
    TrimKeepsNoUpper(ToLower(e));
    Trim(ToLower(e))
  }

  /** The stored email is the input, lowered, with white space removed at its ends and nowhere
      else: it starts at `a` of the input, and the input is white space before `a` and after it. */
  lemma NormalizedEmailIsLoweredInfix(e: string) returns (a: nat)
    ensures a + |NormalizeEmail(e)| <= |e|
    ensures forall i :: 0 <= i < |NormalizeEmail(e)| ==> NormalizeEmail(e)[i] == LowerChar(e[a + i])
    ensures forall i :: 0 <= i < a ==> IsSpace(e[i])
    ensures forall i :: a + |NormalizeEmail(e)| <= i < |e| ==> IsSpace(e[i])
  {
    var l := ToLower(e);
    var r := NormalizeEmail(e);
    assert r == Trim(l);
    a := TrimIsInfix(l);
    forall i | 0 <= i < |r| ensures r[i] == LowerChar(e[a + i]) {
      assert r[i] == l[a + i];
    }
    forall i | 0 <= i < |e| && (i < a || a + |r| <= i) ensures IsSpace(e[i]) {
      assert ToLower(e)[i] == LowerChar(e[i]);
      LowerKeepsSpace(e[i]);
    }
  }

  /** Lowering a character neither makes nor unmakes white space. */
  lemma LowerKeepsSpace(c: char)
    ensures IsSpace(LowerChar(c)) == IsSpace(c)
  {
    if 'A' <= c <= 'Z' {
      var d := LowerChar(c);
      assert 'a' <= d <= 'z';
      assert !IsSpace(d) && !IsSpace(c);
    }
  }

  /** The display name passes `required` and `maxlength: 50` after trimming. */
  predicate ValidDisplayName(name: string) {
    0 < |Trim(name)| <= 50
  }

  /** `new User({...}).save()` with the schema defaults (role 'user', active, last login now),
      or None when validation fails: an empty uid or email, or a display name that is empty or
      longer than 50 characters after trimming. */
  function NewUser(uid: string, email: string, displayName: string, now: int): (r: Option<User>)
    ensures r.Some? <==> uid != "" && NormalizeEmail(email) != "" && ValidDisplayName(displayName)
    ensures r.Some? ==> r.value.firebaseUid == uid && r.value.role == UserRole && r.value.isActive
    ensures r.Some? ==> r.value.email == NormalizeEmail(email) && r.value.displayName == Trim(displayName)
    ensures r.Some? ==> IsTrimmed(r.value.displayName) && |r.value.displayName| <= 50
    ensures r.Some? ==> r.value.lastLogin == now && r.value.createdAt == now && r.value.profile.None?
  {
    var em := NormalizeEmail(email);
    var dn := Trim(displayName);
    if uid == "" || em == "" || !(0 < |dn| <= 50) then None
    else Some(User(uid, em, dn, UserRole, true, now, now, None))
  }

  /** `updateLastLogin`: the record with only its login time replaced. */
  function WithLastLogin(u: User, now: int): (r: User)
    ensures r.lastLogin == now
    ensures r.(lastLogin := u.lastLogin) == u
  {
    u.(lastLogin := now)
  }
}
