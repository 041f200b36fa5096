/**
  The browser's authentication context: the profile fetched from the server, the role and
  permission tests the pages use, and the session state the auth-state callback and logout
  update.
 */
module ClientAuth {
  import opened Outcomes
  import opened UserModel
  import AuthMiddleware

  /** The part of the fetched profile the client tests read; `permissions` may be missing. */
  datatype ClientProfile = ClientProfile(firebaseUid: string, role: string, permissions: Option<seq<string>>)

  /** The profile `getProfile` sends: the stored record plus the permissions of its role. */
  function FromServer(u: User): (p: ClientProfile)
    ensures p.firebaseUid == u.firebaseUid && p.role == u.role
    ensures p.permissions == Some(Permissions(u.role))
    // The client's permission test on this profile is the role's permission table.
    ensures forall perm :: HasPermission(Some(p), perm) <==> UserModel.HasPermission(u, perm)
  {
    ClientProfile(u.firebaseUid, u.role, Some(Permissions(u.role)))
  }

  /** `hasPermission(p)`: false without a profile or a permissions list. */
  function HasPermission(profile: Option<ClientProfile>, p: string): (r: bool)
    ensures r <==> profile.Some? && profile.value.permissions.Some? && p in profile.value.permissions.value
    ensures profile.None? ==> !r
  {
    match profile
    case None => false
    case Some(pr) =>
      match pr.permissions
      case None => false
      case Some(ps) => p in ps
  }

  /** The argument of `hasRole`: a single role or an array of roles. */
  datatype RoleRequirement = OneRole(role: string) | AnyRole(roles: seq<string>)

  /** `hasRole(role)`: equality for a string, membership for an array; false without a profile. */
  function HasRole(profile: Option<ClientProfile>, req: RoleRequirement): (r: bool)
    ensures req.OneRole? ==> (r <==> profile.Some? && profile.value.role == req.role)
    ensures req.AnyRole? ==> (r <==> profile.Some? && profile.value.role in req.roles)
  {
    profile.Some? &&
    match req
    case OneRole(role) => profile.value.role == role
    case AnyRole(roles) => profile.value.role in roles
  }

  function IsAdmin(profile: Option<ClientProfile>): (r: bool)
    ensures r <==> profile.Some? && profile.value.role == AdminRole
  {
    HasRole(profile, OneRole(AdminRole))
  }

  function IsManagerOrAdmin(profile: Option<ClientProfile>): (r: bool)
    ensures r <==> profile.Some? && (profile.value.role == ManagerRole || profile.value.role == AdminRole)
  {
    HasRole(profile, AnyRole([ManagerRole, AdminRole]))
  }

  /** On a profile fetched from the server, the client tests decide exactly as the server gates:
      `hasPermission` as `requirePermission`, `isAdmin` as `adminOnly`, `isManagerOrAdmin` as
      `managerOrAdmin`. */
  lemma ClientAgreesWithServerGates(u: User, p: string)
    ensures HasPermission(Some(FromServer(u)), p) <==> AuthMiddleware.RequirePermission(Some(u), p).Pass?
    ensures IsAdmin(Some(FromServer(u))) <==> AuthMiddleware.AdminOnly(Some(u)).Pass?
    ensures IsManagerOrAdmin(Some(FromServer(u))) <==> AuthMiddleware.ManagerOrAdmin(Some(u)).Pass?
  {
  }

  /** Signed out, every test fails. */
  lemma SignedOutPassesNothing(p: string, req: RoleRequirement)
    ensures !HasPermission(None, p) && !HasRole(None, req) && !IsAdmin(None) && !IsManagerOrAdmin(None)
  {
  }

  /** The provider's state. */
  class AuthSession {
    var currentUser: Option<string>
    var userProfile: Option<ClientProfile>
    var loading: bool

    constructor ()
      ensures currentUser.None? && userProfile.None? && loading
    {
      currentUser, userProfile, loading := None, None, true;
    }

    /** The `onAuthStateChanged` callback: `user` is the signed-in account (None when signed
        out); `fetched` is what `fetchUserProfile` got, None when the request failed, in which
        case the profile is left as it was. */
    method OnAuthStateChanged(user: Option<string>, fetched: Option<ClientProfile>)
      modifies this
      ensures currentUser == user && !loading
      ensures user.None? ==> userProfile.None?
      ensures user.Some? && fetched.Some? ==> userProfile == fetched
      ensures user.Some? && fetched.None? ==> userProfile == old(userProfile)
    {
      currentUser := user;
      if user.Some? {
        if fetched.Some? {
          userProfile := fetched;
        }
      } else {
        userProfile := None;
      }
      loading := false;
    }

    /** `logout`: the profile is cleared once sign-out succeeds, and kept when it fails. */
    method Logout(signOutOk: bool)
      modifies this`userProfile
      ensures signOutOk ==> userProfile.None?
      ensures !signOutOk ==> userProfile == old(userProfile)
    {
      if signOutOk {
        userProfile := None;
      }
    }

    /** `updateUserProfile`: the returned record replaces the profile on success. */
    method UpdateUserProfile(returned: Option<ClientProfile>)
      modifies this`userProfile
      ensures returned.Some? ==> userProfile == returned
      ensures returned.None? ==> userProfile == old(userProfile)
    {
      if returned.Some? {
        userProfile := returned;
      }
    }
  }
}
