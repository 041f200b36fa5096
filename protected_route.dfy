/**
  The route guard of the client: a chain of early returns that redirects, waits for the
  profile, denies on role, denies on permission, or renders the page.
 */
module ProtectedRoute {
  import opened Outcomes
  import UserModel
  import opened ClientAuth
  import AuthMiddleware

  datatype View = RedirectToLogin | LoadingProfile | RoleDenied | PermissionDenied | Children

  /** Whether a `requiredRole` prop is truthy: an array always is, a string when non-empty. */
  predicate RoleDemanded(required: Option<RoleRequirement>) {
    required.Some? && (required.value.AnyRole? || required.value.role != "")
  }

  /** The guard's decision, check by check in the order the component makes them. */
  function Decide(currentUser: Option<string>, profile: Option<ClientProfile>,
                  requiredRole: Option<RoleRequirement>, requiredPermission: Option<string>): (v: View)
    ensures currentUser.None? ==> v == RedirectToLogin
    ensures currentUser.Some? && profile.None? ==> v == LoadingProfile
    ensures v == RoleDenied <==>
      currentUser.Some? && profile.Some? && RoleDemanded(requiredRole) && !HasRole(profile, requiredRole.value)
    ensures v == PermissionDenied <==>
      && currentUser.Some? && profile.Some?
      && !(RoleDemanded(requiredRole) && !HasRole(profile, requiredRole.value))
      && Truthy(requiredPermission) && !HasPermission(profile, requiredPermission.value)
    ensures v == Children <==>
      && currentUser.Some? && profile.Some?
      && (RoleDemanded(requiredRole) ==> HasRole(profile, requiredRole.value))
      && (Truthy(requiredPermission) ==> HasPermission(profile, requiredPermission.value))
  {
    if currentUser.None? then RedirectToLogin
    else if profile.None? then LoadingProfile
    else if RoleDemanded(requiredRole) && !HasRole(profile, requiredRole.value) then RoleDenied
    else if Truthy(requiredPermission) && !HasPermission(profile, requiredPermission.value) then PermissionDenied
    else Children
  }

  /** Signed out, the redirect wins whatever the requirements and whatever profile is held. */
  lemma SignedOutAlwaysRedirects(profile: Option<ClientProfile>, role: Option<RoleRequirement>, permission: Option<string>)
    ensures Decide(None, profile, role, permission) == RedirectToLogin
  {
  }

  /** A role refusal hides any permission refusal: the role is checked first. */
  lemma RoleCheckedBeforePermission(currentUser: Option<string>, profile: Option<ClientProfile>,
                                    role: RoleRequirement, permission: string)
    requires currentUser.Some? && profile.Some? && RoleDemanded(Some(role)) && !HasRole(profile, role)
    ensures Decide(currentUser, profile, Some(role), Some(permission)) == RoleDenied
  {
  }

  /** Without requirements, any signed-in user with a loaded profile sees the page. */
  lemma NoRequirementRendersChildren(currentUser: Option<string>, profile: Option<ClientProfile>)
    requires currentUser.Some? && profile.Some?
    ensures Decide(currentUser, profile, None, None) == Children
  {
  }

  /** With the profile the server sent, a page guarded by `requiredRole="admin"` renders exactly
      when `adminOnly` would let the same user through, and a page guarded by a permission renders
      exactly when `requirePermission` would. */
  lemma GuardMatchesServer(account: string, u: UserModel.User, p: string)
    requires p != ""
    ensures Decide(Some(account), Some(FromServer(u)), Some(OneRole(UserModel.AdminRole)), None) == Children
            <==> AuthMiddleware.AdminOnly(Some(u)).Pass?
    ensures Decide(Some(account), Some(FromServer(u)), None, Some(p)) == Children
            <==> AuthMiddleware.RequirePermission(Some(u), p).Pass?
  {
    ClientAgreesWithServerGates(u, p);
  }
}
