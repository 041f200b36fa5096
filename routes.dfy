/**
  The two routers as the tables their registration calls build. Each router first runs
  `authenticateUser` on every request that enters it (`router.use`), then looks for the first
  registered route whose verb and path match, runs that route's gates in order, and reaches the
  controller. Paths are relative to the router's mount point, split into segments. Routers are
  made with Express's default `caseSensitive: false`, so a literal segment matches whatever the
  case of the request's segment.
 */
module Routes {
  import opened Outcomes
  import opened UserModel
  import opened Text
  import AuthMiddleware

  datatype Verb = Get | Post | Put | Delete

  /** A path segment of a route pattern: a literal (all registered literals are lower case), or a
      `:param` matching any non-empty segment. */
  datatype Segment = Lit(name: string) | Param

  /** A route-level gate after authentication. */
  datatype Guard = AdminGate | PermissionGate(permission: string)

  /** The controller a route ends in. */
  datatype Handler =
    | GetProfile | UpdateProfile | GetAllUsers | GetUserStats | UpdateUserRole | ToggleUserStatus | DeleteUser
    | GetTaskStats | CreateTask | GetTasks | GetTaskById | UpdateTask | DeleteTask

  datatype Route = Route(verb: Verb, pattern: seq<Segment>, guards: seq<Guard>, handler: Handler)

  /** The user router, in registration order. */
  const AuthRoutes: seq<Route> := [
    Route(Get, [Lit("profile")], [], GetProfile),
    Route(Put, [Lit("profile")], [], UpdateProfile),
    Route(Get, [Lit("users")], [AdminGate], GetAllUsers),
    Route(Get, [Lit("users"), Lit("stats")], [AdminGate], GetUserStats),
    Route(Put, [Lit("users"), Param, Lit("role")], [AdminGate], UpdateUserRole),
    Route(Put, [Lit("users"), Param, Lit("status")], [AdminGate], ToggleUserStatus),
    Route(Delete, [Lit("users"), Param], [AdminGate], DeleteUser)
  ]

  /** The task router, in registration order: `/stats` comes before `/:id`. */
  const TaskRoutes: seq<Route> := [
    Route(Get, [Lit("stats")], [], GetTaskStats),
    Route(Post, [], [PermissionGate(CreateTasks)], CreateTask),
    Route(Get, [], [], GetTasks),
    Route(Get, [Param], [], GetTaskById),
    Route(Put, [Param], [], UpdateTask),
    Route(Delete, [Param], [], DeleteTask)
  ]

  /** A literal matches its case variants; a parameter any non-empty segment. */
  predicate SegmentMatches(s: Segment, part: string) {
    match s
    case Lit(name) => ToLower(part) == name
    case Param => part != ""
  }

  /** The segments from position `i` on match. */
  predicate SegmentsFrom(pattern: seq<Segment>, path: seq<string>, i: nat)
    requires |pattern| == |path| && i <= |path|
    decreases |path| - i
  {
    i == |path| || (SegmentMatches(pattern[i], path[i]) && SegmentsFrom(pattern, path, i + 1))
  }

  /** A pattern matches a path of the same length, segment by segment. */
  predicate PatternMatches(pattern: seq<Segment>, path: seq<string>) {
    |pattern| == |path| && SegmentsFrom(pattern, path, 0)
  }

  predicate Matches(r: Route, verb: Verb, path: seq<string>) {
    r.verb == verb && PatternMatches(r.pattern, path)
  }

  /** The first route at or after position `from` matching the request. */
  function LookupFrom(routes: seq<Route>, from: nat, verb: Verb, path: seq<string>): (r: Option<Route>)
    requires from <= |routes|
    ensures r.Some? ==> exists k :: from <= k < |routes| && routes[k] == r.value && Matches(r.value, verb, path)
                                    && forall j :: from <= j < k ==> !Matches(routes[j], verb, path)
    ensures r.None? <==> forall k :: from <= k < |routes| ==> !Matches(routes[k], verb, path)
    decreases |routes| - from
  {
    if from == |routes| then None
    else if Matches(routes[from], verb, path) then Some(routes[from])
    else LookupFrom(routes, from + 1, verb, path)
  }

  /** The first registered route matching the request. */
  function Lookup(routes: seq<Route>, verb: Verb, path: seq<string>): (r: Option<Route>)
    ensures r.Some? ==> exists k :: 0 <= k < |routes| && routes[k] == r.value && Matches(r.value, verb, path)
                                    && forall j :: 0 <= j < k ==> !Matches(routes[j], verb, path)
    ensures r.None? <==> forall k :: 0 <= k < |routes| ==> !Matches(routes[k], verb, path)
  {
    LookupFrom(routes, 0, verb, path)
  }

  /** The lookup finds the route at `k` when it matches and no earlier one does. */
  lemma {:induction false} FirstMatch(routes: seq<Route>, from: nat, k: nat, verb: Verb, path: seq<string>)
    requires from <= k < |routes| && Matches(routes[k], verb, path)
    requires forall j :: from <= j < k ==> !Matches(routes[j], verb, path)
    ensures LookupFrom(routes, from, verb, path) == Some(routes[k])
    decreases k - from
  {
    if from < k {
      FirstMatch(routes, from + 1, k, verb, path);
    }
  }

  /** One gate, as `adminOnly` and `requirePermission(p)` decide for an authenticated user. */
  function RunGuard(g: Guard, u: User): AuthMiddleware.Gate {
    match g
    case AdminGate => AuthMiddleware.AdminOnly(Some(u))
    case PermissionGate(p) => AuthMiddleware.RequirePermission(Some(u), p)
  }

  /** The gates of a route in order; the first that halts answers the request. */
  function RunGuards(gs: seq<Guard>, u: User): (r: AuthMiddleware.Gate)
    ensures r.Pass? <==> forall i :: 0 <= i < |gs| ==> RunGuard(gs[i], u).Pass?
  {
    if |gs| == 0 then AuthMiddleware.Pass
    else match RunGuard(gs[0], u)
      case Halt(response) => AuthMiddleware.Halt(response)
      case Pass =>
        var rest := RunGuards(gs[1..], u);
        assert forall i :: 1 <= i < |gs| ==> gs[i] == gs[1..][i - 1];
        rest
  }

  /** Where a request ends: in a controller (with the authenticated user), in a gate's
      response, or unmatched (Express's own 404). */
  datatype Outcome = Reached(handler: Handler, user: User) | Stopped(response: Response) | NoRoute

  /** What a router does with the authentication result: a refusal answers the request, an
      admitted user goes to the first matching route's gates and then its controller. */
  function Dispatch(routes: seq<Route>, auth: AuthMiddleware.AuthResult, verb: Verb, path: seq<string>): (r: Outcome)
    ensures auth.Refused? ==> r == Stopped(auth.response)
    ensures r.Reached? <==>
      && auth.Admitted?
      && Lookup(routes, verb, path).Some?
      && RunGuards(Lookup(routes, verb, path).value.guards, auth.user).Pass?
    ensures r.Reached? ==> r.user == auth.user && r.handler == Lookup(routes, verb, path).value.handler
    ensures r.NoRoute? <==> auth.Admitted? && Lookup(routes, verb, path).None?
  {
    match auth
    case Refused(response) => Stopped(response)
    case Admitted(u) =>
      match Lookup(routes, verb, path)
      case None => NoRoute
      case Some(route) =>
        match RunGuards(route.guards, u)
        case Halt(response) => Stopped(response)
        case Pass => Reached(route.handler, u)
  }

  /** A request through one router: authentication first (`router.use`), whether or not any
      route matches; the users table changes only as authentication changes it. */
  function Serve(routes: seq<Route>, users: seq<User>, header: Option<string>,
                 verify: string -> AuthMiddleware.Verification, now: int, verb: Verb, path: seq<string>)
    : (r: (seq<User>, Outcome))
    // The table changes only as authentication changes it, whatever the route.
    ensures r.0 == AuthMiddleware.Authentication(users, header, verify, now).0
    // A refused authentication answers the request before any route is looked up.
    ensures AuthMiddleware.Authentication(users, header, verify, now).1.Refused? ==>
      r.1 == Stopped(AuthMiddleware.Authentication(users, header, verify, now).1.response)
    // A controller is reached only by the authenticated user, on a registered route for the request.
    ensures r.1.Reached? ==>
      && AuthMiddleware.Authentication(users, header, verify, now).1 == AuthMiddleware.Admitted(r.1.user)
      && Lookup(routes, verb, path).Some? && Lookup(routes, verb, path).value.handler == r.1.handler
  {
    var (users', auth) := AuthMiddleware.Authentication(users, header, verify, now);
    (users', Dispatch(routes, auth, verb, path))
  }

  /** Every registered route of both routers runs authentication before its own gates, and an
      unmatched request is still authenticated first. */
  lemma AuthenticationRunsFirst(users: seq<User>, header: Option<string>,
                                verify: string -> AuthMiddleware.Verification, now: int, verb: Verb, path: seq<string>)
    requires AuthMiddleware.Authentication(users, header, verify, now).1.Refused?
    ensures Serve(AuthRoutes, users, header, verify, now, verb, path).1.Stopped?
    ensures Serve(TaskRoutes, users, header, verify, now, verb, path).1.Stopped?
    ensures StatusCode(Serve(AuthRoutes, users, header, verify, now, verb, path).1.response) in {401, 403}
    ensures StatusCode(Serve(TaskRoutes, users, header, verify, now, verb, path).1.response) in {401, 403}
  {
  }

  /** A request that the lookup sends to a route without gates reaches its controller. */
  lemma Ungated(routes: seq<Route>, u: User, verb: Verb, path: seq<string>, k: nat)
    requires k < |routes| && routes[k].guards == []
    requires Lookup(routes, verb, path) == Some(routes[k])
    ensures Dispatch(routes, AuthMiddleware.Admitted(u), verb, path) == Reached(routes[k].handler, u)
  {
  }

  /** GET and PUT `/profile`, in any case, need nothing beyond authentication. */
  lemma ProfileNeedsOnlyAuthentication(u: User, p: string)
    requires ToLower(p) == "profile"
    ensures Dispatch(AuthRoutes, AuthMiddleware.Admitted(u), Get, [p]) == Reached(GetProfile, u)
    ensures Dispatch(AuthRoutes, AuthMiddleware.Admitted(u), Put, [p]) == Reached(UpdateProfile, u)
  {
    ReadProfileReachesController(u, p);
    UpdateProfileReachesController(u, p);
  }

  /** GET `/profile` reaches `getProfile` for every authenticated user. */
  lemma ReadProfileReachesController(u: User, p: string)
    requires ToLower(p) == "profile"
    ensures Dispatch(AuthRoutes, AuthMiddleware.Admitted(u), Get, [p]) == Reached(GetProfile, u)
  {
    assert Matches(AuthRoutes[0], Get, [p]);
    FirstMatch(AuthRoutes, 0, 0, Get, [p]);
    Ungated(AuthRoutes, u, Get, [p], 0);
  }

  /** PUT `/profile` reaches `updateProfile` for every authenticated user. */
  lemma UpdateProfileReachesController(u: User, p: string)
    requires ToLower(p) == "profile"
    ensures Dispatch(AuthRoutes, AuthMiddleware.Admitted(u), Put, [p]) == Reached(UpdateProfile, u)
  {
    assert Matches(AuthRoutes[1], Put, [p]);
    FirstMatch(AuthRoutes, 0, 1, Put, [p]);
    Ungated(AuthRoutes, u, Put, [p], 1);
  }

  /** The five admin requests of the user router, their literal segments in any case. */
  predicate AdminRequest(verb: Verb, path: seq<string>, h: Handler) {
    || (verb == Get && |path| == 1 && ToLower(path[0]) == "users" && h == GetAllUsers)
    || (verb == Get && |path| == 2 && ToLower(path[0]) == "users" && ToLower(path[1]) == "stats" && h == GetUserStats)
    || (verb == Put && |path| == 3 && ToLower(path[0]) == "users" && path[1] != "" && ToLower(path[2]) == "role"
        && h == UpdateUserRole)
    || (verb == Put && |path| == 3 && ToLower(path[0]) == "users" && path[1] != "" && ToLower(path[2]) == "status"
        && h == ToggleUserStatus)
    || (verb == Delete && |path| == 2 && ToLower(path[0]) == "users" && path[1] != "" && h == DeleteUser)
  }

  /** A request that the lookup sends to an admin-gated route reaches its controller exactly
      for admins; anyone else gets 403. */
  lemma AdminGated(u: User, verb: Verb, path: seq<string>, k: nat)
    requires k < |AuthRoutes| && AuthRoutes[k].guards == [AdminGate]
    requires Lookup(AuthRoutes, verb, path) == Some(AuthRoutes[k])
    ensures u.role == AdminRole ==>
      Dispatch(AuthRoutes, AuthMiddleware.Admitted(u), verb, path) == Reached(AuthRoutes[k].handler, u)
    ensures u.role != AdminRole ==>
      Dispatch(AuthRoutes, AuthMiddleware.Admitted(u), verb, path) == Stopped(Forbidden(RoleRequired))
  {
    assert RunGuards(AuthRoutes[k].guards, u) == RunGuard(AdminGate, u);
  }

  /** The admin routes reach their controller exactly for admins; anyone else gets 403 before
      the controller's own validation, self check or lookup runs. */
  lemma AdminRoutesRequireAdmin(u: User, verb: Verb, path: seq<string>, h: Handler)
    requires AdminRequest(verb, path, h)
    ensures u.role == AdminRole ==> Dispatch(AuthRoutes, AuthMiddleware.Admitted(u), verb, path) == Reached(h, u)
    ensures u.role != AdminRole ==>
      Dispatch(AuthRoutes, AuthMiddleware.Admitted(u), verb, path) == Stopped(Forbidden(RoleRequired))
  {
    var k: nat;
    if verb == Get && |path| == 1 {
      k := 2;
    } else if verb == Get {
      assert !Matches(AuthRoutes[2], verb, path);
      k := 3;
    } else if verb == Put && ToLower(path[2]) == "role" {
      assert SegmentsFrom(AuthRoutes[4].pattern, path, 1);
      k := 4;
    } else if verb == Put {
      assert !SegmentsFrom(AuthRoutes[4].pattern, path, 2) && SegmentsFrom(AuthRoutes[5].pattern, path, 1);
      assert !SegmentsFrom(AuthRoutes[4].pattern, path, 1);
      assert !Matches(AuthRoutes[4], verb, path);
      k := 5;
    } else {
      assert !Matches(AuthRoutes[4], verb, path) && !Matches(AuthRoutes[5], verb, path);
      k := 6;
    }
    assert Matches(AuthRoutes[k], verb, path);
    assert forall j :: 0 <= j < k ==> !Matches(AuthRoutes[j], verb, path);
    FirstMatch(AuthRoutes, 0, k, verb, path);
    AdminGated(u, verb, path, k);
  }

  /** POST `/` admits exactly the users whose role is one of the three: every recognised role
      holds create:tasks. Any other role gets 403, except one naming an inherited member of the
      permission table, for which the gate throws and the answer is 500. */
  lemma CreateNeedsOnlyARole(u: User)
    ensures IsRole(u.role) ==> Dispatch(TaskRoutes, AuthMiddleware.Admitted(u), Post, []) == Reached(CreateTask, u)
    ensures !IsRole(u.role) && !InheritedName(u.role) ==>
      Dispatch(TaskRoutes, AuthMiddleware.Admitted(u), Post, []) == Stopped(Forbidden(PermissionRequired))
    ensures InheritedName(u.role) ==> Dispatch(TaskRoutes, AuthMiddleware.Admitted(u), Post, []) == Stopped(ServerError)
  {
    assert !Matches(TaskRoutes[0], Post, []) && Matches(TaskRoutes[1], Post, []);
    PermissionHighlights(u.role);
  }

  /** `/stats` is registered before `/:id`, so GET `/stats`, in any case, is never read as a task
      id; any other single segment is. */
  lemma StatsBeforeId(u: User, id: string)
    requires id != ""
    ensures ToLower(id) == "stats" ==> Dispatch(TaskRoutes, AuthMiddleware.Admitted(u), Get, [id]) == Reached(GetTaskStats, u)
    ensures ToLower(id) != "stats" ==> Dispatch(TaskRoutes, AuthMiddleware.Admitted(u), Get, [id]) == Reached(GetTaskById, u)
  {
    if ToLower(id) == "stats" {
      assert Matches(TaskRoutes[0], Get, [id]);
      FirstMatch(TaskRoutes, 0, 0, Get, [id]);
      Ungated(TaskRoutes, u, Get, [id], 0);
    } else {
      assert !Matches(TaskRoutes[0], Get, [id]) && !Matches(TaskRoutes[1], Get, [id]);
      assert !Matches(TaskRoutes[2], Get, [id]) && Matches(TaskRoutes[3], Get, [id]);
      FirstMatch(TaskRoutes, 0, 3, Get, [id]);
      Ungated(TaskRoutes, u, Get, [id], 3);
    }
  }

  /** Listing and reading tasks carry no route-level gate: every authenticated user reaches the
      controller, whatever the role, and all restrictions live there. */
  lemma TaskReadsHaveNoRoleGate(u: User, id: string)
    requires id != "" && ToLower(id) != "stats"
    ensures Dispatch(TaskRoutes, AuthMiddleware.Admitted(u), Get, []) == Reached(GetTasks, u)
    ensures Dispatch(TaskRoutes, AuthMiddleware.Admitted(u), Get, [id]) == Reached(GetTaskById, u)
  {
    ListReachesController(u);
    StatsBeforeId(u, id);
  }

  /** GET `/` reaches `getTasks` for every authenticated user. */
  lemma ListReachesController(u: User)
    ensures Dispatch(TaskRoutes, AuthMiddleware.Admitted(u), Get, []) == Reached(GetTasks, u)
  {
    assert !Matches(TaskRoutes[0], Get, []) && !Matches(TaskRoutes[1], Get, []) && Matches(TaskRoutes[2], Get, []);
    FirstMatch(TaskRoutes, 0, 2, Get, []);
    Ungated(TaskRoutes, u, Get, [], 2);
  }

  /** Updating and deleting tasks carry no route-level gate either (`adminOnly` is imported by the
      task router but never used): the controller decides. */
  lemma TaskWritesHaveNoRoleGate(u: User, id: string)
    requires id != ""
    ensures Dispatch(TaskRoutes, AuthMiddleware.Admitted(u), Put, [id]) == Reached(UpdateTask, u)
    ensures Dispatch(TaskRoutes, AuthMiddleware.Admitted(u), Delete, [id]) == Reached(DeleteTask, u)
  {
    UpdateReachesController(u, id);
    DeleteReachesController(u, id);
  }

  /** PUT /:id reaches `updateTask` for every authenticated user. */
  lemma UpdateReachesController(u: User, id: string)
    requires id != ""
    ensures Dispatch(TaskRoutes, AuthMiddleware.Admitted(u), Put, [id]) == Reached(UpdateTask, u)
  {
    assert !Matches(TaskRoutes[0], Put, [id]) && !Matches(TaskRoutes[1], Put, [id]);
    assert !Matches(TaskRoutes[2], Put, [id]) && !Matches(TaskRoutes[3], Put, [id]);
    assert Matches(TaskRoutes[4], Put, [id]);
    FirstMatch(TaskRoutes, 0, 4, Put, [id]);
    Ungated(TaskRoutes, u, Put, [id], 4);
  }

  /** DELETE /:id reaches `deleteTask` for every authenticated user. */
  lemma DeleteReachesController(u: User, id: string)
    requires id != ""
    ensures Dispatch(TaskRoutes, AuthMiddleware.Admitted(u), Delete, [id]) == Reached(DeleteTask, u)
  {
    assert !Matches(TaskRoutes[0], Delete, [id]) && !Matches(TaskRoutes[1], Delete, [id]);
    assert !Matches(TaskRoutes[2], Delete, [id]) && !Matches(TaskRoutes[3], Delete, [id]);
    assert !Matches(TaskRoutes[4], Delete, [id]) && Matches(TaskRoutes[5], Delete, [id]);
    FirstMatch(TaskRoutes, 0, 5, Delete, [id]);
    Ungated(TaskRoutes, u, Delete, [id], 5);
  }
}
