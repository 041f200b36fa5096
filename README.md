# Role-based access control of a task manager

This project is a Dafny model of the access-control core of a MERN task manager. Its users sign
in through Firebase and carry one of three roles: `user`, `manager` or `admin`. The model covers
five parts.

- **Server side: the `User` document.** Its defaults, the permission list derived from the role,
  and `hasPermission`.
- **Server side: the authentication middleware.** Bearer-header parsing, the verifier's answer,
  find-or-create of the user record, the deactivation check and error classification. Then the
  `authorize`, `requirePermission`, `adminOnly` and `managerOrAdmin` gates.
- **Server side: both routers.** Their registration order and the gates on each route. Routers are
  created with Express's default `caseSensitive: false`, so a literal path segment matches in any
  letter case (`/Stats` is the statistics route, `/users/u2/ROLE` the role change).
- **Server side: both controllers.**
  - Tasks: create, list with filters and pagination, read, update, delete and statistics.
  - Users: own profile read and update; for admins, list, role change, status toggle, delete and
    statistics.
- **Browser side.**
  - The authentication context: the profile, `hasPermission`, `hasRole`, `isAdmin` and
    `isManagerOrAdmin`, the auth-state callback and logout.
  - The `ProtectedRoute` guard.
  - The parts of the Tasks and Users pages that decide what is requested or shown: filter state,
    the task form and its tag string, edit/delete/create controls, the role dialog and the
    per-row guard.

How the model is built:

- **Collections.** The two Mongo collections are sequences kept in insertion order. The users are
  unique by `firebaseUid` and by email, with roles in the enum. The tasks are unique by id. The
  `Store.Db` class holds them.
- **Handlers.**
  - Each handler that writes is a method with a `modifies` clause. Its postcondition ties the new
    table and the response to a pure function over the old table, e.g. `AuthController.RoleChange`
    or `TaskController.Update`.
  - The properties the code promises are proved as lemmas about those functions.
  - Lookups (`findOne`, `findById`) are loops proved against the index functions.
  - Each list endpoint builds its filter field by field. A method proves that filter matches
    exactly what a per-record predicate states.
- **Things outside the code**, passed in as parameters:
  - `verify`: the Firebase ID-token verifier.
  - `hit`: the case-insensitive regex search.
  - `now`: the clock.

The handlers follow the code as written, including the three defects listed under
"## Findings". Each defect also has a corrected definition, with the intended property proved
about it. The browser pages are modelled against the server functions: the page lemmas state that
what a page offers is what the server would allow.

`backend/models/Task.js` is not part of this model. The task fields and defaults used here are the
ones `taskController.js` writes and reads.

## Model

| member | source | states |
|---|---|---|
| Outcomes.OrElse | backend/controllers/taskController.js:26-35 | `x \|\| fallback` on an optional string: the value when it is truthy, else the fallback; the result is empty only when both the value is falsy and the fallback is empty, so a non-empty default is never lost |
| Text.Trim | backend/models/User.js:15-20 | the stored form of a `trim: true` field has no white space at either end and is no longer than the input |
| Text.TrimIsInfix | backend/models/User.js:15-20 | the trimmed string is the input with white space removed at its two ends and nowhere else: an infix of it, with only white space before and after |
| Text.TrimOfTrimmed | backend/models/User.js:15-20 | trimming a string with no outer white space leaves it unchanged |
| Text.SpaceAfter | backend/models/User.js:15-20 | white space at the tail of a suffix of a string is white space at the same place in the string |
| Text.TrimKeepsNoUpper | backend/models/User.js:14-15 | trimming a string without upper-case ASCII letters leaves none |
| Text.ToLowerNoUpper | backend/models/User.js:14 | a lowered string has no upper-case ASCII letter |
| Text.ToLower | backend/models/User.js:14 | `lowercase: true` maps each character to its lower-case form, keeping the length |
| Text.Before | backend/middleware/auth.js:28 | `email.split('@')[0]` is the longest prefix without '@', and the character after it, if any, is '@' |
| Text.SplitAtSeparator | frontend/src/pages/Tasks.js:134 | `split(',')` makes what precedes the first comma one part and splits the rest on |
| Text.SplitWithoutSeparator | frontend/src/pages/Tasks.js:134 | a string without a comma splits into itself alone |
| UserModel.PermissionTable | backend/models/User.js:53-60 | the permission list of each role, entry by entry; any other role string has none |
| UserModel.UnknownRoleHasNoPermission | backend/models/User.js:53-65 | a role outside the enum holds no permission: `hasPermission` fails for every permission (for a role naming an inherited `Object.prototype` member the lookup does not yield `[]` and `hasPermission` throws; `RequirePermission` states that answer) |
| UserModel.PermissionHighlights | backend/models/User.js:53-60 | create:tasks is held by exactly the three roles; manage:users and delete:all-tasks by admin alone; read:own-tasks by user alone |
| UserModel.ManagerWithinAdmin | backend/models/User.js:53-60 | every manager permission is an admin permission; every user permission except read:own-tasks is a manager permission |
| UserModel.PermissionsDistinct | backend/models/User.js:53-60 | no permission list repeats an entry |
| UserModel.NormalizeEmail | backend/models/User.js:10-16 | the stored email is trimmed and has no upper-case ASCII letter |
| UserModel.NormalizedEmailIsLoweredInfix | backend/models/User.js:10-16 | the stored email is the input, lowered, with white space removed at its ends and nowhere else |
| UserModel.LowerKeepsSpace | backend/models/User.js:14-15 | lowering a character neither creates nor removes white space, so lowering and trimming commute |
| UserModel.NewUser | backend/models/User.js:3-35 | the record saves if and only if the uid and the normalized email are non-empty and the trimmed display name is 1 to 50 characters long; it saves with role 'user', active, the login and creation times set to now, and no profile |
| UserModel.WithLastLogin | backend/models/User.js:68-71 | `updateLastLogin` sets the login time and changes nothing else |
| Store.UserIndex | backend/middleware/auth.js:21 | the position of the first record with the uid, or none exactly when no record has it |
| Store.UserIndexOf | backend/middleware/auth.js:21 | with unique uids, the lookup of a stored uid finds the position it is stored at |
| Store.AppendUserKeepsValid | backend/models/User.js:4-27 | appending a record with a new uid, a new email and a valid role keeps both unique indexes and the role enum |
| Store.TaskIndex | backend/controllers/taskController.js:133 | the position of a task with the id, or none exactly when no task has it |
| Store.FindUser | backend/middleware/auth.js:21 | the `findOne` scan returns the position the index function gives, or -1 when it gives none |
| Store.FirstUserIndex | backend/middleware/auth.js:21 | a record preceded by no record with its uid is the one the lookup finds |
| Store.FindTask | backend/controllers/taskController.js:133 | the `findById` scan returns the position the index function gives, or -1 when it gives none |
| Store.FirstTaskIndex | backend/controllers/taskController.js:133 | a task preceded by no task with its id is the one the lookup finds |
| Store.Db.UpdateLastLogin | backend/models/User.js:68-71 | only the login time of that record changes, and the tables stay valid |
| Paging.Window | backend/controllers/taskController.js:97-104 | `.skip(s).limit(l)` returns the matching results from position s on, at most l of them |
| Paging.CeilDiv | backend/controllers/taskController.js:112 | `Math.ceil(total / limit)` is the least page count whose pages cover the total |
| Paging.CeilDivLeast | backend/controllers/taskController.js:112 | a page count covers the total exactly when it is at least the ceiling |
| Paging.PaginationConsistent | backend/controllers/taskController.js:108-117 | for the page actually returned, hasNext holds exactly when the page is not the last, hasPrev exactly when it is not the first, and totalPages pages cover every match |
| AuthMiddleware.BearerToken | backend/middleware/auth.js:9-15 | a token exists exactly when the header starts with "Bearer ", and the header is that prefix followed by the token |
| AuthMiddleware.ClassifyFailure | backend/middleware/auth.js:48-65 | the expired and revoked codes have their own 401 messages; any other failure is an invalid token |
| AuthMiddleware.DisplayNameFor | backend/middleware/auth.js:28 | the token's name when truthy; otherwise the email's local part, or a failure when there is no email |
| AuthMiddleware.Provision | backend/middleware/auth.js:23-32 | a created record has the token's uid, role 'user', is active and carries the trimmed derived name; its email is not already stored |
| AuthMiddleware.ReturningLogin | backend/middleware/auth.js:33-41 | a known uid has only its login time written and is then admitted if active, or refused with 403 if deactivated |
| AuthMiddleware.FirstLogin | backend/middleware/auth.js:21-35 | an unseen uid gets exactly one appended record and is admitted, or, when creation throws, nothing is stored and the request gets 401 |
| AuthMiddleware.Authentication | backend/middleware/auth.js:5-67 | a missing header gives 401 with no lookup, and a rejected token a 401 with its classified reason; every refusal is a 401 or the deactivation 403; an admitted user is active, carries the uid of the verified token, and is the stored record for that uid; existing records change only in login time, at most one is added, and the table stays valid |
| AuthMiddleware.ReauthenticationAddsNoUser | backend/middleware/auth.js:21-35 | a second request with the same token adds no record: the two tables differ only in login times |
| AuthMiddleware.StoredUidSignsIn | backend/middleware/auth.js:18-41 | a verified token whose uid is stored writes only that record's login time, adds no record, and is admitted exactly when the record is active, otherwise refused with 403 |
| AuthMiddleware.DeactivatedAlwaysRefused | backend/middleware/auth.js:33-41 | a stored, deactivated user is refused with 403 whatever their role, and only their login time is written |
| AuthMiddleware.FirstLoginCreatesOneUser | backend/middleware/auth.js:23-32 | an unseen uid appends one active 'user' record named after the token's name or the email's local part |
| AuthMiddleware.Authorize | backend/middleware/auth.js:70-86 | passes exactly for an authenticated user whose role is allowed; 401 without a user, 403 for another role |
| AuthMiddleware.RequirePermission | backend/middleware/auth.js:89-105 | passes exactly for an authenticated user holding the permission; 401 without a user; 500 when the role names an inherited `Object.prototype` member, so that `hasPermission` throws (User.js:59, 63-65); 403 otherwise |
| AuthMiddleware.AdminOnly | backend/middleware/auth.js:108 | passes exactly for admins |
| AuthMiddleware.ManagerOrAdmin | backend/middleware/auth.js:111 | passes exactly for managers and admins |
| AuthMiddleware.RoleGatesMatchPermissions | backend/middleware/auth.js:70-111 | admin-only admits exactly the holders of manage:users; manager-or-admin exactly the holders of update:all-tasks; create:tasks admits every recognised role |
| AuthMiddleware.AuthenticateUser | backend/middleware/auth.js:5-67 | the middleware's run over the store gives the table and outcome stated by `Authentication`, and keeps the store valid |
| AuthMiddleware.Login | backend/middleware/auth.js:20-41 | a stored uid has only its record's login time written and is admitted exactly when active, otherwise refused with 403; an unseen uid goes through first-login creation; a valid table stays valid |
| AuthMiddleware.SignIn | backend/middleware/auth.js:20-41 | the look-up-or-create step over the store gives the table and outcome stated by `Login`, and keeps the store valid |
| AuthMiddleware.FirstSignIn | backend/middleware/auth.js:23-31 | creating the record of an unseen uid over the store gives the table and outcome stated by `FirstLogin`, and keeps the store valid |
| AuthMiddleware.FirstLoginAppends | backend/middleware/auth.js:23-31 | a successful creation appends one active record to a valid table, keeps it valid, and admits that record |
| AuthMiddleware.ReturningSignIn | backend/middleware/auth.js:32-41 | a stored uid over the store gets the table and outcome stated by `ReturningLogin`: only its login time is written |
| TaskController.AccessLadder | backend/controllers/taskController.js:139-148 | whoever may delete a task may update it, and whoever may update it may read it |
| TaskController.AccessAsymmetries | backend/controllers/taskController.js:173-181 | a manager may update but not delete a task of others; a 'user' who did not create a task may neither update nor delete it, and may read it exactly when it is assigned to them |
| TaskController.NewTask | backend/controllers/taskController.js:26-35 | the created task records the requester as creator; status, priority and assignee default to pending, medium and the requester when not truthy; tags default to none; the task is not archived |
| TaskController.Creation | backend/controllers/taskController.js:5-51 | 400 without a truthy title and description; 400 when a different assignee is not a stored user; otherwise 201, one task appended with the next id; ids stay unique |
| TaskController.CreatorControlsNewTask | backend/controllers/taskController.js:26-35 | the creator of a new task may read, update and delete it, whoever it is assigned to |
| TaskController.CreateTask | backend/controllers/taskController.js:5-51 | the handler's run over the store matches `Creation` |
| TaskController.BuildTaskFilter | backend/controllers/taskController.js:67-94 | the filter document admits a task exactly when the per-task listing rule selects it |
| TaskController.Matching | backend/controllers/taskController.js:100-106 | the matching tasks are exactly the stored tasks the listing rule selects |
| TaskController.MatchingOneMore | backend/controllers/taskController.js:100-106 | one more stored task extends the matching list by that task exactly when the listing rule selects it |
| TaskController.ListTasks | backend/controllers/taskController.js:53-127 | the response is the requested page of the matching tasks and the pagination object for it |
| TaskController.UnsearchedListIsReadable | backend/controllers/taskController.js:70-80 | without a search, every task a requester can list they can also open |
| TaskController.SearchListsUnreadableTask | backend/controllers/taskController.js:70-94 | as written, a 'user' who searches lists another user's task that `getTaskById` refuses them |
| TaskController.IntendedListIsReadable | backend/controllers/taskController.js:70-94 | with the search narrowing the ownership rule instead of replacing it, every listed task is readable, and nothing changes when there is no search |
| TaskController.GetTaskById | backend/controllers/taskController.js:129-160 | 404 for an unknown id before any access check; 200 with the stored task exactly when the requester may read it; 403 otherwise |
| TaskController.PatchProperties | backend/controllers/taskController.js:195-196 | applying a body twice equals applying it once, an empty body changes nothing, and the id is kept |
| TaskController.Update | backend/controllers/taskController.js:162-210 | 404 for an unknown id; 403 without update rights; 400 when a new truthy assignee is not stored; otherwise 200 and only that task replaced by the patched one; ids stay unique |
| TaskController.CreatorCanBeRewritten | backend/controllers/taskController.js:195-196 | as written, a creator can send `createdBy` and so give away the task, losing the right to update it |
| TaskController.IntendedUpdateKeepsCreator | backend/controllers/taskController.js:195-196 | with `createdBy` ignored, the creator and the id survive every update, and so do the requester's update and delete rights |
| TaskController.UpdateTask | backend/controllers/taskController.js:162-210 | the handler's run over the store matches `Update` |
| TaskController.Deletion | backend/controllers/taskController.js:212-243 | 404 for an unknown id; 200 exactly when the requester may delete the task, which is then removed with every other task kept in order; otherwise 403 and nothing changes |
| Store.RemoveAt | backend/controllers/taskController.js:232 | removing one position keeps every other element, in order, one shorter |
| Store.RemoveTaskKeepsValid | backend/controllers/taskController.js:232 | removing a task keeps the ids distinct and below the next id, and the removed id is no longer stored |
| TaskController.DeleteTask | backend/controllers/taskController.js:212-243 | the handler's run over the store matches `Deletion` |
| TaskController.Tally | backend/controllers/taskController.js:257-294 | the total is the number of tasks in scope; the three status counts together, and overdue plus completed, never exceed it; an empty scope gives zeros |
| TaskController.StatsScopeIsUnsearchedList | backend/controllers/taskController.js:247-255 | the statistics cover exactly the tasks a list request without search or narrowing would list |
| TaskController.GetTaskStats | backend/controllers/taskController.js:245-304 | the counts are those of `Tally` over the requester's scope |
| AuthController.GetProfile | backend/controllers/authController.js:5-28 | 404 when the requester's record is gone; otherwise the stored record and the requester's permissions |
| AuthController.AllowedPart | backend/controllers/authController.js:38-42 | the update keeps exactly the allowed keys present in the body, each with its last value |
| AuthController.FilterUpdates | backend/controllers/authController.js:38-42 | the loop builds exactly that allowed part |
| AuthController.ApplyProfileUpdates | backend/controllers/authController.js:50-54 | only the display name and profile can change; a display name is stored trimmed and must be 1 to 50 characters; a value of the wrong kind fails |
| AuthController.ProfileUpdate | backend/controllers/authController.js:31-71 | 400 when no allowed key is present; 404 when the requester has no stored record; 500 when the update fails validation or casting; 200 exactly when the record exists and the update validates, with only that record replaced; nothing changes otherwise; the table stays valid |
| AuthController.ProfileUpdateCannotEscalate | backend/controllers/authController.js:36-48 | a body naming only other keys (role, isActive, email...) is a 400 that changes nothing |
| AuthController.UpdateProfile | backend/controllers/authController.js:31-71 | the handler's run over the store matches `ProfileUpdate` |
| AuthController.BuildUserFilter | backend/controllers/authController.js:87-96 | the filter document admits a user exactly when the per-user listing rule selects them |
| AuthController.MatchingUsers | backend/controllers/authController.js:100-107 | the matching users are exactly the stored users the listing rule selects |
| AuthController.GetAllUsers | backend/controllers/authController.js:74-126 | the response is the requested page of the matching users and the pagination object for it |
| AuthController.EmptyStatusHidesActiveUsers | backend/controllers/authController.js:88 | as written, an empty `isActive` parameter lists no active user |
| AuthController.IntendedEmptyStatusListsAll | backend/controllers/authController.js:88 | with an empty `isActive` treated as absent, no user is filtered on status, and "true"/"false" behave as before |
| AuthController.RoleChange | backend/controllers/authController.js:129-168 | 400 for a missing or unknown role before the self check; 400 on oneself; 404 for an unknown uid; otherwise only that user's role changes; the table stays valid |
| AuthController.StatusToggle | backend/controllers/authController.js:171-207 | 400 on oneself; 404 for an unknown uid; otherwise only that user's active flag is negated; the table stays valid |
| AuthController.ToggleTwiceRestores | backend/controllers/authController.js:187-188 | toggling the same user twice restores the table |
| AuthController.Removal | backend/controllers/authController.js:210-242 | 400 on oneself; 404 for an unknown uid; otherwise that user is removed, the rest kept in order, and the uid is no longer stored |
| Store.RemoveUserKeepsValid | backend/controllers/authController.js:222 | removing a user keeps the uids and emails distinct and the roles recognised, and the removed uid is no longer stored |
| AuthController.SelfTargetAlwaysRejected | backend/controllers/authController.js:141-145 | every self-targeted admin operation is a 400 that changes nothing, whatever the payload |
| AuthController.DeletedUserComesBack | backend/controllers/authController.js:222-225 | a deleted user whose token still verifies is created again on the next request, as an active 'user', whatever role they had |
| AuthController.UpdateUserRole | backend/controllers/authController.js:129-168 | the handler's run over the store matches `RoleChange` |
| AuthController.ToggleUserStatus | backend/controllers/authController.js:171-207 | the handler's run over the store matches `StatusToggle` |
| AuthController.DeleteUser | backend/controllers/authController.js:210-242 | the handler's run over the store matches `Removal` and leaves the tasks untouched |
| AuthController.CountUsers | backend/controllers/authController.js:247-260 | active plus inactive is the total; with valid roles, the three role counts add up to the total; no users gives zeros |
| AuthController.CountOneMore | backend/controllers/authController.js:247-260 | counting one more user adds exactly that user to the counts |
| AuthController.CountAll | backend/controllers/authController.js:247-260 | the one-pass count over the users equals `CountUsers` |
| AuthController.Insert | backend/controllers/authController.js:262-266 | inserting a position keeps the entries before it and shifts those after it by one |
| AuthController.Newest | backend/controllers/authController.js:262-266 | the result lists the newest min(k, n) users, newest first and without repeats, and nobody left out is newer than anyone listed |
| AuthController.InsertOrdered | backend/controllers/authController.js:262-266 | inserting a user at its place keeps the list newest first and free of repeats |
| AuthController.InsertWhileShort | backend/controllers/authController.js:262-266 | while fewer than k are listed, every user seen so far is listed |
| AuthController.InsertAndDrop | backend/controllers/authController.js:262-266 | with k listed and a newer user inserted, dropping the oldest keeps the k newest |
| AuthController.InsertKeepsAll | backend/controllers/authController.js:262-266 | while the list holds every user seen, inserting the next one keeps it holding every user seen |
| AuthController.DroppedNoNewer | backend/controllers/authController.js:262-266 | after the oldest listed user drops out, whoever is left out is no newer than anyone kept |
| AuthController.OlderThanAllListed | backend/controllers/authController.js:262-266 | a user no newer than any of the k listed leaves the list as it is |
| AuthController.Select | backend/controllers/authController.js:262-266 | the selected records are those at the listed positions, in order |
| AuthController.GetUserStats | backend/controllers/authController.js:245-285 | the counts are those of `CountUsers`, and the recent users are the five newest, newest first |
| Routes.LookupFrom | backend/routes/taskRoutes.js:21-36 | from a given position on, the first registered route matching the method and path, or none exactly when none matches |
| Routes.Lookup | backend/routes/authRoutes.js:21-40 | the first registered route matching the method and path, or none exactly when none matches |
| Routes.RunGuards | backend/routes/authRoutes.js:28-40 | a route's gates pass exactly when each of them passes |
| Routes.Dispatch | backend/routes/authRoutes.js:18-40 | a refused authentication answers the request; an admitted user reaches the first matching route's controller exactly when its gates pass |
| Routes.FirstMatch | backend/routes/authRoutes.js:21-40 | when no earlier route matches, lookup finds the first route that does |
| Routes.Ungated | backend/routes/taskRoutes.js:21-36 | a found route without gates sends every admitted user to its controller |
| Routes.AdminGated | backend/routes/authRoutes.js:28-40 | a found route gated by `adminOnly` admits admins and answers 403 to everyone else |
| Routes.Serve | backend/routes/taskRoutes.js:18 | authentication runs first: the table changes only as it changes it, a refusal answers before any lookup, and a controller is reached only by the authenticated user on a route registered for the request |
| Routes.AuthenticationRunsFirst | backend/routes/authRoutes.js:18 | on both routers, a refused authentication stops every request with a 401 or 403 |
| Routes.ProfileNeedsOnlyAuthentication | backend/routes/authRoutes.js:21-24 | GET and PUT /profile, in any letter case, reach their controllers for every authenticated user |
| Routes.ReadProfileReachesController | backend/routes/authRoutes.js:21 | GET /profile, in any letter case, reaches getProfile for every authenticated user |
| Routes.UpdateProfileReachesController | backend/routes/authRoutes.js:24 | PUT /profile, in any letter case, reaches updateProfile for every authenticated user |
| Routes.AdminRoutesRequireAdmin | backend/routes/authRoutes.js:28-40 | the five user-management routes, their literal segments in any letter case, reach their controllers exactly for admins; anyone else gets a 403 |
| Routes.CreateNeedsOnlyARole | backend/routes/taskRoutes.js:24 | POST / reaches createTask exactly for users with a recognised role; a role naming an inherited `Object.prototype` member gets 500 from the throwing gate; anyone else gets a 403 |
| Routes.StatsBeforeId | backend/routes/taskRoutes.js:21-30 | GET of a single segment reaches the statistics exactly when it is "stats" in some letter case, so such a segment is never read as a task id; any other segment reaches getTaskById |
| Routes.TaskReadsHaveNoRoleGate | backend/routes/taskRoutes.js:27-30 | listing tasks, and reading a task whose id is not "stats" in any letter case, reach their controllers for every authenticated user |
| Routes.ListReachesController | backend/routes/taskRoutes.js:27 | GET / reaches getTasks for every authenticated user |
| Routes.TaskWritesHaveNoRoleGate | backend/routes/taskRoutes.js:33-36 | updating and deleting tasks reach their controllers for every authenticated user; the controllers decide |
| Routes.UpdateReachesController | backend/routes/taskRoutes.js:33-36 | PUT /:id reaches the update controller for every authenticated user |
| Routes.DeleteReachesController | backend/routes/taskRoutes.js:33-36 | DELETE /:id reaches the delete controller for every authenticated user |
| ClientAuth.FromServer | backend/controllers/authController.js:15-19 | the profile the client holds has the record's uid and role and the permissions of that role, so the client's permission test on it is exactly the role's permission table |
| ClientAuth.HasPermission | frontend/src/contexts/AuthContext.js:102-104 | true exactly when a profile with a permission list is held and it lists the permission |
| ClientAuth.HasRole | frontend/src/contexts/AuthContext.js:107-112 | equality for one role, membership for an array, false without a profile |
| ClientAuth.IsAdmin | frontend/src/contexts/AuthContext.js:115 | true exactly for a held admin profile |
| ClientAuth.IsManagerOrAdmin | frontend/src/contexts/AuthContext.js:118 | true exactly for a held manager or admin profile |
| ClientAuth.ClientAgreesWithServerGates | frontend/src/contexts/AuthContext.js:102-118 | on the profile the server sent, `hasPermission`, `isAdmin` and `isManagerOrAdmin` decide exactly as `requirePermission`, `adminOnly` and `managerOrAdmin` |
| ClientAuth.SignedOutPassesNothing | frontend/src/contexts/AuthContext.js:102-118 | without a profile every client test fails |
| ClientAuth.AuthSession.constructor | frontend/src/contexts/AuthContext.js:120-135 | no account and no profile are held, and loading is set |
| ClientAuth.AuthSession.OnAuthStateChanged | frontend/src/contexts/AuthContext.js:120-135 | records the account and ends loading; signed out clears the profile; a fetched profile replaces it; a failed fetch keeps the old one |
| ClientAuth.AuthSession.Logout | frontend/src/contexts/AuthContext.js:61-70 | a successful sign-out clears the profile; a failed one keeps it |
| ClientAuth.AuthSession.UpdateUserProfile | frontend/src/contexts/AuthContext.js:88-99 | the returned record replaces the profile; a failed request keeps it |
| ProtectedRoute.Decide | frontend/src/components/ProtectedRoute.js:10-64 | signed out redirects; without a profile it waits; a demanded role not held denies; then a truthy permission not held denies; the page renders exactly when every demanded role and permission is held |
| ProtectedRoute.SignedOutAlwaysRedirects | frontend/src/components/ProtectedRoute.js:10-12 | signed out, the redirect wins whatever the requirements and profile |
| ProtectedRoute.RoleCheckedBeforePermission | frontend/src/components/ProtectedRoute.js:24-62 | a role refusal hides any permission refusal |
| ProtectedRoute.NoRequirementRendersChildren | frontend/src/components/ProtectedRoute.js:64 | without requirements, a signed-in user with a profile sees the page |
| ProtectedRoute.GuardMatchesServer | frontend/src/components/ProtectedRoute.js:24-62 | on the profile the server sent, a page guarded by `requiredRole="admin"` renders exactly when `adminOnly` would pass, and a page guarded by a permission exactly when `requirePermission` would |
| TasksPage.ParseTags | frontend/src/pages/Tasks.js:134 | an empty tag string gives no tags; any other gives one tag per comma-separated part, in order, each the trimmed part |
| Text.SplitJoin | frontend/src/pages/Tasks.js:134 | the parts `split(',')` returns hold no comma, and joined with commas they give back the string |
| TasksPage.SplitJoined | frontend/src/pages/Tasks.js:120 | splitting a `join(', ')` of comma-free tags at commas gives the first tag and each later tag with one leading blank |
| TasksPage.TagsRoundTrip | frontend/src/pages/Tasks.js:120-134 | tags shown in the edit form come back unchanged on submit when none holds a comma or outer white space and the list is not the single empty tag |
| TasksPage.JoinedSplits | frontend/src/pages/Tasks.js:120-134 | the joined comma-free tags split back into the first tag and each later one with its blank |
| TasksPage.JoinedNotEmpty | frontend/src/pages/Tasks.js:120-134 | only the empty list and the single empty tag join to the empty string |
| TasksPage.TrimSpaced | frontend/src/pages/Tasks.js:134 | trimming the split parts removes the blanks the join added and nothing else |
| TasksPage.TrimAllOfTrimmed | frontend/src/pages/Tasks.js:134 | parts with no outer white space are left as they are |
| TasksPage.CommaTagSplits | frontend/src/pages/Tasks.js:120-134 | a tag holding one comma comes back as two tags, the parts on either side of it |
| TasksPage.SplitPair | frontend/src/pages/Tasks.js:134 | a string with one comma splits into the parts on either side of it |
| TasksPage.FormFor | frontend/src/pages/Tasks.js:112-123 | the edit form shows the task's title, description, status, priority and due date, and its tags survive submission exactly when they survive the join-and-split round trip |
| TasksPage.FreshFormDefaults | frontend/src/pages/Tasks.js:99-142 | the create form with only a title and description creates a pending, medium-priority task with no tags and no due date, assigned to and created by the requester; left empty, it is refused with 400 |
| TasksPage.UnchangedEditKeepsTask | frontend/src/pages/Tasks.js:112-142 | saving the edit form unchanged leaves the task as it was, when its tags survive the round trip |
| TasksPage.CanEditTask | frontend/src/pages/Tasks.js:184-188 | no profile, no edit button |
| TasksPage.CanDeleteTask | frontend/src/pages/Tasks.js:190-192 | no profile, no delete button |
| TasksPage.ControlsMatchServer | frontend/src/pages/Tasks.js:184-201 | on the profile the server sent, the edit, delete and create controls appear exactly when `updateTask`, `deleteTask` and `POST /tasks` would allow the action |
| TasksPage.WithFilter | frontend/src/pages/Tasks.js:87-93 | changing a filter sets that field, goes back to page 1 and keeps the other fields |
| TasksPage.QueryOf | frontend/src/pages/Tasks.js:68-75 | the list request sends the status, priority and search filter strings as they are, empty strings included, with the page, the server's limit of 10 and no assignee filter |
| TasksPage.InitialQueryListsOwnTasks | frontend/src/pages/Tasks.js:46-51 | the page's first request narrows nothing: a 'user' sees their own non-archived tasks, every other role all non-archived tasks |
| TasksPage.ClearedFilterNarrowsNothing | frontend/src/pages/Tasks.js:87-93 | a filter cleared to the empty string lists the same tasks as one never set |
| TasksPage.TasksView.constructor | frontend/src/pages/Tasks.js:46-63 | the page starts with empty filters on page 1, the empty form, nothing being edited and the dialog closed |
| TasksPage.TasksView.HandleFilterChange | frontend/src/pages/Tasks.js:87-93 | the filters become those `WithFilter` states |
| TasksPage.TasksView.HandlePageChange | frontend/src/pages/Tasks.js:95-97 | only the page changes |
| TasksPage.TasksView.OpenCreateDialog | frontend/src/pages/Tasks.js:99-110 | nothing is being edited, the form is the empty one and the dialog is open |
| TasksPage.TasksView.OpenEditDialog | frontend/src/pages/Tasks.js:112-123 | the task is being edited, the form is the task's and the dialog is open |
| UsersPage.WithFilter | frontend/src/pages/Users.js:76-82 | changing a filter sets that field, goes back to page 1 and keeps the other fields |
| UsersPage.QueryOf | frontend/src/pages/Users.js:62-65 | the list request sends every filter field as it is, empty strings included, with the server's limit of 10 |
| UsersPage.InitialPageHidesActiveUsers | frontend/src/pages/Users.js:46-65 | as written, the page's first request lists no active user |
| UsersPage.IntendedInitialPageListsAll | frontend/src/pages/Users.js:46-65 | with an empty status treated as absent, the first request lists every user |
| UsersPage.ShowRowActions | frontend/src/pages/Users.js:284 | with a profile held, the row actions appear exactly on rows of other users |
| UsersPage.RowGuardMatchesSelfChecks | frontend/src/pages/Users.js:284 | the actions are hidden exactly where the server's role, status and delete handlers would answer with their self-target 400 |
| UsersPage.UsersView.constructor | frontend/src/pages/Users.js:46-56 | the page starts with empty filters on page 1, no user selected, no new role and the dialog closed |
| UsersPage.UsersView.HandleFilterChange | frontend/src/pages/Users.js:76-82 | the filters become those `WithFilter` states |
| UsersPage.UsersView.HandlePageChange | frontend/src/pages/Users.js:84-86 | only the page changes |
| UsersPage.UsersView.OpenRoleChangeDialog | frontend/src/pages/Users.js:88-92 | the dialog opens on that user, preset to their current role |
| UsersPage.UsersView.RoleRequest | frontend/src/pages/Users.js:94-96 | the role request names the selected user's uid and the chosen role |
| UsersPage.UnchangedDialogKeepsTable | frontend/src/pages/Users.js:88-104 | confirming the dialog as it opened, on another stored user, succeeds and leaves the table as it was |

## Left out

- Token verification by Firebase is a function parameter `verify`. The model assumes it answers the same for the same token.
- The case-insensitive `$regex` search is a function parameter `hit`. Regular-expression syntax, and the errors a malformed pattern raises, are not modelled.
- Sort order: lists come back in collection order, not sorted by `sortBy`/`createdAt`. The top-five `recentUsers` is sorted by creation time, with ties in any order.
- `parseInt` on `page` and `limit`: both are taken as already-parsed integers of at least 1. Non-numeric or zero values (`NaN`, negative skips) are not modelled.
- Clocks are an integer parameter `now`. Dates are integers, and the due-date round trip through `dayjs` and `toISOString` is taken as exact.
- Concurrency is not modelled: the store calls are sequential with no interleaving. The race between `findOne` and `save` for two first logins with the same uid is left out.
- Task ids are naturals. A `:id` that is not a valid ObjectId makes Mongoose's `findById` throw a cast error, which `getTaskById`, `updateTask` and `deleteTask` answer with 500 from their catch blocks. The model cannot express that input; it answers only 404 for an id that is not stored.
- Mongo failures other than validation are not modelled. Handlers answer 500 only where `ApplyProfileUpdates` fails. The middleware's catch maps a failed creation to 401.
- `backend/models/Task.js` is not part of this model. Task schema validation (enum checks on status and priority, required fields) and a failing task save are not modelled. The overdue count uses "due date set, before now, not completed". In the aggregation, `$ne: ['$dueDate', null]` is true when the field is missing, and `$lt` of a missing value against a date is also true. So if the schema leaves `dueDate` unset rather than null, an unfinished task without a due date counts as overdue in the source but not in the model. This is a candidate finding, not claimed because the schema is not part of this model.
- The `tags` narrowing parameter that `fetchTasks` would send is never set by the page; the server ignores it. The `sortBy`/`sortOrder` parameters only order results.
- Casting of `profile` values is simplified: a value is a string or a profile object. JSON `null` and arrays are not modelled, nor are the sub-fields of `profile`.
- UserModel.UnknownRoleHasNoPermission, AuthMiddleware.RequirePermission, Routes.CreateNeedsOnlyARole: a role string naming an `Object.prototype` member (`constructor`, `__proto__`, `toString` and the like) makes the permission lookup at User.js:59 yield that member instead of `[]`, and `hasPermission` throws. `RequirePermission` answers such a role with 500, the status of Express's default handling of a thrown error; the server's own error handler is not part of this model. `Permissions` still gives such a role the empty list, the permissions it holds, and `getProfile` for such a user (whose `permissions` field would not be a list) is not modelled. No stored user reaches this: the role enum and `updateUserRole`'s check admit only the three roles.
- `toLowerCase` is modelled on ASCII letters only. The case-insensitive match of route literals uses the same ASCII lowering, although the router's regular expression also folds the case of other letters; every registered literal is ASCII, so only non-ASCII segments that fold onto an ASCII literal are matched differently. `maxlength` counts Dafny characters, not UTF-16 code units.
- Response bodies are modelled only as far as status, reason and the changed or returned record go. Messages and the `error.message` field are left out.
- The Firebase account deletion that `deleteUser` leaves commented out is not modelled.
- The client's HTTP layer (`services/api.js`, including the 401 interceptor's sign-out), toasts, loading spinners, colour helpers and rendering are left out.
- `Dashboard.js`, `Navbar.js`, `Profile.js` and the route table of `App.js` are not modelled beyond the admin guard that `ProtectedRoute.GuardMatchesServer` states.
- Signup, login and password flows in the browser context call Firebase directly and are not modelled. The same goes for `handleFormChange`, and for the toggle and delete clicks of the Users page, which only call the server handlers modelled here.
- `getProfile`'s `.lean()` read: the model returns the stored record with the permissions of `req.user`, as the code does. Virtual fields of the lean object are not modelled.
- The `ClientAuth.AuthSession` methods state only the session state. The profile fetch is a parameter: its result, or None when the request failed.

## Findings

| source | as written | input that shows it | evidently intended | confidence | as-written member | corrected member |
|---|---|---|---|---|---|---|
| backend/controllers/authController.js:88 | `isActive !== undefined` turns a present but empty `isActive` into `isActive: false`; the Users page always sends `isActive: ''` (frontend/src/pages/Users.js:49,65) | first load of the Users page: `isActive = ''`, so every active user is missing from the list | an empty `isActive`, like an empty `role`, applies no status filter | not executed; high | AuthController.EmptyStatusHidesActiveUsers | AuthController.IntendedEmptyStatusListsAll |
| backend/controllers/taskController.js:88-94 | a truthy `search` assigns `filter.$or`, replacing the ownership `$or` set for role 'user' at lines 70-75 | a 'user' with uid u1 searches "report"; a task titled "report" created by and assigned to u2 is listed, although `getTaskById` refuses it with 403 | the search narrows the requester's own tasks (both conditions combined with `$and`) | not executed; high | TaskController.SearchListsUnreadableTask | TaskController.IntendedListIsReadable |
| backend/controllers/taskController.js:195-196 | `Object.assign(task, updates)` copies every supplied field, `createdBy` included | the creator, a 'user', sends `{ createdBy: "u2" }`: the update succeeds and the creator can no longer update or delete the task | the creator of a task is immutable | not executed; medium (backend/models/Task.js, which might declare the field immutable, is not part of this model) | TaskController.CreatorCanBeRewritten | TaskController.IntendedUpdateKeepsCreator |

The handlers (`AuthController.GetAllUsers`, `TaskController.ListTasks`, `TaskController.UpdateTask`) keep the behaviour as written. Each corrected definition (`AuthController.UserListedIntended`, `TaskController.ListedIntended`, `TaskController.PatchedIntended`) is proved to agree with the code wherever the defect does not arise. The page-level lemmas `UsersPage.InitialPageHidesActiveUsers` and `UsersPage.IntendedInitialPageListsAll` show the first finding from the Users page's side.
