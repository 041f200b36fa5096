/**
  The user-directory page of the client: its filter state and the list request it sends, the
  per-row action guard, and the role dialog.
 */
module UsersPage {
  import opened Outcomes
  import opened UserModel
  import opened Store
  import opened AuthController
  import ClientAuth

  datatype UserFilters = UserFilters(search: string, role: string, isActive: string, page: nat)

  /** The filters the page starts with: every field empty, page 1. */
  const InitialFilters := UserFilters("", "", "", 1)

  datatype FilterField = Search | RoleFilter | StatusFilter

  function FieldOf(f: UserFilters, field: FilterField): string {
    match field
    case Search => f.search
    case RoleFilter => f.role
    case StatusFilter => f.isActive
  }

  /** `handleFilterChange(field, value)`: that field set, back to page 1, the rest kept. */
  function WithFilter(f: UserFilters, field: FilterField, value: string): (r: UserFilters)
    ensures r.page == 1 && FieldOf(r, field) == value
    ensures forall g :: g != field ==> FieldOf(r, g) == FieldOf(f, g)
  {
    match field
    case Search => f.(search := value, page := 1)
    case RoleFilter => f.(role := value, page := 1)
    case StatusFilter => f.(isActive := value, page := 1)
  }

  /** The list request the page sends: the filters object as it is, empty strings included. */
  function QueryOf(f: UserFilters): (q: UserQuery)
    ensures q.page == f.page && q.limit == 10
    ensures q.isActive == Some(f.isActive) && q.role == Some(f.role) && q.search == Some(f.search)
  {
    UserQuery(f.page, 10, Some(f.role), Some(f.isActive), Some(f.search))
  }

  /** As written, the page's first request, with its empty status filter, lists no active user:
      the administrator opening the page sees only deactivated accounts. */
  lemma InitialPageHidesActiveUsers(u: User, hit: (string, User) -> bool)
    requires u.isActive
    ensures !UserListed(QueryOf(InitialFilters), u, hit)
  {
    EmptyStatusHidesActiveUsers(QueryOf(InitialFilters), u, hit);
  }

  /** With the intended treatment of an empty status, the first request lists every user. */
  lemma IntendedInitialPageListsAll(u: User, hit: (string, User) -> bool)
    ensures UserListedIntended(QueryOf(InitialFilters), u, hit)
  {
  }

  /** The role, status and delete buttons are hidden on the viewer's own row. */
  function ShowRowActions(viewer: Option<ClientAuth.ClientProfile>, row: User): (r: bool)
    ensures viewer.Some? ==> (r <==> row.firebaseUid != viewer.value.firebaseUid)
  {
    viewer.None? || row.firebaseUid != viewer.value.firebaseUid
  }

  /** The row guard hides the actions exactly where the server would answer with its self-target
      400: the guard and the server's self checks agree. */
  lemma RowGuardMatchesSelfChecks(users: seq<User>, admin: User, row: User)
    ensures !ShowRowActions(Some(ClientAuth.FromServer(admin)), row) <==>
      StatusToggle(users, admin, row.firebaseUid).1 == BadRequest(SelfTarget)
    ensures !ShowRowActions(Some(ClientAuth.FromServer(admin)), row) <==>
      Removal(users, admin, row.firebaseUid).1 == BadRequest(SelfTarget)
    ensures IsRole(row.role) ==>
      (!ShowRowActions(Some(ClientAuth.FromServer(admin)), row) <==>
       RoleChange(users, admin, row.firebaseUid, Some(row.role)).1 == BadRequest(SelfTarget))
  {
  }

  /** The page's state. */
  class UsersView {
    var filters: UserFilters
    var selectedUser: Option<User>
    var newRole: string
    var roleDialogOpen: bool

    constructor ()
      ensures filters == InitialFilters && selectedUser.None? && newRole == "" && !roleDialogOpen
    {
      filters, selectedUser, newRole, roleDialogOpen := InitialFilters, None, "", false;
    }

    method HandleFilterChange(field: FilterField, value: string)
      modifies this`filters
      ensures filters == WithFilter(old(filters), field, value)
    {
      filters := WithFilter(filters, field, value);
    }

    /** `handlePageChange`: only the page changes. */
    method HandlePageChange(page: nat)
      modifies this`filters
      ensures filters == old(filters).(page := page)
    {
      filters := filters.(page := page);
    }

    /** `openRoleChangeDialog(user)`: the dialog targets that user, preset to their role. */
    method OpenRoleChangeDialog(u: User)
      modifies this`selectedUser, this`newRole, this`roleDialogOpen
      ensures selectedUser == Some(u) && newRole == u.role && roleDialogOpen
    {
      selectedUser := Some(u);
      newRole := u.role;
      roleDialogOpen := true;
    }

    /** The `updateUserRole` request `handleRoleChange` sends: the selected user's uid and the
        chosen role. */
    function RoleRequest(): (r: (string, Option<string>))
      reads this
      requires selectedUser.Some?
      ensures r.0 == selectedUser.value.firebaseUid && r.1 == Some(newRole)
    {
      (selectedUser.value.firebaseUid, Some(newRole))
    }
  }

  /** Confirming the dialog as it opened, on a stored user other than oneself, succeeds and
      leaves the table as it was. */
  lemma UnchangedDialogKeepsTable(users: seq<User>, admin: User, k: nat)
    requires UsersValid(users) && k < |users| && users[k].firebaseUid != admin.firebaseUid
    ensures RoleChange(users, admin, users[k].firebaseUid, Some(users[k].role)) == (users, Ok)
  {
    UserIndexOf(users, k);
    assert users[k := users[k].(role := users[k].role)] == users;
  }
}
