/**
  The task controller: who may read, update and delete a task; task creation
  with its defaults and assignee check; the list filter and its pagination;
  single-task read, update (`Object.assign` of the supplied fields) and delete;
  and the statistics over the tasks the requester may see.
 */
module TaskController {
  import opened Outcomes
  import opened UserModel
  import opened Store
  import opened Paging

  const Pending := "pending"
  const InProgress := "in-progress"
  const Completed := "completed"
  const Medium := "medium"
  const High := "high"

  // ---------------------------------------------------------------------------------------------
  // Access decisions

  /** `getTaskById`'s hasAccess. */
  predicate CanRead(requester: User, t: Task) {
    requester.role == AdminRole || requester.role == ManagerRole
    || t.assignedTo == requester.firebaseUid || t.createdBy == requester.firebaseUid
  }

  /** `updateTask`'s canUpdate: an assignee who is not the creator is not enough. */
  predicate CanUpdate(requester: User, t: Task) {
    requester.role == AdminRole || requester.role == ManagerRole || t.createdBy == requester.firebaseUid
  }

  /** `deleteTask`'s canDelete: a manager is not enough. */
  predicate CanDelete(requester: User, t: Task) {
    requester.role == AdminRole || t.createdBy == requester.firebaseUid
  }

  /** Deleting needs more than updating, which needs more than reading. */
  lemma AccessLadder(requester: User, t: Task)
    ensures CanDelete(requester, t) ==> CanUpdate(requester, t)
    ensures CanUpdate(requester, t) ==> CanRead(requester, t)
  {
  }

  /** The manager/delete asymmetry and the assignee/update asymmetry. */
  lemma AccessAsymmetries(requester: User, t: Task)
    ensures requester.role == ManagerRole && t.createdBy != requester.firebaseUid ==>
      CanUpdate(requester, t) && !CanDelete(requester, t)
    ensures requester.role == UserRole && t.createdBy != requester.firebaseUid ==>
      !CanUpdate(requester, t) && !CanDelete(requester, t)
      && (CanRead(requester, t) <==> t.assignedTo == requester.firebaseUid)
  {
  }

  // ---------------------------------------------------------------------------------------------
  // createTask

  /** The fields of a create request body. */
  datatype TaskInput = TaskInput(
    title: Option<string>,
    description: Option<string>,
    status: Option<string>,
    priority: Option<string>,
    dueDate: Option<int>,
    assignedTo: Option<string>,
    tags: Option<seq<string>>)

  /** The task `createTask` builds for a valid body. */
  function NewTask(id: nat, requester: User, input: TaskInput): (t: Task)
    requires Truthy(input.title) && Truthy(input.description)
    ensures t.id == id && t.title == input.title.value && t.description == input.description.value
    ensures t.createdBy == requester.firebaseUid
    ensures t.assignedTo == (if Truthy(input.assignedTo) then input.assignedTo.value else requester.firebaseUid)
    ensures t.status == (if Truthy(input.status) then input.status.value else Pending)
    ensures t.priority == (if Truthy(input.priority) then input.priority.value else Medium)
    ensures t.tags == (if input.tags.Some? then input.tags.value else [])
    ensures t.dueDate == input.dueDate && !t.isArchived
  {
    Task(id, input.title.value, input.description.value,
         OrElse(input.status, Pending), OrElse(input.priority, Medium), input.dueDate,
         requester.firebaseUid, OrElse(input.assignedTo, requester.firebaseUid),
         if input.tags.Some? then input.tags.value else [], false)
  }

  /** A supplied assignee other than the requester must name a stored user. */
  predicate AssigneeAcceptable(users: seq<User>, requester: User, assignedTo: Option<string>) {
    !Truthy(assignedTo) || assignedTo.value == requester.firebaseUid || UserExists(users, assignedTo.value)
  }

  /** `createTask` over the tables: the new task table, the next id, and the response. */
  function Creation(users: seq<User>, tasks: seq<Task>, nextId: nat, requester: User, input: TaskInput)
    : (r: (seq<Task>, nat, Response))
    ensures !Truthy(input.title) || !Truthy(input.description) ==> r == (tasks, nextId, BadRequest(MissingFields))
    ensures Truthy(input.title) && Truthy(input.description) && !AssigneeAcceptable(users, requester, input.assignedTo)
      ==> r == (tasks, nextId, BadRequest(AssigneeNotFound))
    ensures r.2 == Created <==>
      Truthy(input.title) && Truthy(input.description) && AssigneeAcceptable(users, requester, input.assignedTo)
    ensures r.2 == Created ==> r.0 == tasks + [NewTask(nextId, requester, input)] && r.1 == nextId + 1
    ensures r.2 != Created ==> r.0 == tasks && r.1 == nextId
    ensures TasksValid(tasks, nextId) ==> TasksValid(r.0, r.1)
  {
    if !Truthy(input.title) || !Truthy(input.description) then (tasks, nextId, BadRequest(MissingFields))
    else if !AssigneeAcceptable(users, requester, input.assignedTo) then (tasks, nextId, BadRequest(AssigneeNotFound))
    else (tasks + [NewTask(nextId, requester, input)], nextId + 1, Created)
  }

  /** The creator of a new task may read, update and delete it, whoever it is assigned to. */
  lemma CreatorControlsNewTask(users: seq<User>, tasks: seq<Task>, nextId: nat, requester: User, input: TaskInput)
    requires Creation(users, tasks, nextId, requester, input).2 == Created
    ensures var t := Creation(users, tasks, nextId, requester, input).0[|tasks|];
      CanRead(requester, t) && CanUpdate(requester, t) && CanDelete(requester, t)
  {
  }

  method CreateTask(db: Db, requester: User, input: TaskInput) returns (response: Response)
    requires db.Valid()
    modifies db`tasks, db`nextId
    ensures db.Valid()
    ensures (db.tasks, db.nextId, response) == Creation(db.users, old(db.tasks), old(db.nextId), requester, input)
  {
    if !Truthy(input.title) || !Truthy(input.description) {
      return BadRequest(MissingFields);
    }
    if Truthy(input.assignedTo) && input.assignedTo.value != requester.firebaseUid {
      var i := FindUser(db.users, input.assignedTo.value);
      if i < 0 {
        return BadRequest(AssigneeNotFound);
      }
    }
    var task := NewTask(db.nextId, requester, input);
    assert Creation(db.users, db.tasks, db.nextId, requester, input) == (db.tasks + [task], db.nextId + 1, Created);
    db.tasks := db.tasks + [task];
    db.nextId := db.nextId + 1;
    return Created;
  }

  // ---------------------------------------------------------------------------------------------
  // getTasks

  /** The query string of a list request (page and limit already parsed). */
  datatype TaskQuery = TaskQuery(
    status: Option<string>,
    priority: Option<string>,
    assignedTo: Option<string>,
    search: Option<string>,
    page: nat,
    limit: nat)

  /** The `$or` slot of the filter: none, the ownership pair, or the text search. */
  datatype OrClause = NoOr | EitherParty(uid: string) | TextSearch(text: string)

  /** The filter document; `isArchived: false` is always part of it. */
  datatype TaskFilter = TaskFilter(
    or: OrClause,
    status: Option<string>,
    priority: Option<string>,
    assignedTo: Option<string>)

  /** What the store matches for a filter; `hit(text, t)` stands for the case-insensitive regex
      test on title, description and tags. */
  predicate Admits(f: TaskFilter, t: Task, hit: (string, Task) -> bool) {
    && !t.isArchived
    && (match f.or
        case NoOr => true
        case EitherParty(uid) => t.assignedTo == uid || t.createdBy == uid
        case TextSearch(text) => hit(text, t))
    && (f.status.Some? ==> t.status == f.status.value)
    && (f.priority.Some? ==> t.priority == f.priority.value)
    && (f.assignedTo.Some? ==> t.assignedTo == f.assignedTo.value)
  }

  /** Which tasks a list request selects, stated task by task: non-archived; with a search, the
      search decides alone; without one, a 'user' sees only tasks assigned to or created by them
      and every other role string is unrestricted; each truthy narrowing parameter must match. */
  predicate Listed(requester: User, q: TaskQuery, t: Task, hit: (string, Task) -> bool) {
    && !t.isArchived
    && (if Truthy(q.search) then hit(q.search.value, t)
        else requester.role == UserRole ==>
          t.assignedTo == requester.firebaseUid || t.createdBy == requester.firebaseUid)
    && (Truthy(q.status) ==> t.status == q.status.value)
    && (Truthy(q.priority) ==> t.priority == q.priority.value)
    && (Truthy(q.assignedTo) ==> t.assignedTo == q.assignedTo.value)
  }

  /** Builds the filter field by field, as the handler does. */
  method BuildTaskFilter(requester: User, q: TaskQuery) returns (f: TaskFilter)
    ensures forall t, hit {:trigger Admits(f, t, hit)} :: Admits(f, t, hit) <==> Listed(requester, q, t, hit)
  {
    f := TaskFilter(NoOr, None, None, None);
    if requester.role == UserRole {
      f := f.(or := EitherParty(requester.firebaseUid));
    } else if requester.role == ManagerRole {
    } else if requester.role == AdminRole {
    }
    if Truthy(q.status) {
      f := f.(status := q.status);
    }
    if Truthy(q.priority) {
      f := f.(priority := q.priority);
    }
    if Truthy(q.assignedTo) {
      f := f.(assignedTo := q.assignedTo);
    }
    if Truthy(q.search) {
      f := f.(or := TextSearch(q.search.value));
    }
  }

  /** The matching tasks in collection order. */
  function Matching(tasks: seq<Task>, requester: User, q: TaskQuery, hit: (string, Task) -> bool)
    : (r: seq<Task>)
    ensures |r| <= |tasks|
    ensures forall t :: t in r <==> t in tasks && Listed(requester, q, t, hit)
  {
    if |tasks| == 0 then []
    else
      var last := tasks[|tasks| - 1];
      var init := tasks[..|tasks| - 1];
      assert tasks == init + [last];
      Matching(init, requester, q, hit) + (if Listed(requester, q, last, hit) then [last] else [])
  }

  /** One more task extends the matching list by that task exactly when it is listed. */
  lemma MatchingOneMore(tasks: seq<Task>, i: nat, requester: User, q: TaskQuery, hit: (string, Task) -> bool)
    requires i < |tasks|
    ensures Matching(tasks[..i + 1], requester, q, hit)
         == Matching(tasks[..i], requester, q, hit) + (if Listed(requester, q, tasks[i], hit) then [tasks[i]] else [])
  {
    assert tasks[..i + 1][..i] == tasks[..i];
  }

  /** `getTasks`: one page of the matching tasks and the pagination object. */
  method ListTasks(tasks: seq<Task>, requester: User, q: TaskQuery, hit: (string, Task) -> bool)
    returns (page: seq<Task>, info: Pagination)
    requires q.page >= 1 && q.limit >= 1
    ensures page == Window(Matching(tasks, requester, q, hit), Skip(q.page, q.limit), q.limit)
    ensures info == Paginate(q.page, q.limit, |Matching(tasks, requester, q, hit)|, |page|)
  {
    var f := BuildTaskFilter(requester, q);
    var matched: seq<Task> := [];
    var i := 0;
    while i < |tasks|
      invariant 0 <= i <= |tasks|
      invariant matched == Matching(tasks[..i], requester, q, hit)
    {
      MatchingOneMore(tasks, i, requester, q, hit);
      if Admits(f, tasks[i], hit) {
        matched := matched + [tasks[i]];
      }
      i := i + 1;
    }
    assert tasks[..i] == tasks;
    page := Window(matched, Skip(q.page, q.limit), q.limit);
    info := Paginate(q.page, q.limit, |matched|, |page|);
  }

  /** Without a search, everything a requester with a recognised role can list, they can also read. */
  lemma UnsearchedListIsReadable(requester: User, q: TaskQuery, t: Task, hit: (string, Task) -> bool)
    requires IsRole(requester.role) && !Truthy(q.search)
    requires Listed(requester, q, t, hit)
    ensures CanRead(requester, t)
  {
  }

  /** As written, a search lifts the ownership restriction: a 'user' lists a task of others
      that they are refused when they open it. */
  lemma SearchListsUnreadableTask()
    ensures var requester := User("u1", "u1@example.com", "u1", UserRole, true, 0, 0, None);
            var other := Task(7, "report", "quarterly", Pending, Medium, None, "u2", "u2", [], false);
            var q := TaskQuery(None, None, None, Some("report"), 1, 10);
            var hit := (s: string, t: Task) => s == t.title;
            Listed(requester, q, other, hit) && !CanRead(requester, other)
  {
  }

  /** The evident intent: the search narrows the requester's own scope instead of replacing it. */
  predicate ListedIntended(requester: User, q: TaskQuery, t: Task, hit: (string, Task) -> bool) {
    && !t.isArchived
    && (requester.role == UserRole ==>
          t.assignedTo == requester.firebaseUid || t.createdBy == requester.firebaseUid)
    && (Truthy(q.search) ==> hit(q.search.value, t))
    && (Truthy(q.status) ==> t.status == q.status.value)
    && (Truthy(q.priority) ==> t.priority == q.priority.value)
    && (Truthy(q.assignedTo) ==> t.assignedTo == q.assignedTo.value)
  }

  /** With the intended filter, every listed task is readable, with or without a search, and
      the two filters agree whenever there is no search. */
  lemma IntendedListIsReadable(requester: User, q: TaskQuery, t: Task, hit: (string, Task) -> bool)
    requires IsRole(requester.role)
    ensures ListedIntended(requester, q, t, hit) ==> CanRead(requester, t)
    ensures !Truthy(q.search) ==> (ListedIntended(requester, q, t, hit) <==> Listed(requester, q, t, hit))
  {
  }

  // ---------------------------------------------------------------------------------------------
  // getTaskById

  datatype TaskReply = TaskReply(response: Response, task: Option<Task>)

  /** `getTaskById`: 404 for an unknown id before any access check, 403 without read access. */
  method GetTaskById(tasks: seq<Task>, requester: User, id: nat) returns (reply: TaskReply)
    ensures TaskIndex(tasks, id).None? ==> reply == TaskReply(NotFound, None)
    ensures reply.response == Ok <==>
      TaskIndex(tasks, id).Some? && CanRead(requester, tasks[TaskIndex(tasks, id).value])
    ensures reply.response == Ok ==> reply.task == Some(tasks[TaskIndex(tasks, id).value])
    ensures reply.response != Ok ==> reply.task.None? && (reply.response == NotFound || reply.response == Forbidden(NotOwner))
  {
    var i := FindTask(tasks, id);
    if i < 0 {
      return TaskReply(NotFound, None);
    }
    var task := tasks[i];
    var hasAccess := requester.role == AdminRole || requester.role == ManagerRole
                     || task.assignedTo == requester.firebaseUid || task.createdBy == requester.firebaseUid;
    if !hasAccess {
      return TaskReply(Forbidden(NotOwner), None);
    }
    return TaskReply(Ok, Some(task));
  }

  // ---------------------------------------------------------------------------------------------
  // updateTask

  /** The fields an update body supplies; a present `dueDate` may be null. */
  datatype TaskPatch = TaskPatch(
    title: Option<string>,
    description: Option<string>,
    status: Option<string>,
    priority: Option<string>,
    dueDate: Option<Option<int>>,
    createdBy: Option<string>,
    assignedTo: Option<string>,
    tags: Option<seq<string>>,
    isArchived: Option<bool>)

  function Pick<T>(supplied: Option<T>, current: T): T {
    if supplied.Some? then supplied.value else current
  }

  /** `Object.assign(task, updates)`: every supplied field, `createdBy` included, replaces the stored one. */
  function Patched(t: Task, p: TaskPatch): Task {
    Task(t.id, Pick(p.title, t.title), Pick(p.description, t.description), Pick(p.status, t.status),
         Pick(p.priority, t.priority), Pick(p.dueDate, t.dueDate), Pick(p.createdBy, t.createdBy),
         Pick(p.assignedTo, t.assignedTo), Pick(p.tags, t.tags), Pick(p.isArchived, t.isArchived))
  }

  /** Applying the same body twice is applying it once; an empty body changes nothing; the id is kept. */
  lemma PatchProperties(t: Task, p: TaskPatch)
    ensures Patched(Patched(t, p), p) == Patched(t, p)
    ensures Patched(t, TaskPatch(None, None, None, None, None, None, None, None, None)) == t
    ensures Patched(t, p).id == t.id
  {
  }

  /** The body names a new, different, truthy assignee, which must then exist. */
  predicate Reassigns(p: TaskPatch, t: Task) {
    Truthy(p.assignedTo) && p.assignedTo.value != t.assignedTo
  }

  /** `updateTask` over the tables. */
  function Update(users: seq<User>, tasks: seq<Task>, requester: User, id: nat, p: TaskPatch)
    : (r: (seq<Task>, Response))
    ensures TaskIndex(tasks, id).None? ==> r == (tasks, NotFound)
    ensures TaskIndex(tasks, id).Some? && !CanUpdate(requester, tasks[TaskIndex(tasks, id).value]) ==>
      r == (tasks, Forbidden(NotOwner))
    ensures r.1 == Ok <==>
      && TaskIndex(tasks, id).Some?
      && CanUpdate(requester, tasks[TaskIndex(tasks, id).value])
      && (Reassigns(p, tasks[TaskIndex(tasks, id).value]) ==> UserExists(users, p.assignedTo.value))
    ensures r.1 == Ok ==>
      var k := TaskIndex(tasks, id).value; r.0 == tasks[k := Patched(tasks[k], p)]
    ensures r.1 != Ok ==> r.0 == tasks
    ensures r.1 == Ok || r.1 == NotFound || r.1 == Forbidden(NotOwner) || r.1 == BadRequest(AssigneeNotFound)
    ensures forall n: nat :: TasksValid(tasks, n) ==> TasksValid(r.0, n)
  {
    match TaskIndex(tasks, id)
    case None => (tasks, NotFound)
    case Some(k) =>
      if !CanUpdate(requester, tasks[k]) then (tasks, Forbidden(NotOwner))
      else if Reassigns(p, tasks[k]) && !UserExists(users, p.assignedTo.value) then (tasks, BadRequest(AssigneeNotFound))
      else (tasks[k := Patched(tasks[k], p)], Ok)
  }

  /** As written, the creator may hand the task's `createdBy` to someone else and so lose the
      right to update it: the creator is not immutable. */
  lemma CreatorCanBeRewritten(users: seq<User>, tasks: seq<Task>, requester: User, id: nat, newCreator: string)
    requires requester.role == UserRole
    requires TaskIndex(tasks, id).Some? && tasks[TaskIndex(tasks, id).value].createdBy == requester.firebaseUid
    requires newCreator != requester.firebaseUid
    ensures var p := TaskPatch(None, None, None, None, None, Some(newCreator), None, None, None);
            var r := Update(users, tasks, requester, id, p);
            var k := TaskIndex(tasks, id).value;
            r.1 == Ok && r.0[k].createdBy == newCreator && !CanUpdate(requester, r.0[k])
  {
  }

  /** The evident intent: a body cannot change who created the task. */
  function PatchedIntended(t: Task, p: TaskPatch): Task {
    Patched(t, p.(createdBy := None))
  }

  /** With the intended copy, the creator and the id survive every update, so the creator keeps
      the update and delete rights the creation gave them. */
  lemma IntendedUpdateKeepsCreator(t: Task, p: TaskPatch, requester: User)
    ensures PatchedIntended(t, p).createdBy == t.createdBy && PatchedIntended(t, p).id == t.id
    ensures CanUpdate(requester, t) ==> CanUpdate(requester, PatchedIntended(t, p))
    ensures CanDelete(requester, t) ==> CanDelete(requester, PatchedIntended(t, p))
  {
  }

  method UpdateTask(db: Db, requester: User, id: nat, p: TaskPatch) returns (response: Response)
    requires db.Valid()
    modifies db`tasks
    ensures db.Valid()
    ensures (db.tasks, response) == Update(db.users, old(db.tasks), requester, id, p)
  {
    var k := FindTask(db.tasks, id);
    if k < 0 {
      return NotFound;
    }
    var task := db.tasks[k];
    var canUpdate := requester.role == AdminRole || requester.role == ManagerRole
                     || task.createdBy == requester.firebaseUid;
    if !canUpdate {
      return Forbidden(NotOwner);
    }
    if Truthy(p.assignedTo) && p.assignedTo.value != task.assignedTo {
      var i := FindUser(db.users, p.assignedTo.value);
      if i < 0 {
        return BadRequest(AssigneeNotFound);
      }
    }
    assert Update(db.users, db.tasks, requester, id, p) == (db.tasks[k := Patched(task, p)], Ok);
    db.tasks := db.tasks[k := Patched(task, p)];
    return Ok;
  }

  // ---------------------------------------------------------------------------------------------
  // deleteTask

  /** `deleteTask` over the task table. */
  function Deletion(tasks: seq<Task>, requester: User, id: nat): (r: (seq<Task>, Response))
    ensures TaskIndex(tasks, id).None? ==> r == (tasks, NotFound)
    ensures r.1 == Ok <==> TaskIndex(tasks, id).Some? && CanDelete(requester, tasks[TaskIndex(tasks, id).value])
    ensures r.1 != Ok ==> r.0 == tasks && (r.1 == NotFound || r.1 == Forbidden(NotOwner))
    ensures r.1 == Ok ==> var k := TaskIndex(tasks, id).value; r.0 == RemoveAt(tasks, k)
    ensures forall n: nat :: TasksValid(tasks, n) ==> TasksValid(r.0, n) && (r.1 == Ok ==> TaskIndex(r.0, id).None?)
  {
    match TaskIndex(tasks, id)
    case None => (tasks, NotFound)
    case Some(k) =>
      if !CanDelete(requester, tasks[k]) then (tasks, Forbidden(NotOwner))
      else
        assert forall n: nat :: TasksValid(tasks, n) ==> TasksValid(RemoveAt(tasks, k), n) && TaskIndex(RemoveAt(tasks, k), id).None? by {
          forall n: nat ensures TasksValid(tasks, n) ==> TasksValid(RemoveAt(tasks, k), n) && TaskIndex(RemoveAt(tasks, k), id).None? {
            RemoveTaskKeepsValid(tasks, k, n);
          }
        }
        (RemoveAt(tasks, k), Ok)
  }

  method DeleteTask(db: Db, requester: User, id: nat) returns (response: Response)
    requires db.Valid()
    modifies db`tasks
    ensures db.Valid()
    ensures (db.tasks, response) == Deletion(old(db.tasks), requester, id)
  {
    var k := FindTask(db.tasks, id);
    if k < 0 {
      return NotFound;
    }
    var task := db.tasks[k];
    var canDelete := requester.role == AdminRole || task.createdBy == requester.firebaseUid;
    if !canDelete {
      return Forbidden(NotOwner);
    }
    assert Deletion(db.tasks, requester, id) == (RemoveAt(db.tasks, k), Ok);
    RemoveTaskKeepsValid(db.tasks, k, db.nextId);
    db.tasks := RemoveAt(db.tasks, k);
    return Ok;
  }

  // ---------------------------------------------------------------------------------------------
  // getTaskStats

  datatype TaskStats = TaskStats(total: nat, pending: nat, inProgress: nat, completed: nat, highPriority: nat, overdue: nat)

  const NoStats := TaskStats(0, 0, 0, 0, 0, 0)

  /** Due before `now` and not completed. */
  predicate Overdue(t: Task, now: int) {
    t.dueDate.Some? && t.dueDate.value < now && t.status != Completed
  }

  /** The `$group` stage: one pass of conditional sums. */
  function Tally(ts: seq<Task>, now: int): (s: TaskStats)
    ensures s.total == |ts|
    ensures s.pending + s.inProgress + s.completed <= s.total
    ensures s.overdue + s.completed <= s.total
    ensures s.highPriority <= s.total
    ensures ts == [] ==> s == NoStats
  {
    if |ts| == 0 then NoStats
    else
      AddTask(Tally(ts[..|ts| - 1], now), ts[|ts| - 1], now)
  }

  /** One task's contribution added to the counts. */
  function AddTask(s: TaskStats, t: Task, now: int): TaskStats {
    TaskStats(s.total + 1,
              s.pending + Count(t.status == Pending),
              s.inProgress + Count(t.status == InProgress),
              s.completed + Count(t.status == Completed),
              s.highPriority + Count(t.priority == High),
              s.overdue + Count(Overdue(t, now)))
  }

  /** The `$match` stage: non-archived, and for role 'user' only their own tasks; no search here. */
  predicate InStatsScope(requester: User, t: Task) {
    !t.isArchived
    && (requester.role == UserRole ==> t.assignedTo == requester.firebaseUid || t.createdBy == requester.firebaseUid)
  }

  function StatsScope(tasks: seq<Task>, requester: User): (r: seq<Task>)
    ensures |r| <= |tasks|
  {
    if |tasks| == 0 then []
    else StatsScope(tasks[..|tasks| - 1], requester)
         + (if InStatsScope(requester, tasks[|tasks| - 1]) then [tasks[|tasks| - 1]] else [])
  }

  /** The statistics cover exactly the tasks a list request without search or narrowing lists. */
  lemma {:induction false} StatsScopeIsUnsearchedList(tasks: seq<Task>, requester: User, hit: (string, Task) -> bool,
                                                      page: nat, limit: nat)
    ensures StatsScope(tasks, requester) == Matching(tasks, requester, TaskQuery(None, None, None, None, page, limit), hit)
  {
    if |tasks| > 0 {
      StatsScopeIsUnsearchedList(tasks[..|tasks| - 1], requester, hit, page, limit);
    }
  }

  /** `getTaskStats` (the aggregate yields no group for an empty scope; the handler then answers zeros). */
  method GetTaskStats(tasks: seq<Task>, requester: User, now: int) returns (stats: TaskStats)
    ensures stats == Tally(StatsScope(tasks, requester), now)
  {
    var scope: seq<Task> := [];
    stats := NoStats;
    var i := 0;
    while i < |tasks|
      invariant 0 <= i <= |tasks|
      invariant scope == StatsScope(tasks[..i], requester)
      invariant stats == Tally(scope, now)
    {
      assert tasks[..i + 1][..i] == tasks[..i];
      var t := tasks[i];
      if InStatsScope(requester, t) {
        assert (scope + [t])[..|scope|] == scope;
        scope := scope + [t];
        stats := AddTask(stats, t, now);
      }
      i := i + 1;
    }
    assert tasks[..i] == tasks;
  }
}
