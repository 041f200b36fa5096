/**
  The task page of the client: its filter state and the query it sends, the task form and what
  it submits, and the edit/delete/create controls it shows.
 */
module TasksPage {
  import opened Outcomes
  import opened Text
  import UserModel
  import opened Store
  import opened TaskController
  import opened ClientAuth

  // ---------------------------------------------------------------------------------------------
  // Tags: the form holds them as one string

  /** The tag list shown in the edit form: `tags.join(', ')`. */
  function JoinTags(tags: seq<string>): string {
    Join(tags, ", ")
  }

  function TrimAll(parts: seq<string>): (r: seq<string>)
    ensures |r| == |parts|
    ensures forall i :: 0 <= i < |r| ==> r[i] == Trim(parts[i])
  {
    seq(|parts|, i requires 0 <= i < |parts| => Trim(parts[i]))
  }

  /** The submitted tag list: the form string split at commas and trimmed, or [] when empty. */
  function ParseTags(s: string): (r: seq<string>)
    ensures r == [] <==> s == ""
    ensures forall i :: 0 <= i < |r| ==> IsTrimmed(r[i])
    // Otherwise one tag per comma-separated part, in order, each trimmed.
    ensures s != "" ==> |r| == |Split(s, ',')| && forall i :: 0 <= i < |r| ==> r[i] == Trim(Split(s, ',')[i])
  {
    if s == "" then [] else TrimAll(Split(s, ','))
  }

  /** Each tag after the first, with the blank `join(', ')` puts before it. */
  function Spaced(tags: seq<string>): (r: seq<string>)
    ensures |r| == |tags|
    ensures forall i :: 0 <= i < |r| ==> r[i] == " " + tags[i]
  {
    if |tags| == 0 then [] else [" " + tags[0]] + Spaced(tags[1..])
  }

  predicate NoComma(tags: seq<string>) {
    forall i :: 0 <= i < |tags| ==> ',' !in tags[i]
  }

  /** Splitting a joined list at commas gives the first tag (after any prefix) and every later
      tag with its leading blank. */
  lemma {:induction false} SplitJoined(prefix: string, tags: seq<string>)
    requires ',' !in prefix && |tags| >= 1 && NoComma(tags)
    ensures Split(prefix + Join(tags, ", "), ',') == [prefix + tags[0]] + Spaced(tags[1..])
    decreases |tags|
  {
    if |tags| == 1 {
      SplitWithoutSeparator(prefix + tags[0], ',');
    } else {
      var rest := tags[1..];
      assert NoComma(rest) by {
        forall i | 0 <= i < |rest| ensures ',' !in rest[i] { assert rest[i] == tags[i + 1]; }
      }
      assert prefix + Join(tags, ", ") == (prefix + tags[0]) + [','] + (" " + Join(rest, ", "));
      SplitAtSeparator(prefix + tags[0], ',', " " + Join(rest, ", "));
      SplitJoined(" ", rest);
      assert Spaced(rest) == [" " + rest[0]] + Spaced(rest[1..]);
    }
  }

  /** Editing without touching the tags resubmits the same list, provided no tag holds a comma
      or outer white space and the list is not the single empty tag. */
  lemma TagsRoundTrip(tags: seq<string>)
    requires NoComma(tags)
    requires forall i :: 0 <= i < |tags| ==> IsTrimmed(tags[i])
    requires tags != [""]
    ensures ParseTags(JoinTags(tags)) == tags
  {
    if |tags| > 0 {
      JoinedSplits(tags);
      JoinedNotEmpty(tags);
      TrimSpaced(tags);
    }
  }

  /** The joined list splits back into the first tag and the later ones with their blanks. */
  lemma JoinedSplits(tags: seq<string>)
    requires NoComma(tags) && |tags| > 0
    ensures Split(JoinTags(tags), ',') == [tags[0]] + Spaced(tags[1..])
  {
    SplitJoined("", tags);
    assert "" + tags[0] == tags[0] && "" + Join(tags, ", ") == Join(tags, ", ");
  }

  /** Only the empty list and the single empty tag join to the empty string. */
  lemma JoinedNotEmpty(tags: seq<string>)
    requires |tags| > 0 && tags != [""]
    ensures JoinTags(tags) != ""
  {
    if |tags| == 1 { assert tags[0] != ""; } else { assert |Join(tags, ", ")| >= 2; }
  }

  /** Trimming the split parts removes the blanks `join(', ')` added and nothing else. */
  lemma TrimSpaced(tags: seq<string>)
    requires |tags| > 0 && forall i :: 0 <= i < |tags| ==> IsTrimmed(tags[i])
    ensures TrimAll([tags[0]] + Spaced(tags[1..])) == tags
  {
    var parts := [tags[0]] + Spaced(tags[1..]);
    forall i | 0 <= i < |tags| ensures Trim(parts[i]) == tags[i] {
      TrimOfTrimmed(tags[i]);
      if i > 0 {
        assert parts[i] == Spaced(tags[1..])[i - 1] == " " + tags[i];
        TrimDropsLeadingBlank(tags[i]);
      }
    }
  }

  /** A string with one comma splits into the parts on either side of it. */
  lemma SplitPair(a: string, b: string)
    requires ',' !in a && ',' !in b
    ensures Split(a + "," + b, ',') == [a, b]
  {
    assert a + "," + b == a + [','] + b;
    SplitAtSeparator(a, ',', b);
    SplitWithoutSeparator(b, ',');
  }

  /** A tag holding a comma comes back as two tags: the parts on either side of the comma. */
  lemma CommaTagSplits(a: string, b: string)
    requires ',' !in a && ',' !in b && IsTrimmed(a) && IsTrimmed(b)
    ensures ParseTags(JoinTags([a + "," + b])) == [a, b]
  {
    var s := a + "," + b;
    assert JoinTags([s]) == s;
    JoinedNotEmpty([s]);
    SplitPair(a, b);
    TrimOfTrimmed(a);
    TrimOfTrimmed(b);
    TrimAllOfTrimmed([a, b]);
  }

  /** Parts that trimming leaves unchanged survive `TrimAll`. */
  lemma TrimAllOfTrimmed(parts: seq<string>)
    requires forall i :: 0 <= i < |parts| ==> Trim(parts[i]) == parts[i]
    ensures TrimAll(parts) == parts
  {
    var r := TrimAll(parts);
    assert forall i :: 0 <= i < |parts| ==> r[i] == parts[i];
  }

  // ---------------------------------------------------------------------------------------------
  // The form

  datatype TaskForm = TaskForm(title: string, description: string, status: string, priority: string,
                               dueDate: Option<int>, tags: string)

  /** The form the create dialog opens with. */
  const EmptyForm := TaskForm("", "", Pending, Medium, None, "")

  /** The form the edit dialog opens with for `t`. */
  function FormFor(t: Task): (f: TaskForm)
    ensures f.title == t.title && f.description == t.description && f.status == t.status
    ensures f.priority == t.priority && f.dueDate == t.dueDate
    ensures ParseTags(f.tags) == t.tags <==> ParseTags(JoinTags(t.tags)) == t.tags
  {
    TaskForm(t.title, t.description, t.status, t.priority, t.dueDate, JoinTags(t.tags))
  }

  /** The body `createTask` receives from the form. */
  function CreateBody(f: TaskForm): TaskInput {
    TaskInput(Some(f.title), Some(f.description), Some(f.status), Some(f.priority), f.dueDate, None,
              Some(ParseTags(f.tags)))
  }

  /** The body `updateTask` receives from the form. */
  function EditBody(f: TaskForm): TaskPatch {
    TaskPatch(Some(f.title), Some(f.description), Some(f.status), Some(f.priority), Some(f.dueDate), None,
              None, Some(ParseTags(f.tags)), None)
  }

  /** Submitting the fresh create form with only a title and description filled in creates a
      pending, medium-priority task without tags or due date, assigned to its creator; left
      empty, the form is refused. */
  lemma FreshFormDefaults(requester: UserModel.User, title: string, description: string, id: nat)
    requires title != "" && description != ""
    ensures var t := NewTask(id, requester, CreateBody(EmptyForm.(title := title, description := description)));
      && t.status == Pending && t.priority == Medium && t.tags == [] && t.dueDate.None?
      && t.assignedTo == requester.firebaseUid && t.createdBy == requester.firebaseUid
    ensures forall users, tasks, n :: Creation(users, tasks, n, requester, CreateBody(EmptyForm)).2 == BadRequest(MissingFields)
  {
  }

  /** Opening the edit dialog and saving without changes leaves the task as it was, when its
      tags survive the round trip through the form string. */
  lemma UnchangedEditKeepsTask(t: Task)
    requires NoComma(t.tags) && (forall i :: 0 <= i < |t.tags| ==> IsTrimmed(t.tags[i])) && t.tags != [""]
    ensures Patched(t, EditBody(FormFor(t))) == t
  {
    TagsRoundTrip(t.tags);
  }

  // ---------------------------------------------------------------------------------------------
  // Controls

  /** `canEditTask`. */
  function CanEditTask(profile: Option<ClientProfile>, t: Task): (r: bool)
    ensures profile.None? ==> !r
  {
    IsAdmin(profile) || (profile.Some? && profile.value.role == UserModel.ManagerRole)
    || (profile.Some? && t.createdBy == profile.value.firebaseUid)
  }

  /** `canDeleteTask`. */
  function CanDeleteTask(profile: Option<ClientProfile>, t: Task): (r: bool)
    ensures profile.None? ==> !r
  {
    IsAdmin(profile) || (profile.Some? && t.createdBy == profile.value.firebaseUid)
  }

  /** The create button is shown when the profile lists create:tasks. */
  function ShowCreateButton(profile: Option<ClientProfile>): bool {
    HasPermission(profile, UserModel.CreateTasks)
  }

  /** With the profile the server sent, the page offers edit, delete and create exactly when the
      server would allow them. */
  lemma ControlsMatchServer(u: UserModel.User, t: Task)
    ensures CanEditTask(Some(FromServer(u)), t) <==> CanUpdate(u, t)
    ensures CanDeleteTask(Some(FromServer(u)), t) <==> CanDelete(u, t)
    ensures ShowCreateButton(Some(FromServer(u))) <==> UserModel.IsRole(u.role)
  {
    UserModel.PermissionHighlights(u.role);
  }

  // ---------------------------------------------------------------------------------------------
  // Filters

  datatype TaskFilters = TaskFilters(search: string, status: string, priority: string, page: nat)

  const InitialFilters := TaskFilters("", "", "", 1)

  datatype FilterField = Search | Status | Priority

  function FieldOf(f: TaskFilters, field: FilterField): string {
    match field
    case Search => f.search
    case Status => f.status
    case Priority => f.priority
  }

  /** `handleFilterChange(field, value)`: that field set, back to page 1, the rest kept. */
  function WithFilter(f: TaskFilters, field: FilterField, value: string): (r: TaskFilters)
    ensures r.page == 1 && FieldOf(r, field) == value
    ensures forall g :: g != field ==> FieldOf(r, g) == FieldOf(f, g)
  {
    match field
    case Search => f.(search := value, page := 1)
    case Status => f.(status := value, page := 1)
    case Priority => f.(priority := value, page := 1)
  }

  /** The list request the page sends for its filters (empty strings are sent as they are). */
  function QueryOf(f: TaskFilters): (q: TaskQuery)
    ensures q.page == f.page && q.limit == 10 && q.assignedTo.None?
    ensures q.status == Some(f.status) && q.priority == Some(f.priority) && q.search == Some(f.search)
  {
    TaskQuery(Some(f.status), Some(f.priority), None, Some(f.search), f.page, 10)
  }

  /** The page's first request narrows nothing: the server applies only its ownership rule. */
  lemma InitialQueryListsOwnTasks(requester: UserModel.User, t: Task, hit: (string, Task) -> bool)
    ensures Listed(requester, QueryOf(InitialFilters), t, hit) <==>
      !t.isArchived &&
      (requester.role == UserModel.UserRole ==> t.assignedTo == requester.firebaseUid || t.createdBy == requester.firebaseUid)
  {
  }

  /** Clearing a filter (setting it to the empty string) is the same, for the server, as never
      setting it: the list depends only on the truthy filters. */
  lemma ClearedFilterNarrowsNothing(requester: UserModel.User, f: TaskFilters, field: FilterField, t: Task,
                                    hit: (string, Task) -> bool)
    ensures Listed(requester, QueryOf(WithFilter(f, field, "")), t, hit) <==>
      Listed(requester, QueryOf(f).(status := if field == Status then None else QueryOf(f).status,
                                     priority := if field == Priority then None else QueryOf(f).priority,
                                     search := if field == Search then None else QueryOf(f).search), t, hit)
  {
  }

  /** The page's state. */
  class TasksView {
    var filters: TaskFilters
    var form: TaskForm
    var editing: Option<Task>
    var dialogOpen: bool

    constructor ()
      ensures filters == InitialFilters && form == EmptyForm && editing.None? && !dialogOpen
    {
      filters, form, editing, dialogOpen := InitialFilters, EmptyForm, None, false;
    }

    method HandleFilterChange(field: FilterField, value: string)
      modifies this`filters
      ensures filters == WithFilter(old(filters), field, value)
    {
      filters := WithFilter(filters, field, value);
    }

    /** `handlePageChange`: only the page changes. */
    method HandlePageChange(page: nat)
      modifies this`filters
      ensures filters == old(filters).(page := page)
    {
      filters := filters.(page := page);
    }

    method OpenCreateDialog()
      modifies this`editing, this`form, this`dialogOpen
      ensures editing.None? && form == EmptyForm && dialogOpen
    {
      editing := None;
      form := EmptyForm;
      dialogOpen := true;
    }

    method OpenEditDialog(t: Task)
      modifies this`editing, this`form, this`dialogOpen
      ensures editing == Some(t) && form == FormFor(t) && dialogOpen
    {
      editing := Some(t);
      form := FormFor(t);
      dialogOpen := true;
    }
  }
}
