/**
  The in-memory store standing for the two collections: users keyed by
  `firebaseUid` (unique, as is the email) and tasks keyed by id. Both are
  kept in insertion order. `findOne`/`findById` are linear searches proved
  against the lookup functions `UserIndex`/`TaskIndex`.
 */
module Store {
  import opened Outcomes
  import opened UserModel

  /** A task, with the fields the task controller reads and writes. */
  datatype Task = Task(
    id: nat,
    title: string,
    description: string,
    status: string,
    priority: string,
    dueDate: Option<int>,
    createdBy: string,
    assignedTo: string,
    tags: seq<string>,
    isArchived: bool)

  predicate UidsUnique(users: seq<User>) {
    forall i, j :: 0 <= i < j < |users| ==> users[i].firebaseUid != users[j].firebaseUid
  }

  predicate EmailsUnique(users: seq<User>) {
    forall i, j :: 0 <= i < j < |users| ==> users[i].email != users[j].email
  }

  predicate RolesValid(users: seq<User>) {
    forall i :: 0 <= i < |users| ==> IsRole(users[i].role)
  }

  /** The unique indexes of the users collection and the role enum. */
  predicate UsersValid(users: seq<User>) {
    UidsUnique(users) && EmailsUnique(users) && RolesValid(users)
  }

  /** Task ids are unique and all below the next id to hand out. */
  predicate TasksValid(tasks: seq<Task>, nextId: nat) {
    && (forall i, j :: 0 <= i < j < |tasks| ==> tasks[i].id != tasks[j].id)
    && (forall i :: 0 <= i < |tasks| ==> tasks[i].id < nextId)
  }

  /** Where the user with `uid` is stored, if anywhere. */
  function UserIndex(users: seq<User>, uid: string): (r: Option<nat>)
    ensures r.Some? ==> r.value < |users| && users[r.value].firebaseUid == uid
    ensures r.Some? ==> forall k :: 0 <= k < r.value ==> users[k].firebaseUid != uid
    ensures r.None? <==> forall i :: 0 <= i < |users| ==> users[i].firebaseUid != uid
  {
    if |users| == 0 then None
    else if users[0].firebaseUid == uid then Some(0)
    else match UserIndex(users[1..], uid)
      case None => None
      case Some(k) => Some(k + 1)
  }

  /** With unique uids, the index of a stored uid is the position it is stored at. */
  lemma UserIndexOf(users: seq<User>, i: nat)
    requires UidsUnique(users) && i < |users|
    ensures UserIndex(users, users[i].firebaseUid) == Some(i)
  {
  }

  predicate UserExists(users: seq<User>, uid: string) {
    exists i :: 0 <= i < |users| && users[i].firebaseUid == uid
  }

  predicate EmailTaken(users: seq<User>, email: string) {
    exists i :: 0 <= i < |users| && users[i].email == email
  }

  /** Appending a record with a fresh uid, a fresh email and a valid role keeps the table valid. */
  lemma AppendUserKeepsValid(users: seq<User>, u: User)
    requires UsersValid(users)
    requires forall i :: 0 <= i < |users| ==> users[i].firebaseUid != u.firebaseUid
    requires !EmailTaken(users, u.email)
    requires IsRole(u.role)
    ensures UsersValid(users + [u])
  {
    var users' := users + [u];
    forall i, j | 0 <= i < j < |users'|
      ensures users'[i].firebaseUid != users'[j].firebaseUid && users'[i].email != users'[j].email
    {
      if j == |users| {
        assert users'[i] == users[i];
      }
    }
  }

  /** A table with the entry at `k` deleted: the entries before it, then those after it. */
  function RemoveAt<T>(s: seq<T>, k: nat): (r: seq<T>)
    requires k < |s|
    ensures |r| == |s| - 1
    ensures forall i :: 0 <= i < |r| ==> r[i] == if i < k then s[i] else s[i + 1]
  {
    s[..k] + s[k + 1..]
  }

  /** Deleting a user keeps the table valid, and the deleted uid is no longer stored. */
  lemma RemoveUserKeepsValid(users: seq<User>, k: nat)
    requires UsersValid(users) && k < |users|
    ensures UsersValid(RemoveAt(users, k))
    ensures UserIndex(RemoveAt(users, k), users[k].firebaseUid).None?
  {
    var r := RemoveAt(users, k);
    forall i, j | 0 <= i < j < |r| ensures r[i].firebaseUid != r[j].firebaseUid && r[i].email != r[j].email {
      var i', j' := if i < k then i else i + 1, if j < k then j else j + 1;
      assert r[i] == users[i'] && r[j] == users[j'] && i' < j';
    }
    forall i | 0 <= i < |r| ensures r[i].firebaseUid != users[k].firebaseUid {
      var i' := if i < k then i else i + 1;
      assert r[i] == users[i'] && i' != k;
    }
  }

  /** Where the task with `id` is stored, if anywhere. */
  function TaskIndex(tasks: seq<Task>, id: nat): (r: Option<nat>)
    ensures r.Some? ==> r.value < |tasks| && tasks[r.value].id == id
    ensures r.None? <==> forall i :: 0 <= i < |tasks| ==> tasks[i].id != id
  {
    if |tasks| == 0 then None
    else if tasks[0].id == id then Some(0)
    else match TaskIndex(tasks[1..], id)
      case None => None
      case Some(k) => Some(k + 1)
  }

  /** Deleting a task keeps the ids unique and below the next id, and the deleted id is no longer stored. */
  lemma RemoveTaskKeepsValid(tasks: seq<Task>, k: nat, nextId: nat)
    requires k < |tasks|
    ensures TasksValid(tasks, nextId) ==> TasksValid(RemoveAt(tasks, k), nextId)
    ensures TasksValid(tasks, nextId) ==> TaskIndex(RemoveAt(tasks, k), tasks[k].id).None?
  {
    if TasksValid(tasks, nextId) {
      var r := RemoveAt(tasks, k);
      forall i, j | 0 <= i < j < |r| ensures r[i].id != r[j].id {
        var i', j' := if i < k then i else i + 1, if j < k then j else j + 1;
        assert r[i] == tasks[i'] && r[j] == tasks[j'] && i' < j';
      }
      forall i | 0 <= i < |r| ensures r[i].id != tasks[k].id {
        var i' := if i < k then i else i + 1;
        assert r[i] == tasks[i'] && i' != k;
      }
    }
  }

  /** `User.findOne({ firebaseUid: uid })` as a scan; -1 when absent. */
  method FindUser(users: seq<User>, uid: string) returns (i: int)
    ensures -1 <= i < |users|
    ensures i >= 0 ==> UserIndex(users, uid) == Some(i)
    ensures i < 0 ==> UserIndex(users, uid).None?
  {
    i := 0;
    while i < |users|
      invariant 0 <= i <= |users|
      invariant forall k :: 0 <= k < i ==> users[k].firebaseUid != uid
    {
      if users[i].firebaseUid == uid {
        FirstUserIndex(users, i);
        return;
      }
      i := i + 1;
    }
    i := -1;
  }

  lemma {:induction false} FirstUserIndex(users: seq<User>, i: nat)
    requires i < |users|
    requires forall k :: 0 <= k < i ==> users[k].firebaseUid != users[i].firebaseUid
    ensures UserIndex(users, users[i].firebaseUid) == Some(i)
  {
    if i > 0 {
      FirstUserIndex(users[1..], i - 1);
    }
  }

  /** `Task.findById(id)` as a scan; -1 when absent. */
  method FindTask(tasks: seq<Task>, id: nat) returns (i: int)
    ensures -1 <= i < |tasks|
    ensures i >= 0 ==> TaskIndex(tasks, id) == Some(i)
    ensures i < 0 ==> TaskIndex(tasks, id).None?
  {
    i := 0;
    while i < |tasks|
      invariant 0 <= i <= |tasks|
      invariant forall k :: 0 <= k < i ==> tasks[k].id != id
    {
      if tasks[i].id == id {
        FirstTaskIndex(tasks, i);
        return;
      }
      i := i + 1;
    }
    i := -1;
  }

  lemma {:induction false} FirstTaskIndex(tasks: seq<Task>, i: nat)
    requires i < |tasks|
    requires forall k :: 0 <= k < i ==> tasks[k].id != tasks[i].id
    ensures TaskIndex(tasks, tasks[i].id) == Some(i)
  {
    if i > 0 {
      FirstTaskIndex(tasks[1..], i - 1);
    }
  }

  /** The two collections. */
  class Db {
    var users: seq<User>
    var tasks: seq<Task>
    var nextId: nat

    ghost predicate Valid()
      reads this
    {
      UsersValid(users) && TasksValid(tasks, nextId)
    }

    constructor ()
      ensures Valid()
      ensures users == [] && tasks == [] && nextId == 0
    {
      users, tasks, nextId := [], [], 0;
    }

    /** `user.updateLastLogin()` on the stored record at `i`. */
    method UpdateLastLogin(i: nat, now: int)
      requires Valid() && i < |users|
      modifies this`users
      ensures Valid()
      ensures users == old(users)[i := WithLastLogin(old(users)[i], now)]
    {
      users := users[i := WithLastLogin(users[i], now)];
    }
  }
}
