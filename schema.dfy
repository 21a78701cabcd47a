/**
 * The three tables of the application (users, lists, todo_tasks) as maps
 * keyed by primary key, the queries the handlers run over them, and the
 * integrity conditions the handlers keep.
 */
module Schema {
  import opened Outcomes

  type UserId = int
  type ListId = int
  type TaskId = int

  /** A row of `users`. `password` holds the stored digest; `verified` stays
      unset (None) until the email is verified. */
  datatype User = User(email: string, name: string, password: string,
                       loginWithGoogle: bool, verified: Option<bool>)

  /** A row of `lists`; an anonymous visitor's list has no owner. */
  datatype TodoList = TodoList(listName: string, owner: Option<UserId>)

  /** A row of `todo_tasks`. */
  datatype Todo = Todo(listId: ListId, owner: Option<UserId>, task: string,
                       starred: bool, complete: bool)

  /** The `list_id` a login, registration or Google sign-in carries along:
      absent, present but empty, or naming a list (a value that names no list
      behaves like an id that is not in the table). */
  datatype ClaimArg = NoClaim | BlankClaim | ClaimId(id: ListId)

  // ---------------------------------------------------------------------
  // Integrity conditions

  /** Every task's list exists: the foreign key declared on todo_tasks.list_id,
      which SQLite does not enforce here; the handlers keep it. */
  ghost predicate TasksHaveLists(lists: map<ListId, TodoList>, tasks: map<TaskId, Todo>)
  {
    forall t :: t in tasks ==> tasks[t].listId in lists
  }

  /** The declared foreign keys lists.user_id and todo_tasks.user_id, kept by the handlers. */
  ghost predicate OwnersAreUsers(users: map<UserId, User>, lists: map<ListId, TodoList>,
                                 tasks: map<TaskId, Todo>)
  {
    && (forall l :: l in lists && lists[l].owner.Some? ==> lists[l].owner.value in users)
    && (forall t :: t in tasks && tasks[t].owner.Some? ==> tasks[t].owner.value in users)
  }

  /** The unique constraint on users.email. */
  ghost predicate EmailsUnique(users: map<UserId, User>)
  {
    forall a, b :: a in users && b in users && users[a].email == users[b].email ==> a == b
  }

  /** Every key is below the next id the table hands out. */
  ghost predicate KeysBelow<V>(m: map<int, V>, next: int)
  {
    forall k :: k in m ==> k < next
  }

  ghost predicate HasEmail(users: map<UserId, User>, email: string)
  {
    exists u :: u in users && users[u].email == email
  }

  /** Some user other than `me` has this email. */
  ghost predicate EmailTakenByOther(users: map<UserId, User>, email: string, me: UserId)
  {
    exists u :: u in users && u != me && users[u].email == email
  }

  /** The user `select User where email == e` finds. */
  ghost function EmailOwner(users: map<UserId, User>, email: string): (u: UserId)
    requires HasEmail(users, email)
    ensures u in users && users[u].email == email
  {
    var u :| u in users && users[u].email == email; u
  }

  /** A non-empty set of keys has a member to visit next. */
  lemma PickKey<K>(keys: set<K>) returns (k: K)
    requires keys != {}
    ensures k in keys
  {
    k :| k in keys;
  }

  // ---------------------------------------------------------------------
  // Queries and bulk updates

  /** The rows of `select Todo where list_id == l`. */
  function TasksOf(tasks: map<TaskId, Todo>, l: ListId): map<TaskId, Todo>
  {
    map t | t in tasks && tasks[t].listId == l :: tasks[t]
  }

  /** The rows of `select TodoList where user_id == u`. */
  function OwnedLists(lists: map<ListId, TodoList>, u: UserId): map<ListId, TodoList>
  {
    map l | l in lists && lists[l].owner == Some(u) :: lists[l]
  }

  /** The task table once every task of list l has been deleted. */
  function WithoutTasksOf(tasks: map<TaskId, Todo>, l: ListId): map<TaskId, Todo>
  {
    map t | t in tasks && tasks[t].listId != l :: tasks[t]
  }

  /** The task table once every task of list l has been given owner u. */
  function ClaimTasks(tasks: map<TaskId, Todo>, l: ListId, u: UserId): map<TaskId, Todo>
  {
    map t | t in tasks :: if tasks[t].listId == l then tasks[t].(owner := Some(u)) else tasks[t]
  }

  /** The effect of claiming list l for user u, from (lists0, tasks0) to
      (lists1, tasks1), with response s: a missing list is a 404 that changes
      nothing; otherwise the list and every task of it get owner u. */
  ghost predicate ClaimEffect(lists0: map<ListId, TodoList>, tasks0: map<TaskId, Todo>,
                              lists1: map<ListId, TodoList>, tasks1: map<TaskId, Todo>,
                              l: ListId, u: UserId, s: Status)
  {
    if l in lists0 then
      && s == Done
      && lists1 == lists0[l := lists0[l].(owner := Some(u))]
      && tasks1 == ClaimTasks(tasks0, l, u)
    else
      s == Failed(NotFound) && lists1 == lists0 && tasks1 == tasks0
  }

  /** ClaimEffect for a carried argument tested with `is not None`: absent
      claims nothing, blank is a 404 that changes nothing. */
  ghost predicate ClaimArgEffect(lists0: map<ListId, TodoList>, tasks0: map<TaskId, Todo>,
                                 lists1: map<ListId, TodoList>, tasks1: map<TaskId, Todo>,
                                 arg: ClaimArg, u: UserId, s: Status)
  {
    match arg
    case NoClaim => s == Done && lists1 == lists0 && tasks1 == tasks0
    case BlankClaim => s == Failed(NotFound) && lists1 == lists0 && tasks1 == tasks0
    case ClaimId(l) => ClaimEffect(lists0, tasks0, lists1, tasks1, l, u, s)
  }

  // ---------------------------------------------------------------------
  // What the queries see after each update

  /** A task inserted into list l shows on list l and on no other list. */
  lemma InsertShowsOnItsList(tasks: map<TaskId, Todo>, id: TaskId, t: Todo, m: ListId)
    requires id !in tasks
    ensures TasksOf(tasks[id := t], t.listId) == TasksOf(tasks, t.listId)[id := t]
    ensures m != t.listId ==> TasksOf(tasks[id := t], m) == TasksOf(tasks, m)
  {
  }

  /** A deleted task disappears from its list and from nowhere else. */
  lemma DeleteHidesTask(tasks: map<TaskId, Todo>, id: TaskId, m: ListId)
    ensures TasksOf(tasks - {id}, m) == TasksOf(tasks, m) - {id}
  {
  }

  /** A list with no row has no tasks while every task's list exists, so deleting
      its tasks changes nothing. */
  lemma MissingListHasNoTasks(lists: map<ListId, TodoList>, tasks: map<TaskId, Todo>, l: ListId)
    requires TasksHaveLists(lists, tasks) && l !in lists
    ensures TasksOf(tasks, l) == map[]
    ensures WithoutTasksOf(tasks, l) == tasks
  {
    forall t | t in tasks
      ensures t !in TasksOf(tasks, l) && t in WithoutTasksOf(tasks, l)
    {
      assert tasks[t].listId in lists;
    }
    assert TasksOf(tasks, l).Keys == {};
    assert WithoutTasksOf(tasks, l).Keys == tasks.Keys;
  }

  /** Deleting list l with its tasks keeps the foreign key, leaves l with no
      tasks and every other list with exactly the tasks it had. */
  lemma CascadeKeepsIntegrity(lists: map<ListId, TodoList>, tasks: map<TaskId, Todo>, l: ListId, m: ListId)
    requires TasksHaveLists(lists, tasks)
    ensures TasksHaveLists(lists - {l}, WithoutTasksOf(tasks, l))
    ensures TasksOf(WithoutTasksOf(tasks, l), l) == map[]
    ensures m != l ==> TasksOf(WithoutTasksOf(tasks, l), m) == TasksOf(tasks, m)
  {
  }

  /** Claiming list l for u gives every task of l owner u, changes no other
      field of any task, and leaves the tasks of every other list as they were. */
  lemma ClaimOwnsListTasks(tasks: map<TaskId, Todo>, l: ListId, u: UserId, m: ListId)
    ensures ClaimTasks(tasks, l, u).Keys == tasks.Keys
    ensures TasksOf(ClaimTasks(tasks, l, u), l).Keys == TasksOf(tasks, l).Keys
    ensures forall t :: t in TasksOf(ClaimTasks(tasks, l, u), l) ==>
              TasksOf(ClaimTasks(tasks, l, u), l)[t] == tasks[t].(owner := Some(u))
    ensures m != l ==> TasksOf(ClaimTasks(tasks, l, u), m) == TasksOf(tasks, m)
  {
  }

  /** Claiming list l for u keeps the foreign keys and is idempotent. */
  lemma ClaimKeepsIntegrity(users: map<UserId, User>, lists: map<ListId, TodoList>,
                            tasks: map<TaskId, Todo>, l: ListId, u: UserId)
    requires TasksHaveLists(lists, tasks) && OwnersAreUsers(users, lists, tasks)
    requires l in lists && u in users
    ensures TasksHaveLists(lists[l := lists[l].(owner := Some(u))], ClaimTasks(tasks, l, u))
    ensures OwnersAreUsers(users, lists[l := lists[l].(owner := Some(u))], ClaimTasks(tasks, l, u))
    ensures ClaimTasks(ClaimTasks(tasks, l, u), l, u) == ClaimTasks(tasks, l, u)
    ensures var once := lists[l := lists[l].(owner := Some(u))];
            once[l := once[l].(owner := Some(u))] == once
  {
  }

  /** After list l is claimed for u it is among u's saved lists, and it has
      left the saved lists of every other user. */
  lemma ClaimedListIsSaved(lists: map<ListId, TodoList>, l: ListId, u: UserId, v: UserId)
    requires l in lists
    ensures OwnedLists(lists[l := lists[l].(owner := Some(u))], u)
            == OwnedLists(lists, u)[l := lists[l].(owner := Some(u))]
    ensures v != u ==> OwnedLists(lists[l := lists[l].(owner := Some(u))], v) == OwnedLists(lists, v) - {l}
  {
  }

  /** A user added under a fresh id with an email nobody has keeps the emails
      unique and is the one user an email lookup then finds. */
  lemma NewUserIsFoundByEmail(users: map<UserId, User>, u: UserId, user: User)
    requires EmailsUnique(users) && u !in users && !HasEmail(users, user.email)
    ensures EmailsUnique(users[u := user])
    ensures HasEmail(users[u := user], user.email)
    ensures EmailOwner(users[u := user], user.email) == u
  {
    assert users[u := user][u].email == user.email;
  }
}
