/**
 * Requests run one after another against a Store, and what the later
 * requests then see: properties that relate several handlers.
 */
module Scenarios {
  import opened Outcomes
  import opened Schema
  import opened TodoApp

  /** Two update requests on the same task restore every table. */
  method UpdateTwice(s: Store, t: TaskId)
    requires s.Valid()
    modifies s
    ensures s.Valid()
    ensures s.tasks == old(s.tasks) && s.lists == old(s.lists) && s.users == old(s.users)
  {
    var first := s.Update(t);
    var second := s.Update(t);
  }

  /** Two star requests on the same task restore every table. */
  method StarTwice(s: Store, t: TaskId)
    requires s.Valid()
    modifies s
    ensures s.Valid()
    ensures s.tasks == old(s.tasks) && s.lists == old(s.lists) && s.users == old(s.users)
  {
    var first := s.Star(t);
    var second := s.Star(t);
  }

  /** A visitor's first task: first_save creates the list, add puts the task
      on it, and show_list then shows that one task, not complete, not starred. */
  method FirstTask(s: Store, text: string) returns (l: ListId, shown: Result<map<TaskId, Todo>>)
    requires s.Valid() && text != ""
    modifies s
    ensures s.Valid()
    ensures shown.Success? && |shown.value| == 1
    ensures forall t :: t in shown.value ==> shown.value[t] == Todo(l, old(s.principal), text, false, false)
  {
    l := s.FirstList();
    MissingListHasNoTasks(old(s.lists), old(s.tasks), l);
    ghost var id := s.nextTaskId;
    var added := s.Add(l, text);
    shown := s.ShowList(l);
    InsertShowsOnItsList(old(s.tasks), id, Todo(l, old(s.principal), text, false, false), l);
  }

  /** Registering while an anonymous list is carried along: the new user owns
      that list and every task on it, and sees it among the saved lists. */
  method RegisterClaims(s: Store, email: string, name: string, password: string, l: ListId)
    returns (st: Status, saved: Result<map<ListId, TodoList>>)
    requires s.Valid() && l in s.lists && !HasEmail(s.users, email)
    modifies s
    ensures s.Valid()
    ensures s.principal == Some(old(s.nextUserId)) && s.users[old(s.nextUserId)].email == email
    ensures st == Done && saved.Success? && l in saved.value
    ensures forall t :: t in s.tasks && s.tasks[t].listId == l ==> s.tasks[t].owner == s.principal
  {
    st := s.Register(email, name, password, ClaimId(l));
    saved := s.Saved();
  }

  /** An account made by register can log in again with the same password. */
  method RegisterThenLogin(s: Store, email: string, name: string, password: string)
    returns (registered: Status, loggedIn: Status)
    requires s.Valid() && !HasEmail(s.users, email)
    modifies s
    ensures s.Valid()
    ensures registered == Done && loggedIn == Done
    ensures s.principal == Some(old(s.nextUserId)) && s.users[old(s.nextUserId)].email == email
  {
    registered := s.Register(email, name, password, NoClaim);
    var out := s.Logout();
    loggedIn := s.Login(email, password, NoClaim);
  }

  /** After a list is deleted, show_list answers 404 for it and no task
      refers to it. */
  method DeleteThenShow(s: Store, l: ListId) returns (deleted: Status, shown: Result<map<TaskId, Todo>>)
    requires s.Valid() && l in s.lists
    modifies s
    ensures s.Valid()
    ensures deleted == Done && shown == Failure(NotFound)
    ensures forall t :: t in s.tasks ==> s.tasks[t].listId != l
  {
    deleted := s.NewList(l);
    shown := s.ShowList(l);
  }
}
