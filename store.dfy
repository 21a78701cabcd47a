/**
 * The request handlers of the to-do application as methods of one object
 * holding the three tables, the per-table id counters, the principal of the
 * session being served and the list id a Google sign-in carries along.
 * Each handler is one atomic update of the tables; rendering and redirects
 * are reduced to a Status or to the list the redirect shows.
 */
module TodoApp {
  import opened Outcomes
  import opened Schema

  class Store {
    var users: map<UserId, User>
    var lists: map<ListId, TodoList>
    var tasks: map<TaskId, Todo>
    var nextUserId: int
    var nextListId: int
    var nextTaskId: int
    /** current_user when authenticated, None when anonymous. */
    var principal: Option<UserId>
    /** The list id google() records for google_auth() to claim. */
    var pendingGoogleClaim: ClaimArg
    /** generate_password_hash, taken as an uninterpreted function. */
    const hash: string -> string
    /** The default list name, fixed once when the process starts. */
    const defaultListName: string

    ghost predicate Valid()
      reads this
    {
      && TasksHaveLists(lists, tasks)
      && OwnersAreUsers(users, lists, tasks)
      && EmailsUnique(users)
      && (principal.Some? ==> principal.value in users)
      && KeysBelow(users, nextUserId)
      && KeysBelow(lists, nextListId)
      && KeysBelow(tasks, nextTaskId)
    }

    constructor (hash: string -> string, defaultListName: string)
      ensures Valid()
      ensures users == map[] && lists == map[] && tasks == map[]
      ensures principal == None && pendingGoogleClaim == NoClaim
      ensures this.hash == hash && this.defaultListName == defaultListName
    {
      this.hash := hash;
      this.defaultListName := defaultListName;
      users, lists, tasks := map[], map[], map[];
      nextUserId, nextListId, nextTaskId := 1, 1, 1;
      principal := None;
      pendingGoogleClaim := NoClaim;
    }

    /** check_password_hash: the stored digest is that of the password. */
    predicate PasswordMatches(stored: string, password: string)
    {
      stored == hash(password)
    }

    // -------------------------------------------------------------------
    // Queries

    /** show_list: the tasks of list l, or 404 when l has no row. */
    function ShowList(l: ListId): (r: Result<map<TaskId, Todo>>)
      reads this
      ensures r.Failure? <==> l !in lists
      ensures r.Failure? ==> r.error == NotFound
      ensures r.Success? ==> forall t :: t in r.value <==> t in tasks && tasks[t].listId == l
      ensures r.Success? ==> forall t :: t in r.value ==> r.value[t] == tasks[t]
    {
      if l !in lists then Failure(NotFound) else Success(TasksOf(tasks, l))
    }

    /** saved: the lists the principal owns; anonymous visitors are refused. */
    function Saved(): (r: Result<map<ListId, TodoList>>)
      reads this
      ensures r.Failure? <==> principal.None?
      ensures r.Failure? ==> r.error == LoginRequired
      ensures r.Success? ==> forall l :: l in r.value <==> l in lists && lists[l].owner == principal
      ensures r.Success? ==> forall l :: l in r.value ==> r.value[l] == lists[l]
    {
      if principal.None? then Failure(LoginRequired) else Success(OwnedLists(lists, principal.value))
    }

    /** `select User where email == e`: scans the user table. */
    method UserWithEmail(email: string) returns (r: Option<UserId>)
      ensures r.Some? ==> r.value in users && users[r.value].email == email
      ensures r.None? ==> !HasEmail(users, email)
    {
      var unseen := users.Keys;
      while unseen != {}
        invariant unseen <= users.Keys
        invariant forall u :: u in users && u !in unseen ==> users[u].email != email
        decreases unseen
      {
        // Gives the verifier a witness for the choice on the next line.
        ghost var next := PickKey(unseen);
        var u :| u in unseen;
        if users[u].email == email {
          return Some(u);
        }
        unseen := unseen - {u};
      }
      return None;
    }

    // -------------------------------------------------------------------
    // Lists and tasks

    /** add: a task with non-empty text joins list l, owned by the principal. */
    method Add(l: ListId, text: string) returns (r: Result<ListId>)
      requires Valid()
      modifies this`tasks, this`nextTaskId
      ensures Valid()
      ensures l !in lists ==> r == Failure(NotFound) && tasks == old(tasks)
      ensures l in lists ==> r == Success(l)
      ensures l in lists && text == "" ==> tasks == old(tasks)
      ensures l in lists && text != "" ==>
                && old(nextTaskId) !in old(tasks)
                && tasks == old(tasks)[old(nextTaskId) := Todo(l, principal, text, false, false)]
    {
      if l !in lists {
        return Failure(NotFound);
      }
      if text != "" {
        tasks := tasks[nextTaskId := Todo(l, principal, text, false, false)];
        nextTaskId := nextTaskId + 1;
      }
      r := Success(l);
    }

    /** first_list: a new list with the default name, owned by the principal. */
    method FirstList() returns (l: ListId)
      requires Valid()
      modifies this`lists, this`nextListId
      ensures Valid()
      ensures l !in old(lists) && lists == old(lists)[l := TodoList(defaultListName, principal)]
    {
      l := nextListId;
      lists := lists[l := TodoList(defaultListName, principal)];
      nextListId := nextListId + 1;
    }

    /** update: flip the complete flag of task t. */
    method Update(t: TaskId) returns (r: Result<ListId>)
      requires Valid()
      modifies this`tasks
      ensures Valid()
      ensures t !in old(tasks) ==> r == Failure(NotFound) && tasks == old(tasks)
      ensures t in old(tasks) ==>
                && r == Success(old(tasks)[t].listId)
                && tasks == old(tasks)[t := old(tasks)[t].(complete := !old(tasks)[t].complete)]
    {
      if t !in tasks {
        return Failure(NotFound);
      }
      var todo := tasks[t];
      tasks := tasks[t := todo.(complete := !todo.complete)];
      r := Success(todo.listId);
    }

    /** star: flip the starred flag of task t. */
    method Star(t: TaskId) returns (r: Result<ListId>)
      requires Valid()
      modifies this`tasks
      ensures Valid()
      ensures t !in old(tasks) ==> r == Failure(NotFound) && tasks == old(tasks)
      ensures t in old(tasks) ==>
                && r == Success(old(tasks)[t].listId)
                && tasks == old(tasks)[t := old(tasks)[t].(starred := !old(tasks)[t].starred)]
    {
      if t !in tasks {
        return Failure(NotFound);
      }
      var todo := tasks[t];
      tasks := tasks[t := todo.(starred := !todo.starred)];
      r := Success(todo.listId);
    }

    /** delete: remove task t. */
    method Delete(t: TaskId) returns (r: Result<ListId>)
      requires Valid()
      modifies this`tasks
      ensures Valid()
      ensures t !in old(tasks) ==> r == Failure(NotFound) && tasks == old(tasks)
      ensures t in old(tasks) ==> r == Success(old(tasks)[t].listId) && tasks == old(tasks) - {t}
    {
      if t !in tasks {
        return Failure(NotFound);
      }
      r := Success(tasks[t].listId);
      tasks := tasks - {t};
    }

    /** The loop of new_list and delete_list: delete the tasks of list l one by one. */
    method DropTasksOf(l: ListId)
      modifies this`tasks
      ensures tasks == WithoutTasksOf(old(tasks), l)
    {
      var doomed := TasksOf(tasks, l).Keys;
      while doomed != {}
        invariant doomed <= TasksOf(old(tasks), l).Keys
        invariant forall t :: t in tasks <==> t in old(tasks) && (old(tasks)[t].listId != l || t in doomed)
        invariant forall t :: t in tasks ==> tasks[t] == old(tasks)[t]
        decreases doomed
      {
        // Gives the verifier a witness for the choice on the next line.
        ghost var next := PickKey(doomed);
        var t :| t in doomed;
        tasks := tasks - {t};
        doomed := doomed - {t};
      }
      ghost var kept := WithoutTasksOf(old(tasks), l);
      forall t
        ensures t in tasks <==> t in kept
      {
        if t in old(tasks) {
          assert t in kept <==> old(tasks)[t].listId != l;
        }
      }
      assert tasks.Keys == kept.Keys;
      forall t | t in tasks
        ensures tasks[t] == kept[t]
      {
      }
    }

    /** new_list: delete the tasks of list l, then l itself (404 if absent). */
    method NewList(l: ListId) returns (s: Status)
      requires Valid()
      modifies this`lists, this`tasks
      ensures Valid()
      ensures l !in old(lists) ==> s == Failed(NotFound) && lists == old(lists) && tasks == old(tasks)
      ensures l in old(lists) ==>
                s == Done && lists == old(lists) - {l} && tasks == WithoutTasksOf(old(tasks), l)
    {
      DropTasksOf(l);
      if l !in lists {
        MissingListHasNoTasks(lists, old(tasks), l);
        return Failed(NotFound);
      }
      CascadeKeepsIntegrity(lists, old(tasks), l, l);
      lists := lists - {l};
      s := Done;
    }

    /** delete_list: new_list behind login_required. */
    method DeleteList(l: ListId) returns (s: Status)
      requires Valid()
      modifies this`lists, this`tasks
      ensures Valid()
      ensures principal.None? ==> s == Failed(LoginRequired) && lists == old(lists) && tasks == old(tasks)
      ensures principal.Some? && l !in old(lists) ==>
                s == Failed(NotFound) && lists == old(lists) && tasks == old(tasks)
      ensures principal.Some? && l in old(lists) ==>
                s == Done && lists == old(lists) - {l} && tasks == WithoutTasksOf(old(tasks), l)
    {
      if principal.None? {
        return Failed(LoginRequired);
      }
      s := NewList(l);
    }

    /** change_list_name: rename list l. */
    method ChangeListName(l: ListId, newName: string) returns (r: Result<ListId>)
      requires Valid()
      modifies this`lists
      ensures Valid()
      ensures l !in old(lists) ==> r == Failure(NotFound) && lists == old(lists)
      ensures l in old(lists) ==>
                r == Success(l) && lists == old(lists)[l := old(lists)[l].(listName := newName)]
    {
      if l !in lists {
        return Failure(NotFound);
      }
      lists := lists[l := lists[l].(listName := newName)];
      r := Success(l);
    }

    // -------------------------------------------------------------------
    // Claiming an anonymous list

    /** The claim step of login, register and google_auth: list l and every
        task of it get owner u. */
    method Claim(l: ListId, u: UserId) returns (s: Status)
      requires Valid() && u in users
      modifies this`lists, this`tasks
      ensures Valid()
      ensures ClaimEffect(old(lists), old(tasks), lists, tasks, l, u, s)
    {
      if l !in lists {
        return Failed(NotFound);
      }
      lists := lists[l := lists[l].(owner := Some(u))];
      var unclaimed := TasksOf(tasks, l).Keys;
      while unclaimed != {}
        invariant lists == old(lists)[l := old(lists)[l].(owner := Some(u))]
        invariant unclaimed <= TasksOf(old(tasks), l).Keys
        invariant tasks.Keys == old(tasks).Keys
        invariant forall t :: t in tasks ==>
                    tasks[t] == if old(tasks)[t].listId == l && t !in unclaimed
                                then old(tasks)[t].(owner := Some(u)) else old(tasks)[t]
        decreases unclaimed
      {
        // Gives the verifier a witness for the choice on the next line.
        ghost var next := PickKey(unclaimed);
        var t :| t in unclaimed;
        tasks := tasks[t := tasks[t].(owner := Some(u))];
        unclaimed := unclaimed - {t};
      }
      ghost var claimed := ClaimTasks(old(tasks), l, u);
      assert tasks.Keys == claimed.Keys;
      forall t | t in tasks
        ensures tasks[t] == claimed[t]
      {
      }
      ClaimKeepsIntegrity(users, old(lists), old(tasks), l, u);
      s := Done;
    }

    /** Claim for a carried argument tested with `is not None`. */
    method ClaimArgument(arg: ClaimArg, u: UserId) returns (s: Status)
      requires Valid() && u in users
      modifies this`lists, this`tasks
      ensures Valid()
      ensures ClaimArgEffect(old(lists), old(tasks), lists, tasks, arg, u, s)
    {
      match arg
      case NoClaim => s := Done;
      case BlankClaim => s := Failed(NotFound);
      case ClaimId(l) => s := Claim(l, u);
    }

    // -------------------------------------------------------------------
    // Accounts

    /** login: check email and password, start the session, then claim the
        carried list when one is given (a blank list id claims nothing). */
    method Login(email: string, password: string, claim: ClaimArg) returns (s: Status)
      requires Valid()
      modifies this`principal, this`lists, this`tasks
      ensures Valid()
      ensures !HasEmail(users, email) ==>
                s == Failed(UnknownEmail) && principal == old(principal)
                && lists == old(lists) && tasks == old(tasks)
      ensures HasEmail(users, email) && !PasswordMatches(users[EmailOwner(users, email)].password, password) ==>
                s == Failed(WrongPassword) && principal == old(principal)
                && lists == old(lists) && tasks == old(tasks)
      ensures HasEmail(users, email) && PasswordMatches(users[EmailOwner(users, email)].password, password) ==>
                && principal == Some(EmailOwner(users, email))
                && ClaimArgEffect(old(lists), old(tasks), lists, tasks,
                                  if claim.ClaimId? then claim else NoClaim, EmailOwner(users, email), s)
    {
      var found := UserWithEmail(email);
      if found.None? {
        return Failed(UnknownEmail);
      }
      var u := found.value;
      assert u == EmailOwner(users, email);
      if !PasswordMatches(users[u].password, password) {
        return Failed(WrongPassword);
      }
      principal := Some(u);
      s := ClaimArgument(if claim.ClaimId? then claim else NoClaim, u);
    }

    /** register: refuse a known email; otherwise add the user, start the
        session and claim the carried list. */
    method Register(email: string, name: string, password: string, claim: ClaimArg) returns (s: Status)
      requires Valid()
      modifies this`users, this`nextUserId, this`principal, this`lists, this`tasks
      ensures Valid()
      ensures HasEmail(old(users), email) ==>
                s == Failed(EmailTaken) && users == old(users) && principal == old(principal)
                && lists == old(lists) && tasks == old(tasks)
      ensures !HasEmail(old(users), email) ==>
                && old(nextUserId) !in old(users)
                && users == old(users)[old(nextUserId) := User(email, name, hash(password), false, None)]
                && principal == Some(old(nextUserId))
                && ClaimArgEffect(old(lists), old(tasks), lists, tasks, claim, old(nextUserId), s)
    {
      var found := UserWithEmail(email);
      if found.Some? {
        var u := found.value;
        assert u in users && users[u].email == email;
        return Failed(EmailTaken);
      }
      var u := nextUserId;
      NewUserIsFoundByEmail(users, u, User(email, name, hash(password), false, None));
      users := users[u := User(email, name, hash(password), false, None)];
      nextUserId := nextUserId + 1;
      principal := Some(u);
      s := ClaimArgument(claim, u);
    }

    /** logout: end the session (login_required). */
    method Logout() returns (s: Status)
      requires Valid()
      modifies this`principal
      ensures Valid()
      ensures old(principal).None? ==> s == Failed(LoginRequired) && principal == None
      ensures old(principal).Some? ==> s == Done && principal == None
    {
      if principal.None? {
        return Failed(LoginRequired);
      }
      principal := None;
      s := Done;
    }

    /** account: set the name and the email that are not empty; Google users
        are left as they are. An email another user has breaks the unique
        constraint after the name was stored. */
    method Account(newName: string, newEmail: string) returns (s: Status)
      requires Valid()
      modifies this`users
      ensures Valid()
      ensures principal.None? ==> s == Failed(LoginRequired) && users == old(users)
      ensures principal.Some? && old(users)[principal.value].loginWithGoogle ==>
                s == Done && users == old(users)
      ensures principal.Some? && !old(users)[principal.value].loginWithGoogle ==>
                var me := principal.value;
                var renamed := if newName == "" then old(users)[me] else old(users)[me].(name := newName);
                if newEmail == "" then
                  s == Done && users == old(users)[me := renamed]
                else if EmailTakenByOther(old(users), newEmail, me) then
                  s == Failed(ServerError) && users == old(users)[me := renamed]
                else
                  s == Done && users == old(users)[me := renamed.(email := newEmail)]
    {
      if principal.None? {
        return Failed(LoginRequired);
      }
      var me := principal.value;
      if users[me].loginWithGoogle {
        return Done;
      }
      if newName != "" {
        users := users[me := users[me].(name := newName)];
      }
      if newEmail != "" {
        var holder := UserWithEmail(newEmail);
        if holder.Some? && holder.value != me {
          var other := holder.value;
          assert other in old(users) && other != me && old(users)[other].email == newEmail;
          return Failed(ServerError);
        }
        forall v | v in old(users) && v != me
          ensures old(users)[v].email != newEmail
        {
          assert users[v] == old(users)[v];
          assert holder.Some? ==> old(users)[me].email == newEmail;
        }
        users := users[me := users[me].(email := newEmail)];
      }
      s := Done;
    }

    /** change_password: store the digest of a non-empty password; Google
        users are left as they are. */
    method ChangePassword(password: string) returns (s: Status)
      requires Valid()
      modifies this`users
      ensures Valid()
      ensures principal.None? ==> s == Failed(LoginRequired) && users == old(users)
      ensures principal.Some? && (old(users)[principal.value].loginWithGoogle || password == "") ==>
                s == Done && users == old(users)
      ensures principal.Some? && !old(users)[principal.value].loginWithGoogle && password != "" ==>
                s == Done
                && users == old(users)[principal.value := old(users)[principal.value].(password := hash(password))]
    {
      if principal.None? {
        return Failed(LoginRequired);
      }
      var me := principal.value;
      if !users[me].loginWithGoogle && password != "" {
        users := users[me := users[me].(password := hash(password))];
      }
      s := Done;
    }

    /** verify_email: mark the user the token names as verified. A token that
        does not decode, or names no user, ends the request with nothing changed. */
    method VerifyEmail(tokenEmail: Option<string>) returns (s: Status)
      requires Valid()
      modifies this`users
      ensures Valid()
      ensures tokenEmail.None? ==> s == Failed(BadToken) && users == old(users)
      ensures tokenEmail.Some? && !HasEmail(old(users), tokenEmail.value) ==>
                s == Failed(ServerError) && users == old(users)
      ensures tokenEmail.Some? && HasEmail(old(users), tokenEmail.value) ==>
                var u := EmailOwner(old(users), tokenEmail.value);
                s == Done && users == old(users)[u := old(users)[u].(verified := Some(true))]
    {
      if tokenEmail.None? {
        return Failed(BadToken);
      }
      var found := UserWithEmail(tokenEmail.value);
      if found.None? {
        return Failed(ServerError);
      }
      var u := found.value;
      assert u == EmailOwner(users, tokenEmail.value);
      users := users[u := users[u].(verified := Some(true))];
      s := Done;
    }

    /** google: remember the list id to claim once the provider answers. */
    method Google(arg: ClaimArg)
      requires Valid()
      modifies this`pendingGoogleClaim
      ensures Valid()
      ensures pendingGoogleClaim == arg
    {
      pendingGoogleClaim := arg;
    }

    /** google_auth, after the provider's profile is obtained: log in the user
        with that email, or create a Google user for it; then claim the pending
        list, and forget it once the claim went through. */
    method GoogleAuth(email: string, name: string, nonce: string) returns (s: Status)
      requires Valid()
      modifies this`users, this`nextUserId, this`principal, this`lists, this`tasks, this`pendingGoogleClaim
      ensures Valid()
      ensures HasEmail(old(users), email) ==>
                users == old(users) && principal == Some(EmailOwner(old(users), email))
      ensures !HasEmail(old(users), email) ==>
                && old(nextUserId) !in old(users)
                && users == old(users)[old(nextUserId) := User(email, name, hash(nonce), true, None)]
                && principal == Some(old(nextUserId))
      ensures principal.Some?
      ensures ClaimArgEffect(old(lists), old(tasks), lists, tasks, old(pendingGoogleClaim), principal.value, s)
      ensures pendingGoogleClaim == if s == Done then NoClaim else old(pendingGoogleClaim)
    {
      var found := UserWithEmail(email);
      var u;
      if found.Some? {
        u := found.value;
        assert u == EmailOwner(users, email);
      } else {
        u := nextUserId;
        NewUserIsFoundByEmail(users, u, User(email, name, hash(nonce), true, None));
        users := users[u := User(email, name, hash(nonce), true, None)];
        nextUserId := nextUserId + 1;
      }
      principal := Some(u);
      s := ClaimArgument(pendingGoogleClaim, u);
      if s == Done {
        pendingGoogleClaim := NoClaim;
      }
    }
  }
}
