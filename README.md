# To-do list application: the handlers as a state machine

This project models the request handlers of a Flask to-do list application
(`main.py`) as updates of three tables:

- `users`: id → email, name, password digest, Google flag, verified flag;
- `lists`: id → list name, optional owner;
- `todo_tasks`: id → list id, optional owner, text, starred, complete.

The tables are maps keyed by primary key inside one `Store` object
(`store.dfy`), which also holds one id counter per table, the principal of
the session being served (`current_user`), and the list id a Google sign-in
carries between its two requests (`first_google_list_id`). Every handler is
a method of `Store` that performs its database work as one update and
answers with a `Status`, or with the list its redirect shows (`Result`);
404s, 401 refusals of anonymous visitors and flashed refusals are failures
that leave the tables as they were. The exception is the claim 404 in
`register` and `google_auth`: it comes after the new user row was committed,
and that row stays. `show_list` and `saved` are functions over the tables.
`@login_required` answers HTTP 401: no login view is configured, so nobody is
redirected to the login page.

Files:

- `outcomes.dfy`: `Option`, the handler responses (`Result`, `Status`) and
  the error kinds.
- `schema.dfy`: the three row types, the carried list id, the integrity
  conditions (the declared foreign keys, which SQLite does not enforce here and the handlers keep; unique emails), the queries and bulk updates as
  functions (`TasksOf`, `OwnedLists`, `WithoutTasksOf`, `ClaimTasks`), and
  lemmas on what the queries see after each update.
- `store.dfy`: the `Store` class. Its `Valid()` invariant holds the foreign
  keys (every task's list exists; owners are users), unique emails, a
  principal that is a user, and keys below the id counters. Every handler
  keeps it.
- `scenarios.dfy`: requests run in sequence and what later requests see.
  Toggling twice restores the tables. A first task shows alone on its new
  list. A list carried through registration is saved for the new user. A new
  account can log in again. A deleted list answers 404.

Password hashing is an uninterpreted function `hash`, a constant of the store.
`check_password_hash(stored, pw)` is `stored == hash(pw)`. The default list
name is computed once at process start, so it is a constant of the store too.

Behaviour of the code that the model keeps, although one might expect
otherwise:

- A task's owner is the principal who added it, which need not be the
  owner of its list. No invariant ties the two. Only a claim aligns them.
- `register` sets `user.valid`, which is not a column. `verified` therefore
  stays unset until `verify_email` sets it.
- `new_list` and `delete_list` delete the list's tasks before they look the
  list up. Under the invariant that every task's list exists (declared at
  main.py:70, not enforced by SQLite, kept by every handler) a missing list has no tasks, so a 404
  changes nothing.
- `login` claims only when the carried `list_id` is non-empty. `register`
  and `google_auth` claim whenever it is present, so a blank value is a 404
  raised after the account was created and the session started.
- `google_auth` clears the pending list id only after a successful claim. A
  404 leaves it pending.
- `account` stores a new name before it stores a new email. An email held
  by another user violates the unique constraint, which is a server error
  raised after the name change was committed.
- `verify_email` for an email no user has fails on `None`. That is a server
  error, and nothing changes.

## Model

| member | source | states |
|---|---|---|
| `TodoApp.Store.constructor` | main.py:45-76 | the three tables start empty, no one is logged in, no Google claim is pending, and the invariant holds |
| `TodoApp.Store.ShowList` | main.py:88-100 | 404 exactly when the list has no row; otherwise exactly the tasks whose list id is the requested one, with their rows unchanged |
| `TodoApp.Store.Saved` | main.py:379-384 | anonymous visitors are refused with 401; otherwise exactly the lists whose owner is the principal |
| `TodoApp.Store.UserWithEmail` | main.py:243 | the email lookup finds a user with that email when one exists, and reports none only when no user has it |
| `TodoApp.Store.Add` | main.py:103-131 | an unknown list is a 404 with no change; empty text adds nothing; otherwise exactly one new task under a fresh id, on that list, owned by the principal (none if anonymous), not starred, not complete |
| `TodoApp.Store.FirstList` | main.py:134-148 | exactly one new list under a fresh id with the default name, owned by the principal or by no one; no existing list changes |
| `TodoApp.Store.Update` | main.py:151-157 | an unknown task is a 404 with no change; otherwise only the complete flag of that task flips, and the redirect shows its list |
| `TodoApp.Store.Star` | main.py:175-180 | an unknown task is a 404 with no change; otherwise only the starred flag of that task flips, and the redirect shows its list |
| `TodoApp.Store.Delete` | main.py:160-165 | an unknown task is a 404 with no change; otherwise exactly that task is removed, and the redirect shows its list |
| `TodoApp.Store.DropTasksOf` | main.py:186-189 | the deletion loop leaves exactly the tasks of other lists, unchanged |
| `TodoApp.Store.NewList` | main.py:183-193 | a missing list is a 404 with nothing changed; otherwise the list and all its tasks are gone and every other list and task is unchanged |
| `TodoApp.Store.DeleteList` | main.py:196-206 | as NewList, behind login_required: anonymous visitors change nothing |
| `TodoApp.Store.ChangeListName` | main.py:368-376 | an unknown list is a 404 with no change; otherwise only that list's name changes, to the submitted one, without any ownership check |
| `TodoApp.Store.Claim` | main.py:257-261 | a missing list is a 404 with no change; otherwise the list's owner becomes the user, every task of the list gets that owner, and other lists and tasks are unchanged |
| `TodoApp.Store.ClaimArgument` | main.py:301-306 | an absent list id claims nothing; a blank one is a 404; an id claims that list |
| `TodoApp.Store.Login` | main.py:233-263 | an unknown email, or a password whose digest differs from the stored one, establishes no principal and changes no list or task; otherwise the user with that email becomes the principal and a non-empty carried list id is claimed for them |
| `TodoApp.Store.Register` | main.py:267-307 | a known email creates no user and changes nothing; otherwise exactly one new user with that email, the password's digest, the Google flag off and verified unset, who becomes the principal and claims the carried list |
| `TodoApp.Store.Logout` | main.py:436-440 | the principal is cleared; anonymous visitors are refused with 401 |
| `TodoApp.Store.Account` | main.py:387-410 | anonymous visitors change nothing; Google users change nothing; an empty name or email leaves that field as it was; an email another user holds is refused after the name was stored |
| `TodoApp.Store.ChangePassword` | main.py:413-433 | anonymous visitors and Google users change nothing; an empty password leaves the digest; otherwise only the principal's digest changes, to that of the new password |
| `TodoApp.Store.VerifyEmail` | main.py:357-365 | a token that does not decode, or names no user, changes nothing; otherwise only that user's verified flag is set |
| `TodoApp.Store.Google` | main.py:443-446 | the carried list id is remembered for the provider's callback |
| `TodoApp.Store.GoogleAuth` | main.py:467-503 | a known email logs that user in without creating a user; an unknown one creates exactly one Google user and logs them in; the pending list is claimed for the principal and forgotten only when the claim succeeded |
| `Schema.EmailOwner` | main.py:243 | the user the email lookup returns has that email |
| `Schema.InsertShowsOnItsList` | main.py:117-119 | a task added to a list appears on that list's page and on no other |
| `Schema.DeleteHidesTask` | main.py:162-164 | a deleted task disappears from its list's page and nothing else changes there |
| `Schema.MissingListHasNoTasks` | main.py:70 | under the invariant that every task's list exists (declared, not enforced by SQLite, kept by every handler) a list with no row has no tasks, so the deletion loop of a 404 deletes nothing |
| `Schema.CascadeKeepsIntegrity` | main.py:199-205 | deleting a list with its tasks keeps every task's list existing, leaves that list with no tasks and every other list with the tasks it had |
| `Schema.ClaimOwnsListTasks` | main.py:258-260 | after a claim every task of the list is owned by the claimant with no other field changed, and other lists keep their tasks |
| `Schema.ClaimKeepsIntegrity` | main.py:495-500 | a claim keeps the foreign keys, and claiming the same list twice is the same as once |
| `Schema.ClaimedListIsSaved` | main.py:383 | a claimed list joins the claimant's saved lists and leaves every other user's |
| `Schema.NewUserIsFoundByEmail` | main.py:282-289 | a user added with an unused email keeps emails unique and is the user a later lookup of that email finds |
| `Scenarios.UpdateTwice` | main.py:151-157 | two update requests on a task restore every table |
| `Scenarios.StarTwice` | main.py:175-180 | two star requests on a task restore every table |
| `Scenarios.FirstTask` | main.py:134-148 | first list then add: show_list then shows exactly one task with that text, not complete and not starred |
| `Scenarios.RegisterClaims` | main.py:301-307 | registering with an anonymous list carried along logs in the newly created user, puts that list among their saved lists and gives them every task on it |
| `Scenarios.RegisterThenLogin` | main.py:282-290 | after registering and logging out, logging in with the same email and password succeeds |
| `Scenarios.DeleteThenShow` | main.py:183-193 | after new_list the list's page is a 404 and no task refers to the list |

## Left out

- Flask plumbing: routing, templates, `flash`, `url_for`, `request.full_path`. Redirects are reduced to a `Status`, or to the list the redirect shows.
- `home`, `new` and the three `save_list*` routes only redirect or render. They change no table.
- The GET branches of `login`, `register`, `account` and `change_password` only render a form. The model covers their POST branches.
- The process-wide `is_dark` toggle (`dark`) is display state shared across requests.
- `forgot_password` and `reset_password` (signed tokens and mail). `reset_password` only accepts GET, so its password change is unreachable.
- TodoApp.Store.Register: the model takes `jwt.encode` and `mail.send` (main.py:291-299) to return normally. As written, the call passes two arguments to authlib's `encode`, which takes three (header, payload, key). That would raise an error: a 500 with the user committed and no list claimed. The session started at main.py:290 is kept only when Flask handles the error itself, not under `app.run(debug=True)` (main.py:511). This rests on authlib's published signature and was not executed. `Scenarios.RegisterClaims` inherits the same assumption.
- Token decoding in `verify_email`: the handler receives the decoded email, or None when the token does not decode.
- The OAuth/OpenID Connect exchange in `google` and `google_auth` (client registration, nonce, token exchange). `GoogleAuth` starts from the profile's email, name and nonce.
- Password hashing is pbkdf2 with a random salt. The model uses one uninterpreted function `hash`, so collisions and salting are not represented.
- Ids come from never-reused counters. SQLite may reuse the id of a deleted highest row.
- SQLAlchemy sessions and commits: each handler is one atomic update. The per-task commits of the deletion loops matter only under a crash.
- One session is modelled. Concurrent clients and the sharing of `first_google_list_id` between them are not.
- Form fields are strings. A missing field (`None`), and a non-numeric `p_list_id` that makes `int()` fail, are not modelled.
- TodoApp.Store.ShowList: returns the tasks as a map keyed by id. The insertion order of the rendered page is not stated.
