/**
 * The administrator handlers: role changes with the upgrade email, deleting a user with all of
 * their tasks, hard-deleting any task, and the paginated, filtered listings of users and tasks.
 * The listings take the collection already sorted newest first.
 */
module AdminController {
  import opened Wrappers
  import opened Http
  import opened UserModel
  import opened TaskModel
  import Text
  import Store

  /** A case-insensitive `$regex` test of a text against a pattern; the engine is not modelled. */
  type Matcher = (string, string) -> bool

  // ---------------------------------------------------------------- pagination

  /** One page of a listing, with the `pagination` block of the reply. `pages` is absent when the
      division by the limit gives no finite number (a limit of 0). */
  datatype Page<T> = Page(data: seq<T>, total: nat, page: int, pages: Option<int>)

  function Abs(n: int): nat {
    if n < 0 then -n else n
  }

  /** The number of documents skipped: `(page - 1) * limit`. */
  function Skip(page: int, limit: int): int {
    (page - 1) * limit
  }

  /** `Math.ceil(total / limit)`; a zero limit yields Infinity or NaN, which the reply carries as null. */
  function PageCount(total: nat, limit: int): (r: Option<int>)
    ensures r.None? <==> limit == 0
    ensures limit > 0 ==> r.value >= 0 && (r.value - 1) * limit < total <= r.value * limit
    ensures limit < 0 ==> r.value <= 0 && r.value * limit <= total < (r.value - 1) * limit
  {
    if limit == 0 then None
    else if limit > 0 then
      var q := (total + limit - 1) / limit;
      DivBounds(total + limit - 1, limit);
      Some(q)
    else
      var q := total / (-limit);
      DivBounds(total, -limit);
      Some(-q)
  }

  lemma DivBounds(n: nat, d: int)
    requires d > 0
    ensures (n / d) * d <= n < (n / d + 1) * d
  {
  }

  /** The documents of a query after `skip` and `limit`: a limit of 0 sets no bound and a negative
      limit acts as its absolute value. */
  function Window<T>(matched: seq<T>, skip: nat, limit: int): (r: seq<T>)
    ensures |r| <= |matched|
    ensures limit != 0 ==> |r| <= Abs(limit)
    ensures skip >= |matched| ==> r == []
    ensures forall k :: 0 <= k < |r| ==> skip + k < |matched| && r[k] == matched[skip + k]
    ensures skip < |matched| && (limit == 0 || skip + Abs(limit) >= |matched|) ==> |r| == |matched| - skip
    ensures skip < |matched| && limit != 0 && skip + Abs(limit) < |matched| ==> |r| == Abs(limit)
  {
    if skip >= |matched| then []
    else if limit == 0 || Abs(limit) >= |matched| - skip then matched[skip..]
    else matched[skip..skip + Abs(limit)]
  }

  /** A listing reply: 500 when the skip is negative (the store refuses it); otherwise the window
      of the matching documents and the page count of all of them. */
  function Listing<T>(matched: seq<T>, page: int, limit: int, error: string): (r: Reply<Page<T>>)
    ensures r.Fail? <==> Skip(page, limit) < 0
    ensures r.Fail? ==> r == Fail(500, error)
    ensures r.Ok? ==> r.code == 200 && r.data.total == |matched| && r.data.page == page
    ensures r.Ok? ==> r.data.pages == PageCount(|matched|, limit)
    ensures r.Ok? ==> r.data.data == Window(matched, Skip(page, limit), limit)
  {
    var skip := Skip(page, limit);
    if skip < 0 then Fail(SERVER_ERROR, error)
    else Ok(OK, Page(Window(matched, skip, limit), |matched|, page, PageCount(|matched|, limit)))
  }

  /** With a positive limit, document `i` of the matching ones is at position `i % limit` of page
      `i / limit + 1`, so walking the pages shows every document. */
  lemma {:induction false} EveryDocumentIsOnItsPage<T>(matched: seq<T>, i: nat, limit: int)
    requires i < |matched| && limit > 0
    ensures Skip(i / limit + 1, limit) == i - i % limit
    ensures Listing(matched, i / limit + 1, limit, "").Ok?
    ensures var w := Listing(matched, i / limit + 1, limit, "").data.data;
      i % limit < |w| && w[i % limit] == matched[i]
  {
    var p := i / limit + 1;
    assert i == (i / limit) * limit + i % limit;
    assert Skip(p, limit) == (i / limit) * limit;
    var w := Window(matched, Skip(p, limit), limit);
    assert Skip(p, limit) < |matched|;
    assert |w| > i % limit;
  }

  /** The pages numbered 1 to `pages` are exactly the ones that can hold a document. */
  lemma {:induction false} LastPageIsNonEmpty<T>(matched: seq<T>, limit: int)
    requires limit > 0 && |matched| > 0
    ensures var n := PageCount(|matched|, limit).value;
      n >= 1 && |Listing(matched, n, limit, "").data.data| > 0 && |Listing(matched, n + 1, limit, "").data.data| == 0
  {
    var n := PageCount(|matched|, limit).value;
    assert Skip(n, limit) == (n - 1) * limit;
    assert Skip(n + 1, limit) == n * limit;
  }

  /** Keeps the elements `keep` accepts, in order. */
  function Filter<T>(xs: seq<T>, keep: T -> bool): (r: seq<T>)
    ensures |r| <= |xs|
    ensures forall k :: 0 <= k < |r| ==> r[k] in xs && keep(r[k])
    ensures forall k :: 0 <= k < |xs| && keep(xs[k]) ==> xs[k] in r
  {
    if xs == [] then []
    else (if keep(xs[0]) then [xs[0]] else []) + Filter(xs[1..], keep)
  }

  // ---------------------------------------------------------------- getAllUsers

  datatype UserQuery = UserQuery(page: Option<int>, limit: Option<int>, role: Option<string>, search: Option<string>)

  /** The `role` filter and the `$or` of case-insensitive regexes on username and email. */
  predicate UserMatches(u: User, q: UserQuery, regex: Matcher) {
    && (Text.Truthy(q.role) ==> u.role.Name() == q.role.value)
    && (Text.Truthy(q.search) ==> regex(u.username, q.search.value) || regex(u.email, q.search.value))
  }

  function PublicEntry(e: (UserId, User)): PublicUser {
    Public(e.0, e.1)
  }

  function MapPublic(xs: seq<(UserId, User)>): (r: seq<PublicUser>)
    ensures |r| == |xs|
    ensures forall k :: 0 <= k < |xs| ==> r[k] == Public(xs[k].0, xs[k].1)
  {
    if xs == [] then [] else [PublicEntry(xs[0])] + MapPublic(xs[1..])
  }

  /** `getAllUsers` over the users sorted newest first: page 1 and 20 per page by default, the
      password never in the reply. */
  function GetAllUsers(sorted: seq<(UserId, User)>, q: UserQuery, regex: Matcher): (r: Reply<Page<PublicUser>>)
    ensures r.Fail? ==> r == Fail(500, "Error fetching users")
    ensures r.Ok? ==> r.data.total == |Filter(sorted, (e: (UserId, User)) => UserMatches(e.1, q, regex))|
    ensures r.Ok? ==> forall p :: p in r.data.data ==>
      exists e :: e in sorted && UserMatches(e.1, q, regex) && p == Public(e.0, e.1)
    ensures r.Ok? && q.limit.None? ==> |r.data.data| <= 20
    ensures r.Fail? <==> Skip(q.page.GetOr(1), q.limit.GetOr(20)) < 0
    ensures r.Ok? ==> r.code == 200 && r.data.page == q.page.GetOr(1)
    ensures r.Ok? ==> r.data.pages == PageCount(r.data.total, q.limit.GetOr(20))
    ensures r.Ok? ==> r.data.data == MapPublic(Window(Filter(sorted, (e: (UserId, User)) => UserMatches(e.1, q, regex)),
                                                      Skip(q.page.GetOr(1), q.limit.GetOr(20)), q.limit.GetOr(20)))
  {
    var matched := Filter(sorted, (e: (UserId, User)) => UserMatches(e.1, q, regex));
    var page := q.page.GetOr(1);
    var limit := q.limit.GetOr(20);
    match Listing(matched, page, limit, "Error fetching users")
    case Fail(code, message) => Fail(code, message)
    case Ok(code, pg) =>
      var shown := MapPublic(pg.data);
      assert forall p :: p in shown ==> exists e :: e in pg.data && p == Public(e.0, e.1) by {
        forall p | p in shown
          ensures exists e :: e in pg.data && p == Public(e.0, e.1)
        {
          var k :| 0 <= k < |shown| && shown[k] == p;
          assert pg.data[k] in pg.data;
        }
      }
      Ok(code, Page(shown, pg.total, pg.page, pg.pages))
  }

  // ---------------------------------------------------------------- getAllTasks

  datatype TaskQuery = TaskQuery(page: Option<int>, limit: Option<int>, status: Option<string>,
                                 priority: Option<string>, userId: Option<string>)

  /** The query document: one equality per supplied query parameter, and nothing else. */
  function TaskFilter(q: TaskQuery): (f: map<string, string>)
    ensures f.Keys <= {"status", "priority", "userId"}
    ensures ("status" in f <==> Text.Truthy(q.status)) && ("status" in f ==> f["status"] == q.status.value)
    ensures ("priority" in f <==> Text.Truthy(q.priority)) && ("priority" in f ==> f["priority"] == q.priority.value)
    ensures ("userId" in f <==> Text.Truthy(q.userId)) && ("userId" in f ==> f["userId"] == q.userId.value)
  {
    var f0: map<string, string> := map[];
    var f1 := if Text.Truthy(q.status) then f0["status" := q.status.value] else f0;
    var f2 := if Text.Truthy(q.priority) then f1["priority" := q.priority.value] else f1;
    if Text.Truthy(q.userId) then f2["userId" := q.userId.value] else f2
  }

  /** The stored value a query key is compared with. */
  function TaskField(t: Task, key: string): string {
    if key == "status" then t.status.Name()
    else if key == "priority" then t.priority.Name()
    else t.userId
  }

  predicate SatisfiesFilter(t: Task, f: map<string, string>) {
    forall k :: k in f ==> TaskField(t, k) == f[k]
  }

  /** A task satisfies the admin filter exactly when it agrees with every supplied parameter; the
      soft-delete flag plays no part, so deleted tasks are listed too. */
  lemma AdminFilterMeaning(t: Task, q: TaskQuery)
    ensures SatisfiesFilter(t, TaskFilter(q)) <==>
      && (Text.Truthy(q.status) ==> t.status.Name() == q.status.value)
      && (Text.Truthy(q.priority) ==> t.priority.Name() == q.priority.value)
      && (Text.Truthy(q.userId) ==> t.userId == q.userId.value)
    ensures SatisfiesFilter(t, TaskFilter(q)) == SatisfiesFilter(t.(isDeleted := !t.isDeleted), TaskFilter(q))
  {
    var f := TaskFilter(q);
    if Text.Truthy(q.status) { assert "status" in f; }
    if Text.Truthy(q.priority) { assert "priority" in f; }
    if Text.Truthy(q.userId) { assert "userId" in f; }
  }

  /** `getAllTasks` over all tasks sorted newest first: page 1 and 50 per page by default. */
  function GetAllTasks(sorted: seq<(TaskId, Task)>, q: TaskQuery): (r: Reply<Page<(TaskId, Task)>>)
    ensures r.Fail? ==> r == Fail(500, "Error fetching tasks")
    ensures r.Ok? ==> r.data.total == |Filter(sorted, (e: (TaskId, Task)) => SatisfiesFilter(e.1, TaskFilter(q)))|
    ensures r.Ok? ==> forall e :: e in r.data.data ==> e in sorted && SatisfiesFilter(e.1, TaskFilter(q))
    ensures r.Ok? && q.limit.None? ==> |r.data.data| <= 50
    ensures r == Listing(Filter(sorted, (e: (TaskId, Task)) => SatisfiesFilter(e.1, TaskFilter(q))),
                         q.page.GetOr(1), q.limit.GetOr(50), "Error fetching tasks")
  {
    var f := TaskFilter(q);
    var matched := Filter(sorted, (e: (TaskId, Task)) => SatisfiesFilter(e.1, f));
    var r := Listing(matched, q.page.GetOr(1), q.limit.GetOr(50), "Error fetching tasks");
    assert r.Ok? ==> forall e :: e in r.data.data ==> e in matched by {
      if r.Ok? {
        forall e | e in r.data.data ensures e in matched {
          var k :| 0 <= k < |r.data.data| && r.data.data[k] == e;
        }
      }
    }
    r
  }

  // ---------------------------------------------------------------- updateUserRole

  /** The data of a successful role change. */
  datatype RoleChange = RoleChange(userId: UserId, username: string, oldRole: Role, newRole: Role)

  /** The upgrade email goes out when the new role is premium or admin and differs from the old one. */
  predicate UpgradeEmailDue(oldRole: Role, newRole: Role) {
    (newRole == Premium || newRole == Admin) && oldRole != newRole
  }

  /** Making someone a plain user, or leaving the role as it is, never sends the email; every change
      to premium or admin does, from admin to premium included. */
  lemma UpgradeEmailCases(oldRole: Role, newRole: Role)
    ensures newRole == Regular ==> !UpgradeEmailDue(oldRole, newRole)
    ensures !UpgradeEmailDue(oldRole, oldRole)
    ensures newRole != Regular && newRole != oldRole ==> UpgradeEmailDue(oldRole, newRole)
  {
  }

  /** `updateUserRole`: the role text is checked before the lookup, the requester cannot change
      their own role, and on success only the role of the target changes. `emailed` says whether the
      upgrade email was sent. */
  method UpdateUserRole(db: Store.Db, requester: UserId, target: UserId, role: Option<string>)
    returns (reply: Reply<RoleChange>, emailed: bool)
    modifies db`users
    ensures role.None? || ParseRole(role.value).None? ==>
      reply == Fail(400, "Invalid role. Allowed: user, premium, admin") && !emailed && db.users == old(db.users)
    ensures role.Some? && ParseRole(role.value).Some? && target !in old(db.users) ==>
      reply == Fail(404, "User not found") && !emailed && db.users == old(db.users)
    ensures role.Some? && ParseRole(role.value).Some? && target in old(db.users) && target == requester ==>
      reply == Fail(400, "You cannot change your own role") && !emailed && db.users == old(db.users)
    ensures role.Some? && ParseRole(role.value).Some? && target in old(db.users) && target != requester ==>
      var before := old(db.users)[target];
      var newRole := ParseRole(role.value).value;
      && db.users == old(db.users)[target := before.(role := newRole)]
      && reply == Ok(200, RoleChange(target, before.username, before.role, newRole))
      && emailed == UpgradeEmailDue(before.role, newRole)
  {
    emailed := false;
    if role.None? || ParseRole(role.value).None? {
      return Fail(BAD_REQUEST, "Invalid role. Allowed: user, premium, admin"), false;
    }
    var newRole := ParseRole(role.value).value;
    if target !in db.users {
      return Fail(NOT_FOUND, "User not found"), false;
    }
    if target == requester {
      return Fail(BAD_REQUEST, "You cannot change your own role"), false;
    }
    var user := db.users[target];
    var oldRole := user.role;
    db.users := db.users[target := user.(role := newRole)];
    if (newRole == Premium || newRole == Admin) && oldRole != newRole {
      emailed := true;
    }
    reply := Ok(OK, RoleChange(target, user.username, oldRole, newRole));
  }

  /** A role change keeps the logins unique and every task's owner stored. */
  lemma RoleChangeKeepsInvariants(users: map<UserId, User>, tasks: map<TaskId, Task>, target: UserId, newRole: Role)
    requires target in users
    requires Store.UniqueLogins(users) && Store.OwnersExist(users, tasks)
    ensures Store.UniqueLogins(users[target := users[target].(role := newRole)])
    ensures Store.OwnersExist(users[target := users[target].(role := newRole)], tasks)
  {
  }

  // ---------------------------------------------------------------- deleteUser

  /** The tasks of `owner`, soft-deleted ones included. */
  function TasksOwnedBy(tasks: map<TaskId, Task>, owner: UserId): (r: set<TaskId>)
    ensures r <= tasks.Keys
    ensures Store.ActiveTasksOf(tasks, owner) <= r
  {
    set id | id in tasks && tasks[id].userId == owner
  }

  /** The tasks that `deleteMany({ userId })` leaves. */
  function TasksNotOwnedBy(tasks: map<TaskId, Task>, owner: UserId): (r: map<TaskId, Task>)
    ensures r.Keys == tasks.Keys - TasksOwnedBy(tasks, owner)
    ensures forall id :: id in r ==> r[id] == tasks[id] && r[id].userId != owner
  {
    map id | id in tasks && tasks[id].userId != owner :: tasks[id]
  }

  /** The removed tasks and the remaining ones account for every task. */
  lemma {:induction false} DeletedCountAddsUp(tasks: map<TaskId, Task>, owner: UserId)
    ensures |TasksNotOwnedBy(tasks, owner).Keys| + |TasksOwnedBy(tasks, owner)| == |tasks.Keys|
  {
    var owned := TasksOwnedBy(tasks, owner);
    var rest := TasksNotOwnedBy(tasks, owner).Keys;
    assert rest + owned == tasks.Keys;
    assert rest * owned == {};
  }

  datatype DeletedUser = DeletedUser(deletedUser: string, deletedTasksCount: nat)

  /** `deleteUser`: 404 for a missing user, 400 for the requester themself; otherwise every task of
      the user, deleted or not, goes, then the user. Their comments stay. */
  method DeleteUser(db: Store.Db, requester: UserId, target: UserId) returns (reply: Reply<DeletedUser>)
    modifies db`users, db`tasks
    ensures target !in old(db.users) ==>
      reply == Fail(404, "User not found") && db.users == old(db.users) && db.tasks == old(db.tasks)
    ensures target in old(db.users) && target == requester ==>
      && reply == Fail(400, "You cannot delete your own account through admin panel")
      && db.users == old(db.users) && db.tasks == old(db.tasks)
    ensures target in old(db.users) && target != requester ==>
      && db.tasks == TasksNotOwnedBy(old(db.tasks), target)
      && db.users == old(db.users) - {target}
      && reply == Ok(200, DeletedUser(old(db.users)[target].username, |TasksOwnedBy(old(db.tasks), target)|))
  {
    if target !in db.users {
      return Fail(NOT_FOUND, "User not found");
    }
    if target == requester {
      return Fail(BAD_REQUEST, "You cannot delete your own account through admin panel");
    }
    var user := db.users[target];
    var deletedCount := |TasksOwnedBy(db.tasks, target)|;
    db.tasks := TasksNotOwnedBy(db.tasks, target);
    db.users := db.users - {target};
    reply := Ok(OK, DeletedUser(user.username, deletedCount));
  }

  /** Deleting a user with their tasks keeps every remaining task's owner stored and the logins unique. */
  lemma DeleteUserKeepsInvariants(users: map<UserId, User>, tasks: map<TaskId, Task>, target: UserId)
    requires Store.UniqueLogins(users) && Store.OwnersExist(users, tasks)
    ensures Store.UniqueLogins(users - {target})
    ensures Store.OwnersExist(users - {target}, TasksNotOwnedBy(tasks, target))
  {
  }

  // ---------------------------------------------------------------- deleteAnyTask

  datatype DeletedTask = DeletedTask(deletedTask: string, taskId: TaskId)

  /** `deleteAnyTask`: 404 for a missing id; otherwise the document is removed outright, whoever owns
      it and whether or not it was soft-deleted. */
  method DeleteAnyTask(db: Store.Db, id: TaskId) returns (reply: Reply<DeletedTask>)
    modifies db`tasks
    ensures id !in old(db.tasks) ==> reply == Fail(404, "Task not found") && db.tasks == old(db.tasks)
    ensures id in old(db.tasks) ==>
      db.tasks == old(db.tasks) - {id} && reply == Ok(200, DeletedTask(old(db.tasks)[id].title, id))
  {
    if id !in db.tasks {
      return Fail(NOT_FOUND, "Task not found");
    }
    var title := db.tasks[id].title;
    db.tasks := db.tasks - {id};
    reply := Ok(OK, DeletedTask(title, id));
  }
}
