/**
 * The task handlers: owner-scoped listing and search, lookup, creation with the assignment email,
 * update, and the soft delete. Lookup, update and delete by id do not look at the owner.
 */
module TaskController {
  import opened Wrappers
  import opened Http
  import opened UserModel
  import opened TaskModel
  import opened Validate
  import Text
  import Store

  /** A case-insensitive `$regex` test of a text against a pattern; the engine is not modelled. */
  type Matcher = (string, string) -> bool

  /** The query string of the listing: each parameter filters only when truthy. */
  datatype TaskQuery = TaskQuery(
    status: Option<string>,
    priority: Option<string>,
    category: Option<string>,
    search: Option<string>)

  const NoFilters := TaskQuery(None, None, None, None)

  predicate Matches(t: Task, q: TaskQuery, regex: Matcher) {
    && (Text.Truthy(q.status) ==> t.status.Name() == q.status.value)
    && (Text.Truthy(q.priority) ==> t.priority.Name() == q.priority.value)
    && (Text.Truthy(q.category) ==> t.category.Name() == q.category.value)
    && (Text.Truthy(q.search) ==> regex(t.title, q.search.value) || regex(t.description, q.search.value))
  }

  /** `getAllTasks`: the requester's tasks that are not soft-deleted and match the query. */
  function ListTasks(tasks: map<TaskId, Task>, requester: UserId, q: TaskQuery, regex: Matcher): (r: set<TaskId>)
    ensures r <= Store.ActiveTasksOf(tasks, requester)
  {
    set id | id in tasks && tasks[id].userId == requester && !tasks[id].isDeleted && Matches(tasks[id], q, regex)
  }

  /** `q2` filters on everything `q1` filters on, with the same values. */
  predicate Narrows(q2: TaskQuery, q1: TaskQuery) {
    && (Text.Truthy(q1.status) ==> q2.status == q1.status)
    && (Text.Truthy(q1.priority) ==> q2.priority == q1.priority)
    && (Text.Truthy(q1.category) ==> q2.category == q1.category)
    && (Text.Truthy(q1.search) ==> q2.search == q1.search)
  }

  /** Each filter only narrows: a query with more filters lists a subset. */
  lemma MoreFiltersListFewer(tasks: map<TaskId, Task>, requester: UserId, q1: TaskQuery, q2: TaskQuery, regex: Matcher)
    requires Narrows(q2, q1)
    ensures ListTasks(tasks, requester, q2, regex) <= ListTasks(tasks, requester, q1, regex)
  {
  }

  /** Without filters the listing is exactly the requester's tasks that are not soft-deleted. */
  lemma NoFiltersListAllActive(tasks: map<TaskId, Task>, requester: UserId, regex: Matcher)
    ensures ListTasks(tasks, requester, NoFilters, regex) == Store.ActiveTasksOf(tasks, requester)
  {
  }

  /** `getTask`: 404 for a missing or soft-deleted task, whoever owns it. */
  function GetTask(tasks: map<TaskId, Task>, id: TaskId): (r: Reply<Task>)
    ensures r.Ok? <==> id in tasks && !tasks[id].isDeleted
    ensures r.Ok? ==> r.code == 200 && r.data == tasks[id]
    ensures r.Fail? ==> r == Fail(404, "Task not found")
  {
    if id !in tasks || tasks[id].isDeleted then Fail(NOT_FOUND, "Task not found") else Ok(OK, tasks[id])
  }

  /** The stored task for a validated body. The task schema's defaults are taken to be those the
      client form sends: status todo, priority medium, category other, empty description. */
  function NewTask(requester: UserId, input: TaskInput, now: int): (t: Task)
    ensures t.userId == requester && t.title == input.title && t.createdAt == now
    ensures !t.isDeleted && !t.overdueEmailSent
    ensures t.dueDate == input.dueDate && t.assignedTo == input.assignedTo
  {
    Task(requester, input.title, input.description.GetOr(""), input.status.GetOr(Todo),
         input.priority.GetOr(Medium), input.category.GetOr(Other), input.dueDate, input.assignedTo,
         false, false, now)
  }

  /** Who receives the assignment email: the assignee, when given, not the requester, and a stored user. */
  function AssignmentRecipient(users: map<UserId, User>, requester: UserId, input: TaskInput): (r: Option<UserId>)
    ensures r.Some? <==> Text.Truthy(input.assignedTo) && input.assignedTo.value != requester && input.assignedTo.value in users
    ensures r.Some? ==> r.value == input.assignedTo.value
  {
    if Text.Truthy(input.assignedTo) && input.assignedTo.value != requester then
      var assignee := input.assignedTo.value;
      if assignee in users then Some(assignee) else None
    else None
  }

  /** `createTask`: the new task belongs to the requester; an assignment email goes to the
      assignee described by AssignmentRecipient. `newId` is the id the store generates. */
  method CreateTask(db: Store.Db, requester: UserId, input: TaskInput, newId: TaskId, now: int)
    returns (reply: Reply<Task>, assignee: Option<UserId>)
    requires newId !in db.tasks
    modifies db`tasks
    ensures db.tasks == old(db.tasks)[newId := NewTask(requester, input, now)]
    ensures reply == Ok(201, NewTask(requester, input, now))
    ensures assignee == AssignmentRecipient(db.users, requester, input)
  {
    var task := NewTask(requester, input, now);
    db.tasks := db.tasks[newId := task];
    assignee := None;
    if Text.Truthy(input.assignedTo) && input.assignedTo.value != requester {
      if input.assignedTo.value in db.users {
        assignee := Some(input.assignedTo.value);
      }
    }
    reply := Ok(CREATED, task);
  }

  /** The update `findByIdAndUpdate` applies: each field of the validated body overwrites. */
  function ApplyUpdate(t: Task, input: TaskInput): (r: Task)
    ensures r.userId == t.userId && r.createdAt == t.createdAt
    ensures r.isDeleted == t.isDeleted && r.overdueEmailSent == t.overdueEmailSent
    ensures r.title == input.title
    ensures input.status.None? ==> r.status == t.status
    ensures input.priority.None? ==> r.priority == t.priority
    ensures input.category.None? ==> r.category == t.category
    ensures input.dueDate.None? ==> r.dueDate == t.dueDate
    ensures input.description.Some? ==> r.description == input.description.value
    ensures input.description.None? ==> r.description == t.description
    ensures input.status.Some? ==> r.status == input.status.value
    ensures input.priority.Some? ==> r.priority == input.priority.value
    ensures input.category.Some? ==> r.category == input.category.value
    ensures input.dueDate.Some? ==> r.dueDate == input.dueDate
    ensures input.assignedTo.Some? ==> r.assignedTo == input.assignedTo
    ensures input.assignedTo.None? ==> r.assignedTo == t.assignedTo
  {
    t.(title := input.title,
       description := input.description.GetOr(t.description),
       status := input.status.GetOr(t.status),
       priority := input.priority.GetOr(t.priority),
       category := input.category.GetOr(t.category),
       dueDate := if input.dueDate.Some? then input.dueDate else t.dueDate,
       assignedTo := if input.assignedTo.Some? then input.assignedTo else t.assignedTo)
  }

  /** `updateTask`: 404 and no change for a missing or soft-deleted task; otherwise the update. */
  method UpdateTask(db: Store.Db, id: TaskId, input: TaskInput) returns (reply: Reply<Task>)
    modifies db`tasks
    ensures GetTask(old(db.tasks), id).Fail? ==> reply == Fail(404, "Task not found") && db.tasks == old(db.tasks)
    ensures GetTask(old(db.tasks), id).Ok? ==>
      && db.tasks == old(db.tasks)[id := ApplyUpdate(old(db.tasks)[id], input)]
      && reply == Ok(200, db.tasks[id])
  {
    if id !in db.tasks || db.tasks[id].isDeleted {
      return Fail(NOT_FOUND, "Task not found");
    }
    var updated := ApplyUpdate(db.tasks[id], input);
    db.tasks := db.tasks[id := updated];
    reply := Ok(OK, updated);
  }

  /** The store after marking task `id` deleted; the record stays. */
  function SoftDeleted(tasks: map<TaskId, Task>, id: TaskId): (r: map<TaskId, Task>)
    requires id in tasks
    ensures r.Keys == tasks.Keys
  {
    tasks[id := tasks[id].(isDeleted := true)]
  }

  /** `deleteTask`: 404 only for a missing id; otherwise the soft delete, also of a task that is
      already deleted. */
  method DeleteTask(db: Store.Db, id: TaskId) returns (reply: Reply<string>)
    modifies db`tasks
    ensures id !in old(db.tasks) ==> reply == Fail(404, "Task not found") && db.tasks == old(db.tasks)
    ensures id in old(db.tasks) ==> reply == Ok(200, "Task deleted successfully") && db.tasks == SoftDeleted(old(db.tasks), id)
  {
    if id !in db.tasks {
      return Fail(NOT_FOUND, "Task not found");
    }
    var task := db.tasks[id];
    task := task.(isDeleted := true);
    db.tasks := db.tasks[id := task];
    reply := Ok(OK, "Task deleted successfully");
  }

  /** A soft delete changes only `isDeleted` of that one task, is idempotent, and afterwards the task
      is not found and no longer listed. */
  lemma SoftDeleteHidesTask(tasks: map<TaskId, Task>, id: TaskId, requester: UserId, q: TaskQuery, regex: Matcher)
    requires id in tasks
    ensures SoftDeleted(tasks, id)[id] == tasks[id].(isDeleted := true)
    ensures forall other :: other in tasks && other != id ==> SoftDeleted(tasks, id)[other] == tasks[other]
    ensures SoftDeleted(SoftDeleted(tasks, id), id) == SoftDeleted(tasks, id)
    ensures GetTask(SoftDeleted(tasks, id), id) == Fail(404, "Task not found")
    ensures id !in ListTasks(SoftDeleted(tasks, id), requester, q, regex)
  {
  }

  /** Lookup does not depend on who asks: a task owned by someone else is returned all the same. */
  lemma LookupIgnoresOwner(tasks: map<TaskId, Task>, id: TaskId, requester: UserId)
    requires id in tasks && !tasks[id].isDeleted && tasks[id].userId != requester
    ensures GetTask(tasks, id) == Ok(200, tasks[id])
  {
  }

  /** `searchTasks`: 400 without a query text; otherwise the requester's live tasks whose title or
      description matches, the same set the listing gives for a search-only query. */
  function SearchTasks(tasks: map<TaskId, Task>, requester: UserId, q: Option<string>, regex: Matcher): (r: Reply<set<TaskId>>)
    ensures !Text.Truthy(q) ==> r == Fail(400, "Search query is required")
    ensures Text.Truthy(q) ==> r == Ok(200, ListTasks(tasks, requester, TaskQuery(None, None, None, q), regex))
  {
    if !Text.Truthy(q) then Fail(BAD_REQUEST, "Search query is required")
    else
      var found := set id | id in tasks && tasks[id].userId == requester && !tasks[id].isDeleted
                            && (regex(tasks[id].title, q.value) || regex(tasks[id].description, q.value));
      assert found == ListTasks(tasks, requester, TaskQuery(None, None, None, q), regex) by {
        forall id | id in tasks
          ensures id in found <==> id in ListTasks(tasks, requester, TaskQuery(None, None, None, q), regex)
        {
          assert Matches(tasks[id], TaskQuery(None, None, None, q), regex)
            <==> regex(tasks[id].title, q.value) || regex(tasks[id].description, q.value);
        }
      }
      Ok(OK, found)
  }
}
