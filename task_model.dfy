/**
 * The task and comment records the controllers read and write. The task schema file is not part
 * of this model; the fields are those the controllers and the scanner use.
 */
module TaskModel {
  import opened Wrappers
  import opened UserModel

  type TaskId = string
  type CommentId = string

  datatype Status = Todo | InProgress | Completed {
    function Name(): string {
      match this
      case Todo => "todo"
      case InProgress => "in-progress"
      case Completed => "completed"
    }
  }

  datatype Priority = Low | Medium | High {
    function Name(): string {
      match this
      case Low => "low"
      case Medium => "medium"
      case High => "high"
    }
  }

  datatype Category = Work | Personal | Urgent | Other {
    function Name(): string {
      match this
      case Work => "work"
      case Personal => "personal"
      case Urgent => "urgent"
      case Other => "other"
    }
  }

  function ParseStatus(s: string): (r: Option<Status>)
    ensures r.Some? ==> r.value.Name() == s
    ensures r.None? <==> forall v: Status :: v.Name() != s
  {
    if s == "todo" then Some(Todo)
    else if s == "in-progress" then Some(InProgress)
    else if s == "completed" then Some(Completed)
    else None
  }

  function ParsePriority(s: string): (r: Option<Priority>)
    ensures r.Some? ==> r.value.Name() == s
    ensures r.None? <==> forall v: Priority :: v.Name() != s
  {
    if s == "low" then Some(Low)
    else if s == "medium" then Some(Medium)
    else if s == "high" then Some(High)
    else None
  }

  function ParseCategory(s: string): (r: Option<Category>)
    ensures r.Some? ==> r.value.Name() == s
    ensures r.None? <==> forall v: Category :: v.Name() != s
  {
    if s == "work" then Some(Work)
    else if s == "personal" then Some(Personal)
    else if s == "urgent" then Some(Urgent)
    else if s == "other" then Some(Other)
    else None
  }

  /** A stored task. Times are milliseconds. `isDeleted` marks a soft delete; `overdueEmailSent`
      is the flag the overdue scan sets once its email went out. */
  datatype Task = Task(
    userId: UserId,
    title: string,
    description: string,
    status: Status,
    priority: Priority,
    category: Category,
    dueDate: Option<int>,
    assignedTo: Option<UserId>,
    isDeleted: bool,
    overdueEmailSent: bool,
    createdAt: int)

  /** A stored comment; the text is trimmed by the comment schema's setter. */
  datatype Comment = Comment(taskId: TaskId, author: UserId, text: string, createdAt: int)
}
