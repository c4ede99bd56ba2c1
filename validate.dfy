/**
 * The request-body validators that run before the task and comment handlers. A body either
 * passes, and the next handler receives it in typed form, or the request ends with 400 naming
 * the first offending field.
 */
module Validate {
  import opened Wrappers
  import opened TaskModel
  import Text

  /** A date as the body gives it: an ISO 8601 text (here its instant) or any other text. */
  datatype DateText = Iso(instant: int) | NotIso(text: string)

  /** A task body as received. `unknownKeys` are the keys outside the schema. */
  datatype TaskBody = TaskBody(
    title: Option<string>,
    description: Option<string>,
    status: Option<string>,
    priority: Option<string>,
    category: Option<string>,
    assignedTo: Option<string>,
    dueDate: Option<DateText>,
    unknownKeys: set<string>)

  /** A task body that passed validation. */
  datatype TaskInput = TaskInput(
    title: string,
    description: Option<string>,
    status: Option<Status>,
    priority: Option<Priority>,
    category: Option<Category>,
    assignedTo: Option<string>,
    dueDate: Option<int>)

  datatype Checked<T> = Next(value: T) | BadRequest(field: string)

  predicate TitleOk(title: Option<string>) {
    title.Some? && 3 <= |title.value| <= 200
  }

  predicate DescriptionOk(description: Option<string>) {
    description.None? || |description.value| <= 1000
  }

  predicate AssignedToOk(assignedTo: Option<string>) {
    assignedTo.None? || Text.IsObjectIdText(assignedTo.value)
  }

  /** Every field of the task schema holds: the title has 3 to 200 characters; the description,
      when present, at most 1000 (empty allowed); status, priority and category, when present,
      name one of their values; assignedTo, when present, is 24 hexadecimal digits; the due date,
      when present, is ISO text; and no other key appears. */
  predicate TaskBodyValid(b: TaskBody) {
    && TitleOk(b.title)
    && DescriptionOk(b.description)
    && (b.status.None? || ParseStatus(b.status.value).Some?)
    && (b.priority.None? || ParsePriority(b.priority.value).Some?)
    && (b.category.None? || ParseCategory(b.category.value).Some?)
    && AssignedToOk(b.assignedTo)
    && (b.dueDate.None? || b.dueDate.value.Iso?)
    && b.unknownKeys == {}
  }

  function ParseOptional<T>(o: Option<string>, parse: string -> Option<T>): Option<T> {
    if o.None? then None else parse(o.value)
  }

  /** `validateTask`: the schema's keys are checked in their declared order and the first
      failure ends the request; a body that passes reaches the next handler in typed form. */
  function ValidateTask(b: TaskBody): (r: Checked<TaskInput>)
    ensures r.Next? <==> TaskBodyValid(b)
    ensures r.Next? ==>
      && r.value.title == b.title.value
      && r.value.description == b.description
      && (b.status.Some? <==> r.value.status.Some?)
      && (r.value.status.Some? ==> r.value.status.value.Name() == b.status.value)
      && (b.priority.Some? <==> r.value.priority.Some?)
      && (r.value.priority.Some? ==> r.value.priority.value.Name() == b.priority.value)
      && (b.category.Some? <==> r.value.category.Some?)
      && (r.value.category.Some? ==> r.value.category.value.Name() == b.category.value)
      && r.value.assignedTo == b.assignedTo
      && (b.dueDate.None? <==> r.value.dueDate.None?)
      && (b.dueDate.Some? ==> r.value.dueDate == Some(b.dueDate.value.instant))
    ensures r.BadRequest? && !TitleOk(b.title) ==> r.field == "title"
  {
    if !TitleOk(b.title) then BadRequest("title")
    else if !DescriptionOk(b.description) then BadRequest("description")
    else if b.status.Some? && ParseStatus(b.status.value).None? then BadRequest("status")
    else if b.priority.Some? && ParsePriority(b.priority.value).None? then BadRequest("priority")
    else if b.category.Some? && ParseCategory(b.category.value).None? then BadRequest("category")
    else if !AssignedToOk(b.assignedTo) then BadRequest("assignedTo")
    else if b.dueDate.Some? && b.dueDate.value.NotIso? then BadRequest("dueDate")
    else if b.unknownKeys != {} then BadRequest("unknown key")
    else
      Next(TaskInput(
        b.title.value,
        b.description,
        ParseOptional(b.status, ParseStatus),
        ParseOptional(b.priority, ParsePriority),
        ParseOptional(b.category, ParseCategory),
        b.assignedTo,
        if b.dueDate.Some? then Some(b.dueDate.value.instant) else None))
  }

  /** The body as received from a typed input: validating it gives the input back. */
  function BodyOf(i: TaskInput): TaskBody {
    TaskBody(
      Some(i.title),
      i.description,
      if i.status.Some? then Some(i.status.value.Name()) else None,
      if i.priority.Some? then Some(i.priority.value.Name()) else None,
      if i.category.Some? then Some(i.category.value.Name()) else None,
      i.assignedTo,
      if i.dueDate.Some? then Some(Iso(i.dueDate.value)) else None,
      {})
  }

  lemma StatusRoundTrip(v: Status)
    ensures ParseStatus(v.Name()) == Some(v)
  {
    match v
    case Todo =>
    case InProgress =>
    case Completed =>
  }

  lemma PriorityRoundTrip(v: Priority)
    ensures ParsePriority(v.Name()) == Some(v)
  {
    match v
    case Low =>
    case Medium =>
    case High =>
  }

  lemma CategoryRoundTrip(v: Category)
    ensures ParseCategory(v.Name()) == Some(v)
  {
    match v
    case Work =>
    case Personal =>
    case Urgent =>
    case Other =>
  }

  /** A typed input that satisfies the schema survives the trip to text and back unchanged. */
  lemma ValidateBodyOf(i: TaskInput)
    requires 3 <= |i.title| <= 200 && DescriptionOk(i.description) && AssignedToOk(i.assignedTo)
    ensures ValidateTask(BodyOf(i)) == Next(i)
  {
    if i.status.Some? { StatusRoundTrip(i.status.value); }
    if i.priority.Some? { PriorityRoundTrip(i.priority.value); }
    if i.category.Some? { CategoryRoundTrip(i.category.value); }
  }

  /** `validateComment`: the text is required, with 1 to 500 characters, and is the only key. */
  function ValidateComment(text: Option<string>, unknownKeys: set<string>): (r: Checked<string>)
    ensures r.Next? <==> text.Some? && 1 <= |text.value| <= 500 && unknownKeys == {}
    ensures r.Next? ==> r.value == text.value
  {
    if text.None? || !(1 <= |text.value| <= 500) then BadRequest("text")
    else if unknownKeys != {} then BadRequest("unknown key")
    else Next(text.value)
  }
}
