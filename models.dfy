/**
 * The request payloads of app/models.py: the fields a client may send, their
 * defaults, and the constraints the framework checks before a handler runs.
 * A payload that breaks a constraint is answered with HTTP 422, naming the
 * failing fields; that is the `Unprocessable` error below.
 */
module Models {
  import opened Wrappers
  import opened Errors

  /** A timezone-aware instant: microseconds since 1970-01-01T00:00:00Z. */
  type Timestamp = int

  const MIN_PRIORITY := 1
  const MAX_PRIORITY := 5
  const DEFAULT_PRIORITY := 1

  const DUE_DATE_NOT_FUTURE := "due_date must be in the future"

  /** `Field(ge=1, le=5)` on a priority. */
  predicate PriorityInRange(p: int) {
    MIN_PRIORITY <= p <= MAX_PRIORITY
  }

  /**
   * check_due_date_is_future: an absent due date passes, a present one passes
   * unless it lies strictly before `now`; the value is passed through.
   */
  function CheckDueDateIsFuture(dueDate: Option<Timestamp>, now: Timestamp): (r: Result<Option<Timestamp>, string>)
    ensures r.Ok? <==> (dueDate.None? || now <= dueDate.value)
    ensures r.Ok? ==> r.value == dueDate
    ensures r.Err? ==> r.error == DUE_DATE_NOT_FUTURE
  {
    if dueDate.Some? && dueDate.value < now then Err(DUE_DATE_NOT_FUTURE) else Ok(dueDate)
  }

  datatype ProjectCreate = ProjectCreate(title: string)

  /** ProjectUpdate: the title is the only field a patch can carry. */
  datatype ProjectUpdate = ProjectUpdate(title: Option<string>)

  datatype LabelCreate = LabelCreate(name: string)

  /** LabelUpdate: the name is the only field a patch can carry. */
  datatype LabelUpdate = LabelUpdate(name: Option<string>)

  datatype UserCreate = UserCreate(username: string, email: string, password: string)

  /**
   * A task-creation body as the client sent it: `None` in an optional field
   * means the field was omitted (or, for the nullable ones, sent as null),
   * and the default applies.
   */
  datatype TaskCreateRequest = TaskCreateRequest(
    title: string,
    description: Option<string>,
    priority: Option<int>,
    completed: Option<bool>,
    dueDate: Option<Timestamp>,
    projectId: Option<int>)

  /** TaskCreate once validated, with every default filled in. */
  datatype TaskCreate = TaskCreate(
    title: string,
    description: Option<string>,
    priority: int,
    completed: bool,
    dueDate: Option<Timestamp>,
    projectId: Option<int>)

  /** The fields of a creation body that fail their constraints at instant `now`. */
  function TaskCreateErrors(request: TaskCreateRequest, now: Timestamp): (fields: set<string>)
    ensures "priority" in fields <==> request.priority.Some? && !PriorityInRange(request.priority.value)
    ensures "due_date" in fields <==> request.dueDate.Some? && request.dueDate.value < now
    ensures fields <= {"priority", "due_date"}
  {
    (if request.priority.Some? && !PriorityInRange(request.priority.value) then {"priority"} else {})
    + (if CheckDueDateIsFuture(request.dueDate, now).Err? then {"due_date"} else {})
  }

  /** Parse a creation body into a TaskCreate: check its constraints, then fill in the defaults. */
  function ValidateTaskCreate(request: TaskCreateRequest, now: Timestamp): (r: Result<TaskCreate, Error>)
    ensures r.Err? <==> TaskCreateErrors(request, now) != {}
    ensures r.Err? ==> r.error == Unprocessable(TaskCreateErrors(request, now))
    ensures r.Ok? ==> PriorityInRange(r.value.priority)
    ensures r.Ok? ==> r.value.title == request.title && r.value.description == request.description
    ensures r.Ok? ==> r.value.dueDate == request.dueDate && r.value.projectId == request.projectId
    ensures r.Ok? && request.priority.Some? ==> r.value.priority == request.priority.value
    ensures r.Ok? && request.priority.None? ==> r.value.priority == DEFAULT_PRIORITY
    ensures r.Ok? && request.completed.Some? ==> r.value.completed == request.completed.value
    ensures r.Ok? && request.completed.None? ==> !r.value.completed
  {
    var errors := TaskCreateErrors(request, now);
    if errors != {} then Err(Unprocessable(errors))
    else Ok(TaskCreate(
      request.title,
      request.description,
      request.priority.GetOr(DEFAULT_PRIORITY),
      request.completed.GetOr(false),
      request.dueDate,
      request.projectId))
  }

  /** A body that gives only a title is valid at any instant and takes every default. */
  lemma TitleOnlyTakesDefaults(title: string, now: Timestamp)
    ensures ValidateTaskCreate(TaskCreateRequest(title, None, None, None, None, None), now)
         == Ok(TaskCreate(title, None, DEFAULT_PRIORITY, false, None, None))
  {
  }

  /**
   * TaskUpdate with "exclude unset" semantics: `None` means the field was not
   * sent. The nullable columns (description, due_date, project_id) take an
   * `Option<Option<_>>` so that "sent as null" (`Some(None)`) is kept apart
   * from "not sent"; the others are never null when sent.
   */
  datatype TaskUpdate = TaskUpdate(
    title: Option<string>,
    description: Option<Option<string>>,
    priority: Option<int>,
    completed: Option<bool>,
    dueDate: Option<Option<Timestamp>>,
    projectId: Option<Option<int>>)

  /** The fields of a patch that fail their constraints at instant `now`. */
  function TaskUpdateErrors(patch: TaskUpdate, now: Timestamp): (fields: set<string>)
    ensures "priority" in fields <==> patch.priority.Some? && !PriorityInRange(patch.priority.value)
    ensures "due_date" in fields <==> patch.dueDate.Some? && patch.dueDate.value.Some? && patch.dueDate.value.value < now
    ensures fields <= {"priority", "due_date"}
  {
    (if patch.priority.Some? && !PriorityInRange(patch.priority.value) then {"priority"} else {})
    + (if patch.dueDate.Some? && CheckDueDateIsFuture(patch.dueDate.value, now).Err? then {"due_date"} else {})
  }
}
