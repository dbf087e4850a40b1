/**
 * The read endpoints of the task, project and label routers. Each builds an
 * owner-scoped SELECT from the query parameters and returns one OFFSET/LIMIT
 * window of it; the task views add conditions on completion, priority and the
 * due date. Results without ORDER BY come in ascending id order.
 */
module Views {
  import opened Wrappers
  import opened Errors
  import opened Models
  import opened Schema
  import opened Tables

  /** Microseconds in a day. */
  const DAY := 86_400_000_000

  const DEFAULT_OFFSET := 0
  const DEFAULT_LIMIT := 100

  /** The `offset` and `limit` query parameters, each `None` when the client leaves it out. */
  datatype PageQuery = PageQuery(offset: Option<int>, limit: Option<int>) {
    function Offset(): int { offset.GetOr(DEFAULT_OFFSET) }
    function Limit(): int { limit.GetOr(DEFAULT_LIMIT) }
  }

  /** A request that sends neither `offset` nor `limit`. */
  const DEFAULT_PAGE := PageQuery(None, None)

  /** The query-parameter fields that fail `offset >= 0`, `limit > 0` and `1 <= priority <= 5`. */
  function QueryErrors(page: PageQuery, priority: Option<int>): (fields: set<string>)
    ensures "offset" in fields <==> page.offset.Some? && page.offset.value < 0
    ensures "limit" in fields <==> page.limit.Some? && page.limit.value <= 0
    ensures "priority" in fields <==> priority.Some? && !PriorityInRange(priority.value)
    ensures fields <= {"offset", "limit", "priority"}
    ensures fields == {} ==> page.Offset() >= 0 && page.Limit() > 0
  {
    (if page.Offset() < 0 then {"offset"} else {})
    + (if page.Limit() <= 0 then {"limit"} else {})
    + (if priority.Some? && !PriorityInRange(priority.value) then {"priority"} else {})
  }

  // ---------------------------------------------------------------- task queries

  /** A condition on `tasks.due_date`; SQL comparisons with a null due date are never true. */
  datatype DueCondition =
    | AnyDue
    | DueAfter(after: Timestamp)                 // due_date > after
    | DueBefore(before: Timestamp)               // due_date < before
    | DueBetween(low: Timestamp, high: Timestamp) // due_date BETWEEN low AND high, both ends included

  /** The WHERE clause of a task query: the owner, plus the optional conditions, joined by AND. */
  datatype TaskFilter = TaskFilter(owner: UserId, completed: Option<bool>, priority: Option<int>, due: DueCondition)

  predicate DueMatches(c: DueCondition, dueDate: Option<Timestamp>) {
    match c
    case AnyDue => true
    case DueAfter(after) => dueDate.Some? && dueDate.value > after
    case DueBefore(before) => dueDate.Some? && dueDate.value < before
    case DueBetween(low, high) => dueDate.Some? && low <= dueDate.value <= high
  }

  predicate Matches(f: TaskFilter, t: Task) {
    && t.ownerId == f.owner
    && (f.completed.Some? ==> t.completed == f.completed.value)
    && (f.priority.Some? ==> t.priority == f.priority.value)
    && DueMatches(f.due, t.dueDate)
  }

  /** The rows of `tasks` that the filter keeps, in id order. */
  ghost function Select(tasks: map<TaskId, Task>, f: TaskFilter): (r: seq<Task>)
    ensures |r| <= |tasks|
    ensures forall t :: t in r <==> t in tasks.Values && Matches(f, t)
    ensures Injective(tasks) ==> Distinct(r)
  {
    Filter(Rows(tasks), (t: Task) => Matches(f, t))
  }

  /**
   * In a table whose rows differ (each carries its own id), the scan lists
   * every matching task exactly once: it is as long as the set of matching tasks.
   */
  lemma SelectCountsMatches(tasks: map<TaskId, Task>, f: TaskFilter)
    requires Injective(tasks)
    ensures |Select(tasks, f)| == |set t | t in tasks.Values && Matches(f, t)|
  {
    DistinctListsSet(Select(tasks, f), set t | t in tasks.Values && Matches(f, t));
  }

  /** `read_tasks`: the caller's tasks, with the optional `completed` and `priority` conditions. */
  function ListFilter(caller: UserId, completed: Option<bool>, priority: Option<int>): TaskFilter {
    TaskFilter(caller, completed, priority, AnyDue)
  }

  function DayStart(now: Timestamp): Timestamp {
    now - now % DAY
  }

  /** The last microsecond of the UTC day of `now` (`time.max`, 23:59:59.999999). */
  function DayEnd(now: Timestamp): Timestamp {
    DayStart(now) + DAY - 1
  }

  /** The UTC day of `now` is a whole day that begins at midnight and contains `now`. */
  lemma DayWindowContainsNow(now: Timestamp)
    ensures DayStart(now) % DAY == 0
    ensures DayStart(now) <= now <= DayEnd(now)
    ensures DayEnd(now) - DayStart(now) == DAY - 1
  {
  }

  function UpcomingFilter(caller: UserId, now: Timestamp, priority: Option<int>): TaskFilter {
    TaskFilter(caller, Some(false), priority, DueAfter(now))
  }

  function TodayFilter(caller: UserId, now: Timestamp, priority: Option<int>): TaskFilter {
    TaskFilter(caller, Some(false), priority, DueBetween(DayStart(now), DayEnd(now)))
  }

  function OverdueFilter(caller: UserId, now: Timestamp, priority: Option<int>): TaskFilter {
    TaskFilter(caller, Some(false), priority, DueBefore(now))
  }

  /** `ORDER BY due_date ASC NULLS LAST`: `a` may come before `b`. */
  predicate DueNoLater(a: Option<Timestamp>, b: Option<Timestamp>) {
    b.None? || (a.Some? && a.value <= b.value)
  }

  predicate SortedByDueDate(s: seq<Task>) {
    forall i, j :: 0 <= i < j < |s| ==> DueNoLater(s[i].dueDate, s[j].dueDate)
  }

  /** In a list sorted by due date, the head falls due no later than any later element. */
  lemma SortedHeadFirst(s: seq<Task>, x: Task)
    requires SortedByDueDate(s) && |s| > 0 && x in s[1..]
    ensures DueNoLater(s[0].dueDate, x.dueDate)
  {
    var j :| 0 <= j < |s[1..]| && s[1..][j] == x;
    assert s[j + 1] == x;
  }

  function InsertByDueDate(t: Task, s: seq<Task>): (r: seq<Task>)
    requires SortedByDueDate(s)
    ensures SortedByDueDate(r)
    ensures multiset(r) == multiset(s) + multiset{t}
    ensures forall x :: x in r ==> x == t || x in s
  {
    if s == [] then [t]
    else if DueNoLater(t.dueDate, s[0].dueDate) then [t] + s
    else
      var rest := InsertByDueDate(t, s[1..]);
      assert s == [s[0]] + s[1..];
      assert forall x :: x in rest ==> DueNoLater(s[0].dueDate, x.dueDate) by {
        forall x | x in rest ensures DueNoLater(s[0].dueDate, x.dueDate) {
          if x != t {
            SortedHeadFirst(s, x);
          }
        }
      }
      var r := [s[0]] + rest;
      assert forall j :: 0 < j < |r| ==> r[j] in rest by {
        forall j | 0 < j < |r| ensures r[j] in rest { assert r[j] == rest[j - 1]; }
      }
      r
  }

  /** The tasks ordered by due date, earliest first, undated last. */
  function SortByDueDate(s: seq<Task>): (r: seq<Task>)
    ensures SortedByDueDate(r)
    ensures multiset(r) == multiset(s)
  {
    if s == [] then []
    else
      assert s == [s[0]] + s[1..];
      InsertByDueDate(s[0], SortByDueDate(s[1..]))
  }

  /** `read_tasks`. */
  ghost function ReadTasks(
    tasks: map<TaskId, Task>, caller: UserId,
    page: PageQuery, completed: Option<bool>, priority: Option<int>): (r: Result<seq<Task>, Error>)
    ensures r.Err? <==> QueryErrors(page, priority) != {}
    ensures r.Err? ==> r.error == Unprocessable(QueryErrors(page, priority))
    ensures r.Ok? ==> |r.value| <= page.Limit()
    ensures r.Ok? ==> forall t :: t in r.value ==>
      && t in tasks.Values && t.ownerId == caller
      && (completed.Some? ==> t.completed == completed.value)
      && (priority.Some? ==> t.priority == priority.value)
    ensures r.Ok? ==> r.value == Page(Select(tasks, ListFilter(caller, completed, priority)), page.Offset(), page.Limit())
  {
    var errors := QueryErrors(page, priority);
    if errors != {} then Err(Unprocessable(errors))
    else Ok(Page(Select(tasks, ListFilter(caller, completed, priority)), page.Offset(), page.Limit()))
  }

  /** With offset 0 and a limit no smaller than the table, `read_tasks` misses no matching task. */
  lemma ReadTasksFirstPageComplete(
    tasks: map<TaskId, Task>, caller: UserId, page: PageQuery, completed: Option<bool>, priority: Option<int>, t: Task)
    requires page.Offset() == 0 && page.Limit() >= |tasks| && page.Limit() > 0
    requires priority.Some? ==> PriorityInRange(priority.value)
    requires t in tasks.Values && t.ownerId == caller
    requires completed.Some? ==> t.completed == completed.value
    requires priority.Some? ==> t.priority == priority.value
    ensures ReadTasks(tasks, caller, page, completed, priority).Ok?
    ensures t in ReadTasks(tasks, caller, page, completed, priority).value
  {
    var s := Select(tasks, ListFilter(caller, completed, priority));
    assert t in s;
    var p := Page(s, 0, page.Limit());
    assert p == s by {
      assert |p| == |s|;
      forall i | 0 <= i < |p| ensures p[i] == s[i] { }
    }
  }

  /** A request without `offset` and `limit` is answered with the first 100 matching tasks at most. */
  lemma DefaultPageIsFirstHundred(tasks: map<TaskId, Task>, caller: UserId, completed: Option<bool>)
    ensures ReadTasks(tasks, caller, DEFAULT_PAGE, completed, None).Ok?
    ensures ReadTasks(tasks, caller, DEFAULT_PAGE, completed, None).value
         == Page(Select(tasks, ListFilter(caller, completed, None)), 0, 100)
    ensures |ReadTasks(tasks, caller, DEFAULT_PAGE, completed, None).value| <= 100
  {
    assert QueryErrors(DEFAULT_PAGE, None) == {};
  }

  /** `read_upcomming_tasks`: incomplete tasks due after `now`, earliest first. */
  ghost function ReadUpcomingTasks(
    tasks: map<TaskId, Task>, caller: UserId, now: Timestamp,
    page: PageQuery, priority: Option<int>): (r: Result<seq<Task>, Error>)
    ensures r.Err? <==> QueryErrors(page, priority) != {}
    ensures r.Err? ==> r.error == Unprocessable(QueryErrors(page, priority))
    ensures r.Ok? ==> |r.value| <= page.Limit()
    ensures r.Ok? ==> SortedByDueDate(r.value)
    ensures r.Ok? ==> forall t :: t in r.value ==>
      && t in tasks.Values && t.ownerId == caller && !t.completed
      && t.dueDate.Some? && t.dueDate.value > now
      && (priority.Some? ==> t.priority == priority.value)
    ensures r.Ok? ==> r.value == Page(SortByDueDate(Select(tasks, UpcomingFilter(caller, now, priority))), page.Offset(), page.Limit())
  {
    var errors := QueryErrors(page, priority);
    if errors != {} then Err(Unprocessable(errors))
    else
      var selected := Select(tasks, UpcomingFilter(caller, now, priority));
      var sorted := SortByDueDate(selected);
      var window := Page(sorted, page.Offset(), page.Limit());
      assert forall t :: t in window ==> t in selected by {
        forall t | t in window ensures t in selected {
          assert t in multiset(sorted);
        }
      }
      UpcomingMembers(tasks, caller, now, priority, window);
      Ok(window)
  }

  /** What passing the upcoming filter says about a listed task. */
  lemma UpcomingMembers(tasks: map<TaskId, Task>, caller: UserId, now: Timestamp, priority: Option<int>, window: seq<Task>)
    requires forall t :: t in window ==> t in tasks.Values && Matches(UpcomingFilter(caller, now, priority), t)
    ensures forall t :: t in window ==>
      && t in tasks.Values && t.ownerId == caller && !t.completed
      && t.dueDate.Some? && t.dueDate.value > now
      && (priority.Some? ==> t.priority == priority.value)
  {
  }

  /** `read_due_today_tasks`: incomplete tasks due within the UTC day of `now`, both ends included. */
  ghost function ReadDueTodayTasks(
    tasks: map<TaskId, Task>, caller: UserId, now: Timestamp,
    page: PageQuery, priority: Option<int>): (r: Result<seq<Task>, Error>)
    ensures r.Err? <==> QueryErrors(page, priority) != {}
    ensures r.Err? ==> r.error == Unprocessable(QueryErrors(page, priority))
    ensures r.Ok? ==> |r.value| <= page.Limit()
    ensures r.Ok? ==> forall t :: t in r.value ==>
      && t in tasks.Values && t.ownerId == caller && !t.completed
      && t.dueDate.Some? && DayStart(now) <= t.dueDate.value <= DayEnd(now)
      && (priority.Some? ==> t.priority == priority.value)
    ensures r.Ok? ==> r.value == Page(Select(tasks, TodayFilter(caller, now, priority)), page.Offset(), page.Limit())
  {
    var errors := QueryErrors(page, priority);
    if errors != {} then Err(Unprocessable(errors))
    else
      var window := Page(Select(tasks, TodayFilter(caller, now, priority)), page.Offset(), page.Limit());
      TodayMembers(tasks, caller, now, priority, window);
      Ok(window)
  }

  /** What passing the today filter says about a listed task. */
  lemma TodayMembers(tasks: map<TaskId, Task>, caller: UserId, now: Timestamp, priority: Option<int>, window: seq<Task>)
    requires forall t :: t in window ==> t in tasks.Values && Matches(TodayFilter(caller, now, priority), t)
    ensures forall t :: t in window ==>
      && t in tasks.Values && t.ownerId == caller && !t.completed
      && t.dueDate.Some? && DayStart(now) <= t.dueDate.value <= DayEnd(now)
      && (priority.Some? ==> t.priority == priority.value)
  {
  }

  /** `read_overdue_tasks`: incomplete tasks due strictly before `now`. */
  ghost function ReadOverdueTasks(
    tasks: map<TaskId, Task>, caller: UserId, now: Timestamp,
    page: PageQuery, priority: Option<int>): (r: Result<seq<Task>, Error>)
    ensures r.Err? <==> QueryErrors(page, priority) != {}
    ensures r.Err? ==> r.error == Unprocessable(QueryErrors(page, priority))
    ensures r.Ok? ==> |r.value| <= page.Limit()
    ensures r.Ok? ==> forall t :: t in r.value ==>
      && t in tasks.Values && t.ownerId == caller && !t.completed
      && t.dueDate.Some? && t.dueDate.value < now
      && (priority.Some? ==> t.priority == priority.value)
    ensures r.Ok? ==> r.value == Page(Select(tasks, OverdueFilter(caller, now, priority)), page.Offset(), page.Limit())
  {
    var errors := QueryErrors(page, priority);
    if errors != {} then Err(Unprocessable(errors))
    else
      var window := Page(Select(tasks, OverdueFilter(caller, now, priority)), page.Offset(), page.Limit());
      OverdueMembers(tasks, caller, now, priority, window);
      Ok(window)
  }

  /** What passing the overdue filter says about a listed task. */
  lemma OverdueMembers(tasks: map<TaskId, Task>, caller: UserId, now: Timestamp, priority: Option<int>, window: seq<Task>)
    requires forall t :: t in window ==> t in tasks.Values && Matches(OverdueFilter(caller, now, priority), t)
    ensures forall t :: t in window ==>
      && t in tasks.Values && t.ownerId == caller && !t.completed
      && t.dueDate.Some? && t.dueDate.value < now
      && (priority.Some? ==> t.priority == priority.value)
  {
  }

  /** For one `now`, no task is listed both as upcoming and as overdue. */
  lemma UpcomingOverdueDisjoint(
    tasks: map<TaskId, Task>, caller: UserId, now: Timestamp,
    page: PageQuery, priority: Option<int>, page': PageQuery, t: Task)
    requires ReadUpcomingTasks(tasks, caller, now, page, priority).Ok?
    requires ReadOverdueTasks(tasks, caller, now, page', priority).Ok?
    ensures !(t in ReadUpcomingTasks(tasks, caller, now, page, priority).value
              && t in ReadOverdueTasks(tasks, caller, now, page', priority).value)
  {
  }

  /** A task is in the today window and in the upcoming one exactly when it falls due later today. */
  lemma TodayAndUpcoming(caller: UserId, now: Timestamp, priority: Option<int>, t: Task)
    ensures Matches(TodayFilter(caller, now, priority), t) && Matches(UpcomingFilter(caller, now, priority), t)
        <==> Matches(UpcomingFilter(caller, now, priority), t) && t.dueDate.value <= DayEnd(now)
  {
    DayWindowContainsNow(now);
  }

  /** A task is in the today window and in the overdue one exactly when it fell due earlier today. */
  lemma TodayAndOverdue(caller: UserId, now: Timestamp, priority: Option<int>, t: Task)
    ensures Matches(TodayFilter(caller, now, priority), t) && Matches(OverdueFilter(caller, now, priority), t)
        <==> Matches(OverdueFilter(caller, now, priority), t) && DayStart(now) <= t.dueDate.value
  {
    DayWindowContainsNow(now);
  }

  /**
   * Every incomplete dated task of the caller is in at least one of the three
   * windows: upcoming or overdue unless it falls due at `now` itself, and then
   * in today's window.
   */
  lemma WindowsCoverDatedTasks(caller: UserId, now: Timestamp, priority: Option<int>, t: Task)
    requires t.ownerId == caller && !t.completed && t.dueDate.Some?
    requires priority.Some? ==> t.priority == priority.value
    ensures t.dueDate.value != now ==>
      Matches(UpcomingFilter(caller, now, priority), t) != Matches(OverdueFilter(caller, now, priority), t)
    ensures t.dueDate.value == now ==>
      && Matches(TodayFilter(caller, now, priority), t)
      && !Matches(UpcomingFilter(caller, now, priority), t)
      && !Matches(OverdueFilter(caller, now, priority), t)
  {
    DayWindowContainsNow(now);
  }

  /** The view windows overlap: a task due one microsecond after midnight is both upcoming and due today. */
  lemma TodayOverlapsUpcoming()
    ensures var t := Task(0, "", None, 1, false, Some(1), 0, 0, None);
      Matches(TodayFilter(0, 0, None), t) && Matches(UpcomingFilter(0, 0, None), t)
  {
  }

  /** The today window overlaps the overdue one: at `now` = 2, a task due at 1 is both overdue and due today. */
  lemma TodayOverlapsOverdue()
    ensures var t := Task(0, "", None, 1, false, Some(1), 0, 0, None);
      Matches(TodayFilter(0, 2, None), t) && Matches(OverdueFilter(0, 2, None), t)
  {
  }

  // ---------------------------------------------------------------- single tasks

  /** What `read_task` answers with: the task, its project and its labels. */
  datatype TaskDetail = TaskDetail(task: Task, project: Option<Project>, labels: set<Label>)

  /** The labels linked to task `id`. */
  function LabelsOf(labels: map<LabelId, Label>, links: set<TaskLabel>, id: TaskId): (r: set<Label>)
    ensures forall l :: l in r <==> l in labels.Values && TaskLabel(id, l.id) in links
  {
    set l | l in labels.Values && TaskLabel(id, l.id) in links
  }

  /** `read_task`. */
  function ReadTask(
    tasks: map<TaskId, Task>, projects: map<ProjectId, Project>,
    labels: map<LabelId, Label>, links: set<TaskLabel>, caller: UserId, id: TaskId): (r: Result<TaskDetail, Error>)
    ensures r.Err? <==> !OwnsTask(tasks, id, caller)
    ensures r.Err? ==> r.error == NotFound(TASK_NOT_FOUND)
    ensures r.Ok? ==> r.value.task == tasks[id]
    ensures r.Ok? ==> (r.value.project.Some? <==> tasks[id].projectId.Some? && tasks[id].projectId.value in projects)
    ensures r.Ok? && r.value.project.Some? ==> r.value.project.value == projects[tasks[id].projectId.value]
    ensures r.Ok? ==> forall l :: l in r.value.labels <==> l in labels.Values && TaskLabel(id, l.id) in links
  {
    if !OwnsTask(tasks, id, caller) then Err(NotFound(TASK_NOT_FOUND))
    else
      var t := tasks[id];
      var project := if t.projectId.Some? && t.projectId.value in projects then Some(projects[t.projectId.value]) else None;
      Ok(TaskDetail(t, project, LabelsOf(labels, links, id)))
  }

  // ---------------------------------------------------------------- projects

  /** The caller's projects, in id order. */
  ghost function OwnedProjects(projects: map<ProjectId, Project>, caller: UserId): (r: seq<Project>)
    ensures forall p :: p in r <==> p in projects.Values && p.ownerId == caller
    ensures Injective(projects) ==> Distinct(r)
  {
    Filter(Rows(projects), (p: Project) => p.ownerId == caller)
  }

  /** `read_projects`. */
  ghost function ReadProjects(projects: map<ProjectId, Project>, caller: UserId, page: PageQuery): (r: Result<seq<Project>, Error>)
    ensures r.Err? <==> QueryErrors(page, None) != {}
    ensures r.Err? ==> r.error == Unprocessable(QueryErrors(page, None))
    ensures r.Ok? ==> |r.value| <= page.Limit()
    ensures r.Ok? ==> forall p :: p in r.value ==> p in projects.Values && p.ownerId == caller
    ensures r.Ok? ==> r.value == Page(OwnedProjects(projects, caller), page.Offset(), page.Limit())
  {
    var errors := QueryErrors(page, None);
    if errors != {} then Err(Unprocessable(errors))
    else Ok(Page(OwnedProjects(projects, caller), page.Offset(), page.Limit()))
  }

  /** `read_project`. */
  function ReadProject(projects: map<ProjectId, Project>, caller: UserId, id: ProjectId): (r: Result<Project, Error>)
    ensures r.Err? <==> !OwnsProject(projects, id, caller)
    ensures r.Err? ==> r.error == NotFound(PROJECT_NOT_FOUND)
    ensures r.Ok? ==> r.value == projects[id] && r.value.ownerId == caller
  {
    if !OwnsProject(projects, id, caller) then Err(NotFound(PROJECT_NOT_FOUND)) else Ok(projects[id])
  }

  /** `read_project_tasks`: the project's `tasks` relationship, not paginated. */
  ghost function ReadProjectTasks(
    projects: map<ProjectId, Project>, tasks: map<TaskId, Task>, caller: UserId, id: ProjectId): (r: Result<seq<Task>, Error>)
    ensures r.Err? <==> !OwnsProject(projects, id, caller)
    ensures r.Err? ==> r.error == NotFound(PROJECT_NOT_FOUND)
    ensures r.Ok? ==> forall t :: t in r.value <==> t in tasks.Values && t.projectId == Some(id)
    ensures r.Ok? && Injective(tasks) ==> Distinct(r.value)
  {
    if !OwnsProject(projects, id, caller) then Err(NotFound(PROJECT_NOT_FOUND))
    else Ok(Filter(Rows(tasks), (t: Task) => t.projectId == Some(id)))
  }

  /** A project's tasks belong to the project's owner when every task's project shares its owner. */
  lemma ProjectTasksOwnedByCaller(
    projects: map<ProjectId, Project>, tasks: map<TaskId, Task>, caller: UserId, id: ProjectId, t: Task)
    requires TaskProjectsOwned(tasks, projects)
    requires ReadProjectTasks(projects, tasks, caller, id).Ok?
    requires t in ReadProjectTasks(projects, tasks, caller, id).value
    ensures t.ownerId == caller
  {
    var k :| k in tasks && tasks[k] == t;
  }

  // ---------------------------------------------------------------- labels

  /** The caller's labels, in id order. */
  ghost function OwnedLabels(labels: map<LabelId, Label>, caller: UserId): (r: seq<Label>)
    ensures forall l :: l in r <==> l in labels.Values && l.ownerId == caller
    ensures Injective(labels) ==> Distinct(r)
  {
    Filter(Rows(labels), (l: Label) => l.ownerId == caller)
  }

  /** `read_labels`. */
  ghost function ReadLabels(labels: map<LabelId, Label>, caller: UserId, page: PageQuery): (r: Result<seq<Label>, Error>)
    ensures r.Err? <==> QueryErrors(page, None) != {}
    ensures r.Err? ==> r.error == Unprocessable(QueryErrors(page, None))
    ensures r.Ok? ==> |r.value| <= page.Limit()
    ensures r.Ok? ==> forall l :: l in r.value ==> l in labels.Values && l.ownerId == caller
    ensures r.Ok? ==> r.value == Page(OwnedLabels(labels, caller), page.Offset(), page.Limit())
  {
    var errors := QueryErrors(page, None);
    if errors != {} then Err(Unprocessable(errors))
    else Ok(Page(OwnedLabels(labels, caller), page.Offset(), page.Limit()))
  }
}
