# task-api, modelled in Dafny

task-api is a FastAPI service where each user manages their own projects,
tasks and labels. Every query and every change is limited to the
authenticated user's rows. This project models the service's core in Dafny:

- the request payloads and how they are validated (`app/models.py`);
- the database records, their uniqueness constraints and their delete
  cascades (`app/schema.py`);
- the request handlers of the tasks, projects, labels and users routers.

An in-memory store replaces the database. The class `Store.Store` holds one
map per table, from primary key to row, plus the `task_labels` link table as a
set of `(task_id, label_id)` pairs. Each mutating handler is one method of
that class and runs atomically: it commits its whole change, or it returns an
error and changes nothing. Its class invariant `Valid()` combines rules that
come from three places:

- `app/schema.py` declares the primary keys (each row sits under its own id),
  the foreign keys (each reference points to an existing row), the exact
  uniqueness of usernames and of e-mails, and the unique pair (label name,
  owner).
- The handlers' checks keep the stronger rules: a task's project and a
  link's task and label belong to the task's owner, usernames differ even
  ignoring case, and e-mails are stored lower-cased. These hold in the model
  because every handler checks them before it writes. The database itself
  does not enforce them.
- Pydantic validation keeps priorities within 1..5.

The read endpoints are pure functions over the maps (`Views`): filter by
owner and query, optionally sort, then cut the `OFFSET/LIMIT` page. An
omitted `offset` counts as 0 and an omitted `limit` as 100.

Errors are values. `NotFound` stands for 404, `BadRequest` for 400 and
`NotModified` for 304. Payloads and query parameters that fail validation
give `Unprocessable` (422), carrying the set of failing field names. A
database constraint that fails at commit gives `IntegrityError`.

Timestamps are integers: microseconds since 1970-01-01T00:00:00Z, in UTC.
The current time is a `now` parameter. A UTC day runs from `DayStart(now)`
through `DayEnd(now) = DayStart(now) + 86400000000 - 1`, the `time.max`
instant, 23:59:59.999999.

Modules: `Wrappers` (Option/Result/Outcome), `Errors`, `Models`
(models.dfy), `Text` (ASCII case folding), `Schema`, `Patches` (the
`exclude_unset` + `setattr` updates), `Tables` (table scans, filtering,
pagination), `Views` (the read endpoints), `Store` (the mutating handlers)
and `Scenarios` (request sequences checked against the handler contracts).

## Model

| member | source | states |
|---|---|---|
| Models.CheckDueDateIsFuture | app/models.py:53-56 | accepts an absent due date and any due date at or after `now`; rejects exactly the dates strictly before `now`, with the validator's message; an accepted value passes through unchanged |
| Models.TaskCreateErrors | app/models.py:59-67 | "priority" fails exactly when a priority is sent outside 1..5; "due_date" fails exactly when a due date is sent that lies before `now`; no other field can fail |
| Models.ValidateTaskCreate | app/models.py:59-67 | 422 exactly when some field fails, naming the failing fields; otherwise the priority is in 1..5, title, description, due date and project are copied from the body, and priority defaults to 1 and completed to false |
| Models.TitleOnlyTakesDefaults | app/models.py:59-67 | a body with only a title is valid at every instant and gets priority 1, completed false, and no description, due date or project |
| Models.TaskUpdateErrors | app/models.py:70-78 | "priority" fails exactly when a sent priority is outside 1..5; "due_date" fails exactly when a non-null due date is sent that lies before `now`; nothing else can fail, so every field is optional |
| Patches.ApplyTaskUpdate | app/routers/tasks.py:230-232 | every field the patch sends takes the sent value (null included for the nullable columns); every other field, and id, created_at and owner, keep their old value |
| Patches.ApplyProjectUpdate | app/routers/projects.py:106-108 | the title changes exactly when the patch sends one; id, created_at and owner are kept (ProjectUpdate, app/models.py:41-42, has only a title) |
| Patches.ApplyLabelUpdate | app/routers/labels.py:71-73 | the name changes exactly when the patch sends one; id and owner are kept (LabelUpdate, app/models.py:113-114, has only a name) |
| Patches.EmptyTaskUpdateChangesNothing | app/routers/tasks.py:230-232 | a patch that sends nothing leaves the task as it was |
| Patches.TaskUpdateIdempotent | app/routers/tasks.py:230-232 | sending the same patch twice has the same effect as sending it once |
| Patches.TaskUpdatesCompose | app/routers/tasks.py:230-232 | two patches in a row act as one merged patch in which the later patch wins on shared fields |
| Patches.ValidTaskUpdateKeepsPriority | app/models.py:73 | a patch that passes validation keeps a task's priority within 1..5 |
| Text.LowerIsLower | app/routers/users.py:37 | a lower-cased string contains no upper-case ASCII letter |
| Text.LowerOfLower | app/routers/users.py:37 | lower-casing an already lower-case string changes nothing |
| Text.StoredLowerMatches | app/routers/users.py:26-32 | a stored lower-case e-mail matches a probe ignoring case exactly when it equals the probe lower-cased |
| Schema.KeyedTablesInjective | app/schema.py:33-87 | in tables whose rows carry their own primary key, no two keys hold the same row |
| Schema.LabelAtItsId | app/schema.py:87 | a label of the table is stored under its own primary key |
| Schema.UsernamesUniqueExactly | app/schema.py:15 | the case-insensitive uniqueness kept by the store implies the column's exact uniqueness |
| Schema.EmailsUniqueIgnoringCase | app/schema.py:16 | because e-mails are stored lower-cased, two distinct users' e-mails differ even ignoring case |
| Tables.Rows | app/routers/tasks.py:106-108 | the table scan has the table's length and holds exactly the table's rows; when no two keys hold the same row, no row appears twice |
| Tables.Filter | app/routers/tasks.py:100-104 | the filtered scan keeps each element that satisfies the condition as many times as the input has it and drops every other element (a multiset statement); it is no longer than the input and has no repeats when the input has none |
| Tables.DistinctCardinality | app/routers/tasks.py:106-108 | a result without repeats has exactly as many rows as the set of its rows |
| Tables.DistinctListsSet | app/routers/tasks.py:106-108 | a result without repeats that lists exactly the members of a set is as long as that set is large |
| Tables.Page | app/routers/tasks.py:106 | `OFFSET/LIMIT` gives at most `limit` rows: `limit` of them when that many remain after `offset`, otherwise all that remain; the i-th row of the page is row `offset + i` of the input |
| Tables.FirstPageHoldsAll | app/routers/tasks.py:95-96 | offset 0 with a limit no smaller than the input returns the whole input |
| Tables.PagesAdjacent | app/routers/tasks.py:106 | the page of `a` rows at an offset, followed by the page of `b` rows right after it, is the page of `a + b` rows at that offset |
| Tables.AllPagesCoverTail | app/routers/tasks.py:106 | paging from an offset with any positive limit, page after page, returns exactly the input after that offset |
| Views.QueryErrors | app/routers/tasks.py:95-98 | a query parameter fails exactly when a sent offset is below 0, a sent limit is not above 0, or a sent priority lies outside 1..5; the defaults 0 and 100 always pass |
| Views.DayWindowContainsNow | app/routers/tasks.py:147-149 | the UTC day window contains `now`, starts at a day boundary and is exactly one day long, `time.max` included |
| Views.InsertByDueDate | app/routers/tasks.py:132 | inserting into a list sorted by due date (nulls last) keeps it sorted and adds exactly that task |
| Views.SortByDueDate | app/routers/tasks.py:132 | `ORDER BY due_date ASC NULLS LAST` returns a permutation of its input, sorted by due date with undated tasks last |
| Views.Select | app/routers/tasks.py:100-104 | the WHERE clause keeps exactly the tasks of the table that match the filter, and no more rows than the table has; in a table where no two keys hold the same row, each matching task appears once |
| Views.SelectCountsMatches | app/routers/tasks.py:100-108 | in such a table the query returns as many rows as there are matching tasks, so the pages over all offsets hold exactly that many rows |
| Views.ReadTasks | app/routers/tasks.py:99-108 | 422 exactly on bad query parameters; otherwise at most `limit` tasks, each of them the caller's and matching the `completed` and `priority` filters, forming the page at `offset` of the caller's matching tasks; an omitted offset is 0 and an omitted limit 100 |
| Views.DefaultPageIsFirstHundred | app/routers/tasks.py:95-96 | a request that sends neither `offset` nor `limit` is answered with at most 100 tasks: the first 100 that match |
| Views.ReadTasksFirstPageComplete | app/routers/tasks.py:99-108 | with offset 0 and a limit no smaller than the table, every task of the caller that matches the filters is listed |
| Views.ReadUpcomingTasks | app/routers/tasks.py:120-135 | 422 exactly on bad query parameters; otherwise at most `limit` incomplete tasks of the caller, each due strictly after `now`, sorted by due date |
| Views.ReadDueTodayTasks | app/routers/tasks.py:147-162 | 422 exactly on bad query parameters; otherwise at most `limit` incomplete tasks of the caller, each due within the UTC day of `now`, both ends included |
| Views.ReadOverdueTasks | app/routers/tasks.py:174-187 | 422 exactly on bad query parameters; otherwise at most `limit` incomplete tasks of the caller, each due strictly before `now` |
| Views.UpcomingOverdueDisjoint | app/routers/tasks.py:125 | for one `now`, no task appears both in an upcoming page and in an overdue page |
| Views.TodayAndUpcoming | app/routers/tasks.py:148-154 | a task is both due today and upcoming exactly when it is upcoming and due by the end of today |
| Views.TodayAndOverdue | app/routers/tasks.py:148-154 | a task is both due today and overdue exactly when it is overdue and due no earlier than the start of today |
| Views.WindowsCoverDatedTasks | app/routers/tasks.py:125 | every incomplete dated task of the caller that is not due exactly at `now` is either upcoming or overdue, never both; one due exactly at `now` is neither, but it is due today |
| Views.TodayOverlapsUpcoming | app/routers/tasks.py:148-154 | a concrete task due today is also upcoming, so the windows overlap |
| Views.TodayOverlapsOverdue | app/routers/tasks.py:148-154 | a concrete task due today is also overdue, so these windows overlap too |
| Views.LabelsOf | app/schema.py:78-80 | a task's labels are exactly the labels that have a link to that task |
| Views.ReadTask | app/routers/tasks.py:197-205 | 404 exactly when the task is absent or not the caller's; otherwise the stored task, its project when it has one, and exactly its linked labels |
| Views.OwnedProjects | app/routers/projects.py:45-47 | lists exactly the caller's projects, each once when no two keys hold the same project |
| Views.ReadProjects | app/routers/projects.py:45-52 | 422 exactly on a bad offset or limit; otherwise at most `limit` projects, all of them the caller's, forming the page at `offset` |
| Views.ReadProject | app/routers/projects.py:62-69 | 404 exactly when the project is absent or not the caller's; otherwise the stored project |
| Views.ReadProjectTasks | app/routers/projects.py:79-88 | 404 exactly when the project is absent or not the caller's; otherwise exactly the tasks whose project is that project, each once when no two keys hold the same task |
| Views.ProjectTasksOwnedByCaller | app/routers/projects.py:79-88 | under the store invariant, every task the project endpoint returns belongs to the caller |
| Views.OwnedLabels | app/routers/labels.py:46-48 | lists exactly the caller's labels, each once when no two keys hold the same label |
| Views.ReadLabels | app/routers/labels.py:46-54 | 422 exactly on a bad offset or limit; otherwise at most `limit` labels, all of them the caller's, forming the page at `offset` |
| Store.CopiedLinks | app/routers/tasks.py:80 | the copy gets one link for each label of the source task, and only those |
| Store.Store.constructor | app/schema.py:11-94 | an empty database satisfies every table invariant |
| Store.Store.CreateTask | app/routers/tasks.py:30-45 | 422 on an invalid body and 400 "Project not found" for a project that is not the caller's, both with the store unchanged; otherwise exactly one new task, under a fresh id, owned by the caller, created at `now`, with the validated fields and defaults; the invariant is kept |
| Store.Store.CreateDuplicateTask | app/routers/tasks.py:59-87 | 400 with no change when the source is absent, not the caller's, or completed; otherwise exactly one new task equal to the source except for a fresh id, the title plus " (Copy)" and created_at `now`, with the same label set, and the source left as it was |
| Store.Store.UpdateTask | app/routers/tasks.py:216-237 | 422 on an invalid patch, 404 when the task is not the caller's, 400 when a non-null project in the patch is not the caller's, all with no change; otherwise only that task changes, exactly as the patch says |
| Store.Store.AssignLabelToTask | app/routers/tasks.py:248-270 | 404 for a task and then for a label that is not the caller's; 304 with the links unchanged when the pair is already linked; otherwise exactly that one pair is added and the task's labels grow by that label |
| Store.Store.RemoveLabelFromTask | app/routers/tasks.py:281-298 | 404 when the task is not the caller's, and 404 (not 304) when the pair is not linked; otherwise exactly that pair is removed and the task's labels lose that label |
| Store.Store.DeleteTask | app/routers/tasks.py:308-315 | 404 with the store unchanged when the task is not the caller's; otherwise the task and every link to it are removed (schema cascade, app/schema.py:49-51) |
| Store.Store.CreateProject | app/routers/projects.py:27-34 | exactly one new project, under a fresh id, with the given title, owned by the caller, created at `now` |
| Store.Store.UpdateProject | app/routers/projects.py:99-113 | 404 with no change when the project is not the caller's; otherwise only that project changes, and only its title, only when the patch sends one |
| Store.Store.DeleteProject | app/routers/projects.py:123-131 | 404 with the store unchanged when the project is not the caller's; otherwise the project, all its tasks and their links are removed (cascade, app/schema.py:41-43, 72-74), and no task of another owner changes |
| Store.Store.CreateLabel | app/routers/labels.py:21-34 | 400 with the store unchanged when any label of any owner already has the name; otherwise exactly one new label of the caller with that name |
| Store.Store.UpdateLabel | app/routers/labels.py:65-78 | 404 when the label is not the caller's; a name another label of the caller already has breaks uq_label_name_owner (app/schema.py:85), with no change; otherwise only that label's name changes, only when the patch sends one |
| Store.Store.DeleteLabel | app/routers/labels.py:88-95 | 404 with the store unchanged when the label is not the caller's; otherwise the label and every link to it are removed and the tasks stay (app/schema.py:52-54) |
| Store.Store.CreateUser | app/routers/users.py:17-42 | 400 "Username already registered" when a username matches ignoring case, checked first, then 400 "Email already exists" when an e-mail matches ignoring case, both with the store unchanged; otherwise exactly one new user with the username as typed, the e-mail lower-cased and only the hash of the password |
| Store.Store.ReadUsersMe | app/routers/users.py:50-52 | returns the current user as stored: the row under the caller's id, with its lower-case e-mail |
| Store.Store.DeleteUser | app/schema.py:19-27 | removing a user removes all their projects, tasks and labels, and every link of a removed task or label; the invariant is kept |
| Scenarios.AssignLabelTwice | app/routers/tasks.py:259-265 | assigning the same label twice adds the link once; the second request answers 304 |
| Scenarios.RemoveLabelTwice | app/routers/tasks.py:287-293 | removing the same label twice removes the link; the second request answers 404 |

## Left out

- Database engine, session, commit/refresh and async execution: each handler is one atomic method, and cross-request concurrency is not modelled.
- Authentication: the current user is a `caller` id that must be a stored user. `hash_password` is an opaque function parameter of `CreateUser`. Token issuing and the auth router are not part of this model.
- `datetime.now()` and the database's `server_default=func.now()`: both become the `now` parameter, so `created_at` is the request's `now`.
- Row order: SQL without `ORDER BY` returns rows in an unspecified order. The model uses ascending primary key. Rows with equal due dates in the upcoming view keep that order too.
- Id generation: one `nextId` counter serves every table, where the database has one sequence per table. Ids are fresh and never reused, but they are not consecutive within one table.
- `ilike`: the model matches by ASCII case-insensitive equality. It does not model the `%` and `_` wildcards or the `\` escape of an ILIKE pattern, and the results differ in both directions. With `ab` stored, a new username `a\b` matches in the source (answer 400) but not in the model. With `A\B` stored, a new `a\b` does not match in the source but does in the model. So `Schema.UsernamesUnique` and `Schema.EmailsUnique` are guarantees of the model. The source guarantees only the exact uniqueness of the columns.
- A due date sent without a timezone offset becomes a naive datetime. Comparing it with `datetime.now(tz=UTC)` (app/models.py:54) raises `TypeError`, which pydantic does not turn into a 422, so `create_task` and `update_task` answer 500. Timestamps here are always UTC instants, so the model has no such input.
- `str.lower()`: only ASCII letters are lower-cased. Unicode case mapping is not modelled.
- `EmailStr` format validation is not modelled; any string is accepted as an e-mail.
- Pydantic type coercion and missing required fields (a non-integer priority, a missing title) are not modelled. Validation covers only the declared field constraints.
- An explicit null for `priority` or `completed` in a creation body, for `title`, `priority` or `completed` in a task patch, and for `name` in a label patch (app/models.py:114), is not representable. Pydantic or the NOT NULL columns would refuse it.
- Response-model serialisation: handlers return the stored rows. `ReadTask` returns the task with its project and labels. The other response shapes and HTTP headers are not modelled.
- Store.Store.UpdateLabel: the source does not catch the failing unique constraint, so the client sees an unhandled server error. The model returns `IntegrityError` with nothing changed.
- Store.Store.DeleteUser: no router deletes users. The method models only the schema's cascade rules.
- Older module versions (UUID ids, no owners) and the application wiring are not part of this model.
- `users.py` imports `User` from `app.models`, but `app/models.py` defines no `User`. The model uses the `User` record of `app/schema.py`.

## Behaviour kept as the code has it

Each point below is something a reader might expect to go the other way. The model follows the code each time:

- A due date equal to `now` is accepted. The message at app/models.py:55 says "due_date must be in the future", but the test at app/models.py:54 is a strict `<`.
- The today window overlaps both the upcoming and the overdue windows. Today is `between(today_start, today_end)` (app/routers/tasks.py:148-154), upcoming is `due_date > now` (:125) and overdue is `due_date < now` (:179), so a task due earlier or later today is in two views. See `Views.TodayOverlapsUpcoming` and `Views.TodayOverlapsOverdue`.
- Removing a label that is not linked answers 404 "Label not assigned to task" (app/routers/tasks.py:287-291). Assigning a label that is already linked answers 304 (:259-263).
- `create_label` looks up the name with no owner condition (app/routers/labels.py:21), so it refuses a name that a label of any owner has. The constraint at app/schema.py:85 only asks for uniqueness per owner.
- Deleting a project removes its tasks and does not leave them without a project. This follows from `cascade="all, delete-orphan"` on `Project.tasks` (app/schema.py:41-43) and `ondelete="CASCADE"` on `tasks.project_id` (app/schema.py:72-74).
