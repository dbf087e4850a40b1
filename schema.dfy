/**
 * The tables of app/schema.py as records, and the constraints that hold
 * between the rows of a store: primary keys, foreign keys, the unique
 * columns, and the rules the handlers keep on top of those (a task's project
 * and a link's task and label share one owner; priorities stay in range).
 */
module Schema {
  import opened Wrappers
  import opened Models
  import opened Text
  import opened Tables

  type UserId = int
  type ProjectId = int
  type TaskId = int
  type LabelId = int

  datatype User = User(id: UserId, username: string, email: string, hashedPassword: string)

  datatype Project = Project(id: ProjectId, title: string, createdAt: Timestamp, ownerId: UserId)

  datatype Task = Task(
    id: TaskId,
    title: string,
    description: Option<string>,
    priority: int,
    completed: bool,
    dueDate: Option<Timestamp>,
    createdAt: Timestamp,
    ownerId: UserId,
    projectId: Option<ProjectId>)

  datatype Label = Label(id: LabelId, name: string, ownerId: UserId)

  /** A row of task_labels; a `set` of these holds each (task_id, label_id) key at most once. */
  datatype TaskLabel = TaskLabel(taskId: TaskId, labelId: LabelId)

  // The ownership gate: a row is visible to `caller` only if it exists and is theirs.

  predicate OwnsProject(projects: map<ProjectId, Project>, id: ProjectId, caller: UserId) {
    id in projects && projects[id].ownerId == caller
  }

  predicate OwnsTask(tasks: map<TaskId, Task>, id: TaskId, caller: UserId) {
    id in tasks && tasks[id].ownerId == caller
  }

  predicate OwnsLabel(labels: map<LabelId, Label>, id: LabelId, caller: UserId) {
    id in labels && labels[id].ownerId == caller
  }

  // Primary keys: every row sits under its own id, below the table's next id.

  ghost predicate UserKeys(users: map<UserId, User>, next: nat) {
    forall k :: k in users ==> users[k].id == k && 0 <= k < next
  }

  ghost predicate ProjectKeys(projects: map<ProjectId, Project>, next: nat) {
    forall k :: k in projects ==> projects[k].id == k && 0 <= k < next
  }

  ghost predicate TaskKeys(tasks: map<TaskId, Task>, next: nat) {
    forall k :: k in tasks ==> tasks[k].id == k && 0 <= k < next
  }

  ghost predicate LabelKeys(labels: map<LabelId, Label>, next: nat) {
    forall k :: k in labels ==> labels[k].id == k && 0 <= k < next
  }

  /** A table whose rows carry their own key holds no row twice, so its scans list each row once. */
  lemma KeyedTablesInjective(
    projects: map<ProjectId, Project>, tasks: map<TaskId, Task>, labels: map<LabelId, Label>, next: nat)
    requires ProjectKeys(projects, next) && TaskKeys(tasks, next) && LabelKeys(labels, next)
    ensures Injective(projects) && Injective(tasks) && Injective(labels)
  {
  }

  /** A label of the table sits under its own id. */
  lemma LabelAtItsId(labels: map<LabelId, Label>, next: nat, l: Label)
    requires LabelKeys(labels, next)
    requires l in labels.Values
    ensures l.id in labels && labels[l.id] == l
  {
    if !(exists k :: k in labels && labels[k] == l) {
      assert false;
    }
    var k :| k in labels && labels[k] == l;
  }

  // Foreign keys to users.id.

  ghost predicate OwnersExist(
    users: map<UserId, User>, projects: map<ProjectId, Project>,
    tasks: map<TaskId, Task>, labels: map<LabelId, Label>)
  {
    && (forall k :: k in projects ==> projects[k].ownerId in users)
    && (forall k :: k in tasks ==> tasks[k].ownerId in users)
    && (forall k :: k in labels ==> labels[k].ownerId in users)
  }

  /** tasks.project_id refers to a project, and to one of the task's owner. */
  ghost predicate TaskProjectsOwned(tasks: map<TaskId, Task>, projects: map<ProjectId, Project>) {
    forall k :: k in tasks && tasks[k].projectId.Some? ==>
      tasks[k].projectId.value in projects && projects[tasks[k].projectId.value].ownerId == tasks[k].ownerId
  }

  /** Every link joins an existing task and an existing label of one owner. */
  ghost predicate LinksOwned(links: set<TaskLabel>, tasks: map<TaskId, Task>, labels: map<LabelId, Label>) {
    forall l :: l in links ==>
      l.taskId in tasks && l.labelId in labels && tasks[l.taskId].ownerId == labels[l.labelId].ownerId
  }

  ghost predicate PrioritiesInRange(tasks: map<TaskId, Task>) {
    forall k :: k in tasks ==> PriorityInRange(tasks[k].priority)
  }

  /** UniqueConstraint("name", "owner_id"). */
  ghost predicate LabelNamesUniquePerOwner(labels: map<LabelId, Label>) {
    forall a, b :: a in labels && b in labels && a != b ==>
      labels[a].name != labels[b].name || labels[a].ownerId != labels[b].ownerId
  }

  /** Usernames differ even ignoring case (stronger than the exact `unique=True`). */
  ghost predicate UsernamesUnique(users: map<UserId, User>) {
    forall a, b :: a in users && b in users && a != b ==>
      !EqualsIgnoreCase(users[a].username, users[b].username)
  }

  /** E-mails are stored lower-cased and differ from one another. */
  ghost predicate EmailsUnique(users: map<UserId, User>) {
    && (forall k :: k in users ==> IsLower(users[k].email))
    && (forall a, b :: a in users && b in users && a != b ==> users[a].email != users[b].email)
  }

  /** Case-insensitive uniqueness gives the exact uniqueness of the username column. */
  lemma UsernamesUniqueExactly(users: map<UserId, User>, a: UserId, b: UserId)
    requires UsernamesUnique(users)
    requires a in users && b in users && a != b
    ensures users[a].username != users[b].username
  {
  }

  /** With e-mails stored lower-cased, distinct stored e-mails also differ ignoring case. */
  lemma EmailsUniqueIgnoringCase(users: map<UserId, User>, a: UserId, b: UserId)
    requires EmailsUnique(users)
    requires a in users && b in users && a != b
    ensures !EqualsIgnoreCase(users[a].email, users[b].email)
  {
    StoredLowerMatches(users[a].email, users[b].email);
    LowerOfLower(users[b].email);
  }
}
