/**
 * The database as one object: a map per table from primary key to row, the
 * task_labels link table as a set of key pairs, and the id sequence. Each
 * method is one request handler of the task, project, label and user routers,
 * run atomically: it either commits its whole change or, on an error, leaves
 * every table as it was.
 */
module Store {
  import opened Wrappers
  import opened Errors
  import opened Models
  import opened Schema
  import opened Text
  import opened Patches
  import opened Views
  import opened Tables

  /** The links a duplicate of task `source` receives: one per label of `source`, on task `copy`. */
  function CopiedLinks(links: set<TaskLabel>, source: TaskId, copy: TaskId): (r: set<TaskLabel>)
    ensures forall l :: l in r <==> l.taskId == copy && TaskLabel(source, l.labelId) in links
  {
    set l | l in links && l.taskId == source :: TaskLabel(copy, l.labelId)
  }

  /** Some user's username equals `username` ignoring case. */
  predicate UsernameTaken(users: map<UserId, User>, username: string) {
    exists k :: k in users && EqualsIgnoreCase(users[k].username, username)
  }

  /** Some user's e-mail equals `email` ignoring case. */
  predicate EmailTaken(users: map<UserId, User>, email: string) {
    exists k :: k in users && EqualsIgnoreCase(users[k].email, email)
  }

  /** Some label, of any owner, is named `name`. */
  predicate LabelNameTaken(labels: map<LabelId, Label>, name: string) {
    exists k :: k in labels && labels[k].name == name
  }

  /** Some label of `owner` other than `id` is named `name`. */
  predicate OtherLabelNamed(labels: map<LabelId, Label>, id: LabelId, owner: UserId, name: string) {
    exists k :: k in labels && k != id && labels[k].ownerId == owner && labels[k].name == name
  }

  /**
   * Removing a user with every project, task and label they own, and every
   * link to a removed task or label, leaves no reference dangling.
   */
  lemma UserCascadeKeepsReferences(
    users: map<UserId, User>, projects: map<ProjectId, Project>, tasks: map<TaskId, Task>,
    labels: map<LabelId, Label>, links: set<TaskLabel>, id: UserId,
    projects': map<ProjectId, Project>, tasks': map<TaskId, Task>,
    labels': map<LabelId, Label>, links': set<TaskLabel>)
    requires OwnersExist(users, projects, tasks, labels)
    requires TaskProjectsOwned(tasks, projects) && LinksOwned(links, tasks, labels)
    requires projects' == map k | k in projects && projects[k].ownerId != id :: projects[k]
    requires tasks' == map k | k in tasks && tasks[k].ownerId != id :: tasks[k]
    requires labels' == map k | k in labels && labels[k].ownerId != id :: labels[k]
    requires links' == set l | l in links && l.taskId in tasks' && l.labelId in labels'
    ensures OwnersExist(users - {id}, projects', tasks', labels')
    ensures TaskProjectsOwned(tasks', projects') && LinksOwned(links', tasks', labels')
  {
    forall k | k in tasks' && tasks'[k].projectId.Some?
      ensures tasks'[k].projectId.value in projects'
    {
      assert tasks'[k] == tasks[k];
    }
  }

  /** Removing rows keeps every rule that constrains rows one at a time or pairwise. */
  lemma RemovalKeepsRowRules(
    users: map<UserId, User>, projects: map<ProjectId, Project>, tasks: map<TaskId, Task>,
    labels: map<LabelId, Label>, next: nat,
    users': map<UserId, User>, projects': map<ProjectId, Project>, tasks': map<TaskId, Task>,
    labels': map<LabelId, Label>)
    requires UserKeys(users, next) && ProjectKeys(projects, next) && TaskKeys(tasks, next) && LabelKeys(labels, next)
    requires PrioritiesInRange(tasks) && LabelNamesUniquePerOwner(labels)
    requires UsernamesUnique(users) && EmailsUnique(users)
    requires Submap(users', users) && Submap(projects', projects) && Submap(tasks', tasks) && Submap(labels', labels)
    ensures UserKeys(users', next) && ProjectKeys(projects', next) && TaskKeys(tasks', next) && LabelKeys(labels', next)
    ensures PrioritiesInRange(tasks') && LabelNamesUniquePerOwner(labels')
    ensures UsernamesUnique(users') && EmailsUnique(users')
  {
  }

  class Store {
    var users: map<UserId, User>
    var projects: map<ProjectId, Project>
    var tasks: map<TaskId, Task>
    var labels: map<LabelId, Label>
    var links: set<TaskLabel>
    /** The next id to hand out; ids are never reused. */
    var nextId: nat

    ghost predicate Valid()
      reads this
    {
      && UserKeys(users, nextId) && ProjectKeys(projects, nextId)
      && TaskKeys(tasks, nextId) && LabelKeys(labels, nextId)
      && OwnersExist(users, projects, tasks, labels)
      && TaskProjectsOwned(tasks, projects)
      && LinksOwned(links, tasks, labels)
      && PrioritiesInRange(tasks)
      && LabelNamesUniquePerOwner(labels)
      && UsernamesUnique(users)
      && EmailsUnique(users)
    }

    constructor ()
      ensures Valid()
      ensures users == map[] && projects == map[] && tasks == map[] && labels == map[] && links == {}
    {
      users, projects, tasks, labels, links := map[], map[], map[], map[], {};
      nextId := 0;
    }

    // -------------------------------------------------------------- tasks router

    /**
     * `create_task`: validate the body at `now`, refuse a project that is not
     * the caller's, then add one task of the caller built from the body.
     */
    method CreateTask(caller: UserId, request: TaskCreateRequest, now: Timestamp) returns (r: Result<Task, Error>)
      requires Valid() && caller in users
      modifies this
      ensures Valid()
      ensures users == old(users) && projects == old(projects) && labels == old(labels) && links == old(links)
      ensures ValidateTaskCreate(request, now).Err? ==>
        r == Err(ValidateTaskCreate(request, now).error) && unchanged(this)
      ensures ValidateTaskCreate(request, now).Ok? && request.projectId.Some?
              && !OwnsProject(old(projects), request.projectId.value, caller) ==>
        r == Err(BadRequest(PROJECT_NOT_FOUND)) && unchanged(this)
      ensures ValidateTaskCreate(request, now).Ok?
              && (request.projectId.Some? ==> OwnsProject(old(projects), request.projectId.value, caller)) ==>
        var body := ValidateTaskCreate(request, now).value;
        && r.Ok? && r.value.id !in old(tasks)
        && r.value == Task(r.value.id, body.title, body.description, body.priority, body.completed,
                           body.dueDate, now, caller, body.projectId)
        && tasks == old(tasks)[r.value.id := r.value]
    {
      var validated := ValidateTaskCreate(request, now);
      if validated.Err? {
        return Err(validated.error);
      }
      var body := validated.value;
      if body.projectId.Some? {
        var projectId := body.projectId.value;
        if !OwnsProject(projects, projectId, caller) {
          return Err(BadRequest(PROJECT_NOT_FOUND));
        }
      }
      var task := Task(nextId, body.title, body.description, body.priority, body.completed,
                       body.dueDate, now, caller, body.projectId);
      tasks := tasks[nextId := task];
      nextId := nextId + 1;
      return Ok(task);
    }

    /**
     * `create_duplicate_task`: copy one of the caller's incomplete tasks under
     * the title suffixed " (Copy)", with the same project and the same labels.
     * A missing, foreign or completed source is a bad request.
     */
    method CreateDuplicateTask(caller: UserId, id: TaskId, now: Timestamp) returns (r: Result<Task, Error>)
      requires Valid()
      modifies this
      ensures Valid()
      ensures users == old(users) && projects == old(projects) && labels == old(labels)
      ensures !OwnsTask(old(tasks), id, caller) ==> r == Err(BadRequest(TASK_NOT_FOUND)) && unchanged(this)
      ensures OwnsTask(old(tasks), id, caller) && old(tasks)[id].completed ==>
        r == Err(BadRequest(TASK_COMPLETED)) && unchanged(this)
      ensures OwnsTask(old(tasks), id, caller) && !old(tasks)[id].completed ==>
        var source := old(tasks)[id];
        && r.Ok? && r.value.id !in old(tasks)
        && r.value == source.(id := r.value.id, title := source.title + " (Copy)", createdAt := now)
        && tasks == old(tasks)[r.value.id := r.value]
        && links == old(links) + CopiedLinks(old(links), id, r.value.id)
        && LabelsOf(labels, links, r.value.id) == LabelsOf(labels, links, id)
    {
      if !OwnsTask(tasks, id, caller) {
        return Err(BadRequest(TASK_NOT_FOUND));
      }
      var source := tasks[id];
      if source.completed {
        return Err(BadRequest(TASK_COMPLETED));
      }
      var copy := Task(nextId, source.title + " (Copy)", source.description, source.priority, source.completed,
                       source.dueDate, now, source.ownerId, source.projectId);
      var copied := CopiedLinks(links, id, copy.id);
      assert forall l :: l in links ==> l.taskId != copy.id;
      tasks := tasks[copy.id := copy];
      links := links + copied;
      nextId := nextId + 1;
      assert LinksOwned(links, tasks, labels);
      assert LabelsOf(labels, links, copy.id) == LabelsOf(labels, links, id);
      return Ok(copy);
    }

    /**
     * `update_task`: validate the patch at `now`, find the caller's task,
     * refuse a new project that is not the caller's, then overwrite exactly the
     * fields the patch sends.
     */
    method UpdateTask(caller: UserId, id: TaskId, patch: TaskUpdate, now: Timestamp) returns (r: Result<Task, Error>)
      requires Valid()
      modifies this
      ensures Valid()
      ensures users == old(users) && projects == old(projects) && labels == old(labels) && links == old(links)
      ensures nextId == old(nextId)
      ensures TaskUpdateErrors(patch, now) != {} ==>
        r == Err(Unprocessable(TaskUpdateErrors(patch, now))) && tasks == old(tasks)
      ensures TaskUpdateErrors(patch, now) == {} && !OwnsTask(old(tasks), id, caller) ==>
        r == Err(NotFound(TASK_NOT_FOUND)) && tasks == old(tasks)
      ensures TaskUpdateErrors(patch, now) == {} && OwnsTask(old(tasks), id, caller)
              && patch.projectId.Some? && patch.projectId.value.Some?
              && !OwnsProject(old(projects), patch.projectId.value.value, caller) ==>
        r == Err(BadRequest(PROJECT_NOT_FOUND)) && tasks == old(tasks)
      ensures TaskUpdateErrors(patch, now) == {} && OwnsTask(old(tasks), id, caller)
              && (patch.projectId.Some? && patch.projectId.value.Some? ==>
                    OwnsProject(old(projects), patch.projectId.value.value, caller)) ==>
        && r == Ok(ApplyTaskUpdate(old(tasks)[id], patch))
        && tasks == old(tasks)[id := r.value]
    {
      var errors := TaskUpdateErrors(patch, now);
      if errors != {} {
        return Err(Unprocessable(errors));
      }
      if !OwnsTask(tasks, id, caller) {
        return Err(NotFound(TASK_NOT_FOUND));
      }
      if patch.projectId.Some? && patch.projectId.value.Some? {
        var projectId := patch.projectId.value.value;
        if !OwnsProject(projects, projectId, caller) {
          return Err(BadRequest(PROJECT_NOT_FOUND));
        }
      }
      var task := ApplyTaskUpdate(tasks[id], patch);
      ValidTaskUpdateKeepsPriority(tasks[id], patch, now);
      tasks := tasks[id := task];
      return Ok(task);
    }

    /**
     * `assign_label_to_task`: link one of the caller's labels to one of the
     * caller's tasks; a link that already exists is answered "not modified".
     */
    method AssignLabelToTask(caller: UserId, taskId: TaskId, labelId: LabelId) returns (r: Result<Task, Error>)
      requires Valid()
      modifies this
      ensures Valid()
      ensures users == old(users) && projects == old(projects) && tasks == old(tasks) && labels == old(labels)
      ensures nextId == old(nextId)
      ensures !OwnsTask(old(tasks), taskId, caller) ==> r == Err(NotFound(TASK_NOT_FOUND)) && links == old(links)
      ensures OwnsTask(old(tasks), taskId, caller) && !OwnsLabel(old(labels), labelId, caller) ==>
        r == Err(NotFound(LABEL_NOT_FOUND)) && links == old(links)
      ensures OwnsTask(old(tasks), taskId, caller) && OwnsLabel(old(labels), labelId, caller)
              && TaskLabel(taskId, labelId) in old(links) ==>
        r == Err(NotModified(LABEL_ALREADY_ASSIGNED)) && links == old(links)
      ensures OwnsTask(old(tasks), taskId, caller) && OwnsLabel(old(labels), labelId, caller)
              && TaskLabel(taskId, labelId) !in old(links) ==>
        && r == Ok(tasks[taskId])
        && links == old(links) + {TaskLabel(taskId, labelId)}
        && |links| == |old(links)| + 1
        && LabelsOf(labels, links, taskId) == LabelsOf(labels, old(links), taskId) + {labels[labelId]}
    {
      if !OwnsTask(tasks, taskId, caller) {
        return Err(NotFound(TASK_NOT_FOUND));
      }
      if !OwnsLabel(labels, labelId, caller) {
        return Err(NotFound(LABEL_NOT_FOUND));
      }
      if TaskLabel(taskId, labelId) in links {
        return Err(NotModified(LABEL_ALREADY_ASSIGNED));
      }
      ghost var before := links;
      links := links + {TaskLabel(taskId, labelId)};
      forall l | l in labels.Values
        ensures TaskLabel(taskId, l.id) in links <==> TaskLabel(taskId, l.id) in before || l == labels[labelId]
      {
        LabelAtItsId(labels, nextId, l);
      }
      assert LabelsOf(labels, links, taskId) == LabelsOf(labels, before, taskId) + {labels[labelId]};
      return Ok(tasks[taskId]);
    }

    /**
     * `remove_label_from_task`: unlink a label from one of the caller's tasks.
     * A label that is not linked is "not found", not "not modified".
     */
    method RemoveLabelFromTask(caller: UserId, taskId: TaskId, labelId: LabelId) returns (r: Result<Task, Error>)
      requires Valid()
      modifies this
      ensures Valid()
      ensures users == old(users) && projects == old(projects) && tasks == old(tasks) && labels == old(labels)
      ensures nextId == old(nextId)
      ensures !OwnsTask(old(tasks), taskId, caller) ==> r == Err(NotFound(TASK_NOT_FOUND)) && links == old(links)
      ensures OwnsTask(old(tasks), taskId, caller) && TaskLabel(taskId, labelId) !in old(links) ==>
        r == Err(NotFound(LABEL_NOT_ASSIGNED)) && links == old(links)
      ensures OwnsTask(old(tasks), taskId, caller) && TaskLabel(taskId, labelId) in old(links) ==>
        && r == Ok(tasks[taskId])
        && links == old(links) - {TaskLabel(taskId, labelId)}
        && |links| == |old(links)| - 1
        && LabelsOf(labels, links, taskId) == LabelsOf(labels, old(links), taskId) - {labels[labelId]}
    {
      if !OwnsTask(tasks, taskId, caller) {
        return Err(NotFound(TASK_NOT_FOUND));
      }
      if TaskLabel(taskId, labelId) !in links {
        return Err(NotFound(LABEL_NOT_ASSIGNED));
      }
      ghost var before := links;
      links := links - {TaskLabel(taskId, labelId)};
      forall l | l in labels.Values
        ensures TaskLabel(taskId, l.id) in links <==> TaskLabel(taskId, l.id) in before && l != labels[labelId]
      {
        LabelAtItsId(labels, nextId, l);
      }
      assert LabelsOf(labels, links, taskId) == LabelsOf(labels, before, taskId) - {labels[labelId]};
      return Ok(tasks[taskId]);
    }

    /** `delete_task`: remove one of the caller's tasks and, by ON DELETE CASCADE, its links. */
    method DeleteTask(caller: UserId, id: TaskId) returns (r: Outcome<Error>)
      requires Valid()
      modifies this
      ensures Valid()
      ensures users == old(users) && projects == old(projects) && labels == old(labels) && nextId == old(nextId)
      ensures !OwnsTask(old(tasks), id, caller) ==> r == Fail(NotFound(TASK_NOT_FOUND)) && unchanged(this)
      ensures OwnsTask(old(tasks), id, caller) ==>
        && r == Pass
        && tasks == old(tasks) - {id}
        && links == (set l | l in old(links) && l.taskId != id)
    {
      if !OwnsTask(tasks, id, caller) {
        return Fail(NotFound(TASK_NOT_FOUND));
      }
      tasks := tasks - {id};
      links := set l | l in links && l.taskId != id;
      return Pass;
    }

    // -------------------------------------------------------------- projects router

    /** `create_project`: a new project of the caller, created at `now`. */
    method CreateProject(caller: UserId, request: ProjectCreate, now: Timestamp) returns (project: Project)
      requires Valid() && caller in users
      modifies this
      ensures Valid()
      ensures users == old(users) && tasks == old(tasks) && labels == old(labels) && links == old(links)
      ensures project.id !in old(projects)
      ensures project == Project(project.id, request.title, now, caller)
      ensures projects == old(projects)[project.id := project]
    {
      project := Project(nextId, request.title, now, caller);
      projects := projects[nextId := project];
      nextId := nextId + 1;
    }

    /** `update_project`: overwrite the title if the patch sends one. */
    method UpdateProject(caller: UserId, id: ProjectId, patch: ProjectUpdate) returns (r: Result<Project, Error>)
      requires Valid()
      modifies this
      ensures Valid()
      ensures users == old(users) && tasks == old(tasks) && labels == old(labels) && links == old(links)
      ensures nextId == old(nextId)
      ensures !OwnsProject(old(projects), id, caller) ==> r == Err(NotFound(PROJECT_NOT_FOUND)) && projects == old(projects)
      ensures OwnsProject(old(projects), id, caller) ==>
        && r == Ok(ApplyProjectUpdate(old(projects)[id], patch))
        && projects == old(projects)[id := r.value]
    {
      if !OwnsProject(projects, id, caller) {
        return Err(NotFound(PROJECT_NOT_FOUND));
      }
      var project := ApplyProjectUpdate(projects[id], patch);
      projects := projects[id := project];
      return Ok(project);
    }

    /**
     * `delete_project`: remove the project and, by the delete-orphan and
     * ON DELETE CASCADE rules, its tasks and their links.
     */
    method DeleteProject(caller: UserId, id: ProjectId) returns (r: Outcome<Error>)
      requires Valid()
      modifies this
      ensures Valid()
      ensures users == old(users) && labels == old(labels) && nextId == old(nextId)
      ensures !OwnsProject(old(projects), id, caller) ==> r == Fail(NotFound(PROJECT_NOT_FOUND)) && unchanged(this)
      ensures OwnsProject(old(projects), id, caller) ==>
        && r == Pass
        && projects == old(projects) - {id}
        && tasks == (map k | k in old(tasks) && old(tasks)[k].projectId != Some(id) :: old(tasks)[k])
        && links == (set l | l in old(links) && l.taskId in tasks)
      // Only the caller's rows go: the project's tasks share its owner.
      ensures forall k :: k in old(tasks) && old(tasks)[k].ownerId != caller ==> k in tasks && tasks[k] == old(tasks)[k]
    {
      if !OwnsProject(projects, id, caller) {
        return Fail(NotFound(PROJECT_NOT_FOUND));
      }
      var tasks' := map k | k in tasks && tasks[k].projectId != Some(id) :: tasks[k];
      var links' := set l | l in links && l.taskId in tasks';
      assert TaskProjectsOwned(tasks', projects - {id}) by {
        forall k | k in tasks' && tasks'[k].projectId.Some?
          ensures tasks'[k].projectId.value in projects - {id}
        {
          assert tasks'[k] == tasks[k];
        }
      }
      assert LinksOwned(links', tasks', labels);
      projects, tasks, links := projects - {id}, tasks', links';
      return Pass;
    }

    // -------------------------------------------------------------- labels router

    /**
     * `create_label`: refuse a name that any label already has, whoever owns
     * it (the lookup has no owner condition); otherwise a new label of the caller.
     */
    method CreateLabel(caller: UserId, request: LabelCreate) returns (r: Result<Label, Error>)
      requires Valid() && caller in users
      modifies this
      ensures Valid()
      ensures users == old(users) && projects == old(projects) && tasks == old(tasks) && links == old(links)
      ensures LabelNameTaken(old(labels), request.name) ==> r == Err(BadRequest(LABEL_EXISTS)) && unchanged(this)
      ensures !LabelNameTaken(old(labels), request.name) ==>
        && r.Ok? && r.value.id !in old(labels)
        && r.value == Label(r.value.id, request.name, caller)
        && labels == old(labels)[r.value.id := r.value]
    {
      if LabelNameTaken(labels, request.name) {
        return Err(BadRequest(LABEL_EXISTS));
      }
      var created := Label(nextId, request.name, caller);
      labels := labels[nextId := created];
      nextId := nextId + 1;
      return Ok(created);
    }

    /**
     * `update_label`: overwrite the name if the patch sends one. A name that
     * another label of the caller already has breaks uq_label_name_owner at
     * commit, and the update is rolled back.
     */
    method UpdateLabel(caller: UserId, id: LabelId, patch: LabelUpdate) returns (r: Result<Label, Error>)
      requires Valid()
      modifies this
      ensures Valid()
      ensures users == old(users) && projects == old(projects) && tasks == old(tasks) && links == old(links)
      ensures nextId == old(nextId)
      ensures !OwnsLabel(old(labels), id, caller) ==> r == Err(NotFound(LABEL_NOT_FOUND)) && labels == old(labels)
      ensures OwnsLabel(old(labels), id, caller) && patch.name.Some? && OtherLabelNamed(old(labels), id, caller, patch.name.value) ==>
        r == Err(IntegrityError(UQ_LABEL_NAME_OWNER)) && labels == old(labels)
      ensures OwnsLabel(old(labels), id, caller) && !(patch.name.Some? && OtherLabelNamed(old(labels), id, caller, patch.name.value)) ==>
        && r == Ok(ApplyLabelUpdate(old(labels)[id], patch))
        && labels == old(labels)[id := r.value]
    {
      if !OwnsLabel(labels, id, caller) {
        return Err(NotFound(LABEL_NOT_FOUND));
      }
      if patch.name.Some? && OtherLabelNamed(labels, id, caller, patch.name.value) {
        return Err(IntegrityError(UQ_LABEL_NAME_OWNER));
      }
      var updated := ApplyLabelUpdate(labels[id], patch);
      labels := labels[id := updated];
      return Ok(updated);
    }

    /** `delete_label`: remove the label and every link to it; the tasks stay. */
    method DeleteLabel(caller: UserId, id: LabelId) returns (r: Outcome<Error>)
      requires Valid()
      modifies this
      ensures Valid()
      ensures users == old(users) && projects == old(projects) && tasks == old(tasks) && nextId == old(nextId)
      ensures !OwnsLabel(old(labels), id, caller) ==> r == Fail(NotFound(LABEL_NOT_FOUND)) && unchanged(this)
      ensures OwnsLabel(old(labels), id, caller) ==>
        && r == Pass
        && labels == old(labels) - {id}
        && links == (set l | l in old(links) && l.labelId != id)
    {
      if !OwnsLabel(labels, id, caller) {
        return Fail(NotFound(LABEL_NOT_FOUND));
      }
      labels := labels - {id};
      links := set l | l in links && l.labelId != id;
      return Pass;
    }

    // -------------------------------------------------------------- users router

    /**
     * `create_user`: refuse a username, then an e-mail, that an existing user
     * already has ignoring case; otherwise store the username as typed, the
     * e-mail lower-cased and only the hash of the password.
     */
    method CreateUser(request: UserCreate, hashPassword: string -> string) returns (r: Result<User, Error>)
      requires Valid()
      modifies this
      ensures Valid()
      ensures projects == old(projects) && tasks == old(tasks) && labels == old(labels) && links == old(links)
      ensures UsernameTaken(old(users), request.username) ==>
        r == Err(BadRequest(USERNAME_REGISTERED)) && unchanged(this)
      ensures !UsernameTaken(old(users), request.username) && EmailTaken(old(users), request.email) ==>
        r == Err(BadRequest(EMAIL_EXISTS)) && unchanged(this)
      ensures !UsernameTaken(old(users), request.username) && !EmailTaken(old(users), request.email) ==>
        && r.Ok? && r.value.id !in old(users)
        && r.value == User(r.value.id, request.username, Lower(request.email), hashPassword(request.password))
        && users == old(users)[r.value.id := r.value]
    {
      if UsernameTaken(users, request.username) {
        return Err(BadRequest(USERNAME_REGISTERED));
      }
      if EmailTaken(users, request.email) {
        return Err(BadRequest(EMAIL_EXISTS));
      }
      var user := User(nextId, request.username, Lower(request.email), hashPassword(request.password));
      LowerIsLower(request.email);
      forall k | k in users ensures users[k].email != user.email {
        StoredLowerMatches(users[k].email, request.email);
      }
      users := users[nextId := user];
      nextId := nextId + 1;
      return Ok(user);
    }

    /** `read_users_me`: the authenticated user, as stored. */
    method ReadUsersMe(caller: UserId) returns (user: User)
      requires Valid() && caller in users
      ensures user == users[caller]
      ensures user.id == caller && IsLower(user.email)
    {
      user := users[caller];
    }

    /**
     * Deleting a user row (no router does this): the ORM and foreign-key
     * cascades remove the user's projects, tasks and labels, the tasks of
     * those projects, and every link of a removed task or label.
     */
    method DeleteUser(id: UserId)
      requires Valid() && id in users
      modifies this
      ensures Valid()
      ensures users == old(users) - {id}
      ensures projects == map k | k in old(projects) && old(projects)[k].ownerId != id :: old(projects)[k]
      ensures tasks == map k | k in old(tasks) && old(tasks)[k].ownerId != id :: old(tasks)[k]
      ensures labels == map k | k in old(labels) && old(labels)[k].ownerId != id :: old(labels)[k]
      ensures links == set l | l in old(links) && l.taskId in tasks && l.labelId in labels
      ensures nextId == old(nextId)
    {
      var projects' := map k | k in projects && projects[k].ownerId != id :: projects[k];
      var tasks' := map k | k in tasks && tasks[k].ownerId != id :: tasks[k];
      var labels' := map k | k in labels && labels[k].ownerId != id :: labels[k];
      var links' := set l | l in links && l.taskId in tasks' && l.labelId in labels';
      UserCascadeKeepsReferences(users, projects, tasks, labels, links, id, projects', tasks', labels', links');
      RemovalKeepsRowRules(users, projects, tasks, labels, nextId, users - {id}, projects', tasks', labels');
      users, projects, tasks, labels, links := users - {id}, projects', tasks', labels', links';
    }
  }
}
