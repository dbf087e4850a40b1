/**
 * The partial updates of the PATCH handlers: `model_dump(exclude_unset=True)`
 * followed by one `setattr` per sent field. A field that was sent overwrites
 * the column; a field that was not sent leaves it alone.
 */
module Patches {
  import opened Wrappers
  import opened Models
  import opened Schema

  function ApplyTaskUpdate(t: Task, patch: TaskUpdate): (r: Task)
    ensures r.id == t.id && r.createdAt == t.createdAt && r.ownerId == t.ownerId
    ensures r.title == (if patch.title.Some? then patch.title.value else t.title)
    ensures r.description == (if patch.description.Some? then patch.description.value else t.description)
    ensures r.priority == (if patch.priority.Some? then patch.priority.value else t.priority)
    ensures r.completed == (if patch.completed.Some? then patch.completed.value else t.completed)
    ensures r.dueDate == (if patch.dueDate.Some? then patch.dueDate.value else t.dueDate)
    ensures r.projectId == (if patch.projectId.Some? then patch.projectId.value else t.projectId)
  {
    t.(title := patch.title.GetOr(t.title),
       description := patch.description.GetOr(t.description),
       priority := patch.priority.GetOr(t.priority),
       completed := patch.completed.GetOr(t.completed),
       dueDate := patch.dueDate.GetOr(t.dueDate),
       projectId := patch.projectId.GetOr(t.projectId))
  }

  function ApplyProjectUpdate(p: Project, patch: ProjectUpdate): (r: Project)
    ensures r.id == p.id && r.createdAt == p.createdAt && r.ownerId == p.ownerId
    ensures r.title == (if patch.title.Some? then patch.title.value else p.title)
  {
    p.(title := patch.title.GetOr(p.title))
  }

  function ApplyLabelUpdate(l: Label, patch: LabelUpdate): (r: Label)
    ensures r.id == l.id && r.ownerId == l.ownerId
    ensures r.name == (if patch.name.Some? then patch.name.value else l.name)
  {
    l.(name := patch.name.GetOr(l.name))
  }

  /** The patch that sends nothing. */
  const EMPTY_TASK_UPDATE := TaskUpdate(None, None, None, None, None, None)

  /** The patch that sends every field `first` or `second` sends, taking `second`'s value where both do. */
  function ThenTaskUpdate(first: TaskUpdate, second: TaskUpdate): TaskUpdate {
    TaskUpdate(
      if second.title.Some? then second.title else first.title,
      if second.description.Some? then second.description else first.description,
      if second.priority.Some? then second.priority else first.priority,
      if second.completed.Some? then second.completed else first.completed,
      if second.dueDate.Some? then second.dueDate else first.dueDate,
      if second.projectId.Some? then second.projectId else first.projectId)
  }

  lemma EmptyTaskUpdateChangesNothing(t: Task)
    ensures ApplyTaskUpdate(t, EMPTY_TASK_UPDATE) == t
  {
  }

  /** Sending the same patch twice has the effect of sending it once. */
  lemma TaskUpdateIdempotent(t: Task, patch: TaskUpdate)
    ensures ApplyTaskUpdate(ApplyTaskUpdate(t, patch), patch) == ApplyTaskUpdate(t, patch)
  {
  }

  /** Two patches in a row act as their merge, the later one winning on shared fields. */
  lemma TaskUpdatesCompose(t: Task, first: TaskUpdate, second: TaskUpdate)
    ensures ApplyTaskUpdate(ApplyTaskUpdate(t, first), second) == ApplyTaskUpdate(t, ThenTaskUpdate(first, second))
  {
  }

  /** A patch that passes validation keeps a task's priority in range. */
  lemma ValidTaskUpdateKeepsPriority(t: Task, patch: TaskUpdate, now: Timestamp)
    requires PriorityInRange(t.priority)
    requires TaskUpdateErrors(patch, now) == {}
    ensures PriorityInRange(ApplyTaskUpdate(t, patch).priority)
  {
    assert "priority" !in TaskUpdateErrors(patch, now);
  }
}
