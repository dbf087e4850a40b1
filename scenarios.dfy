/**
 * Request sequences from the system's documented behaviour, checked against
 * the handler contracts alone (as a client of the store would see them).
 */
module Scenarios {
  import opened Wrappers
  import opened Errors
  import opened Models
  import opened Schema
  import opened Store

  /** Assigning a label twice: the second request changes nothing and answers "not modified". */
  method AssignLabelTwice(store: Store, caller: UserId, taskId: TaskId, labelId: LabelId)
    returns (first: Result<Task, Error>, second: Result<Task, Error>)
    requires store.Valid()
    requires OwnsTask(store.tasks, taskId, caller) && OwnsLabel(store.labels, labelId, caller)
    modifies store
    ensures store.Valid()
    ensures first.Ok? || first == Err(NotModified(LABEL_ALREADY_ASSIGNED))
    ensures second == Err(NotModified(LABEL_ALREADY_ASSIGNED))
    ensures store.links == old(store.links) + {TaskLabel(taskId, labelId)}
  {
    first := store.AssignLabelToTask(caller, taskId, labelId);
    second := store.AssignLabelToTask(caller, taskId, labelId);
  }

  /** Removing a label twice: the second request answers "not found" (404), not "not modified". */
  method RemoveLabelTwice(store: Store, caller: UserId, taskId: TaskId, labelId: LabelId)
    returns (first: Result<Task, Error>, second: Result<Task, Error>)
    requires store.Valid()
    requires OwnsTask(store.tasks, taskId, caller) && TaskLabel(taskId, labelId) in store.links
    modifies store
    ensures store.Valid()
    ensures first.Ok?
    ensures second == Err(NotFound(LABEL_NOT_ASSIGNED))
    ensures store.links == old(store.links) - {TaskLabel(taskId, labelId)}
  {
    first := store.RemoveLabelFromTask(caller, taskId, labelId);
    second := store.RemoveLabelFromTask(caller, taskId, labelId);
  }
}
