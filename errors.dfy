/**
 * The error kinds the routers raise as `HTTPException`s, plus the two that
 * come from outside a handler body: request validation (HTTP 422, raised by
 * the framework from the payload and query constraints) and a commit refused
 * by a database constraint.
 */
module Errors {

  datatype Error =
    | NotFound(detail: string)          // 404
    | BadRequest(detail: string)        // 400
    | NotModified(detail: string)       // 304
    | Unprocessable(fields: set<string>) // 422: the names of the fields that failed validation
    | IntegrityError(constraint: string) // a commit refused by a database constraint, rolled back

  const TASK_NOT_FOUND := "Task not found"
  const PROJECT_NOT_FOUND := "Project not found"
  const LABEL_NOT_FOUND := "Label not found"
  const TASK_COMPLETED := "Task is completed"
  const LABEL_ALREADY_ASSIGNED := "Label already assigned to task"
  const LABEL_NOT_ASSIGNED := "Label not assigned to task"
  const LABEL_EXISTS := "Label already exists"
  const USERNAME_REGISTERED := "Username already registered"
  const EMAIL_EXISTS := "Email already exists"

  /** Name of the unique constraint on (name, owner_id) of the labels table. */
  const UQ_LABEL_NAME_OWNER := "uq_label_name_owner"
}
