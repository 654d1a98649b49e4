/** `taskDetailsValidator` and `taskUpdateDetailsValidator`. */
module TaskValidators {
  import opened Common
  import opened Schema
  import opened UserType

  /** A task title: between 5 and 100 characters. */
  predicate TaskTitleOk(s: string) { 5 <= |s| <= 100 }
  /** A task description: between 10 and 2000 characters. */
  predicate TaskDescriptionOk(s: string) { 10 <= |s| <= 2000 }

  /** The body of a create or update request for a task. */
  datatype TaskBody = TaskBody(title: Option<string>, description: Option<string>, assignedTo: Option<string>, status: Option<string>)

  /** What the create schema yields; it has no `status` key, so a status in the body is dropped. */
  datatype TaskDetails = TaskDetails(title: string, description: string, assignedTo: Option<string>)

  /** What the update schema yields: every field optional, the status already an enum value. */
  datatype TaskUpdate = TaskUpdate(title: Option<string>, description: Option<string>, assignedTo: Option<string>, status: Option<TaskStatus>)

  function ValidateTaskDetails(b: TaskBody): (r: Validation<TaskDetails>)
    ensures r.Accepted? <==>
      b.title.Some? && 5 <= |b.title.value| <= 100 && b.description.Some? && 10 <= |b.description.value| <= 2000
    ensures r.Accepted? ==> r.value == TaskDetails(b.title.value, b.description.value, b.assignedTo)
    ensures r.Rejected? ==> r.fields != {} && r.fields <= {"title", "description"}
  {
    var fields := IssueAt("title", RequiredOk(b.title, TaskTitleOk))
      + IssueAt("description", RequiredOk(b.description, TaskDescriptionOk));
    if fields == {} then Accepted(TaskDetails(b.title.value, b.description.value, b.assignedTo))
    else Rejected(fields)
  }

  function ValidateTaskUpdate(b: TaskBody): (r: Validation<TaskUpdate>)
    ensures r.Accepted? <==>
      && (b.title.Some? ==> 5 <= |b.title.value| <= 100)
      && (b.description.Some? ==> 10 <= |b.description.value| <= 2000)
      && (b.status.Some? ==> b.status.value in {"todo", "in_progress", "done"})
    ensures r.Accepted? ==> r.value.title == b.title && r.value.description == b.description && r.value.assignedTo == b.assignedTo
    ensures r.Accepted? ==> (r.value.status.Some? <==> b.status.Some?)
    ensures r.Accepted? && b.status.Some? ==> StatusValue(r.value.status.value) == b.status.value
    ensures r.Rejected? ==> r.fields != {} && r.fields <= {"title", "description", "status"}
  {
    var status := if b.status.Some? then ParseTaskStatus(b.status.value) else None;
    var fields := IssueAt("title", OptionalOk(b.title, TaskTitleOk))
      + IssueAt("description", OptionalOk(b.description, TaskDescriptionOk))
      + IssueAt("status", b.status.None? || status.Some?);
    if fields == {} then Accepted(TaskUpdate(b.title, b.description, b.assignedTo, status))
    else Rejected(fields)
  }

  /** Every field of the update schema is optional: an empty body is accepted and changes nothing. */
  lemma EmptyTaskUpdateAccepted()
    ensures ValidateTaskUpdate(TaskBody(None, None, None, None)) == Accepted(TaskUpdate(None, None, None, None))
  {
  }

  /** The update schema obeys the create schema's bounds: a body the create schema accepts is
      accepted for update too, with the same fields, as long as any status it carries is valid. */
  lemma CreateBoundsHoldOnUpdate(b: TaskBody)
    requires ValidateTaskDetails(b).Accepted?
    requires b.status.None? || ParseTaskStatus(b.status.value).Some?
    ensures ValidateTaskUpdate(b).Accepted?
    ensures ValidateTaskUpdate(b).value.title == Some(ValidateTaskDetails(b).value.title)
    ensures ValidateTaskUpdate(b).value.description == Some(ValidateTaskDetails(b).value.description)
  {
  }
}
