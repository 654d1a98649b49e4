/** The subtask schema. */
module SubtaskModel {
  import opened Common
  import opened Text

  /** A stored subtask: it belongs to the task `task` and was created by `createdBy`. */
  datatype Subtask = Subtask(title: string, description: string, task: Id, isCompleted: bool, createdBy: Id)

  /** `Subtask.create`: the `trim` setter on the title, `isCompleted` at its default `false`,
      then the `required` checks, which refuse the empty string; a failed check is reported as
      500. */
  function CreateSubtaskDocument(title: string, description: string, task: Id, createdBy: Id): (r: Outcome<Subtask>)
    ensures r.Ok? <==> Trim(title) != [] && description != []
    ensures r.Fail? ==> r.status == InternalError
    ensures r.Ok? ==> r.value.title == Trim(title) && r.value.description == description && !r.value.isCompleted
    ensures r.Ok? ==> r.value.task == task && r.value.createdBy == createdBy
  {
    var s := Subtask(Trim(title), description, task, false, createdBy);
    if s.title == [] || description == [] then Fail(InternalError) else Ok(s)
  }
}
