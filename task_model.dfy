/** The task schema: attachments, the stored task, its defaults and the checks `Task.create`
    runs before a task is stored. */
module TaskModel {
  import opened Common
  import opened Text
  import opened UserType

  /** One uploaded file as the task records it. */
  datatype Attachment = Attachment(url: string, mimetype: string, size: nat)

  /** A stored task. `assignedTo` keeps the string the request carried, which Mongoose has
      cast to an ObjectId; `assignedBy` is the id of the user who created the task. */
  datatype Task = Task(
    title: string,
    description: string,
    project: Id,
    assignedTo: Option<string>,
    assignedBy: Id,
    status: TaskStatus,
    attachments: seq<Attachment>)

  /** The attachment mimetype validator: only the two markdown types. */
  predicate IsMarkdownMime(m: string)
  {
    m == "text/markdown" || m == "text/x-markdown"
  }

  /** An attachment the schema accepts: `url` and `mimetype` present and not empty, the
      mimetype markdown. `size` is a number, always present. */
  predicate AttachmentValid(a: Attachment)
  {
    a.url != [] && a.mimetype != [] && IsMarkdownMime(a.mimetype)
  }

  /** Every attachment of the task carries a markdown mimetype. */
  predicate AttachmentsMarkdown(t: Task)
  {
    forall i :: 0 <= i < |t.attachments| ==> IsMarkdownMime(t.attachments[i].mimetype)
  }

  /** `assignedTo` is an ObjectId path: a given value must cast to an ObjectId. Which strings
      the cast accepts depends on the bson version, so the cast is a parameter. */
  predicate AssigneeCasts(assignedTo: Option<string>, castsToObjectId: string -> bool)
  {
    assignedTo.None? || castsToObjectId(assignedTo.value)
  }

  /** `Task.create`: the `trim` setter on the title, `status` at its default, then the
      `required` checks (the empty string fails them), the cast of `assignedTo` and the
      attachment validators. A failed check or cast is a validation error, reported as 500. */
  function CreateTaskDocument(title: string, description: string, project: Id, assignedTo: Option<string>,
                              assignedBy: Id, attachments: seq<Attachment>, castsToObjectId: string -> bool): (r: Outcome<Task>)
    ensures r.Ok? <==>
      && Trim(title) != [] && description != [] && AssigneeCasts(assignedTo, castsToObjectId)
      && forall i :: 0 <= i < |attachments| ==> AttachmentValid(attachments[i])
    ensures r.Fail? ==> r.status == InternalError
    ensures r.Ok? ==> r.value.status == DefaultTaskStatus && r.value.attachments == attachments
    ensures r.Ok? ==> r.value.title == Trim(title) && r.value.description == description
    ensures r.Ok? ==> r.value.project == project && r.value.assignedTo == assignedTo && r.value.assignedBy == assignedBy
    ensures r.Ok? ==> AttachmentsMarkdown(r.value)
  {
    var t := Task(Trim(title), description, project, assignedTo, assignedBy, DefaultTaskStatus, attachments);
    if t.title == [] || description == [] || !AssigneeCasts(assignedTo, castsToObjectId) || exists i :: 0 <= i < |attachments| && !AttachmentValid(attachments[i]) then
      Fail(InternalError)
    else
      Ok(t)
  }

  /** A title the create validator accepts can still be refused by the schema: five spaces pass
      the length check and trim to the empty string. */
  lemma BlankTitleRefusedBySchema(description: string, project: Id, assignedBy: Id, castsToObjectId: string -> bool)
    ensures CreateTaskDocument("     ", description, project, None, assignedBy, [], castsToObjectId) == Fail(InternalError)
  {
    assert IsJsWhitespace("     "[0]);
  }
}
