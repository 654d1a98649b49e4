/** `subtaskDetailsValidator` and `subtaskUpdateDetailsValidator`. */
module SubtaskValidators {
  import opened Common
  import opened Schema

  /** A subtask title: between 5 and 50 characters. */
  predicate SubtaskTitleOk(s: string) { 5 <= |s| <= 50 }
  /** A subtask description: at most 2000 characters; no minimum. */
  predicate SubtaskDescriptionOk(s: string) { |s| <= 2000 }

  datatype SubtaskBody = SubtaskBody(title: Option<string>, description: Option<string>, completed: Option<bool>)
  datatype SubtaskDetails = SubtaskDetails(title: string, description: string)
  datatype SubtaskUpdate = SubtaskUpdate(title: Option<string>, description: Option<string>, completed: Option<bool>)

  function ValidateSubtaskDetails(b: SubtaskBody): (r: Validation<SubtaskDetails>)
    ensures r.Accepted? <==> b.title.Some? && 5 <= |b.title.value| <= 50 && b.description.Some? && |b.description.value| <= 2000
    ensures r.Accepted? ==> r.value == SubtaskDetails(b.title.value, b.description.value)
    ensures r.Rejected? ==> r.fields != {} && r.fields <= {"title", "description"}
  {
    var fields := IssueAt("title", RequiredOk(b.title, SubtaskTitleOk))
      + IssueAt("description", RequiredOk(b.description, SubtaskDescriptionOk));
    if fields == {} then Accepted(SubtaskDetails(b.title.value, b.description.value))
    else Rejected(fields)
  }

  function ValidateSubtaskUpdate(b: SubtaskBody): (r: Validation<SubtaskUpdate>)
    ensures r.Accepted? <==> (b.title.Some? ==> 5 <= |b.title.value| <= 50) && (b.description.Some? ==> |b.description.value| <= 2000)
    ensures r.Accepted? ==> r.value == SubtaskUpdate(b.title, b.description, b.completed)
    ensures r.Rejected? ==> r.fields != {} && r.fields <= {"title", "description"}
  {
    var fields := IssueAt("title", OptionalOk(b.title, SubtaskTitleOk))
      + IssueAt("description", OptionalOk(b.description, SubtaskDescriptionOk));
    if fields == {} then Accepted(SubtaskUpdate(b.title, b.description, b.completed))
    else Rejected(fields)
  }

  /** The empty description passes the create schema. */
  lemma EmptySubtaskDescriptionAccepted(title: string)
    requires 5 <= |title| <= 50
    ensures ValidateSubtaskDetails(SubtaskBody(Some(title), Some(""), None)).Accepted?
  {
  }
}
