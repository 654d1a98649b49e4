/** `projectDetailsValidator`. */
module ProjectValidators {
  import opened Common
  import opened Schema

  /** A project name: between 5 and 50 characters. */
  predicate ProjectNameOk(s: string) { 5 <= |s| <= 50 }
  /** A project description: at most 2000 characters; no minimum. */
  predicate ProjectDescriptionOk(s: string) { |s| <= 2000 }

  datatype ProjectBody = ProjectBody(name: Option<string>, description: Option<string>)
  datatype ProjectDetails = ProjectDetails(name: string, description: string)

  /** Both fields are required. */
  function ValidateProjectDetails(b: ProjectBody): (r: Validation<ProjectDetails>)
    ensures r.Accepted? <==> b.name.Some? && 5 <= |b.name.value| <= 50 && b.description.Some? && |b.description.value| <= 2000
    ensures r.Accepted? ==> r.value == ProjectDetails(b.name.value, b.description.value)
    ensures r.Rejected? ==> r.fields != {} && r.fields <= {"name", "description"}
  {
    var fields := IssueAt("name", RequiredOk(b.name, ProjectNameOk))
      + IssueAt("description", RequiredOk(b.description, ProjectDescriptionOk));
    if fields == {} then Accepted(ProjectDetails(b.name.value, b.description.value))
    else Rejected(fields)
  }

  /** No minimum is set on the description, so the empty description is accepted. */
  lemma EmptyProjectDescriptionAccepted(name: string)
    requires 5 <= |name| <= 50
    ensures ValidateProjectDetails(ProjectBody(Some(name), Some(""))) == Accepted(ProjectDetails(name, ""))
  {
  }
}
