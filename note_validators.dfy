/** `noteDetailsValidator`: the one schema for creating and updating a note. */
module NoteValidators {
  import opened Common
  import opened Schema

  /** A note title: between 5 and 50 characters. */
  predicate NoteTitleOk(s: string) { 5 <= |s| <= 50 }
  /** Note content: at most 1000 characters; no minimum. */
  predicate NoteContentOk(s: string) { |s| <= 1000 }

  datatype NoteBody = NoteBody(title: Option<string>, content: Option<string>)
  datatype NoteDetails = NoteDetails(title: string, content: string)

  /** Both fields are required; there is no optional variant of this schema. */
  function ValidateNoteDetails(b: NoteBody): (r: Validation<NoteDetails>)
    ensures r.Accepted? <==> b.title.Some? && 5 <= |b.title.value| <= 50 && b.content.Some? && |b.content.value| <= 1000
    ensures r.Accepted? ==> r.value == NoteDetails(b.title.value, b.content.value)
    ensures b.title.None? ==> r.Rejected? && "title" in r.fields
    ensures b.content.None? ==> r.Rejected? && "content" in r.fields
    ensures r.Rejected? ==> r.fields != {} && r.fields <= {"title", "content"}
  {
    var fields := IssueAt("title", RequiredOk(b.title, NoteTitleOk))
      + IssueAt("content", RequiredOk(b.content, NoteContentOk));
    if fields == {} then Accepted(NoteDetails(b.title.value, b.content.value))
    else Rejected(fields)
  }

  /** Any accepted payload carries both fields, each within its bounds. */
  lemma AcceptedNoteWithinBounds(b: NoteBody)
    requires ValidateNoteDetails(b).Accepted?
    ensures var d := ValidateNoteDetails(b).value; NoteTitleOk(d.title) && NoteContentOk(d.content)
  {
  }
}
