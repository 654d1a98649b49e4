/** The project-note schema. It declares no `title`: in strict mode a title given to `create`
    or `$set` is dropped. */
module NoteModel {
  import opened Common

  /** A stored note. */
  datatype Note = Note(project: Id, createdBy: Id, content: string)

  /** `ProjectNote.create`: only the declared paths are kept, and `required` refuses empty
      content; a failed check is reported as 500. */
  function CreateNoteDocument(project: Id, title: string, content: string, createdBy: Id): (r: Outcome<Note>)
    ensures r.Ok? <==> content != []
    ensures r.Fail? ==> r.status == InternalError
    ensures r.Ok? ==> r.value.project == project && r.value.createdBy == createdBy && r.value.content == content
  {
    if content == [] then Fail(InternalError) else Ok(Note(project, createdBy, content))
  }

  /** The title never reaches the stored note. */
  lemma TitleNotStored(project: Id, t1: string, t2: string, content: string, createdBy: Id)
    ensures CreateNoteDocument(project, t1, content, createdBy) == CreateNoteDocument(project, t2, content, createdBy)
  {
  }
}
