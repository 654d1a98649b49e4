/** The project-note handlers over an in-memory note collection. Projects are only looked up,
    never changed here. */
module NoteControllers {
  import opened Common
  import opened Schema
  import opened NoteValidators
  import opened NoteModel

  /** `ProjectNote.findOne({_id, project})`: the note with that id, provided it belongs to that
      project. */
  function NoteAt(notes: map<Id, Note>, noteId: Id, projectId: Id): (r: Option<Note>)
    ensures r.Some? <==> noteId in notes && notes[noteId].project == projectId
    ensures r.Some? ==> r.value == notes[noteId]
  {
    if noteId in notes && notes[noteId].project == projectId then Some(notes[noteId]) else None
  }

  /** A note is never reached through another project's id. */
  lemma NoteAtOtherProject(notes: map<Id, Note>, noteId: Id, p: Id, q: Id)
    requires NoteAt(notes, noteId, p).Some? && p != q
    ensures NoteAt(notes, noteId, q).None?
  {
  }

  /** `ProjectNote.find({project})`: the notes of one project. */
  function ProjectNotes(notes: map<Id, Note>, projectId: Id): (r: map<Id, Note>)
    ensures forall id :: id in r <==> id in notes && notes[id].project == projectId
    ensures forall id :: id in r ==> r[id] == notes[id]
  {
    map id | id in notes && notes[id].project == projectId :: notes[id]
  }

  /** What `createProjectNote` stores, or the status it fails with: the project id is checked,
      then the body is validated, and only then is the project looked up. The note records the
      project and the caller; its title is dropped. */
  function NewNote(projects: set<Id>, projectId: PathId, body: NoteBody, caller: Id): (o: Outcome<Note>)
    ensures projectId.Malformed? || ValidateNoteDetails(body).Rejected? ==> o == Fail(BadRequest)
    ensures projectId.ObjectId? && ValidateNoteDetails(body).Accepted? && projectId.id !in projects ==> o == Fail(NotFound)
    ensures o.Ok? <==>
      projectId.ObjectId? && ValidateNoteDetails(body).Accepted? && projectId.id in projects && body.content.value != []
    ensures o.Ok? ==> o.value == Note(projectId.id, caller, body.content.value)
    ensures o.Fail? ==> o.status in {BadRequest, NotFound, InternalError}
  {
    if projectId.Malformed? then Fail(BadRequest)
    else match ValidateNoteDetails(body)
      case Rejected(_) => Fail(BadRequest)
      case Accepted(d) =>
        if projectId.id !in projects then Fail(NotFound)
        else CreateNoteDocument(projectId.id, d.title, d.content, caller)
  }

  /** An invalid body is reported as 400 even for a project that does not exist. */
  lemma ValidationBeforeProjectLookup(projects: set<Id>, projectId: Id, body: NoteBody, caller: Id)
    requires projectId !in projects
    ensures ValidateNoteDetails(body).Rejected? ==> NewNote(projects, ObjectId(projectId), body, caller) == Fail(BadRequest)
    ensures ValidateNoteDetails(body).Accepted? ==> NewNote(projects, ObjectId(projectId), body, caller) == Fail(NotFound)
  {
  }

  /** The project notes and the set of existing projects. */
  class NoteStore {
    var notes: map<Id, Note>
    const projects: set<Id>
    /** The id the next created note receives. */
    var nextId: Id

    /** Ids are below the next fresh one, and every note belongs to an existing project. */
    ghost predicate Valid()
      reads this
    {
      && (forall id :: id in notes ==> id < nextId)
      && (forall id :: id in notes ==> notes[id].project in projects)
    }

    constructor (projects: set<Id>)
      ensures Valid() && notes == map[] && this.projects == projects
    {
      notes := map[];
      this.projects := projects;
      nextId := 0;
    }

    /** `listProjectNotes`: 404 for a missing project, and 404 again when it has no notes. */
    method ListProjectNotes(projectId: PathId) returns (r: Outcome<map<Id, Note>>)
      requires Valid()
      ensures projectId.Malformed? ==> r == Fail(BadRequest)
      ensures projectId.ObjectId? && projectId.id !in projects ==> r == Fail(NotFound)
      ensures projectId.ObjectId? && projectId.id in projects ==>
        (r.Fail? <==> forall id :: id in notes ==> notes[id].project != projectId.id)
      ensures r.Fail? ==> r.status == BadRequest || r.status == NotFound
      ensures r.Ok? ==> r.value != map[] && forall id :: id in r.value ==> id in notes && r.value[id] == notes[id] && notes[id].project == projectId.id
      ensures r.Ok? ==> forall id :: id in notes && notes[id].project == projectId.id ==> id in r.value
    {
      if projectId.Malformed? {
        return Fail(BadRequest);
      }
      if projectId.id !in projects {
        return Fail(NotFound);
      }
      var found := ProjectNotes(notes, projectId.id);
      if found == map[] {
        assert forall id :: id in notes ==> notes[id].project != projectId.id by {
          forall id | id in notes ensures notes[id].project != projectId.id {
            assert id !in found;
          }
        }
        return Fail(NotFound);
      }
      return Ok(found);
    }

    /** `createProjectNote`, proved against `NewNote`. */
    method CreateProjectNote(projectId: PathId, body: NoteBody, caller: Id) returns (r: Outcome<Id>)
      requires Valid()
      modifies this
      ensures Valid()
      ensures var o := NewNote(projects, projectId, body, caller);
        && (r.Fail? <==> o.Fail?)
        && (r.Fail? ==> r.status == o.status && notes == old(notes))
        && (r.Ok? ==> r.value !in old(notes) && notes == old(notes)[r.value := o.value])
    {
      if projectId.Malformed? {
        return Fail(BadRequest);
      }
      var details := ValidateNoteDetails(body);
      if details.Rejected? {
        return Fail(BadRequest);
      }
      if projectId.id !in projects {
        return Fail(NotFound);
      }
      var created := CreateNoteDocument(projectId.id, details.value.title, details.value.content, caller);
      assert created == NewNote(projects, projectId, body, caller);
      if created.Fail? {
        return Fail(created.status);
      }
      var id := nextId;
      notes := notes[id := created.value];
      nextId := nextId + 1;
      return Ok(id);
    }

    /** `getNoteDetails`: matched on both the note id and the project id. */
    method GetNoteDetails(projectId: PathId, noteId: PathId) returns (r: Outcome<Note>)
      ensures projectId.Malformed? || noteId.Malformed? ==> r == Fail(BadRequest)
      ensures projectId.ObjectId? && noteId.ObjectId? ==>
        if noteId.id in notes && notes[noteId.id].project == projectId.id then r == Ok(notes[noteId.id])
        else r == Fail(NotFound)
    {
      if projectId.Malformed? {
        return Fail(BadRequest);
      }
      if noteId.Malformed? {
        return Fail(BadRequest);
      }
      var note := NoteAt(notes, noteId.id, projectId.id);
      if note.None? {
        return Fail(NotFound);
      }
      return Ok(note.value);
    }

    /** `updateNote`: `$set` of title and content on the note matching both ids. The title is
        not a path of the schema and is dropped; the update runs no validators, so empty
        content is stored. */
    method UpdateNote(projectId: PathId, noteId: PathId, body: NoteBody) returns (r: Outcome<Note>)
      requires Valid()
      modifies this
      ensures Valid()
      ensures projectId.Malformed? || noteId.Malformed? ==> r == Fail(BadRequest)
      ensures projectId.ObjectId? && noteId.ObjectId? && ValidateNoteDetails(body).Rejected? ==> r == Fail(BadRequest)
      ensures projectId.ObjectId? && noteId.ObjectId? && ValidateNoteDetails(body).Accepted? ==>
        if NoteAt(old(notes), noteId.id, projectId.id).Some?
        then r == Ok(old(notes)[noteId.id].(content := body.content.value))
        else r == Fail(NotFound)
      ensures r.Ok? ==> noteId.ObjectId? && notes == old(notes)[noteId.id := r.value]
      ensures r.Fail? ==> notes == old(notes)
      ensures nextId == old(nextId)
    {
      if projectId.Malformed? {
        return Fail(BadRequest);
      }
      if noteId.Malformed? {
        return Fail(BadRequest);
      }
      var details := ValidateNoteDetails(body);
      if details.Rejected? {
        return Fail(BadRequest);
      }
      var note := NoteAt(notes, noteId.id, projectId.id);
      if note.None? {
        return Fail(NotFound);
      }
      var updated := note.value.(content := details.value.content);
      notes := notes[noteId.id := updated];
      return Ok(updated);
    }

    /** `deleteNote`: removes only the note matching both ids; 404 when nothing was deleted. */
    method DeleteNote(projectId: PathId, noteId: PathId) returns (r: Outcome<Note>)
      requires Valid()
      modifies this
      ensures Valid()
      ensures projectId.Malformed? || noteId.Malformed? ==> r == Fail(BadRequest)
      ensures projectId.ObjectId? && noteId.ObjectId? ==>
        if NoteAt(old(notes), noteId.id, projectId.id).Some? then r == Ok(old(notes)[noteId.id])
        else r == Fail(NotFound)
      ensures r.Ok? ==> noteId.ObjectId? && notes == old(notes) - {noteId.id}
      ensures r.Fail? ==> notes == old(notes)
      ensures nextId == old(nextId)
    {
      if projectId.Malformed? {
        return Fail(BadRequest);
      }
      if noteId.Malformed? {
        return Fail(BadRequest);
      }
      var note := NoteAt(notes, noteId.id, projectId.id);
      if note.None? {
        return Fail(NotFound);
      }
      notes := notes - {noteId.id};
      return Ok(note.value);
    }
  }
}
