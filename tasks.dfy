/** The task and subtask handlers over in-memory task and subtask collections. Uploads to and
    deletions from the file store are calls whose results are parameters; the store keeps a
    log of what was handed to each. */
module TaskControllers {
  import opened Common
  import opened Text
  import opened UserType
  import opened TaskValidators
  import opened SubtaskValidators
  import opened TaskModel
  import opened SubtaskModel
  import opened Schema

  /** A file of the multipart request, as multer describes it. */
  datatype UploadedFile = UploadedFile(originalName: string, mimetype: string, size: nat, path: string)

  /** The file passes the markdown check and the store accepts its upload. */
  predicate Stored(f: UploadedFile, upload: string -> Option<string>)
  {
    IsMarkdownMime(f.mimetype) && upload(f.path).Some?
  }

  /** Attachments already collected, in front of what the rest of the loop yields. */
  function Prepend(done: seq<Attachment>, rest: Outcome<seq<Attachment>>): Outcome<seq<Attachment>>
  {
    match rest
    case Ok(more) => Ok(done + more)
    case Fail(s) => Fail(s)
  }

  /** The attachment loop of `createProjectTask` and `updateTask`. Files are taken in order; the
      first file that is not markdown ends it with 400, the first failed upload with 500;
      otherwise there is one attachment per file, in file order, with that file's stored url,
      mimetype and size. */
  function UploadOutcome(files: seq<UploadedFile>, upload: string -> Option<string>): (r: Outcome<seq<Attachment>>)
    ensures r.Ok? ==> |r.value| == |files|
  {
    if files == [] then Ok([])
    else if !IsMarkdownMime(files[0].mimetype) then Fail(BadRequest)
    else if upload(files[0].path).None? then Fail(InternalError)
    else
      match UploadOutcome(files[1..], upload)
      case Fail(s) => Fail(s)
      case Ok(more) => Ok([Attachment(upload(files[0].path).value, files[0].mimetype, files[0].size)] + more)
  }

  /** The loop succeeds exactly when every file is stored, and otherwise fails with 400 or
      500. */
  lemma {:induction false} UploadOutcomeOk(files: seq<UploadedFile>, upload: string -> Option<string>)
    ensures UploadOutcome(files, upload).Ok? <==> forall i :: 0 <= i < |files| ==> Stored(files[i], upload)
    ensures UploadOutcome(files, upload).Fail? ==> UploadOutcome(files, upload).status in {BadRequest, InternalError}
  {
    if files != [] && Stored(files[0], upload) {
      var tail := files[1..];
      UploadOutcomeOk(tail, upload);
      assert forall i :: 1 <= i < |files| ==> files[i] == tail[i - 1];
    }
  }

  /** A successful loop yields one attachment per file, in file order, with that file's
      stored url, mimetype and size. */
  lemma {:induction false} UploadOutcomeContents(files: seq<UploadedFile>, upload: string -> Option<string>)
    requires forall i :: 0 <= i < |files| ==> Stored(files[i], upload)
    ensures UploadOutcome(files, upload).Ok? && |UploadOutcome(files, upload).value| == |files|
    ensures forall i :: 0 <= i < |files| ==>
      Stored(files[i], upload) &&
      UploadOutcome(files, upload).value[i] == Attachment(upload(files[i].path).value, files[i].mimetype, files[i].size)
  {
    if files != [] {
      var tail := files[1..];
      assert Stored(files[0], upload);
      assert forall i :: 1 <= i < |files| ==> files[i] == tail[i - 1];
      UploadOutcomeContents(tail, upload);
    }
  }

  /** The loop fails with 400 exactly when some file is not markdown and every file before it
      was stored; a failed upload before any such file gives 500 instead. */
  lemma {:induction false} UploadOutcomeBadRequest(files: seq<UploadedFile>, upload: string -> Option<string>)
    ensures UploadOutcome(files, upload) == Fail(BadRequest) <==>
      exists k :: 0 <= k < |files| && !IsMarkdownMime(files[k].mimetype) && forall i :: 0 <= i < k ==> Stored(files[i], upload)
  {
    if files != [] && IsMarkdownMime(files[0].mimetype) {
      if upload(files[0].path).None? {
        assert !Stored(files[0], upload);
      } else {
        var tail := files[1..];
        UploadOutcomeBadRequest(tail, upload);
        assert forall i :: 1 <= i < |files| ==> files[i] == tail[i - 1];
        if UploadOutcome(tail, upload) == Fail(BadRequest) {
          var k :| 0 <= k < |tail| && !IsMarkdownMime(tail[k].mimetype) && forall i :: 0 <= i < k ==> Stored(tail[i], upload);
          assert !IsMarkdownMime(files[k + 1].mimetype) && forall i :: 0 <= i < k + 1 ==> Stored(files[i], upload);
        } else {
          forall k | 0 <= k < |files| && !IsMarkdownMime(files[k].mimetype)
            ensures exists i :: 0 <= i < k && !Stored(files[i], upload)
          {
            assert k >= 1 && !IsMarkdownMime(tail[k - 1].mimetype);
          }
        }
      }
    } else if files != [] {
      assert !IsMarkdownMime(files[0].mimetype);
    }
  }

  /** The paths the loop hands to the upload, in order: every file up to and including the
      first failed upload, stopping before the first file that is not markdown. Uploads made
      before a failure stay in the store. */
  function UploadAttempts(files: seq<UploadedFile>, upload: string -> Option<string>): (r: seq<string>)
    ensures |r| <= |files|
    ensures files != [] && IsMarkdownMime(files[0].mimetype) ==> r != [] && r[0] == files[0].path
  {
    if files == [] || !IsMarkdownMime(files[0].mimetype) then []
    else if upload(files[0].path).None? then [files[0].path]
    else [files[0].path] + UploadAttempts(files[1..], upload)
  }

  /** The attempted paths are those of a prefix of the files, all markdown, every upload but
      possibly the last one succeeded, and a successful loop attempted every file. */
  lemma {:induction false} UploadAttemptsShape(files: seq<UploadedFile>, upload: string -> Option<string>)
    ensures var r := UploadAttempts(files, upload);
      && |r| <= |files|
      && (forall i :: 0 <= i < |r| ==> r[i] == files[i].path && IsMarkdownMime(files[i].mimetype))
      && (forall i :: 0 <= i < |r| - 1 ==> upload(files[i].path).Some?)
      && (UploadOutcome(files, upload).Ok? ==> |r| == |files|)
  {
    if files != [] && Stored(files[0], upload) {
      var tail := files[1..];
      UploadAttemptsShape(tail, upload);
      assert forall i :: 1 <= i < |files| ==> files[i] == tail[i - 1];
      var rest := UploadAttempts(tail, upload);
      assert UploadAttempts(files, upload) == [files[0].path] + rest;
      match UploadOutcome(tail, upload) {
        case Ok(_) =>
        case Fail(_) =>
      }
    }
  }

  /** One stored file: its attachment, then whatever the rest of the loop yields. */
  lemma UploadStep(files: seq<UploadedFile>, upload: string -> Option<string>)
    requires files != [] && Stored(files[0], upload)
    ensures UploadOutcome(files, upload) ==
      Prepend([Attachment(upload(files[0].path).value, files[0].mimetype, files[0].size)], UploadOutcome(files[1..], upload))
    ensures UploadAttempts(files, upload) == [files[0].path] + UploadAttempts(files[1..], upload)
  {
  }

  lemma PrependTwice(done: seq<Attachment>, more: seq<Attachment>, rest: Outcome<seq<Attachment>>)
    ensures Prepend(done, Prepend(more, rest)) == Prepend(done + more, rest)
  {
    if rest.Ok? {
      assert done + (more + rest.value) == (done + more) + rest.value;
    }
  }

  /** A request with a file that is not markdown creates or changes nothing: it fails with 400
      when every earlier file was stored, and with 500 at an earlier failed upload. */
  lemma NonMarkdownFileRejects(files: seq<UploadedFile>, upload: string -> Option<string>, k: nat)
    requires k < |files| && !IsMarkdownMime(files[k].mimetype)
    ensures UploadOutcome(files, upload).Fail?
    ensures (forall i :: 0 <= i < k ==> Stored(files[i], upload)) ==> UploadOutcome(files, upload) == Fail(BadRequest)
  {
    UploadOutcomeOk(files, upload);
    UploadOutcomeBadRequest(files, upload);
  }

  /** `Task.findOne({_id, project})`: the task with that id, provided it belongs to that
      project. */
  function TaskAt(tasks: map<Id, Task>, taskId: Id, projectId: Id): (r: Option<Task>)
    ensures r.Some? <==> taskId in tasks && tasks[taskId].project == projectId
    ensures r.Some? ==> r.value == tasks[taskId]
  {
    if taskId in tasks && tasks[taskId].project == projectId then Some(tasks[taskId]) else None
  }

  /** A task is never found through another project's id. */
  lemma TaskAtOtherProject(tasks: map<Id, Task>, taskId: Id, p: Id, q: Id)
    requires TaskAt(tasks, taskId, p).Some? && p != q
    ensures TaskAt(tasks, taskId, q).None?
  {
  }

  /** `Task.find({project})`: the tasks of one project. */
  function ProjectTasks(tasks: map<Id, Task>, projectId: Id): (r: map<Id, Task>)
    ensures forall id :: id in r <==> id in tasks && tasks[id].project == projectId
    ensures forall id :: id in r ==> r[id] == tasks[id]
  {
    map id | id in tasks && tasks[id].project == projectId :: tasks[id]
  }

  /** `assignedTo || null`. */
  function Assignee(assignedTo: Option<string>): (r: Option<string>)
    ensures r.Some? <==> Truthy(assignedTo)
    ensures r.Some? ==> r == assignedTo
  {
    if Truthy(assignedTo) then assignedTo else None
  }

  /** The `updateData` of `updateTask` applied by `$set`: title, description, assignee and status
      change only when a truthy value is given (the `trim` setter applies to the title), and the
      attachments become the existing ones followed by the new ones when there are new ones. */
  function ApplyTaskUpdate(t: Task, u: TaskUpdate, added: seq<Attachment>): (r: Task)
    ensures r.project == t.project && r.assignedBy == t.assignedBy
    ensures |r.attachments| == |t.attachments| + |added| && r.attachments[..|t.attachments|] == t.attachments
  {
    Task(
      if Truthy(u.title) then Trim(u.title.value) else t.title,
      if Truthy(u.description) then u.description.value else t.description,
      t.project,
      if Truthy(u.assignedTo) then u.assignedTo else t.assignedTo,
      t.assignedBy,
      if u.status.Some? then u.status.value else t.status,
      if |added| > 0 then t.attachments + added else t.attachments)
  }

  /** An update keeps the project and the creator, keeps every field it was not given a truthy
      value for, and appends the new attachments after the existing ones, in order. */
  lemma ApplyTaskUpdateKeeps(t: Task, u: TaskUpdate, added: seq<Attachment>)
    ensures var r := ApplyTaskUpdate(t, u, added);
      && r.project == t.project && r.assignedBy == t.assignedBy
      && r.attachments == t.attachments + added
      && (!Truthy(u.title) ==> r.title == t.title)
      && (!Truthy(u.description) ==> r.description == t.description)
      && (!Truthy(u.assignedTo) ==> r.assignedTo == t.assignedTo)
      && (u.status.None? ==> r.status == t.status)
  {
    if |added| == 0 {
      assert t.attachments + added == t.attachments;
    }
  }

  /** An empty update with no files changes nothing. */
  lemma EmptyTaskUpdateIsIdentity(t: Task)
    ensures ApplyTaskUpdate(t, TaskUpdate(None, None, None, None), []) == t
  {
  }

  /** Repeating an update without files changes nothing more: the merge is idempotent, because
      the title setter is. */
  lemma ApplyTaskUpdateIdempotent(t: Task, u: TaskUpdate)
    ensures ApplyTaskUpdate(ApplyTaskUpdate(t, u, []), u, []) == ApplyTaskUpdate(t, u, [])
  {
    if Truthy(u.title) {
      TrimIdempotent(u.title.value);
    }
  }

  /** Only markdown attachments are ever appended, so a task keeps having only markdown ones. */
  lemma ApplyTaskUpdateMarkdown(t: Task, u: TaskUpdate, added: seq<Attachment>)
    requires AttachmentsMarkdown(t)
    requires forall i :: 0 <= i < |added| ==> IsMarkdownMime(added[i].mimetype)
    ensures AttachmentsMarkdown(ApplyTaskUpdate(t, u, added))
  {
    ApplyTaskUpdateKeeps(t, u, added);
  }

  /** `$set` of the subtask `updateData`: each field that is not `undefined` is set, `completed`
      going to `isCompleted`; the `trim` setter applies to the title. */
  function ApplySubtaskUpdate(s: Subtask, u: SubtaskUpdate): (r: Subtask)
    ensures r.task == s.task && r.createdBy == s.createdBy
    ensures u.completed.Some? ==> r.isCompleted == u.completed.value
  {
    Subtask(
      if u.title.Some? then Trim(u.title.value) else s.title,
      if u.description.Some? then u.description.value else s.description,
      s.task,
      if u.completed.Some? then u.completed.value else s.isCompleted,
      s.createdBy)
  }

  /** A subtask update never moves the subtask to another task or changes its creator, and an
      empty update is the identity; an empty description is stored as given. */
  lemma ApplySubtaskUpdateKeeps(s: Subtask, u: SubtaskUpdate)
    ensures var r := ApplySubtaskUpdate(s, u);
      && r.task == s.task && r.createdBy == s.createdBy
      && (u.title.None? ==> r.title == s.title)
      && (u.description.None? ==> r.description == s.description)
      && (u.description.Some? ==> r.description == u.description.value)
      && (u.completed.Some? ==> r.isCompleted == u.completed.value)
      && (u.completed.None? ==> r.isCompleted == s.isCompleted)
    ensures ApplySubtaskUpdate(s, SubtaskUpdate(None, None, None)) == s
  {
  }

  /** `Subtask.deleteMany({task})`: the subtasks of other tasks, untouched. */
  function SubtasksNotOf(subtasks: map<Id, Subtask>, taskId: Id): (r: map<Id, Subtask>)
    ensures forall id :: id in r <==> id in subtasks && subtasks[id].task != taskId
    ensures forall id :: id in r ==> r[id] == subtasks[id]
  {
    map id | id in subtasks && subtasks[id].task != taskId :: subtasks[id]
  }

  /** The urls of a task's attachments, in order. */
  function Urls(attachments: seq<Attachment>): (r: seq<string>)
    ensures |r| == |attachments|
    ensures forall i :: 0 <= i < |r| ==> r[i] == attachments[i].url
  {
    if attachments == [] then [] else [attachments[0].url] + Urls(attachments[1..])
  }

  /** The urls the delete loop hands to the file store: all of them, or those up to and
      including the first whose deletion throws. */
  function DeleteAttempts(urls: seq<string>, throws: string -> bool): (r: seq<string>)
    ensures |r| <= |urls|
    ensures urls != [] ==> r != [] && r[0] == urls[0]
  {
    if urls == [] then []
    else if throws(urls[0]) then [urls[0]]
    else [urls[0]] + DeleteAttempts(urls[1..], throws)
  }

  /** The attempted urls are a prefix of the urls; every delete but possibly the last one
      succeeded; and they are all the urls, the last delete succeeding, exactly when no
      delete throws. */
  lemma {:induction false} DeleteAttemptsShape(urls: seq<string>, throws: string -> bool)
    ensures var r := DeleteAttempts(urls, throws);
      && |r| <= |urls| && r == urls[..|r|]
      && ((forall i :: 0 <= i < |urls| ==> !throws(urls[i])) <==> r == urls && (r == [] || !throws(r[|r| - 1])))
      && (forall i :: 0 <= i < |r| - 1 ==> !throws(r[i]))
  {
    if urls != [] && !throws(urls[0]) {
      var tail := urls[1..];
      DeleteAttemptsShape(tail, throws);
      var rest := DeleteAttempts(tail, throws);
      assert DeleteAttempts(urls, throws) == [urls[0]] + rest;
      assert forall i :: 1 <= i < |urls| ==> urls[i] == tail[i - 1];
      assert tail[..|rest|] == urls[1..|rest| + 1];
    }
  }

  /** What `createProjectTask` stores, or the status it fails with: the project id is checked,
      then the body, then the attachment loop runs, then `Task.create`, which refuses an
      assignee that does not cast to an ObjectId. A created task is unassigned unless a
      non-empty assignee was given, records the caller as `assignedBy`, starts as `todo` and
      holds one markdown attachment per file. */
  function NewTask(projectId: PathId, body: TaskBody, files: seq<UploadedFile>, caller: Id,
                   upload: string -> Option<string>, castsToObjectId: string -> bool): (o: Outcome<Task>)
    ensures projectId.Malformed? || ValidateTaskDetails(body).Rejected? ==> o == Fail(BadRequest)
    ensures o.Ok? <==>
      && projectId.ObjectId? && ValidateTaskDetails(body).Accepted?
      && (forall i :: 0 <= i < |files| ==> Stored(files[i], upload) && upload(files[i].path).value != [])
      && Trim(body.title.value) != [] && AssigneeCasts(Assignee(body.assignedTo), castsToObjectId)
    ensures o.Ok? ==> o.value.project == projectId.id && o.value.assignedBy == caller && o.value.status == Todo
    ensures o.Ok? ==> (o.value.assignedTo.None? <==> !Truthy(body.assignedTo))
    ensures o.Ok? && Truthy(body.assignedTo) ==> o.value.assignedTo == body.assignedTo
    ensures o.Ok? ==> o.value.title == Trim(body.title.value) && o.value.description == body.description.value
    ensures o.Ok? ==> AttachmentsMarkdown(o.value) && |o.value.attachments| == |files|
    ensures o.Ok? ==> forall i :: 0 <= i < |files| ==>
      Stored(files[i], upload) &&
      o.value.attachments[i] == Attachment(upload(files[i].path).value, files[i].mimetype, files[i].size)
    ensures o.Fail? ==> o.status in {BadRequest, InternalError}
  {
    if projectId.Malformed? then Fail(BadRequest)
    else match ValidateTaskDetails(body)
      case Rejected(_) => Fail(BadRequest)
      case Accepted(d) =>
        UploadOutcomeOk(files, upload);
        match UploadOutcome(files, upload)
        case Fail(s) => Fail(s)
        case Ok(attachments) =>
          UploadOutcomeContents(files, upload);
          assert (forall i :: 0 <= i < |attachments| ==> AttachmentValid(attachments[i])) <==>
            (forall i :: 0 <= i < |files| ==> Stored(files[i], upload) && upload(files[i].path).value != []);
          CreateTaskDocument(d.title, d.description, projectId.id, Assignee(d.assignedTo), caller, attachments, castsToObjectId)
  }

  /** What `createSubTask` stores, or the status it fails with: the ids are checked, then the
      task is looked up by `(taskId, projectId)`, and only then is the body validated. The new
      subtask belongs to that task, was created by the caller and is not completed. */
  function NewSubtask(tasks: map<Id, Task>, projectId: PathId, taskId: PathId, body: SubtaskBody, caller: Id): (o: Outcome<Subtask>)
    ensures projectId.Malformed? || taskId.Malformed? ==> o == Fail(BadRequest)
    ensures projectId.ObjectId? && taskId.ObjectId? && TaskAt(tasks, taskId.id, projectId.id).None? ==> o == Fail(NotFound)
    ensures o.Ok? <==>
      && projectId.ObjectId? && taskId.ObjectId? && TaskAt(tasks, taskId.id, projectId.id).Some?
      && ValidateSubtaskDetails(body).Accepted? && Trim(body.title.value) != [] && body.description.value != []
    ensures o.Ok? ==> o.value.task == taskId.id && o.value.task in tasks && o.value.createdBy == caller && !o.value.isCompleted
    ensures o.Ok? ==> o.value.title == Trim(body.title.value) && o.value.description == body.description.value
    ensures o.Fail? ==> o.status in {BadRequest, NotFound, InternalError}
  {
    if projectId.Malformed? || taskId.Malformed? then Fail(BadRequest)
    else if TaskAt(tasks, taskId.id, projectId.id).None? then Fail(NotFound)
    else match ValidateSubtaskDetails(body)
      case Rejected(_) => Fail(BadRequest)
      case Accepted(d) => CreateSubtaskDocument(d.title, d.description, taskId.id, caller)
  }

  /** A file that is not markdown, after files that were all stored, makes `createProjectTask`
      fail with 400, so no task is created. */
  lemma NonMarkdownFileRejectsCreate(projectId: Id, body: TaskBody, files: seq<UploadedFile>, caller: Id,
                                     upload: string -> Option<string>, castsToObjectId: string -> bool, k: nat)
    requires ValidateTaskDetails(body).Accepted?
    requires k < |files| && !IsMarkdownMime(files[k].mimetype)
    requires forall i :: 0 <= i < k ==> Stored(files[i], upload)
    ensures NewTask(ObjectId(projectId), body, files, caller, upload, castsToObjectId) == Fail(BadRequest)
  {
    UploadOutcomeBadRequest(files, upload);
  }

  /** A failed upload of a markdown file, after files that were all stored, makes
      `createProjectTask` fail with 500 before any task is created. */
  lemma FailedUploadRejectsCreate(projectId: Id, body: TaskBody, files: seq<UploadedFile>, caller: Id,
                                  upload: string -> Option<string>, castsToObjectId: string -> bool, k: nat)
    requires ValidateTaskDetails(body).Accepted?
    requires k < |files| && IsMarkdownMime(files[k].mimetype) && upload(files[k].path).None?
    requires forall i :: 0 <= i < k ==> Stored(files[i], upload)
    ensures NewTask(ObjectId(projectId), body, files, caller, upload, castsToObjectId) == Fail(InternalError)
  {
    UploadOutcomeBadRequest(files, upload);
    forall j | 0 <= j < |files| && !IsMarkdownMime(files[j].mimetype)
      ensures !(forall i :: 0 <= i < j ==> Stored(files[i], upload))
    {
      assert j > k && !Stored(files[k], upload);
    }
  }

  /** An assignee that does not cast to an ObjectId makes `Task.create` fail with 500, after
      every file was uploaded, so no task is created. */
  lemma UncastableAssigneeRejectsCreate(projectId: Id, body: TaskBody, files: seq<UploadedFile>, caller: Id,
                                        upload: string -> Option<string>, castsToObjectId: string -> bool)
    requires ValidateTaskDetails(body).Accepted?
    requires forall i :: 0 <= i < |files| ==> Stored(files[i], upload)
    requires Truthy(body.assignedTo) && !castsToObjectId(body.assignedTo.value)
    ensures NewTask(ObjectId(projectId), body, files, caller, upload, castsToObjectId) == Fail(InternalError)
    ensures |UploadAttempts(files, upload)| == |files|
    ensures forall i :: 0 <= i < |files| ==> UploadAttempts(files, upload)[i] == files[i].path
  {
    UploadOutcomeOk(files, upload);
    UploadAttemptsShape(files, upload);
  }

  /** The attachment loop: checks and uploads the files one by one. It returns the outcome
      and the paths handed to the upload, in order; the caller appends those to the store's
      upload log. */
  method UploadAttachments(files: seq<UploadedFile>, upload: string -> Option<string>)
    returns (r: Outcome<seq<Attachment>>, attempted: seq<string>)
    ensures r == UploadOutcome(files, upload)
    ensures attempted == UploadAttempts(files, upload)
  {
    var attachments: seq<Attachment> := [];
    attempted := [];
    var i := 0;
    assert files[i..] == files;
    match UploadOutcome(files, upload) {
      case Ok(more) => assert [] + more == more;
      case Fail(_) =>
    }
    while i < |files|
      invariant 0 <= i <= |files|
      invariant UploadOutcome(files, upload) == Prepend(attachments, UploadOutcome(files[i..], upload))
      invariant UploadAttempts(files, upload) == attempted + UploadAttempts(files[i..], upload)
    {
      var file := files[i];
      assert files[i..][0] == file && files[i..][1..] == files[i + 1..];
      if !IsMarkdownMime(file.mimetype) {
        assert attempted + [] == attempted;
        return Fail(BadRequest), attempted;
      }
      var url := upload(file.path);
      if url.None? {
        assert UploadAttempts(files[i..], upload) == [file.path];
        return Fail(InternalError), attempted + [file.path];
      }
      var attachment := Attachment(url.value, file.mimetype, file.size);
      UploadStep(files[i..], upload);
      PrependTwice(attachments, [attachment], UploadOutcome(files[i + 1..], upload));
      attachments := attachments + [attachment];
      var tail := UploadAttempts(files[i + 1..], upload);
      assert attempted + ([file.path] + tail) == (attempted + [file.path]) + tail;
      attempted := attempted + [file.path];
      i := i + 1;
    }
    assert files[i..] == [];
    assert attachments + [] == attachments;
    assert attempted + [] == attempted;
    return Ok(attachments), attempted;
  }

  /** The attachment-deletion loop of `deleteTask`: deletes the urls in order and stops at
      the first delete that throws. It returns whether every delete succeeded and the urls
      handed to the delete; the caller appends those to the store's delete log. */
  method DeleteAttachments(urls: seq<string>, throws: string -> bool) returns (ok: bool, attempted: seq<string>)
    ensures ok <==> forall i :: 0 <= i < |urls| ==> !throws(urls[i])
    ensures attempted == DeleteAttempts(urls, throws)
  {
    attempted := [];
    var i := 0;
    assert urls[i..] == urls;
    while i < |urls|
      invariant 0 <= i <= |urls|
      invariant forall k :: 0 <= k < i ==> !throws(urls[k])
      invariant DeleteAttempts(urls, throws) == attempted + DeleteAttempts(urls[i..], throws)
    {
      assert urls[i..][0] == urls[i] && urls[i..][1..] == urls[i + 1..];
      if throws(urls[i]) {
        assert DeleteAttempts(urls[i..], throws) == [urls[i]];
        return false, attempted + [urls[i]];
      }
      var tail := DeleteAttempts(urls[i + 1..], throws);
      assert DeleteAttempts(urls[i..], throws) == [urls[i]] + tail;
      assert attempted + ([urls[i]] + tail) == (attempted + [urls[i]]) + tail;
      attempted := attempted + [urls[i]];
      i := i + 1;
    }
    assert attempted + [] == attempted;
    return true, attempted;
  }

  /** The task and subtask collections, with the logs of the file store. */
  class TaskStore {
    var tasks: map<Id, Task>
    var subtasks: map<Id, Subtask>
    /** The id the next created document receives. */
    var nextId: Id
    /** The paths handed to the upload, in order. */
    var uploaded: seq<string>
    /** The urls handed to the delete, in order. */
    var deleted: seq<string>

    /** Ids are below the next fresh one, every subtask belongs to a stored task, and every
        stored attachment is markdown. */
    ghost predicate Valid()
      reads this
    {
      && (forall id :: id in tasks ==> id < nextId)
      && (forall id :: id in subtasks ==> id < nextId)
      && (forall id :: id in subtasks ==> subtasks[id].task in tasks)
      && (forall id :: id in tasks ==> AttachmentsMarkdown(tasks[id]))
    }

    constructor ()
      ensures Valid()
      ensures tasks == map[] && subtasks == map[] && uploaded == [] && deleted == []
    {
      tasks := map[];
      subtasks := map[];
      nextId := 0;
      uploaded := [];
      deleted := [];
    }

    /** `Task.create`'s write: the task is stored under a fresh id. */
    method InsertTask(t: Task) returns (id: Id)
      requires Valid() && AttachmentsMarkdown(t)
      modifies this
      ensures Valid()
      ensures id !in old(tasks) && tasks == old(tasks)[id := t]
      ensures subtasks == old(subtasks) && uploaded == old(uploaded) && deleted == old(deleted)
    {
      id := nextId;
      tasks := tasks[id := t];
      nextId := nextId + 1;
    }

    /** `SubTask.create`'s write: the subtask of a stored task is stored under a fresh id. */
    method InsertSubtask(s: Subtask) returns (id: Id)
      requires Valid() && s.task in tasks
      modifies this
      ensures Valid()
      ensures id !in old(subtasks) && subtasks == old(subtasks)[id := s]
      ensures tasks == old(tasks) && uploaded == old(uploaded) && deleted == old(deleted)
    {
      id := nextId;
      subtasks := subtasks[id := s];
      nextId := nextId + 1;
    }

    /** `listProjectTasks`. */
    method ListProjectTasks(projectId: PathId) returns (r: Outcome<map<Id, Task>>)
      ensures projectId.Malformed? ==> r == Fail(BadRequest)
      ensures projectId.ObjectId? ==> (r.Fail? <==> forall id :: id in tasks ==> tasks[id].project != projectId.id)
      ensures r.Fail? ==> r.status == BadRequest || r.status == NotFound
      ensures r.Ok? ==> r.value != map[] && forall id :: id in r.value ==> id in tasks && r.value[id] == tasks[id] && tasks[id].project == projectId.id
      ensures r.Ok? ==> forall id :: id in tasks && tasks[id].project == projectId.id ==> id in r.value
    {
      if projectId.Malformed? {
        return Fail(BadRequest);
      }
      var found := ProjectTasks(tasks, projectId.id);
      if found == map[] {
        assert forall id :: id in tasks ==> tasks[id].project != projectId.id by {
          forall id | id in tasks ensures tasks[id].project != projectId.id {
            assert id !in found;
          }
        }
        return Fail(NotFound);
      }
      return Ok(found);
    }

    /** `createProjectTask`, proved against `NewTask`. Only the upload log changes when it
        fails. */
    method CreateProjectTask(projectId: PathId, body: TaskBody, files: seq<UploadedFile>, caller: Id,
                             upload: string -> Option<string>, castsToObjectId: string -> bool) returns (r: Outcome<Id>)
      requires Valid()
      modifies this
      ensures Valid()
      ensures var o := NewTask(projectId, body, files, caller, upload, castsToObjectId);
        && (r.Fail? <==> o.Fail?)
        && (r.Fail? ==> r.status == o.status && tasks == old(tasks))
        && (r.Ok? ==> r.value !in old(tasks) && tasks == old(tasks)[r.value := o.value])
      ensures uploaded == old(uploaded) +
        (if projectId.ObjectId? && ValidateTaskDetails(body).Accepted? then UploadAttempts(files, upload) else [])
      ensures subtasks == old(subtasks) && deleted == old(deleted)
    {
      if projectId.Malformed? {
        return Fail(BadRequest);
      }
      var details := ValidateTaskDetails(body);
      if details.Rejected? {
        return Fail(BadRequest);
      }
      var attachments, attempted := UploadAttachments(files, upload);
      uploaded := uploaded + attempted;
      if attachments.Fail? {
        return Fail(attachments.status);
      }
      var created := CreateTaskDocument(details.value.title, details.value.description, projectId.id,
        Assignee(details.value.assignedTo), caller, attachments.value, castsToObjectId);
      assert created == NewTask(projectId, body, files, caller, upload, castsToObjectId);
      if created.Fail? {
        return Fail(created.status);
      }
      var id := InsertTask(created.value);
      return Ok(id);
    }

    /** `updateTask`: validation, the compound `(taskId, projectId)` lookup, the attachment
        loop, then the merge. `findByIdAndUpdate` casts a given assignee to an ObjectId and
        throws (500) when it cannot. A failure leaves every task as it was. */
    method UpdateTask(projectId: PathId, taskId: PathId, body: TaskBody, files: seq<UploadedFile>,
                      upload: string -> Option<string>, castsToObjectId: string -> bool) returns (r: Outcome<Task>)
      requires Valid()
      modifies this
      ensures Valid()
      ensures projectId.Malformed? || taskId.Malformed? ==> r == Fail(BadRequest) && uploaded == old(uploaded)
      ensures projectId.ObjectId? && taskId.ObjectId? && ValidateTaskUpdate(body).Rejected? ==> r == Fail(BadRequest) && uploaded == old(uploaded)
      ensures projectId.ObjectId? && taskId.ObjectId? && ValidateTaskUpdate(body).Accepted? ==>
        if TaskAt(old(tasks), taskId.id, projectId.id).None? then r == Fail(NotFound) && uploaded == old(uploaded)
        else
          && uploaded == old(uploaded) + UploadAttempts(files, upload)
          && (UploadOutcome(files, upload).Fail? ==> r == Fail(UploadOutcome(files, upload).status))
          && (UploadOutcome(files, upload).Ok? && !AssigneeCasts(Assignee(ValidateTaskUpdate(body).value.assignedTo), castsToObjectId) ==>
                r == Fail(InternalError))
          && (UploadOutcome(files, upload).Ok? && AssigneeCasts(Assignee(ValidateTaskUpdate(body).value.assignedTo), castsToObjectId) ==>
                r == Ok(ApplyTaskUpdate(old(tasks)[taskId.id], ValidateTaskUpdate(body).value, UploadOutcome(files, upload).value)))
      ensures r.Ok? ==> taskId.ObjectId? && tasks == old(tasks)[taskId.id := r.value]
      ensures r.Fail? ==> tasks == old(tasks)
      ensures subtasks == old(subtasks) && nextId == old(nextId) && deleted == old(deleted)
    {
      if projectId.Malformed? || taskId.Malformed? {
        return Fail(BadRequest);
      }
      var update := ValidateTaskUpdate(body);
      if update.Rejected? {
        return Fail(BadRequest);
      }
      var existing := TaskAt(tasks, taskId.id, projectId.id);
      if existing.None? {
        return Fail(NotFound);
      }
      var added, attempted := UploadAttachments(files, upload);
      uploaded := uploaded + attempted;
      if added.Fail? {
        return Fail(added.status);
      }
      if !AssigneeCasts(Assignee(update.value.assignedTo), castsToObjectId) {
        return Fail(InternalError);
      }
      var updated := ApplyTaskUpdate(existing.value, update.value, added.value);
      UploadOutcomeOk(files, upload);
      UploadOutcomeContents(files, upload);
      ApplyTaskUpdateMarkdown(existing.value, update.value, added.value);
      tasks := tasks[taskId.id := updated];
      return Ok(updated);
    }

    /** `deleteTask`: the compound lookup, the deletion of every attachment url, then the task,
        then every subtask of the task. A thrown error aborts before any collection changes. */
    method DeleteTask(projectId: PathId, taskId: PathId, throws: string -> bool) returns (r: Outcome<Id>)
      requires Valid()
      modifies this
      ensures Valid()
      ensures projectId.Malformed? || taskId.Malformed? ==> r == Fail(BadRequest) && deleted == old(deleted)
      ensures projectId.ObjectId? && taskId.ObjectId? && TaskAt(old(tasks), taskId.id, projectId.id).None? ==>
        r == Fail(NotFound) && deleted == old(deleted)
      ensures projectId.ObjectId? && taskId.ObjectId? && TaskAt(old(tasks), taskId.id, projectId.id).Some? ==>
        var urls := Urls(old(tasks)[taskId.id].attachments);
        && deleted == old(deleted) + DeleteAttempts(urls, throws)
        && (r.Ok? <==> forall i :: 0 <= i < |urls| ==> !throws(urls[i]))
        && (r.Fail? ==> r.status == InternalError)
      ensures r.Ok? ==> taskId == ObjectId(r.value) && tasks == old(tasks) - {r.value} && subtasks == SubtasksNotOf(old(subtasks), r.value)
      ensures r.Fail? ==> tasks == old(tasks) && subtasks == old(subtasks)
      ensures nextId == old(nextId) && uploaded == old(uploaded)
    {
      if projectId.Malformed? || taskId.Malformed? {
        return Fail(BadRequest);
      }
      var task := TaskAt(tasks, taskId.id, projectId.id);
      if task.None? {
        return Fail(NotFound);
      }
      var ok, attempted := DeleteAttachments(Urls(task.value.attachments), throws);
      deleted := deleted + attempted;
      if !ok {
        return Fail(InternalError);
      }
      tasks := tasks - {taskId.id};
      subtasks := SubtasksNotOf(subtasks, taskId.id);
      return Ok(taskId.id);
    }

    /** `createSubTask`, proved against `NewSubtask`. */
    method CreateSubTask(projectId: PathId, taskId: PathId, body: SubtaskBody, caller: Id) returns (r: Outcome<Id>)
      requires Valid()
      modifies this
      ensures Valid()
      ensures var o := NewSubtask(old(tasks), projectId, taskId, body, caller);
        && (r.Fail? <==> o.Fail?)
        && (r.Fail? ==> r.status == o.status && subtasks == old(subtasks))
        && (r.Ok? ==> r.value !in old(subtasks) && subtasks == old(subtasks)[r.value := o.value])
      ensures tasks == old(tasks) && uploaded == old(uploaded) && deleted == old(deleted)
    {
      if projectId.Malformed? || taskId.Malformed? {
        return Fail(BadRequest);
      }
      var task := TaskAt(tasks, taskId.id, projectId.id);
      if task.None? {
        return Fail(NotFound);
      }
      var details := ValidateSubtaskDetails(body);
      if details.Rejected? {
        return Fail(BadRequest);
      }
      var created := CreateSubtaskDocument(details.value.title, details.value.description, taskId.id, caller);
      assert created == NewSubtask(tasks, projectId, taskId, body, caller);
      if created.Fail? {
        return Fail(created.status);
      }
      var id := InsertSubtask(created.value);
      return Ok(id);
    }

    /** `updateSubTask`: looked up by its id alone; the project id is only checked for form. */
    method UpdateSubTask(projectId: PathId, subTaskId: PathId, body: SubtaskBody) returns (r: Outcome<Subtask>)
      requires Valid()
      modifies this
      ensures Valid()
      ensures projectId.Malformed? || subTaskId.Malformed? ==> r == Fail(BadRequest)
      ensures projectId.ObjectId? && subTaskId.ObjectId? && ValidateSubtaskUpdate(body).Rejected? ==> r == Fail(BadRequest)
      ensures projectId.ObjectId? && subTaskId.ObjectId? && ValidateSubtaskUpdate(body).Accepted? ==>
        if subTaskId.id in old(subtasks) then r == Ok(ApplySubtaskUpdate(old(subtasks)[subTaskId.id], ValidateSubtaskUpdate(body).value))
        else r == Fail(NotFound)
      ensures r.Ok? ==> subTaskId.ObjectId? && subtasks == old(subtasks)[subTaskId.id := r.value]
      ensures r.Fail? ==> subtasks == old(subtasks)
      ensures tasks == old(tasks) && nextId == old(nextId) && uploaded == old(uploaded) && deleted == old(deleted)
    {
      if projectId.Malformed? || subTaskId.Malformed? {
        return Fail(BadRequest);
      }
      var update := ValidateSubtaskUpdate(body);
      if update.Rejected? {
        return Fail(BadRequest);
      }
      if subTaskId.id !in subtasks {
        return Fail(NotFound);
      }
      var updated := ApplySubtaskUpdate(subtasks[subTaskId.id], update.value);
      subtasks := subtasks[subTaskId.id := updated];
      return Ok(updated);
    }

    /** `deleteSubTask`: removes the subtask with that id, whatever project it is under. */
    method DeleteSubTask(projectId: PathId, subTaskId: PathId) returns (r: Outcome<Subtask>)
      requires Valid()
      modifies this
      ensures Valid()
      ensures projectId.Malformed? || subTaskId.Malformed? ==> r == Fail(BadRequest)
      ensures projectId.ObjectId? && subTaskId.ObjectId? ==>
        if subTaskId.id in old(subtasks) then r == Ok(old(subtasks)[subTaskId.id]) else r == Fail(NotFound)
      ensures r.Ok? ==> subTaskId.ObjectId? && subtasks == old(subtasks) - {subTaskId.id}
      ensures r.Fail? ==> subtasks == old(subtasks)
      ensures tasks == old(tasks) && nextId == old(nextId) && uploaded == old(uploaded) && deleted == old(deleted)
    {
      if projectId.Malformed? || subTaskId.Malformed? {
        return Fail(BadRequest);
      }
      if subTaskId.id !in subtasks {
        return Fail(NotFound);
      }
      var removed := subtasks[subTaskId.id];
      subtasks := subtasks - {subTaskId.id};
      return Ok(removed);
    }
  }
}
