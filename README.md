# Project-management API: credentials, tasks and notes

A Dafny model of the core of an Express/Mongoose project-management service. It has four parts.

- **Credential lifecycle.** A user record carries its password hash, its e-mail verification flag, and
  three tokens that each expire or can be replaced: e-mail verification, password reset and
  refresh. The handlers modelled are register, login, logout, verify e-mail, resend
  verification, refresh the access token, forgot password, reset password and change password.
  The collection is the class `AuthControllers.UserStore`, holding a map of users. A loaded
  Mongoose document is `UserModel.UserDocument`, with its `pre("save")` hook.
- **Tasks and subtasks.** The class `TaskControllers.TaskStore` holds the task and subtask
  collections. Its handlers create, update, delete and list tasks, and create, update and
  delete subtasks. The markdown attachment loop and the attachment-deletion loop are
  `while` loops, proved against recursive specification functions. The store keeps the
  sequence of paths handed to the file store's upload and the sequence of urls handed to its
  delete.
- **Notes.** The class `NoteControllers.NoteStore` holds the project notes and the set of
  existing projects.
- **Validators.** Every zod schema of `src/validators` is a function from an optional-field
  request body to `Accepted(data)` or `Rejected(fields)`.

Every handler except `Logout`, which cannot fail, returns `Outcome<T>`: `Ok(value)`, or
`Fail(status)` with the HTTP status of the `ApiError` it throws. Creating handlers are proved against a pure function of the inputs:
`RegisterDecision`, `NewTask`, `NewSubtask` and `NewNote`. Each of those functions has its own
proved properties.

Some calls are outside the model and become functions the store is given: SHA-256,
bcrypt's hash and compare, JWT signing and verification, the `z.email()` format check, and the
file store's upload and delete, and Mongoose's cast of a string to an ObjectId (which strings it
accepts depends on the bson version). The clock (`now`, in milliseconds) and the random bytes of a
one-time token are handler parameters.

## Model

| member | source | states |
|---|---|---|
| Text.Any | src/validators/auth.validators.ts:12-17 | a one-class regex test holds exactly when some character is in the class |
| Text.All | src/validators/auth.validators.ts:7 | an anchored `^[x]*$` test: every character is in the class, so the empty string passes (`AlphabeticName` adds the non-emptiness of `+`) |
| Text.TrimStart | src/models/user.models.ts:50 | the result is a suffix of the input, does not start with whitespace, and only whitespace was removed |
| Text.TrimEnd | src/models/user.models.ts:50 | the result is a prefix of the input, does not end with whitespace, and only whitespace was removed |
| Text.Trim | src/models/user.models.ts:50 | the `trim` setter: the result is an infix of the input with only whitespace outside it, starts and ends with non-whitespace, and is empty exactly when the input is all whitespace |
| Text.TrimOfTrimmed | src/models/task.models.ts:23 | a value that neither starts nor ends with whitespace is a fixed point of the setter |
| Text.TrimIdempotent | src/models/task.models.ts:23 | applying the `trim` setter twice equals applying it once |
| Text.Lower | src/models/user.models.ts:49 | the `lowercase` setter on ASCII text: same length, each ASCII capital mapped to its own lower-case letter, every other character kept |
| Text.LowerIdempotent | src/models/user.models.ts:49 | lower-casing twice equals lower-casing once |
| Text.LowerKeepsTrimmed | src/models/user.models.ts:49-50 | lower-casing a trimmed value leaves it trimmed |
| Text.NormalizeIdempotent | src/models/user.models.ts:45-59 | the username/e-mail setters are idempotent, so a stored value is found again when it is used as a query value |
| UserType.ParseRole | src/types/usertype.ts:4-10 | a string is accepted as a role exactly when it is that role's value |
| UserType.AvailableUserRolesComplete | src/types/usertype.ts:10 | `AvailableUserRole` lists all four roles, with pairwise distinct values |
| UserType.ParseTaskStatus | src/types/usertype.ts:11-15 | `z.enum(AvailableTaskStatues)` accepts exactly "todo", "in_progress" and "done", each meaning its status |
| AuthValidators.Failing | src/validators/auth.validators.ts:8-18 | a check is reported exactly when it fails |
| AuthValidators.PasswordIssues | src/validators/auth.validators.ts:8-18 | each of the six checks of the password chain is reported exactly when it fails |
| AuthValidators.PasswordAcceptedIff | src/validators/auth.validators.ts:8-18 | a password is accepted iff its length is in [8, 64] and it has an ASCII lower-case letter, an upper-case letter, a digit and a character outside `[a-zA-Z0-9]` |
| AuthValidators.ValidateRegister | src/validators/auth.validators.ts:3-24 | accepted iff the e-mail is valid, the username is a non-empty run of ASCII letters, the password passes the chain, and any full name is alphabetic; the issues name only schema fields |
| AuthValidators.ValidateLogin | src/validators/auth.validators.ts:25-41 | accepted iff e-mail, alphabetic username and password all pass, yielding them unchanged |
| AuthValidators.LoginMatchesRegister | src/validators/auth.validators.ts:3-41 | login accepts exactly the bodies that registration without a full name accepts |
| AuthValidators.ValidateForgotPassword | src/validators/auth.validators.ts:42-44 | accepted iff the e-mail is present and valid; otherwise the issue is on `email` |
| AuthValidators.ValidateResetPassword | src/validators/auth.validators.ts:45-57 | accepted iff `newPassword` is present and passes the chain |
| AuthValidators.ValidateChangePassword | src/validators/auth.validators.ts:59-99 | accepted iff both passwords pass the chain and differ; issues only on the two fields |
| AuthValidators.ChangePasswordRejectsReuse | src/validators/auth.validators.ts:96-99 | reusing a valid old password is rejected with the issue on `newPassword` alone |
| TaskValidators.ValidateTaskDetails | src/validators/task.validators.ts:4-16 | accepted iff the title has 5-100 and the description 10-2000 characters; `assignedTo` is optional and kept |
| TaskValidators.ValidateTaskUpdate | src/validators/task.validators.ts:18-33 | accepted iff every field that is present is within its bounds and any status is an enum value, which is parsed to that status |
| TaskValidators.EmptyTaskUpdateAccepted | src/validators/task.validators.ts:18-33 | the empty update body is accepted and carries no field |
| TaskValidators.CreateBoundsHoldOnUpdate | src/validators/task.validators.ts:4-33 | a body accepted for creation is accepted for update, with the same title and description, provided any status it carries is valid |
| SubtaskValidators.ValidateSubtaskDetails | src/validators/subtask.validators.ts:3-13 | accepted iff the title has 5-50 characters and the description at most 2000 |
| SubtaskValidators.ValidateSubtaskUpdate | src/validators/subtask.validators.ts:14-27 | accepted iff each present title or description is within bounds; `completed` passes through |
| SubtaskValidators.EmptySubtaskDescriptionAccepted | src/validators/subtask.validators.ts:10-12 | the empty description passes the create schema, which sets no minimum |
| NoteValidators.ValidateNoteDetails | src/validators/note.validators.ts:3-13 | accepted iff the title has 5-50 characters and the content at most 1000; a missing field is always reported |
| NoteValidators.AcceptedNoteWithinBounds | src/validators/note.validators.ts:3-13 | an accepted payload has both fields within their bounds |
| ProjectValidators.ValidateProjectDetails | src/validators/project.validators.ts:3-14 | accepted iff the name has 5-50 characters and the description at most 2000 |
| ProjectValidators.EmptyProjectDescriptionAccepted | src/validators/project.validators.ts:11-13 | the empty project description is accepted |
| UserModel.CreateUserDocument | src/models/user.models.ts:45-89 | `create` applies the setters, leaves every other field at its default, and fails (500) exactly when a required field is empty after the setters |
| UserModel.PreSaved | src/models/user.models.ts:90-95 | the hook on the record: a modified password is replaced by its hash, an unmodified record is returned unchanged, and no other field ever changes |
| UserModel.SavedPasswordIsCorrect | src/models/user.models.ts:90-99 | after the hook stores the hash of a modified password, `isPasswordCorrect` accepts that password; an unmodified password is left as it was |
| UserModel.UserDocument.Loaded | src/models/user.models.ts:90-95 | a loaded document starts with nothing modified |
| UserModel.UserDocument.Created | src/models/user.models.ts:90-95 | a created document counts every path as modified |
| UserModel.UserDocument.SetPassword | src/models/user.models.ts:92 | assigning the password marks it modified and changes nothing else |
| UserModel.UserDocument.PreSave | src/models/user.models.ts:90-95 | the hook hashes the password exactly when it was modified, and otherwise leaves the record unchanged |
| UserModel.PasswordMatches | src/models/user.models.ts:97-99 | `bcrypt.compare(candidate, stored hash)`; `SavedPasswordIsCorrect`, `NewUserState` and `ResetConsumesToken` state when it holds |
| UserModel.UserDocument.IsPasswordCorrect | src/models/user.models.ts:97-99 | `isPasswordCorrect` on a loaded document is `PasswordMatches` of its current record |
| UserModel.HexDigit | src/models/user.models.ts:123 | a nibble becomes one lower-case hex digit |
| UserModel.HexValue | src/models/user.models.ts:123 | a hex digit's value is below 16 |
| UserModel.HexEncode | src/models/user.models.ts:123 | `toString("hex")` produces two lower-case hex digits per byte |
| UserModel.HexDigitValue | src/models/user.models.ts:123 | reading back a nibble's digit gives the nibble |
| UserModel.HexByteRoundTrip | src/models/user.models.ts:123 | a byte survives its two hex digits |
| UserModel.HexRoundTrip | src/models/user.models.ts:123 | hex decoding inverts hex encoding, so distinct random bytes give distinct plaintext tokens |
| UserModel.GenerateTemporaryToken | src/models/user.models.ts:122-129 | the stored value is the SHA-256 of the plaintext, the plaintext decodes to the random bytes, and the expiry is 1,200,000 ms after `now` |
| UserModel.FreshTokenMatchesUntilExpiry | src/models/user.models.ts:127 | a fresh verification token is accepted by its plaintext exactly while `now` is below issue time plus twenty minutes |
| UserModel.AccessTokenClaims | src/models/user.models.ts:101-107 | the access-token payload has exactly the keys `_id`, `email` and `username`, holding the user's values |
| UserModel.RefreshTokenClaims | src/models/user.models.ts:112-116 | the refresh-token payload has exactly the key `_id` |
| UserModel.ExpiresIn | src/models/user.models.ts:109 | the configured lifetime is used unless it is unset or empty |
| UserModel.DefaultLifetimes | src/models/user.models.ts:109-118 | without configuration, access tokens live "15m" and refresh tokens "10d" |
| UserModel.RefreshRequestsPerSecond | src/models/user.models.ts:112-120 | two refresh-token sign requests for one user are equal iff they fall in the same second |
| AuthControllers.UpdateKeepsIdentitiesUnique | src/models/user.models.ts:45-59 | replacing a user by a record with the same username and e-mail keeps the unique indexes satisfied |
| AuthControllers.InsertKeepsIdentitiesUnique | src/models/user.models.ts:45-59 | inserting an untaken username/e-mail under a fresh id keeps them unique |
| AuthControllers.InsertTwiceKeepsIdentitiesUnique | src/controllers/auth.controllers.ts:66-76 | creating and then re-saving a user under one fresh id stores the second record and keeps identities unique |
| AuthControllers.Verified | src/controllers/auth.controllers.ts:189-191 | the record becomes verified with its verification token and expiry unset, and no other field changes |
| AuthControllers.WithVerificationToken | src/controllers/auth.controllers.ts:214-215 | the record holds the new token's hash and expiry, and no other field changes |
| AuthControllers.WithResetToken | src/controllers/auth.controllers.ts:293-294 | the record holds the new reset token's hash and expiry, and no other field changes |
| AuthControllers.PasswordReset | src/controllers/auth.controllers.ts:339-342 | the reset token and expiry are unset and the new hash is the password; no other field changes |
| AuthControllers.WithRefreshToken | src/controllers/auth.controllers.ts:28-33 | the record holds the newly signed refresh token, and no other field changes |
| AuthControllers.LoggedOut | src/controllers/auth.controllers.ts:149-154 | the stored refresh token becomes the empty string, and no other field changes |
| AuthControllers.NewUser | src/controllers/auth.controllers.ts:66-76 | the registered record is exactly `create`'s document, after the save hook hashed its password, with the verification token issued to it |
| AuthControllers.RegisterDecision | src/controllers/auth.controllers.ts:45-65 | registration goes ahead iff the body is valid and nobody holds the normalised username or e-mail; otherwise 400 or 409 |
| AuthControllers.DuplicateRegistrationConflicts | src/controllers/auth.controllers.ts:61-65 | a valid registration whose normalised username or e-mail is held by someone is refused with 409 |
| AuthControllers.NewUserState | src/controllers/auth.controllers.ts:66-76 | a newly registered user is unverified, has no refresh or reset token, logs in with the registered password, and verifies with the mailed token until it expires |
| AuthControllers.MatchingVerification | src/controllers/auth.controllers.ts:182-185 | the users the verification filter finds: stored hash equal and expiry after `now` |
| AuthControllers.VerificationConsumesToken | src/controllers/auth.controllers.ts:182-192 | verifying removes exactly that user from the token's matches, so the same token cannot verify twice |
| AuthControllers.ReissueReplacesVerificationToken | src/controllers/auth.controllers.ts:212-216 | after a re-issue only the new token's hash matches, and only before its expiry |
| AuthControllers.ResetConsumesToken | src/controllers/auth.controllers.ts:332-343 | a reset clears the reset token, which then matches nothing, and the new password passes the login check |
| AuthControllers.RotationAcceptsOnlyNewToken | src/controllers/auth.controllers.ts:244-255 | once a refresh token is stored, exactly that token is accepted |
| AuthControllers.LogoutRefusesEveryToken | src/controllers/auth.controllers.ts:149-154 | after logout no non-empty refresh token is accepted |
| AuthControllers.IncomingRefreshToken | src/controllers/auth.controllers.ts:229-233 | the cookie is preferred; the body is used when the cookie is not truthy; absent when neither is truthy |
| AuthControllers.UserStore.constructor | src/models/user.models.ts:131 | an empty collection, with the given external functions |
| AuthControllers.UserStore.Save | src/models/user.models.ts:90-95 | `save` runs the hook and writes exactly that document back |
| AuthControllers.UserStore.Create | src/controllers/auth.controllers.ts:66-71 | `create` stores the record under a fresh id with its password hashed |
| AuthControllers.UserStore.GenerateAccessAndRefreshTokens | src/controllers/auth.controllers.ts:21-43 | succeeds iff the user exists, stores the newly signed refresh token on that user alone, and otherwise fails with 500 and changes nothing |
| AuthControllers.UserStore.Register | src/controllers/auth.controllers.ts:45-100 | follows `RegisterDecision` for 400/409; a failed `create` is 500; on success the new user is stored under a fresh id as `NewUser`, nothing else changes, and the mailed plaintext is the fresh token's |
| AuthControllers.UserStore.CreateWithVerificationToken | src/controllers/auth.controllers.ts:66-76 | the created user, with its password hashed and the verification token's hash and expiry, is stored under a fresh id |
| AuthControllers.UserStore.Login | src/controllers/auth.controllers.ts:102-148 | succeeds iff the body is valid, some user holds the e-mail, and the password matches; the returned access and refresh tokens are those signed for that user, who alone gets the new refresh token; every failure is 400 and changes nothing |
| AuthControllers.UserStore.Logout | src/controllers/auth.controllers.ts:149-165 | the caller's stored refresh token becomes empty; a missing caller changes nothing |
| AuthControllers.UserStore.VerifyEmail | src/controllers/auth.controllers.ts:174-202 | succeeds iff the token is non-empty and its hash matches an unexpired user, who becomes verified with the token cleared; every failure is 400 |
| AuthControllers.UserStore.ResendEmailVerification | src/controllers/auth.controllers.ts:204-226 | 404 for a missing caller, 409 for a verified one; otherwise only the caller's verification token and expiry change |
| AuthControllers.UserStore.RefreshAccessToken | src/controllers/auth.controllers.ts:228-271 | succeeds iff the incoming token verifies to an existing user whose stored token equals it; the returned access and refresh tokens are those signed for that user, and the new refresh token is stored on that user; every failure is 401 and changes nothing |
| AuthControllers.UserStore.ForgotPasswordRequest | src/controllers/auth.controllers.ts:272-313 | 400 for an invalid e-mail and 404 for an unknown one; otherwise only that user's reset token and expiry change |
| AuthControllers.UserStore.SaveNewPassword | src/controllers/auth.controllers.ts:339-343 | assigning and saving a password stores its hash together with the document's other changes |
| AuthControllers.UserStore.ResetForgotPassword | src/controllers/auth.controllers.ts:315-347 | the body is checked first (400), then an unexpired matching reset token (489); on success that user's token and expiry are cleared and the new password's hash is stored |
| AuthControllers.UserStore.ChangeCurrentPassword | src/controllers/auth.controllers.ts:348-376 | 400 for an invalid body, 404 for a missing caller, 400 for a wrong old password; on success only the caller's password hash changes |
| TaskModel.CreateTaskDocument | src/models/task.models.ts:18-73 | `Task.create` trims the title and defaults the status to `todo`; it fails (500) exactly when the trimmed title or the description is empty, a given assignee does not cast to an ObjectId, or an attachment is invalid |
| TaskModel.BlankTitleRefusedBySchema | src/models/task.models.ts:20-24 | a five-space title passes the validator but the schema refuses it |
| SubtaskModel.CreateSubtaskDocument | src/models/subtask.models.ts:12-39 | `Subtask.create` trims the title and starts uncompleted; it fails (500) exactly when the trimmed title or the description is empty |
| NoteModel.CreateNoteDocument | src/models/note.models.ts:10-28 | `ProjectNote.create` keeps project, creator and content, and fails (500) exactly when the content is empty |
| NoteModel.TitleNotStored | src/models/note.models.ts:10-28 | the title never reaches the stored note |
| TaskControllers.UploadOutcome | src/controllers/tasks.controllers.ts:52-80 | the attachment loop's result: a success carries one attachment per file; `UploadOutcomeOk`, `UploadOutcomeContents` and `UploadOutcomeBadRequest` give its cases |
| TaskControllers.UploadAttempts | src/controllers/tasks.controllers.ts:65-72 | the paths handed to the upload: never more than the files, and the first markdown file is always attempted; `UploadAttemptsShape` gives the rest |
| TaskControllers.UploadOutcomeOk | src/controllers/tasks.controllers.ts:52-80 | the attachment loop succeeds exactly when every file is markdown and uploaded; otherwise it fails with 400 or 500 |
| TaskControllers.UploadOutcomeContents | src/controllers/tasks.controllers.ts:74-78 | a successful loop yields one attachment per file, in file order, with that file's url, mimetype and size |
| TaskControllers.UploadOutcomeBadRequest | src/controllers/tasks.controllers.ts:55-63 | the loop fails with 400 exactly when some non-markdown file comes after files that were all stored |
| TaskControllers.UploadAttemptsShape | src/controllers/tasks.controllers.ts:65-72 | uploads are attempted on a markdown prefix of the files, every attempt but the last succeeded, and a successful loop attempted every file |
| TaskControllers.UploadStep | src/controllers/tasks.controllers.ts:53-79 | one stored file contributes its attachment and its upload attempt ahead of the rest |
| TaskControllers.NonMarkdownFileRejects | src/controllers/tasks.controllers.ts:55-63 | a non-markdown file always makes the loop fail, with 400 when every earlier file was stored |
| TaskControllers.TaskAt | src/controllers/tasks.controllers.ts:201-204 | the compound lookup finds a task iff it exists and belongs to the project |
| TaskControllers.TaskAtOtherProject | src/controllers/tasks.controllers.ts:291 | a task is never found through another project's id |
| TaskControllers.ProjectTasks | src/controllers/tasks.controllers.ts:23 | exactly the tasks of the project, unchanged |
| TaskControllers.Assignee | src/controllers/tasks.controllers.ts:86 | `assignedTo \|\| null`: kept iff truthy |
| TaskControllers.ApplyTaskUpdate | src/controllers/tasks.controllers.ts:243-265 | the `updateData` merge: project and creator are kept, and the existing attachments stay in front of the new ones |
| TaskControllers.ApplyTaskUpdateKeeps | src/controllers/tasks.controllers.ts:243-265 | an update keeps project and creator, keeps every field not given a truthy value, and appends new attachments after the existing ones |
| TaskControllers.EmptyTaskUpdateIsIdentity | src/controllers/tasks.controllers.ts:243-265 | an empty update without files leaves the task unchanged |
| TaskControllers.ApplyTaskUpdateIdempotent | src/controllers/tasks.controllers.ts:243-265 | repeating an update without files changes nothing more |
| TaskControllers.ApplyTaskUpdateMarkdown | src/controllers/tasks.controllers.ts:254-259 | appending markdown attachments keeps every attachment markdown |
| TaskControllers.ApplySubtaskUpdate | src/controllers/tasks.controllers.ts:388-402 | the subtask `updateData` merge: task and creator are kept, and a given `completed` becomes `isCompleted` |
| TaskControllers.ApplySubtaskUpdateKeeps | src/controllers/tasks.controllers.ts:388-402 | a subtask update keeps its task and creator, sets exactly the fields given, and the empty update is the identity |
| TaskControllers.SubtasksNotOf | src/controllers/tasks.controllers.ts:311 | `deleteMany({task})` leaves exactly the subtasks of other tasks |
| TaskControllers.Urls | src/controllers/tasks.controllers.ts:298-299 | the attachment urls, one per attachment, in order |
| TaskControllers.DeleteAttempts | src/controllers/tasks.controllers.ts:297-301 | the urls handed to the delete: never more than the urls, the first always attempted; `DeleteAttemptsShape` gives the rest |
| TaskControllers.DeleteAttemptsShape | src/controllers/tasks.controllers.ts:297-301 | deletions are attempted on a prefix of the urls; all of them, each succeeding, exactly when no delete throws |
| TaskControllers.NewTask | src/controllers/tasks.controllers.ts:32-98 | a task is created iff the id and body are valid, every file is markdown and stored with a non-empty url, the trimmed title is non-empty, and a truthy assignee casts to an ObjectId (500 otherwise); it is `todo`, assigned by the caller, with one attachment per file in order |
| TaskControllers.NewSubtask | src/controllers/tasks.controllers.ts:325-366 | a subtask is created iff the ids are valid, the task is found in the project, the body is valid and the trimmed title and description are non-empty; it is uncompleted and created by the caller |
| TaskControllers.NonMarkdownFileRejectsCreate | src/controllers/tasks.controllers.ts:55-63 | creation with a non-markdown file after stored files fails with 400 |
| TaskControllers.FailedUploadRejectsCreate | src/controllers/tasks.controllers.ts:66-72 | creation with a failed upload after stored files fails with 500 |
| TaskControllers.UncastableAssigneeRejectsCreate | src/controllers/tasks.controllers.ts:82-89 | an assignee that does not cast to an ObjectId makes creation fail with 500 after every file was uploaded |
| TaskControllers.UploadAttachments | src/controllers/tasks.controllers.ts:52-80 | the loop's outcome and its upload attempts are those the specification functions give |
| TaskControllers.DeleteAttachments | src/controllers/tasks.controllers.ts:297-301 | the loop succeeds iff no delete throws, and hands the store exactly `DeleteAttempts` |
| TaskControllers.TaskStore.constructor | src/models/task.models.ts:75 | empty collections and logs |
| TaskControllers.TaskStore.InsertTask | src/controllers/tasks.controllers.ts:82-89 | a markdown-only task is stored under a fresh id, nothing else changes |
| TaskControllers.TaskStore.InsertSubtask | src/controllers/tasks.controllers.ts:348-353 | a subtask of a stored task is stored under a fresh id, nothing else changes |
| TaskControllers.TaskStore.ListProjectTasks | src/controllers/tasks.controllers.ts:18-30 | 400 for a malformed id, 404 iff the project has no task, otherwise exactly the project's tasks |
| TaskControllers.TaskStore.CreateProjectTask | src/controllers/tasks.controllers.ts:32-98 | fails iff `NewTask` fails, with its status (500 for an assignee that does not cast) and no task stored; otherwise stores `NewTask`'s task under a fresh id; the upload log grows by the loop's attempts |
| TaskControllers.TaskStore.UpdateTask | src/controllers/tasks.controllers.ts:179-274 | 400 for malformed ids or body, 404 when the task is not in the project, the loop's status when it fails, 500 when a truthy assignee does not cast to an ObjectId; otherwise the merged task replaces the old one and nothing else changes |
| TaskControllers.TaskStore.DeleteTask | src/controllers/tasks.controllers.ts:276-323 | after the compound lookup, deletes every attachment url in order; a throw gives 500 and no collection changes; otherwise the task and exactly its subtasks are removed |
| TaskControllers.TaskStore.CreateSubTask | src/controllers/tasks.controllers.ts:325-366 | fails iff `NewSubtask` fails, with its status; otherwise stores its subtask under a fresh id |
| TaskControllers.TaskStore.UpdateSubTask | src/controllers/tasks.controllers.ts:368-412 | looked up by subtask id alone; the given fields are set, and 404 when it does not exist |
| TaskControllers.TaskStore.DeleteSubTask | src/controllers/tasks.controllers.ts:414-432 | removes the subtask with that id, whatever the project; 404 when it does not exist |
| NoteControllers.NoteAt | src/controllers/notes.controllers.ts:74-77 | the compound lookup finds a note iff it exists and belongs to the project |
| NoteControllers.NoteAtOtherProject | src/controllers/notes.controllers.ts:74-77 | a note is never reached through another project's id |
| NoteControllers.ProjectNotes | src/controllers/notes.controllers.ts:19 | exactly the notes of the project, unchanged |
| NoteControllers.NewNote | src/controllers/notes.controllers.ts:29-65 | the id is checked, then the body, then the project (404); a note is created iff all pass and the content is non-empty, recording project, caller and content |
| NoteControllers.ValidationBeforeProjectLookup | src/controllers/notes.controllers.ts:34-46 | for a missing project, an invalid body gives 400 and a valid one 404 |
| NoteControllers.NoteStore.constructor | src/models/note.models.ts:10-28 | no notes, the given projects |
| NoteControllers.NoteStore.ListProjectNotes | src/controllers/notes.controllers.ts:10-28 | 400 for a malformed id, 404 for a missing project, 404 iff it has no notes, otherwise exactly its notes |
| NoteControllers.NoteStore.CreateProjectNote | src/controllers/notes.controllers.ts:29-65 | fails iff `NewNote` fails, with its status; otherwise stores its note under a fresh id |
| NoteControllers.NoteStore.GetNoteDetails | src/controllers/notes.controllers.ts:66-84 | the note matching both ids, or 404 |
| NoteControllers.NoteStore.UpdateNote | src/controllers/notes.controllers.ts:85-120 | for a valid body, the note matching both ids gets the new content and nothing else changes; 404 otherwise |
| NoteControllers.NoteStore.DeleteNote | src/controllers/notes.controllers.ts:121-139 | removes only the note matching both ids; 404 otherwise |

## Left out

- bcrypt's salt and cost factor: the hash is a fixed function, so equal passwords hash alike in the model.
- Sending mail (`sendEmail`, the mail templates): the handlers return the plaintext token that would be mailed.
- The file store (`uploadOnCloudinary`, `deleteFromCloudinary`): their results are parameters. A delete that throws aborts `deleteTask` with 500.
- `getTaskDetails` (an aggregation pipeline with `$lookup`s into users and subtasks), the project controllers, `getCurrentUser`, the `verifyJwt` middleware and the routers are not part of this model; authorisation is not modelled. `src/app.ts:23-24` mounts only the healthcheck and auth routers, so the task and note handlers modelled here cannot be reached over HTTP in this version of the application.
- AuthControllers.UserStore.RefreshAccessToken: returns the new token pair on success, where the source replies 401. The response names `refreshToken`, which is not declared in that scope (src/controllers/auth.controllers.ts:259). It throws inside the `try` after the save at line 255, and the `catch` at lines 267-269 answers 401. So in the source every refresh that passes all checks rotates the stored token and still replies 401. The model keeps the store update and the 401 answers of the checks, not the response construction.
- Response envelopes, cookies and the fields hidden by `select`.
- String lengths count Dafny characters, not UTF-16 code units.
- Text.Lower: lower-cases ASCII letters only, not the whole of Unicode.
- Which strings cast to an ObjectId: the cast is a parameter; a stored task keeps the assignee as the string that was cast.
- The user's avatar sub-document and the timestamps.
- Branches that cannot fire: the second "User not found" check (src/controllers/auth.controllers.ts:30-32); the `createdUser` lookup after registration (src/controllers/auth.controllers.ts:85-90); a `deletedCount` of 0 after a successful lookup (src/controllers/tasks.controllers.ts:307-309); the 404 after the update (src/controllers/tasks.controllers.ts:267-269). Inside a handler, nothing else writes the collection between lookup and write, so the model has no such branches. The model's only `assert false` lines mark the first "User not found" check of `generateAccessAndRefreshTokens` (src/controllers/auth.controllers.ts:24-26), which login and refresh cannot reach because they call it with a user they have just found.
- Transactions, database failures and concurrency. `deleteTask` opens a session, but `Task.findOne`, `Task.deleteOne` and `Subtask.deleteMany` (src/controllers/tasks.controllers.ts:291, 303, 311) are not given it, so they run outside the transaction and nothing is rolled back. In the source, a `deleteMany` that fails after `deleteOne` leaves the task's subtasks orphaned. Database failures are not modelled, which is why `TaskStore.Valid`'s rule that every subtask's task is stored holds in the model. Each handler runs alone.
- The order in which zod reports issues and their messages: only the set of failing field paths is modelled.
- UserModel.GenerateTemporaryToken: takes random bytes of any length, where the source draws exactly 20.
- A duplicate-key error from the `unique` indexes: registration looks the username and e-mail up first, and the model keeps them unique as a proved invariant.
- `fullName`: validated at registration but never passed to `User.create`, so it is never stored.
- AuthControllers.UserStore.Login: picks some user holding the e-mail; the unique index makes that user the only one.
- NoteControllers.NoteStore.DeleteNote: returns the deleted note, where the handler replies with an empty object.
