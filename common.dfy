/** Types shared by every part of the model: optional values, handler outcomes and path ids. */
module Common {

  /** A value that may be absent (`undefined` in the application). */
  datatype Option<+T> = None | Some(value: T)

  /** What a request handler ends with: a value, or the HTTP status of the `ApiError` it throws. */
  datatype Outcome<+T> = Ok(value: T) | Fail(status: int)

  /** Document ids (Mongo ObjectIds), abstracted to naturals. */
  type Id = nat

  /** A path parameter once `isValidObjectId` has looked at it. */
  datatype PathId = ObjectId(id: Id) | Malformed

  const BadRequest := 400
  const Unauthorized := 401
  const NotFound := 404
  const Conflict := 409
  /** The status `resetForgotPassword` uses for an invalid or expired reset token. */
  const ResetTokenRejected := 489
  const InternalError := 500
}
