/**
  The HTTP exceptions the core raises: each is a status code and, for the
  application's own exceptions, a fixed message with `success: false`.
*/
module Exceptions {
  import opened Wrappers

  datatype HttpError =
    | ExerciseNotFound
    | ExerciseWithSuchNameAlreadyExists
    | ProgramNotFound
    | TrackNotFound
    | UserWithSuchEmailAlreadyExists
    | UserNotFound
    | PasswordIsIncorrect
    /** The generic 403 of the HTTP exception base module. */
    | Forbidden

  predicate IsNotFound(e: HttpError) {
    e.ExerciseNotFound? || e.ProgramNotFound? || e.TrackNotFound? || e.UserNotFound?
  }

  predicate IsConflict(e: HttpError) {
    e.ExerciseWithSuchNameAlreadyExists? || e.UserWithSuchEmailAlreadyExists?
  }

  function Status(e: HttpError): (code: int)
    ensures code == 404 <==> IsNotFound(e)
    ensures code == 409 <==> IsConflict(e)
    ensures code == 400 <==> e.PasswordIsIncorrect?
    ensures code == 403 <==> e.Forbidden?
  {
    match e
    case ExerciseNotFound => 404
    case ExerciseWithSuchNameAlreadyExists => 409
    case ProgramNotFound => 404
    case TrackNotFound => 404
    case UserWithSuchEmailAlreadyExists => 409
    case UserNotFound => 404
    case PasswordIsIncorrect => 400
    case Forbidden => 403
  }

  /** The `message` of the response body; the base module's Forbidden text is not modelled. */
  function Message(e: HttpError): Option<string> {
    match e
    case ExerciseNotFound => Some("EXERCISE_NOT_FOUND")
    case ExerciseWithSuchNameAlreadyExists => Some("EXERCISE_WITH_SUCH_NAME_ALREADY_EXISTS")
    case ProgramNotFound => Some("PROGRAM_NOT_FOUND")
    case TrackNotFound => Some("TRACK_NOT_FOUND")
    case UserWithSuchEmailAlreadyExists => Some("USER_WITH_SUCH_EMAIL_ALREADY_EXISTS")
    case UserNotFound => Some("USER_NOT_FOUND")
    case PasswordIsIncorrect => Some("PASSWORD_IS_INCORRECT")
    case Forbidden => None
  }
}
