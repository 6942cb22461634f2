/** The JSON responses the route handlers return, with their HTTP status. */
module Responses {
  import opened JsValues
  import opened Zod
  import opened Backend

  datatype Body =
    | Message(message: string)                        // { message }
    | Error(error: string)                            // { error: "<text>" }
    | ValidationError(issues: seq<Issue>)             // { error: validation.error }
    | UploadFailed(uploadError: UploadError)          // { error: uploadError.message }
    | Failure(failure: string)                        // { error, message }, for a caught exception
    | CourseCreated(course: CourseRow, created: string)
    | MentorCreated(mentor: MentorRow, createdMentor: string)
    | UserResult(user: Option<UserRow>, outcome: string)

  datatype Response = Response(status: int, body: Body)
}
