/** How a call into a collaborator, or into a library routine that can raise,
    ends. Python exceptions are modelled as values: an HttpError raised by the
    Google client library, or any other exception, each with the text str(e). */
module Outcomes {

  datatype Option<T> = None | Some(value: T)

  datatype Fault =
    | HttpError(detail: string)
    | OtherError(detail: string)

  datatype Result<T> = Ok(value: T) | Err(fault: Fault)
}
