/** Result shapes shared by every module of the model. */
module Base {

  datatype Option<+T> = None | Some(value: T)

  /** How one operation ends: with a value, with an `AppError(message, status)` that the
      code throws itself, or with an error raised inside a collaborator (the record store)
      that the code lets through without mapping it to a status. */
  datatype Outcome<+T> =
    | Ok(value: T)
    | Err(status: int, message: string)
    | Fault(reason: string)
}
