/** Failure-carrying values used by every component: Python's exceptions
    become `Err` values, so each error path of the source is a result. */
module Results {

  datatype Option<+T> = None | Some(value: T)

  datatype Result<+T, +E> = Ok(value: T) | Err(error: E)
}
