/** Failure-carrying values shared by every module: `Option` for a value that
    may be absent (an empty input, `NaN`, an undefined `child.pid`) and
    `Result` for an operation that either returns or throws an `Error` whose
    message is the string carried by `Err`. */
module Results {

  datatype Option<+T> = None | Some(value: T)

  datatype Result<+T> = Ok(value: T) | Err(error: string)
}
