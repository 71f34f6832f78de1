/** The three ways an operation of the scanner can end: a value, an error
    value returned to the caller (Rust's `Err`), or a panic raised by an
    `.expect("")` on a failed result, which aborts the whole call. */
module Outcomes {

  datatype Outcome<+T> = Ok(value: T) | Err(msg: string) | Panic

  datatype Option<+T> = None | Some(value: T)
}
