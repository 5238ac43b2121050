// Failure-compatible result types shared by the model.
module Wrappers {
  // A nullable value: the pointers of the modelled program.
  datatype Option<+T> = None | Some(value: T) {
    function GetOr(default: T): T {
      if Some? then value else default
    }
  }

  // A value or an error, in place of a (value, error) pair.
  datatype Result<+T, +E> = Ok(value: T) | Err(error: E)
}
