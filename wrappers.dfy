/** `Option` stands for a JavaScript value that may be null or undefined;
    `Result` for a call that either returns or throws. */
module Wrappers {

  datatype Option<+T> = None | Some(value: T) {
    /** `value ?? default` for an optional setting. */
    function GetOr(default: T): T {
      if Some? then value else default
    }
  }

  datatype Result<+T> = Ok(value: T) | Throws
}
