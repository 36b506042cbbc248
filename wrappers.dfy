/** Option and Result, the two failure-carrying shapes the Rust code uses
    (`Option<u8>` from the cursor, `Result<_, ()>` from construction and lexing). */
module Wrappers {

  datatype Option<+T> = None | Some(value: T)

  datatype Result<+R, +E> = Ok(value: R) | Err(error: E)
}
