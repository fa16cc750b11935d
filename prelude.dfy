/** Rust's prelude types as the model uses them: bytes (`u8`), `Option` and
    `anyhow::Result`, whose error is represented by its display text. */
module Prelude {

  /** A `u8`. */
  newtype byte = x: int | 0 <= x < 256

  datatype Option<+T> = None | Some(value: T)

  /** `anyhow::Result<T>`: the error is kept as the text `format!("{}", e)` shows. */
  datatype Result<+T> = Ok(value: T) | Err(error: string)
}
