/** Result types shared by every module. */
module Prelude {
  datatype Option<+T> = None | Some(value: T)

  datatype Result<+T, +E> = Ok(value: T) | Err(error: E)

  /**
   Text that is only compared, copied and tested for being blank: identifiers, keys, digests,
   revisions. Each non-blank text has its own number; `BLANK` stands for every blank one.
   */
  type Name = nat

  const BLANK: Name := 0
}
