/** Optional values and checked results shared by all modules.
    `Err` stands for a failed `TORCH_CHECK` (a thrown `c10::Error`). It
    carries the check's message arguments, joined as `c10::str` joins them;
    a check without message arguments carries the empty string. */
module Wrappers {
  datatype Option<T> = None | Some(value: T)

  datatype Result<T, E> = Ok(value: T) | Err(error: E)
}
