/** Optional values and results with an error, used wherever the storefront
    either produces a value or rejects its input. */
module Options {

  datatype Option<+T> = None | Some(value: T)

  datatype Result<+T, +E> = Ok(value: T) | Err(error: E)
}
