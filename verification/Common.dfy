/** Types shared by every module of the model. */
module Common {
  datatype Option<+T> = None | Some(value: T)

  datatype Result<+T, +E> = Ok(value: T) | Err(error: E)

  newtype Byte = x: int | 0 <= x < 256

  /** The error numbers the modelled code tells apart; every other one is `Errno(n)`. */
  datatype Errno =
    | EINTR | EIO | EPIPE | ECHILD | EACCES | ENOENT | ENOTDIR
    | EBADF | EALREADY | EPROTO | EINVAL | Errno(n: int)
}
