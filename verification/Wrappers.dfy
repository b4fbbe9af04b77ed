/** What every module needs: options, the error numbers that calls return, and the unit of time. */
module Wrappers {
  datatype Option<+T> = None | Some(value: T)

  datatype Errno = Ok | EINVAL | EEXIST | ENOSPC | ECONNRESET | ECONNREFUSED | EAFNOSUPPORT | EMSGSIZE | EBADMSG

  /** Times are in nanoseconds. */
  const SECOND: nat := 1_000_000_000
}
