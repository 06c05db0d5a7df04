/** Error numbers the code distinguishes. */
module Errno {
  datatype Errno =
    | EAGAIN | EINTR | ETIMEDOUT | EINVAL | ENOTSUP | EPROTO | EMSGSIZE | EBUSY
    | EACCES | EBADF | EIO | EEXIST | ENOSPC | ENOMEM | OtherError(code: nat)
}
