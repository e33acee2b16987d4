/** The kernel's error numbers. */
module Errno {
  const ENOENT := 2
  const EINTR := 4
  const EIO := 5
  const EACCES := 13
  const ENOTDIR := 20
  const EISDIR := 21
  const EINVAL := 22
  const EPROTO := 71
  const EOPNOTSUPP := 95
  const ENOTCONN := 107
  const ESTALE := 116
}
