/** Error numbers of the kernel interface. */
module Errno {
  const EPERM: int := 1
  const E2BIG: int := 7
  const EBADF: int := 9
  const ENOMEM: int := 12
  const EINVAL: int := 22
  const EMFILE: int := 24
  const EPROTO: int := 71
  const EOPNOTSUPP: int := 95
}
