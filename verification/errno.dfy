/** The error codes the modules return. */
module Errno {

  const ENOEXEC: int := -8
  const ENOMEM: int := -12
  const EFAULT: int := -14
  const EEXIST: int := -17
  const EINVAL: int := -22
}
