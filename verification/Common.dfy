/** What several of the models share. */
module Common {

  datatype Option<T> = None | Some(value: T)

  type Byte = b: nat | b < 0x100

  const UINT32: nat := 0x1_0000_0000

  /* Results of calls, as the C library numbers them */

  const ENOENT := 2
  const EIO := 5
  const EINVAL := 22
  const ENOSPC := 28
}
