// What several parts of the kernel and its programs share.

module Basics {
  datatype Option<T> = None | Some(value: T)
}

/** The constants of Ass2/param.h and Ass2/memlayout.h that more than one module needs. */
module Params {
  const MAXOPBLOCKS := 10
  const LOGSIZE := 3 * MAXOPBLOCKS
  const KERNBASE := 0x8000_0000
}
