/** The sizes fixed in include/sys/param.h that more than one part of the kernel relies on. */
module Param {
  /** Sectors in the on-disk log, the header included. */
  const LOGSIZE: nat := 10
}
