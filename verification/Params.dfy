/** The kernel's limits that several parts share. */
module Params {
  const MAXOPBLOCKS: nat := 10              // most blocks one file-system call writes
  const LOGSIZE: nat := MAXOPBLOCKS * 3     // most home blocks one log header can name
  const NBUF: nat := MAXOPBLOCKS * 3        // buffers in the cache
}

/** A value or its absence: the kernel's null results. */
module Options {
  datatype Option<T> = None | Some(value: T)
}
