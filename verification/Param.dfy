/** Sizes that the log, the file system and the buffer cache share. */
module Param {
  const MAXOPBLOCKS: nat := 10            // blocks one operation may log
  const LOGSIZE: nat := 3 * MAXOPBLOCKS   // block numbers the log's header has room for
  const NBUF: nat := 3 * MAXOPBLOCKS      // buffers in the cache
}
