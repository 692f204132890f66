/** The sizes of param.h that several parts share. */
module Params {
  const ROOTDEV := 1                 // device number of the root file system
  const MAXOPBLOCKS := 10            // blocks one file-system operation may log
  const LOGSIZE := MAXOPBLOCKS * 3   // blocks a transaction may list
  const NBUF := MAXOPBLOCKS * 3      // buffers in the cache
  const FSSIZE := 1000               // blocks of the file system
}
