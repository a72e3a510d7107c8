/** Shared by every module. */
module Wrappers {
  datatype Option<+T> = None | Some(value: T)
}

/** Constants and small functions that several modules share (param.h, fs.h). */
module Params {
  const BSIZE: nat := 1024
  const MAXOPBLOCKS: nat := 10
  const LOGBLOCKS: nat := MAXOPBLOCKS * 3
  const UINT: nat := 0x1_0000_0000    // 32-bit unsigned arithmetic wraps here

  type Byte = x: nat | x < 256

  function Min(a: nat, b: nat): nat { if a < b then a else b }

  function Max(a: int, b: nat): nat { if a > b then a else b }
}

/** Disk blocks (fs.h, param.h): a block is 256 words, a disk a fixed number of blocks. */
module Blocks {
  import opened Params

  const WORDS := BSIZE / 4
  const ROOTDEV := 1

  type Block = s: seq<nat> | |s| == WORDS witness seq(WORDS, i => 0)
  type Disk = seq<Block>
}
