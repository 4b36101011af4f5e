/** Disk blocks, disk images and the small Option datatype shared by the other modules. */
module Blocks {

  datatype Option<+T> = None | Some(value: T)

  /** A block is BSIZE = 1024 bytes, seen as 256 little-endian 32-bit words. */
  const BLOCKWORDS := 256

  type Word = x: int | 0 <= x < 0x1_0000_0000

  type Block = b: seq<Word> | |b| == BLOCKWORDS witness seq(BLOCKWORDS, i => 0)

  /** A disk image: block number to contents. One block write is atomic. */
  type Image = seq<Block>

  /** A sequence without repetitions. */
  ghost predicate Distinct<T>(s: seq<T>)
  {
    forall i, j :: 0 <= i < j < |s| ==> s[i] != s[j]
  }
}
