/** Sizes and error numbers that several parts of the model share. */
module Units {
  /** BDRV_SECTORS_PER_DIRTY_CHUNK. */
  const CHUNK: nat := 2048

  const EIO: int := 5

  const ENOMEDIUM: int := 123

  /** The number of 16-byte cipher blocks that hold `n` bytes. */
  function BlockCount(n: nat): nat { (n + 15) / 16 }
}
