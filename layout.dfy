/** Chunk layout of a self-encrypted file, as computed by the helper methods of
    SelfEncryptor (get_num_chunks, get_chunk_size, get_start_end_position).
    Each helper reads only the encryptor's file size, so each is modelled as a
    function of that size. Rust's fixed-width integers are written out: `u32`
    and `u64` are subset types, an `as u32` cast is an explicit `% U32Limit`,
    and a u32 product that would overflow (a panic) yields `None`. */
module ChunkLayout {

  const MinChunkSize: nat := 1024
  const MaxChunkSize: nat := 1048576

  const U32Limit: nat := 0x1_0000_0000
  const U64Limit: nat := 0x1_0000_0000_0000_0000

  /** Largest file size for which byte positions are modelled: above it the
      u32 product of get_start_end_position overflows for real chunks. */
  const MaxFileSize: nat := 0x1_0000_0000

  type u32 = x: nat | x < 0x1_0000_0000
  type u64 = x: nat | x < 0x1_0000_0000_0000_0000

  datatype Option<T> = None | Some(value: T)

  /** The byte range [start, end) of one chunk. */
  datatype Span = Span(start: u64, end: u64)

  /** The chunk count of get_num_chunks is not truncated by its `as u32`. */
  predicate CountFits(fileSize: nat) {
    fileSize <= (U32Limit - 1) * MaxChunkSize
  }

  /** The "many-chunk" regime: every chunk but the last two is MaxChunkSize. */
  predicate ManyChunks(fileSize: nat) {
    3 * MaxChunkSize <= fileSize
  }

  /** The "three-chunk" regime: the file is split into three near-equal chunks. */
  predicate ThreeChunks(fileSize: nat) {
    3 * MinChunkSize <= fileSize < 3 * MaxChunkSize
  }

  /** Many-chunk file whose last two chunks are rebalanced because the
      remainder is positive but below MinChunkSize. */
  predicate Rebalanced(fileSize: nat) {
    ManyChunks(fileSize) && 0 < fileSize % MaxChunkSize < MinChunkSize
  }

  // ---------------------------------------------------------------------------
  // get_num_chunks

  /** Number of chunks for a file of `fileSize` bytes; 0 means "too small to
      chunk" (stored inline). */
  function NumChunks(fileSize: u64): (n: u32)
    ensures CountFits(fileSize) ==> (n == 0 <==> fileSize < 3 * MinChunkSize)
    ensures CountFits(fileSize) && n != 0 ==> 3 <= n
  {
    if fileSize < 3 * MinChunkSize then 0
    else if fileSize < 3 * MaxChunkSize then 3
    else if fileSize % MaxChunkSize == 0 then (fileSize / MaxChunkSize) % U32Limit
    else (fileSize / MaxChunkSize + 1) % U32Limit
  }

  /** At and above 3 * MaxChunkSize the count is the ceiling of
      fileSize / MaxChunkSize: the least n with n chunks of MaxChunkSize
      covering the file. */
  lemma NumChunksIsCeiling(fileSize: u64)
    requires ManyChunks(fileSize) && CountFits(fileSize)
    ensures (NumChunks(fileSize) - 1) * MaxChunkSize < fileSize <= NumChunks(fileSize) * MaxChunkSize
  {
    var q := fileSize / MaxChunkSize;
    assert fileSize == q * MaxChunkSize + fileSize % MaxChunkSize;
  }

  /** Between the inline threshold and 3 * MaxChunkSize (inclusive) there are
      exactly three chunks; at exactly 3 * MaxChunkSize through the divisible
      branch. */
  lemma NumChunksThree(fileSize: u64)
    requires 3 * MinChunkSize <= fileSize <= 3 * MaxChunkSize
    ensures NumChunks(fileSize) == 3
  {
  }

  /** Files up to MaxFileSize have at most 4096 chunks. */
  lemma NumChunksAtMost4096(fileSize: u64)
    requires fileSize <= MaxFileSize
    ensures NumChunks(fileSize) <= 4096
  {
  }

  /** The `as u32` cast makes the count wrap: a file of 2^32 full chunks
      (4 PiB) is reported as having no chunks at all. */
  lemma NumChunksWrapsForHugeFiles()
    ensures NumChunks(U32Limit * MaxChunkSize) == 0
    ensures !CountFits(U32Limit * MaxChunkSize)
  {
  }

  // ---------------------------------------------------------------------------
  // get_chunk_size

  /** Size of chunk `chunk` in the many-chunk regime: MaxChunkSize except for
      the last two chunks, which are rebalanced so that the last one is never
      below MinChunkSize. Indices at or past the last chunk get its size. */
  function ManyChunkSize(fileSize: u64, chunk: u32): (size: u32)
    requires ManyChunks(fileSize) && CountFits(fileSize)
    ensures MinChunkSize <= size <= MaxChunkSize
  {
    var numChunks := NumChunks(fileSize);
    if chunk < numChunks - 2 then MaxChunkSize
    else
      var remainder := fileSize % U32Limit % MaxChunkSize;
      var penultimate := numChunks - 2 == chunk;
      if remainder == 0 then MaxChunkSize
      else if remainder < MinChunkSize then
        if penultimate then MaxChunkSize - MinChunkSize else MinChunkSize + remainder
      else if penultimate then MaxChunkSize
      else remainder
  }

  /** Size of chunk `chunk` of a file of `fileSize` bytes. */
  function ChunkSize(fileSize: u64, chunk: u32): (size: u32)
    requires CountFits(fileSize)
    ensures size == 0 <==> fileSize < 3 * MinChunkSize
    ensures 3 * MinChunkSize <= fileSize ==> MinChunkSize <= size <= MaxChunkSize
  {
    if fileSize < 3 * MinChunkSize then 0
    else if fileSize < 3 * MaxChunkSize then
      if chunk < 2 then fileSize / 3 else fileSize - 2 * fileSize / 3
    else ManyChunkSize(fileSize, chunk)
  }

  /** Total size of chunks 0 .. count-1. */
  function SumSizes(fileSize: u64, count: nat): (total: nat)
    requires CountFits(fileSize) && count <= U32Limit
    ensures total <= count * MaxChunkSize
    ensures count * MinChunkSize <= total || fileSize < 3 * MinChunkSize
  {
    if count == 0 then 0 else SumSizes(fileSize, count - 1) + ChunkSize(fileSize, count - 1)
  }

  /** The remainder computed after the `as u32` cast is the true remainder. */
  lemma RemainderUnaffectedByCast(fileSize: u64)
    ensures fileSize % U32Limit % MaxChunkSize == fileSize % MaxChunkSize
  {
    var q := fileSize / U32Limit;
    assert fileSize == q * U32Limit + fileSize % U32Limit;
    assert q * U32Limit == (q * 4096) * MaxChunkSize;
    ModOfMultipleSum(q * 4096, fileSize % U32Limit);
  }

  lemma ModOfMultipleSum(k: nat, a: nat)
    ensures (k * MaxChunkSize + a) % MaxChunkSize == a % MaxChunkSize
  {
  }

  /** In the many-chunk regime all chunks before the penultimate are full,
      and the last two are rebalanced exactly as the remainder dictates. */
  lemma ManyChunkSizes(fileSize: u64)
    requires ManyChunks(fileSize) && CountFits(fileSize)
    ensures var n := NumChunks(fileSize);
      && (forall i: u32 :: i < n - 2 ==> ChunkSize(fileSize, i) == MaxChunkSize)
      && (fileSize % MaxChunkSize == 0 ==>
            ChunkSize(fileSize, n - 2) == MaxChunkSize && ChunkSize(fileSize, n - 1) == MaxChunkSize)
      && (0 < fileSize % MaxChunkSize < MinChunkSize ==>
            ChunkSize(fileSize, n - 2) == MaxChunkSize - MinChunkSize
            && ChunkSize(fileSize, n - 1) == MinChunkSize + fileSize % MaxChunkSize)
      && (MinChunkSize <= fileSize % MaxChunkSize ==>
            ChunkSize(fileSize, n - 2) == MaxChunkSize
            && ChunkSize(fileSize, n - 1) == fileSize % MaxChunkSize)
  {
    RemainderUnaffectedByCast(fileSize);
  }

  /** The first `count` chunks of a many-chunk file, up to the penultimate,
      cover exactly count * MaxChunkSize bytes. */
  lemma {:induction false} FullPrefixSum(fileSize: u64, count: nat)
    requires ManyChunks(fileSize) && CountFits(fileSize)
    requires count <= NumChunks(fileSize) - 2
    ensures SumSizes(fileSize, count) == count * MaxChunkSize
  {
    if count > 0 {
      FullPrefixSum(fileSize, count - 1);
      ManyChunkSizes(fileSize);
      assert ChunkSize(fileSize, count - 1) == MaxChunkSize;
    }
  }

  /** In the many-chunk regime the chunk sizes add up to the file size, in
      all three remainder cases. */
  lemma ManyChunkSizesSum(fileSize: u64)
    requires ManyChunks(fileSize) && CountFits(fileSize)
    ensures SumSizes(fileSize, NumChunks(fileSize)) == fileSize
  {
    var n := NumChunks(fileSize);
    NumChunksIsCeiling(fileSize);
    ManyChunkSizes(fileSize);
    FullPrefixSum(fileSize, n - 2);
    var r := fileSize % MaxChunkSize;
    assert fileSize == (fileSize / MaxChunkSize) * MaxChunkSize + r;
    if r == 0 {
      assert fileSize / MaxChunkSize == n;
    } else {
      assert fileSize / MaxChunkSize == n - 1;
    }
    assert SumSizes(fileSize, n) == SumSizes(fileSize, n - 2) + ChunkSize(fileSize, n - 2) + ChunkSize(fileSize, n - 1);
  }

  /** In the three-chunk regime the first two chunks are fileSize / 3 bytes
      and the last one is at most one byte longer. */
  lemma ThreeChunkSizes(fileSize: u64)
    requires ThreeChunks(fileSize)
    ensures ChunkSize(fileSize, 0) == ChunkSize(fileSize, 1) == fileSize / 3
    ensures ChunkSize(fileSize, 2) - fileSize / 3 == if fileSize % 3 == 0 then 0 else 1
  {
  }

  /** As written, the three-chunk split drops one byte whenever
      fileSize % 3 == 2: its last chunk is fileSize - (2 * fileSize) / 3
      rather than fileSize - 2 * (fileSize / 3). */
  lemma ThreeChunkSizesSum(fileSize: u64)
    requires ThreeChunks(fileSize)
    ensures SumSizes(fileSize, NumChunks(fileSize)) == if fileSize % 3 == 2 then fileSize - 1 else fileSize
  {
    ThreeChunkSizes(fileSize);
    assert SumSizes(fileSize, 1) == ChunkSize(fileSize, 0);
    assert SumSizes(fileSize, 2) == SumSizes(fileSize, 1) + ChunkSize(fileSize, 1);
    assert SumSizes(fileSize, 3) == SumSizes(fileSize, 2) + ChunkSize(fileSize, 2);
  }

  /** A concrete file that loses a byte: 3074 bytes are split 1024, 1024, 1025. */
  lemma ThreeChunkSplitLosesAByte()
    ensures SumSizes(3074, NumChunks(3074)) == 3073
  {
    ThreeChunkSizesSum(3074);
  }

  // ---------------------------------------------------------------------------
  // get_start_end_position

  /** The start offset get_start_end_position computes for chunk `chunk` of a
      chunked file, before the u32 overflow check. */
  function ChunkStart(fileSize: u64, chunk: u32): (start: nat)
    requires fileSize <= MaxFileSize && NumChunks(fileSize) != 0
    ensures chunk == 0 ==> start == 0
  {
    var chunkSize0 := ChunkSize(fileSize, 0);
    var penultimate := NumChunks(fileSize) - 2 == chunk;
    var last := chunkSize0 - 1 == chunk;
    if last then
      chunkSize0 * (chunk - 2) + ChunkSize(fileSize, chunk - 2) + ChunkSize(fileSize, chunk - 1)
    else if penultimate then
      chunkSize0 * (chunk - 1) + ChunkSize(fileSize, chunk - 1)
    else
      chunkSize0 * chunk
  }

  /** Byte range [start, end) of chunk `chunk`; (0, 0) for an inline file.
      `None` stands for the overflow panic of the u32 start computation: its
      partial sums only grow, so it overflows exactly when the final value
      does. */
  function StartEndPosition(fileSize: u64, chunk: u32): (r: Option<Span>)
    requires fileSize <= MaxFileSize
    ensures NumChunks(fileSize) == 0 ==> r == Some(Span(0, 0))
    ensures r.Some? ==> r.value.end - r.value.start == ChunkSize(fileSize, chunk)
    ensures chunk == 0 ==> r == Some(Span(0, ChunkSize(fileSize, 0)))
  {
    if NumChunks(fileSize) == 0 then Some(Span(0, 0))
    else
      var start := ChunkStart(fileSize, chunk);
      if start >= U32Limit then None
      else Some(Span(start, start + ChunkSize(fileSize, chunk)))
  }

  /** The `last` branch compares with get_chunk_size(0) - 1, which is never
      the index of a real chunk: every chunk, the last one included, is
      positioned by the other two branches. */
  lemma LastBranchUnreachable(fileSize: u64, chunk: u32)
    requires fileSize <= MaxFileSize && chunk < NumChunks(fileSize)
    ensures chunk != ChunkSize(fileSize, 0) - 1
  {
    NumChunksAtMost4096(fileSize);
    if ManyChunks(fileSize) {
      ManyChunkSizes(fileSize);
    }
  }

  /** In the many-chunk regime every chunk, the penultimate and last
      included, starts at chunk * MaxChunkSize, and no start overflows. */
  lemma ManyChunkPositions(fileSize: u64, chunk: u32)
    requires ManyChunks(fileSize) && fileSize <= MaxFileSize
    requires chunk < NumChunks(fileSize)
    ensures StartEndPosition(fileSize, chunk)
         == Some(Span(chunk * MaxChunkSize, chunk * MaxChunkSize + ChunkSize(fileSize, chunk)))
  {
    var n := NumChunks(fileSize);
    NumChunksAtMost4096(fileSize);
    ManyChunkSizes(fileSize);
    LastBranchUnreachable(fileSize, chunk);
    assert ChunkSize(fileSize, 0) == MaxChunkSize;
    if chunk == n - 2 {
      assert ChunkSize(fileSize, chunk - 1) == MaxChunkSize;
      assert MaxChunkSize * (chunk - 1) + MaxChunkSize == chunk * MaxChunkSize;
    }
    assert chunk * MaxChunkSize <= 4095 * MaxChunkSize;
  }

  /** In the three-chunk regime the chunks sit at 0, fileSize / 3 and
      2 * (fileSize / 3). */
  lemma ThreeChunkPositions(fileSize: u64)
    requires ThreeChunks(fileSize)
    ensures var q := fileSize / 3;
      && StartEndPosition(fileSize, 0) == Some(Span(0, q))
      && StartEndPosition(fileSize, 1) == Some(Span(q, 2 * q))
      && StartEndPosition(fileSize, 2) == Some(Span(2 * q, 2 * q + ChunkSize(fileSize, 2)))
  {
    ThreeChunkSizes(fileSize);
  }

  /** Every real chunk of a file up to MaxFileSize gets a byte range: the
      start computation never overflows for an index below get_num_chunks. */
  lemma StartEndDefined(fileSize: u64, chunk: u32)
    requires fileSize <= MaxFileSize && chunk < NumChunks(fileSize)
    ensures StartEndPosition(fileSize, chunk).Some?
  {
    if ManyChunks(fileSize) {
      ManyChunkPositions(fileSize, chunk);
    } else {
      ThreeChunkPositions(fileSize);
    }
  }

  /** Where the layout is correct, each chunk ends where the next one starts:
      chunks 0 and 1 of a three-chunk file, every chunk before the penultimate
      of a many-chunk file, and the penultimate too when the file was not
      rebalanced. Only the step from the penultimate to the last chunk of a
      rebalanced file is excluded (see RebalancedLastChunkGap). */
  lemma Contiguous(fileSize: u64, chunk: u32)
    requires fileSize <= MaxFileSize
    requires || (ThreeChunks(fileSize) && chunk < 2)
             || (ManyChunks(fileSize)
                 && (chunk + 2 < NumChunks(fileSize) || (!Rebalanced(fileSize) && chunk + 1 < NumChunks(fileSize))))
    ensures StartEndPosition(fileSize, chunk).Some? && StartEndPosition(fileSize, chunk + 1).Some?
    ensures StartEndPosition(fileSize, chunk).value.end == StartEndPosition(fileSize, chunk + 1).value.start
  {
    if ThreeChunks(fileSize) {
      ThreeChunkPositions(fileSize);
    } else {
      var n := NumChunks(fileSize);
      ManyChunkPositions(fileSize, chunk);
      ManyChunkPositions(fileSize, chunk + 1);
      ManyChunkSizes(fileSize);
      assert ChunkSize(fileSize, chunk) == MaxChunkSize;
    }
  }

  /** A many-chunk file that was not rebalanced has its last chunk ending
      exactly at the file size. */
  lemma LastChunkEndsAtFileSize(fileSize: u64)
    requires fileSize <= MaxFileSize && ManyChunks(fileSize) && !Rebalanced(fileSize)
    ensures StartEndPosition(fileSize, NumChunks(fileSize) - 1) == Some(Span(fileSize - ChunkSize(fileSize, NumChunks(fileSize) - 1), fileSize))
  {
    var n := NumChunks(fileSize);
    ManyChunkPositions(fileSize, n - 1);
    ManyChunkSizes(fileSize);
    NumChunksIsCeiling(fileSize);
    var r := fileSize % MaxChunkSize;
    assert fileSize == (fileSize / MaxChunkSize) * MaxChunkSize + r;
    if r == 0 {
      assert fileSize / MaxChunkSize == n;
    } else {
      assert fileSize / MaxChunkSize == n - 1;
    }
  }

  /** As written, a rebalanced file's last chunk is placed by the `else`
      branch at (n - 1) * MaxChunkSize: it starts MinChunkSize bytes past the
      end of the shortened penultimate chunk and ends MinChunkSize bytes past
      the end of the file. */
  lemma RebalancedLastChunkGap(fileSize: u64)
    requires fileSize <= MaxFileSize && Rebalanced(fileSize)
    ensures var n := NumChunks(fileSize);
      && StartEndPosition(fileSize, n - 2).Some? && StartEndPosition(fileSize, n - 1).Some?
      && StartEndPosition(fileSize, n - 1).value.start == StartEndPosition(fileSize, n - 2).value.end + MinChunkSize
      && StartEndPosition(fileSize, n - 1).value.end == fileSize + MinChunkSize
  {
    var n := NumChunks(fileSize);
    ManyChunkPositions(fileSize, n - 2);
    ManyChunkPositions(fileSize, n - 1);
    ManyChunkSizes(fileSize);
    NumChunksIsCeiling(fileSize);
    var r := fileSize % MaxChunkSize;
    assert fileSize == (fileSize / MaxChunkSize) * MaxChunkSize + r;
    assert fileSize / MaxChunkSize == n - 1;
  }

  /** A concrete rebalanced file: 3 MiB + 500 bytes has four chunks, and the
      last one is placed at [3 MiB, 3 MiB + 1524) instead of
      [3 MiB - 1024, 3 MiB + 500). */
  lemma RebalancedExample()
    ensures NumChunks(3146228) == 4
    ensures StartEndPosition(3146228, 2) == Some(Span(2097152, 3144704))
    ensures StartEndPosition(3146228, 3) == Some(Span(3145728, 3147252))
  {
    RebalancedLastChunkGap(3146228);
    ManyChunkPositions(3146228, 2);
    ManyChunkPositions(3146228, 3);
    ManyChunkSizes(3146228);
  }

  /** Chunk starts agree with the running total of chunk sizes wherever the
      as-written layout is correct: for every chunk but the last, and for the
      last one too unless the file was rebalanced. */
  lemma StartIsPrefixSum(fileSize: u64, chunk: u32)
    requires fileSize <= MaxFileSize && chunk < NumChunks(fileSize)
    requires chunk + 1 < NumChunks(fileSize) || !Rebalanced(fileSize)
    ensures StartEndPosition(fileSize, chunk).Some?
    ensures StartEndPosition(fileSize, chunk).value.start == SumSizes(fileSize, chunk)
  {
    var n := NumChunks(fileSize);
    if ManyChunks(fileSize) {
      ManyChunkPositions(fileSize, chunk);
      if chunk <= n - 2 {
        FullPrefixSum(fileSize, chunk);
      } else {
        FullPrefixSum(fileSize, n - 2);
        ManyChunkSizes(fileSize);
        assert SumSizes(fileSize, chunk) == SumSizes(fileSize, n - 2) + ChunkSize(fileSize, n - 2);
      }
    } else {
      ThreeChunkPositions(fileSize);
      ThreeChunkSizes(fileSize);
      assert SumSizes(fileSize, 2) == ChunkSize(fileSize, 0) + ChunkSize(fileSize, 1);
    }
  }

  /** Boundary sizes: just below and at the inline threshold, just below and at 3 * MaxChunkSize, and 2 MiB + 500 bytes,
      which lies in the three-chunk regime and is therefore not rebalanced. */
  lemma BoundaryScenarios()
    ensures NumChunks(3071) == 0 && ChunkSize(3071, 0) == 0
    ensures NumChunks(3072) == 3
    ensures ChunkSize(3072, 0) == 1024 && ChunkSize(3072, 1) == 1024 && ChunkSize(3072, 2) == 1024
    ensures NumChunks(3145727) == 3 && SumSizes(3145727, 3) == 3145726
    ensures NumChunks(3145728) == 3
    ensures ChunkSize(3145728, 0) == MaxChunkSize && ChunkSize(3145728, 1) == MaxChunkSize
    ensures ChunkSize(3145728, 2) == MaxChunkSize
    ensures NumChunks(2097652) == 3
    ensures ChunkSize(2097652, 1) == 699217 && ChunkSize(2097652, 2) == 699218
  {
    ThreeChunkSizesSum(3145727);
    ManyChunkSizes(3145728);
  }
}
