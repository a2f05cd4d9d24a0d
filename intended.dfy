/** The chunk layout with its two off-by-ones corrected: the three-chunk split
    gives its last chunk fileSize - 2 * (fileSize / 3), and the `last` test of
    get_start_end_position compares the index with get_num_chunks() - 1. With
    both corrections the chunks tile the file exactly. */
module IntendedLayout {
  import opened ChunkLayout

  /** Chunk size with the three-chunk split corrected. Giving the whole
      remainder to the last chunk makes it one byte longer than MaxChunkSize
      for a file of 3 * MaxChunkSize - 1 bytes (see IntendedOversizedChunk). */
  function IntendedChunkSize(fileSize: u64, chunk: u32): (size: u32)
    requires CountFits(fileSize)
    ensures size == 0 <==> fileSize < 3 * MinChunkSize
    ensures 3 * MinChunkSize <= fileSize ==> MinChunkSize <= size <= MaxChunkSize + 1
    ensures size == MaxChunkSize + 1 ==> fileSize == 3 * MaxChunkSize - 1
    ensures ManyChunks(fileSize) ==> size == ChunkSize(fileSize, chunk)
  {
    if fileSize < 3 * MinChunkSize then 0
    else if fileSize < 3 * MaxChunkSize then
      if chunk < 2 then fileSize / 3 else fileSize - 2 * (fileSize / 3)
    else ManyChunkSize(fileSize, chunk)
  }

  /** Total size of chunks 0 .. count-1 under the corrected split. */
  function IntendedSumSizes(fileSize: u64, count: nat): (total: nat)
    requires CountFits(fileSize) && count <= U32Limit
    ensures total <= count * (MaxChunkSize + 1)
    ensures count * MinChunkSize <= total || fileSize < 3 * MinChunkSize
  {
    if count == 0 then 0 else IntendedSumSizes(fileSize, count - 1) + IntendedChunkSize(fileSize, count - 1)
  }

  /** Start offset of chunk `chunk`, with the `last` test corrected. */
  function IntendedChunkStart(fileSize: u64, chunk: u32): (start: nat)
    requires fileSize <= MaxFileSize && NumChunks(fileSize) != 0
    ensures chunk == 0 ==> start == 0
  {
    var chunkSize0 := IntendedChunkSize(fileSize, 0);
    var penultimate := NumChunks(fileSize) - 2 == chunk;
    var last := NumChunks(fileSize) - 1 == chunk;
    if last then
      chunkSize0 * (chunk - 2) + IntendedChunkSize(fileSize, chunk - 2) + IntendedChunkSize(fileSize, chunk - 1)
    else if penultimate then
      chunkSize0 * (chunk - 1) + IntendedChunkSize(fileSize, chunk - 1)
    else
      chunkSize0 * chunk
  }

  /** Byte range of chunk `chunk` with both corrections; `None` on u32
      overflow, as in the as-written model. */
  function IntendedStartEndPosition(fileSize: u64, chunk: u32): (r: Option<Span>)
    requires fileSize <= MaxFileSize
    ensures NumChunks(fileSize) == 0 ==> r == Some(Span(0, 0))
    ensures r.Some? ==> r.value.end - r.value.start == IntendedChunkSize(fileSize, chunk)
    ensures chunk == 0 ==> r == Some(Span(0, IntendedChunkSize(fileSize, 0)))
  {
    if NumChunks(fileSize) == 0 then Some(Span(0, 0))
    else
      var start := IntendedChunkStart(fileSize, chunk);
      if start >= U32Limit then None
      else Some(Span(start, start + IntendedChunkSize(fileSize, chunk)))
  }

  /** In the many-chunk regime the correction changes no chunk size. */
  lemma {:induction false} IntendedSumSizesMany(fileSize: u64, count: nat)
    requires ManyChunks(fileSize) && CountFits(fileSize) && count <= U32Limit
    ensures IntendedSumSizes(fileSize, count) == SumSizes(fileSize, count)
  {
    if count > 0 {
      IntendedSumSizesMany(fileSize, count - 1);
    }
  }

  /** With the corrected split the chunk sizes add up to the file size for
      every chunked file, in both regimes. */
  lemma IntendedSizesSum(fileSize: u64)
    requires CountFits(fileSize) && 3 * MinChunkSize <= fileSize
    ensures IntendedSumSizes(fileSize, NumChunks(fileSize)) == fileSize
  {
    if ManyChunks(fileSize) {
      IntendedSumSizesMany(fileSize, NumChunks(fileSize));
      ManyChunkSizesSum(fileSize);
    } else {
      assert IntendedSumSizes(fileSize, 1) == fileSize / 3;
      assert IntendedSumSizes(fileSize, 2) == 2 * (fileSize / 3);
      assert IntendedSumSizes(fileSize, 3) == fileSize;
    }
  }

  /** Many-chunk case of IntendedPositionsArePrefixSums. */
  lemma IntendedManyPositions(fileSize: u64, chunk: u32)
    requires fileSize <= MaxFileSize && ManyChunks(fileSize) && chunk < NumChunks(fileSize)
    ensures IntendedChunkStart(fileSize, chunk) == SumSizes(fileSize, chunk)
  {
    var n := NumChunks(fileSize);
    NumChunksAtMost4096(fileSize);
    ManyChunkSizes(fileSize);
    assert IntendedChunkSize(fileSize, 0) == MaxChunkSize;
    if chunk < n - 2 {
      FullPrefixSum(fileSize, chunk);
      assert IntendedChunkStart(fileSize, chunk) == MaxChunkSize * chunk;
    } else if chunk == n - 2 {
      FullPrefixSum(fileSize, chunk);
      assert IntendedChunkSize(fileSize, chunk - 1) == MaxChunkSize;
      assert IntendedChunkStart(fileSize, chunk) == MaxChunkSize * (chunk - 1) + MaxChunkSize;
    } else {
      FullPrefixSum(fileSize, n - 2);
      assert IntendedChunkSize(fileSize, chunk - 2) == MaxChunkSize;
      assert IntendedChunkStart(fileSize, chunk)
          == MaxChunkSize * (chunk - 2) + MaxChunkSize + ChunkSize(fileSize, n - 2);
      assert SumSizes(fileSize, n - 1) == SumSizes(fileSize, n - 2) + ChunkSize(fileSize, n - 2);
    }
  }

  /** Three-chunk case of IntendedPositionsArePrefixSums. */
  lemma IntendedThreePositions(fileSize: u64, chunk: u32)
    requires ThreeChunks(fileSize) && chunk < 3
    ensures IntendedChunkStart(fileSize, chunk) == IntendedSumSizes(fileSize, chunk)
    ensures IntendedSumSizes(fileSize, chunk + 1) == IntendedSumSizes(fileSize, chunk) + IntendedChunkSize(fileSize, chunk)
  {
    assert NumChunks(fileSize) == 3;
    assert IntendedSumSizes(fileSize, 1) == fileSize / 3;
    assert IntendedSumSizes(fileSize, 2) == 2 * (fileSize / 3);
  }

  /** With both corrections every chunk occupies exactly the bytes between
      the running totals of the sizes before and through it. */
  lemma IntendedPositionsArePrefixSums(fileSize: u64, chunk: u32)
    requires fileSize <= MaxFileSize && chunk < NumChunks(fileSize)
    ensures IntendedStartEndPosition(fileSize, chunk)
         == Some(Span(IntendedSumSizes(fileSize, chunk), IntendedSumSizes(fileSize, chunk + 1)))
  {
    var start := IntendedChunkStart(fileSize, chunk);
    if ManyChunks(fileSize) {
      NumChunksAtMost4096(fileSize);
      IntendedManyPositions(fileSize, chunk);
      IntendedSumSizesMany(fileSize, chunk);
      IntendedSumSizesMany(fileSize, chunk + 1);
      assert start <= chunk * MaxChunkSize <= 4095 * MaxChunkSize;
    } else {
      IntendedThreePositions(fileSize, chunk);
      assert start <= 2 * (fileSize / 3);
    }
    assert IntendedSumSizes(fileSize, chunk + 1) == start + IntendedChunkSize(fileSize, chunk);
  }

  /** The corrected split's one oversized chunk. */
  lemma IntendedOversizedChunk()
    ensures IntendedChunkSize(3 * MaxChunkSize - 1, 2) == MaxChunkSize + 1
    ensures ChunkSize(3 * MaxChunkSize - 1, 2) == MaxChunkSize
  {
  }

  /** With both corrections the chunks tile the file: chunk 0 starts at 0,
      each chunk starts where the previous one ends, and the last one ends at
      the file size. */
  lemma IntendedLayoutTilesFile(fileSize: u64, chunk: u32)
    requires fileSize <= MaxFileSize && chunk < NumChunks(fileSize)
    ensures IntendedStartEndPosition(fileSize, chunk).Some?
    ensures chunk == 0 ==> IntendedStartEndPosition(fileSize, chunk).value.start == 0
    ensures chunk + 1 < NumChunks(fileSize) ==>
      && IntendedStartEndPosition(fileSize, chunk + 1).Some?
      && IntendedStartEndPosition(fileSize, chunk).value.end == IntendedStartEndPosition(fileSize, chunk + 1).value.start
    ensures chunk + 1 == NumChunks(fileSize) ==> IntendedStartEndPosition(fileSize, chunk).value.end == fileSize
  {
    IntendedPositionsArePrefixSums(fileSize, chunk);
    if chunk + 1 < NumChunks(fileSize) {
      IntendedPositionsArePrefixSums(fileSize, chunk + 1);
    } else {
      IntendedSizesSum(fileSize);
    }
  }

  /** The two files that expose the off-by-ones are laid out correctly once
      corrected. */
  lemma IntendedExamples()
    ensures IntendedStartEndPosition(3074, 2) == Some(Span(2048, 3074))
    ensures IntendedStartEndPosition(3146228, 3) == Some(Span(3144704, 3146228))
  {
    IntendedLayoutTilesFile(3074, 2);
    IntendedPositionsArePrefixSums(3074, 2);
    IntendedSizesSum(3074);
    IntendedLayoutTilesFile(3146228, 3);
    IntendedPositionsArePrefixSums(3146228, 3);
    IntendedSizesSum(3146228);
    ManyChunkSizes(3146228);
  }
}
