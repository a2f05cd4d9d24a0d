# self_encryption: chunk layout and size tracking of SelfEncryptor

This project models the core of `SelfEncryptor` in `src/lib.rs` of the
self_encryption library (convergent, content-addressed encryption of a file
split into chunks). In this version of the library the encryptor only tracks
the size of the file being written. It also has three private helpers that
lay the file out in chunks:

- `get_num_chunks` gives the chunk count;
- `get_chunk_size` gives the size of one chunk;
- `get_start_end_position` gives the byte range of one chunk.

Modules:

- `Encryptor` (encryptor.dfy): the `SelfEncryptor` class with its
  `fileSize` (u64) and `closed` fields, the constructor, `Write` and `Len`.
  `Write` is proved against `SizeAfterWrite`, the high-water mark of the old
  size and the end of the write. Lemmas cover idempotence and sequences of
  writes. A client method replays the unit test.
- `ChunkLayout` (layout.dfy): the three helpers as functions of the file
  size, written as the code computes them.
  - Rust's `u32`/`u64` are subset types.
  - The `as u32` casts are written out as `% 2^32`.
  - An overflowing u32 product in `get_start_end_position` is a panic, and
    is modelled as `None`.
  - The lemmas pin down each regime: inline (0 chunks below 3072 bytes),
    three near-equal chunks below 3 MiB, and MiB chunks with the last two
    rebalanced above that. They prove where the sizes sum to the file size
    and where chunk positions are contiguous. They also prove where neither
    holds.
- `IntendedLayout` (intended.dfy): the layout with the two off-by-ones of
  the Findings corrected. For it, the chunks are proved to tile every
  chunked file of at most 2^32 bytes exactly.

Two facts about the code's layout that are easy to get wrong:

- The three-chunk split does not always account for every byte. When the
  size divided by 3 leaves 2, the chunks cover one byte less than the file
  (Findings).
- Rebalancing happens only from 3 MiB on (`ChunkLayout.RebalancedExample`).
  A file of 2 MiB + 500 bytes is split into three chunks of 699217, 699217
  and 699218 bytes (`ChunkLayout.BoundaryScenarios`).

## Model

| member | source | states |
|---|---|---|
| `Encryptor.SelfEncryptor.constructor` | src/lib.rs:83-85 | the new encryptor holds exactly the given size and closed flag |
| `Encryptor.SelfEncryptor.Write` | src/lib.rs:87-95 | the new size is the high-water mark of the old size and position + length; `closed` is unchanged; nothing else changes |
| `Encryptor.SelfEncryptor.Len` | src/lib.rs:97-99 | returns the size the encryptor currently knows |
| `Encryptor.SizeAfterWrite` | src/lib.rs:88 | the size after a write is at least the old size and at least the end of the write, and equals one of the two |
| `Encryptor.WriteIdempotent` | src/lib.rs:88-94 | repeating the same write leaves the size where the first write put it |
| `Encryptor.HighWaterMark` | src/lib.rs:87-95 | after any sequence of writes the size is at least the initial size and every write's end, and equals one of them |
| `Encryptor.CheckWrite` | src/lib.rs:156-164 | writes of 3 bytes at 5 and of 30 bytes at 50 into empty encryptors give sizes 8 and 80 |
| `Encryptor.RepeatedWrite` | src/lib.rs:87-99 | two identical writes leave the encryptor as one does, and `Len` then returns the new size |
| `ChunkLayout.NumChunks` | src/lib.rs:105-113 | when the count does not wrap: 0 chunks exactly when the file is below 3 * MinChunkSize, and at least 3 otherwise |
| `ChunkLayout.NumChunksIsCeiling` | src/lib.rs:108-112 | from 3 * MaxChunkSize on, the count n satisfies (n - 1) * MaxChunkSize < size <= n * MaxChunkSize |
| `ChunkLayout.NumChunksThree` | src/lib.rs:106-109 | from 3 * MinChunkSize up to and including 3 * MaxChunkSize there are exactly 3 chunks |
| `ChunkLayout.NumChunksAtMost4096` | src/lib.rs:105-113 | a file of at most 2^32 bytes has at most 4096 chunks |
| `ChunkLayout.NumChunksWrapsForHugeFiles` | src/lib.rs:109-111 | the `as u32` cast makes a file of 2^32 full chunks report 0 chunks |
| `ChunkLayout.ManyChunkSize` | src/lib.rs:124-134 | in the many-chunk regime every chunk size lies in [MinChunkSize, MaxChunkSize] |
| `ChunkLayout.ChunkSize` | src/lib.rs:115-136 | the size is 0 exactly for inline files, and otherwise lies in [MinChunkSize, MaxChunkSize] for every index |
| `ChunkLayout.SumSizes` | src/lib.rs:115-136 | the first `count` chunks of a chunked file cover between count * MinChunkSize and count * MaxChunkSize bytes |
| `ChunkLayout.RemainderUnaffectedByCast` | src/lib.rs:125 | taking the remainder after the `as u32` cast gives the true remainder modulo MaxChunkSize |
| `ChunkLayout.ManyChunkSizes` | src/lib.rs:124-134 | chunks before the penultimate are MaxChunkSize. The last two are: both MaxChunkSize when r == 0; MaxChunkSize - MinChunkSize and MinChunkSize + r when 0 < r < MinChunkSize; MaxChunkSize and r otherwise |
| `ChunkLayout.FullPrefixSum` | src/lib.rs:124 | up to the penultimate chunk, the first k chunks of a many-chunk file cover exactly k * MaxChunkSize bytes |
| `ChunkLayout.ManyChunkSizesSum` | src/lib.rs:124-134 | in the many-chunk regime the chunk sizes sum to the file size in all three remainder cases |
| `ChunkLayout.ThreeChunkSizes` | src/lib.rs:117-122 | in the three-chunk regime chunks 0 and 1 are size / 3 and chunk 2 is larger by 0 (size % 3 == 0) or 1 |
| `ChunkLayout.ThreeChunkSizesSum` | src/lib.rs:117-122 | in the three-chunk regime the sizes sum to the file size, except when size % 3 == 2, where they sum to one byte less |
| `ChunkLayout.ThreeChunkSplitLosesAByte` | src/lib.rs:121 | a 3074-byte file's three chunks cover only 3073 bytes |
| `ChunkLayout.ChunkStart` | src/lib.rs:140-150 | chunk 0 of a chunked file starts at 0 |
| `ChunkLayout.StartEndPosition` | src/lib.rs:138-152 | (0, 0) for an inline file; otherwise a range whose length is the chunk's size; chunk 0 starts at 0 |
| `ChunkLayout.LastBranchUnreachable` | src/lib.rs:142-145 | no real chunk index equals get_chunk_size(0) - 1, so the `last` branch never positions a real chunk |
| `ChunkLayout.StartEndDefined` | src/lib.rs:144-149 | for files up to 2^32 bytes the u32 start computation never overflows for a real chunk |
| `ChunkLayout.ManyChunkPositions` | src/lib.rs:141-151 | in the many-chunk regime every real chunk, penultimate and last included, starts at chunk * MaxChunkSize |
| `ChunkLayout.ThreeChunkPositions` | src/lib.rs:141-151 | in the three-chunk regime the chunks start at 0, size / 3 and 2 * (size / 3) |
| `ChunkLayout.Contiguous` | src/lib.rs:141-151 | each chunk ends where the next one starts: for chunks 0 and 1 of a three-chunk file; for every chunk before the penultimate of any many-chunk file; and for the penultimate too when the file was not rebalanced |
| `ChunkLayout.LastChunkEndsAtFileSize` | src/lib.rs:141-151 | in a many-chunk file that was not rebalanced, the last chunk ends exactly at the file size |
| `ChunkLayout.RebalancedLastChunkGap` | src/lib.rs:141-151 | in a rebalanced file the last chunk starts MinChunkSize bytes after the penultimate ends, and ends MinChunkSize bytes past the end of the file |
| `ChunkLayout.RebalancedExample` | src/lib.rs:141-151 | a file of 3 MiB + 500 bytes has 4 chunks; chunk 2 is [2097152, 3144704) and chunk 3 is [3145728, 3147252) |
| `ChunkLayout.StartIsPrefixSum` | src/lib.rs:138-151 | a chunk's start equals the total size of the chunks before it, for every chunk except the last chunk of a rebalanced file |
| `ChunkLayout.BoundaryScenarios` | src/lib.rs:105-136 | 3071 bytes is inline. 3072 bytes gives three chunks of 1024. 3145727 bytes gives 3 chunks covering 3145726 bytes. 3145728 bytes gives 3 chunks of MaxChunkSize. 2097652 bytes gives 3 chunks |
| `IntendedLayout.IntendedChunkSize` | src/lib.rs:115-136 | corrected split: 0 exactly for inline files; otherwise in [MinChunkSize, MaxChunkSize + 1], exceeding MaxChunkSize only at 3 * MaxChunkSize - 1; unchanged in the many-chunk regime |
| `IntendedLayout.IntendedSumSizes` | src/lib.rs:115-136 | the first `count` corrected chunks of a chunked file cover at least count * MinChunkSize bytes |
| `IntendedLayout.IntendedChunkStart` | src/lib.rs:140-150 | with the corrected `last` test, chunk 0 still starts at 0 |
| `IntendedLayout.IntendedStartEndPosition` | src/lib.rs:138-152 | corrected positions: (0, 0) for an inline file, otherwise a range as long as the corrected chunk size |
| `IntendedLayout.IntendedSumSizesMany` | src/lib.rs:124-134 | in the many-chunk regime the corrected sizes are the as-written sizes |
| `IntendedLayout.IntendedSizesSum` | src/lib.rs:115-136 | with the corrected split the sizes sum to the file size for every chunked file |
| `IntendedLayout.IntendedManyPositions` | src/lib.rs:141-150 | with the corrected `last` test each many-chunk start is the total size of the chunks before it |
| `IntendedLayout.IntendedThreePositions` | src/lib.rs:141-151 | in the corrected three-chunk layout each start is the total size of the chunks before it |
| `IntendedLayout.IntendedPositionsArePrefixSums` | src/lib.rs:138-152 | with both corrections chunk i covers exactly the bytes from the total of the sizes before it to the total through it |
| `IntendedLayout.IntendedOversizedChunk` | src/lib.rs:121 | the corrected split gives a file of 3 * MaxChunkSize - 1 bytes a last chunk of MaxChunkSize + 1 bytes, where the code gives MaxChunkSize |
| `IntendedLayout.IntendedLayoutTilesFile` | src/lib.rs:138-152 | with both corrections chunk 0 starts at 0, each chunk ends where the next starts, and the last ends at the file size |
| `IntendedLayout.IntendedExamples` | src/lib.rs:121-145 | corrected, the 3074-byte file's last chunk is [2048, 3074) and the 3 MiB + 500 byte file's last chunk is [3144704, 3146228) |

## Left out

- `create_temp_dir` and the `tempdir` field (src/lib.rs:61-66, 75) are filesystem I/O with a panic path. `SelfEncryptor.constructor` takes no directory.
- `prepare_window` (src/lib.rs:102-103) has an empty body, so there is nothing to model. Windowed residency, eviction and chunk fetching do not exist in this code.
- `Write` does not store the bytes of `data`: the sequencer, data map and chunk table are commented out (src/lib.rs:72-74, 89-93). So the model makes no claim about file contents, reads or round trips.
- The `encryption` and `datamap` modules (src/lib.rs:53-55) are not part of this model. This covers key and IV derivation, hashing, ciphering and DataMap serialization.
- `closed` is only stored. The code has no close operation and no error on a write after closing.
- `Write`: requires position + length < 2^64. The u64 addition at src/lib.rs:88 panics (debug build) or wraps (release build) beyond that, and neither outcome is modelled.
- `ChunkSize`: requires the chunk count not to wrap (file size at most (2^32 - 1) * MaxChunkSize). Beyond that, the `as u32` at src/lib.rs:109-111 truncates the count, and `get_num_chunks() - 2` at line 124 can underflow. The same bound applies to `ManyChunkSize`, `SumSizes`, `IntendedChunkSize` and `IntendedSumSizes`.
- `StartEndPosition`: requires the file size to be at most 2^32 bytes. Above that, the u32 product at src/lib.rs:149 overflows even for real chunks. The same bound applies to `ChunkStart`, `IntendedStartEndPosition` and `IntendedChunkStart`.
- `StartEndPosition`: an overflowing u32 start is modelled as the debug-build panic (`None`). The release-build wrap-around is not modelled.

## Findings

| source | as written | input that shows it | evidently intended | confidence | as-written member | corrected member |
|---|---|---|---|---|---|---|
| src/lib.rs:121 | the last chunk of the three-chunk split is `file_size - (2 * file_size / 3)` | file_size 3074: chunks of 1024, 1024 and 1025 bytes cover 3073 bytes, so one byte is in no chunk | `file_size - 2 * (file_size / 3)`, so that the three chunks cover the file | not executed; high | `ChunkLayout.ThreeChunkSplitLosesAByte` | `IntendedLayout.IntendedSizesSum` |
| src/lib.rs:142 | the `last` test compares the index with `get_chunk_size(0) - 1` | file_size 3146228 (3 MiB + 500): chunk 2 ends at 3144704, but chunk 3 is placed at [3145728, 3147252), past the end of the file | compare with `get_num_chunks() - 1`, so that the last chunk follows the penultimate | not executed; high | `ChunkLayout.RebalancedLastChunkGap` | `IntendedLayout.IntendedLayoutTilesFile` |

With the first correction, the last chunk of a file of 3 * MaxChunkSize - 1
bytes is one byte longer than MaxChunkSize (`IntendedLayout.IntendedOversizedChunk`).
The code's formula avoids that only by dropping the byte.
