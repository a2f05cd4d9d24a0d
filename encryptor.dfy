/** The SelfEncryptor object: it tracks the known size of the file being
    written and an open/closed flag. `write` only extends the known size; the
    bytes themselves are not stored anywhere. */
module Encryptor {
  import opened ChunkLayout

  /** The file size after a write of `length` bytes at `position`: the
      high-water mark of the old size and the end of the write. */
  function SizeAfterWrite(size: nat, length: nat, position: nat): (newSize: nat)
    ensures size <= newSize && position + length <= newSize
    ensures newSize == size || newSize == position + length
  {
    if size < position + length then position + length else size
  }

  /** One call of `write`, without its data. */
  datatype WriteCall = WriteCall(length: nat, position: nat)

  /** The offset one past the last byte a write touches. */
  function End(w: WriteCall): nat {
    w.position + w.length
  }

  /** The file size after a sequence of writes, applied in order. */
  function SizeAfterWrites(size: nat, writes: seq<WriteCall>): nat
    decreases |writes|
  {
    if writes == [] then size
    else SizeAfterWrites(SizeAfterWrite(size, writes[0].length, writes[0].position), writes[1..])
  }

  /** Repeating a write does not change the size again. */
  lemma WriteIdempotent(size: nat, length: nat, position: nat)
    ensures SizeAfterWrite(SizeAfterWrite(size, length, position), length, position)
         == SizeAfterWrite(size, length, position)
  {
  }

  /** After any sequence of writes the size is the high-water mark: at least
      the initial size and every write's end, and equal to one of them. */
  lemma {:induction false} HighWaterMark(size: nat, writes: seq<WriteCall>)
    ensures size <= SizeAfterWrites(size, writes)
    ensures forall i :: 0 <= i < |writes| ==> End(writes[i]) <= SizeAfterWrites(size, writes)
    ensures SizeAfterWrites(size, writes) == size
         || exists i :: 0 <= i < |writes| && SizeAfterWrites(size, writes) == End(writes[i])
    decreases |writes|
  {
    if writes != [] {
      var next := SizeAfterWrite(size, writes[0].length, writes[0].position);
      HighWaterMark(next, writes[1..]);
      forall i | 0 <= i < |writes|
        ensures End(writes[i]) <= SizeAfterWrites(size, writes)
      {
        if i > 0 {
          assert writes[i] == writes[1..][i - 1];
        }
      }
      if SizeAfterWrites(size, writes) != next {
        var j :| 0 <= j < |writes[1..]| && SizeAfterWrites(next, writes[1..]) == End(writes[1..][j]);
        assert writes[1..][j] == writes[j + 1];
      } else if next != size {
        assert SizeAfterWrites(size, writes) == End(writes[0]);
      }
    }
  }

  class SelfEncryptor {
    var fileSize: u64
    var closed: bool

    /** An encryptor starting from a known size and closed flag. */
    constructor (fileSize: u64, closed: bool)
      ensures this.fileSize == fileSize && this.closed == closed
    {
      this.fileSize := fileSize;
      this.closed := closed;
    }

    /** Record a write of `length` bytes at `position`. The bytes of `data`
        are not kept, and `length` need not be its length. */
    method Write(data: string, length: u32, position: u64)
      requires position + length < U64Limit
      modifies this
      ensures fileSize == SizeAfterWrite(old(fileSize), length, position)
      ensures closed == old(closed)
    {
      var newSize := if fileSize < length + position then length + position else fileSize;
      fileSize := newSize;
    }

    /** The file size currently known to the encryptor. */
    method Len() returns (size: u64)
      ensures size == fileSize
    {
      size := fileSize;
    }
  }

  /** The two writes of the unit test: 3 bytes at 5 and 30 bytes at 50 into
      empty encryptors give sizes 8 and 80, as reported by Len. */
  method CheckWrite() returns (first: u64, second: u64)
    ensures first == 8 && second == 80
  {
    var se := new SelfEncryptor(0, false);
    var seCtr := new SelfEncryptor(0, false);
    se.Write("dsd", 3, 5);
    seCtr.Write("fkghguguykghj", 30, 50);
    first := se.Len();
    second := seCtr.Len();
  }

  /** Writing the same range twice leaves the encryptor as one write does,
      and Len reports the new size. */
  method RepeatedWrite(se: SelfEncryptor, data: string, length: u32, position: u64) returns (size: u64)
    requires position + length < U64Limit
    modifies se
    ensures size == se.fileSize == SizeAfterWrite(old(se.fileSize), length, position)
    ensures se.closed == old(se.closed)
  {
    se.Write(data, length, position);
    se.Write(data, length, position);
    WriteIdempotent(old(se.fileSize), length, position);
    size := se.Len();
  }
}
