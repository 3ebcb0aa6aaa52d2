/**
  * Block input and output: a transfer of any bytes within a block, cut into pieces the
  * device can do.  A piece that is not whole sectors is read, changed and written back.
  */
module BlkIo {
  const SECTOR := 4096
  const FRAGMENT := 16384
  const BLOCK := 4194304

  type Bytes = seq<int>

  /** pfs_blkio_align: where the piece starts on the device, how long it is there, how much of it counts. */
  method Align(bda: int, left: int) returns (start: int, ioLen: int, opLen: int)
    requires bda >= 0 && left > 0
    ensures 0 <= start <= bda && start % SECTOR == 0 && ioLen % SECTOR == 0
    ensures 0 < opLen <= left && bda + opLen <= start + ioLen && ioLen <= FRAGMENT
    ensures ioLen == opLen ==> start == bda
    ensures start + ioLen - SECTOR < bda + opLen
  {
    var sectOff, fragOff := bda % SECTOR, bda % FRAGMENT;
    if sectOff != 0 {
      start := bda - sectOff;
      opLen := if SECTOR - sectOff < left then SECTOR - sectOff else left;
      ioLen := SECTOR;
    } else {
      start := bda;
      opLen := if FRAGMENT - fragOff < left then FRAGMENT - fragOff else left;
      ioLen := (opLen + SECTOR - 1) / SECTOR * SECTOR;
      assert fragOff % SECTOR == 0;
      assert (FRAGMENT - fragOff) % SECTOR == 0;
    }
  }

  // The bytes with those from `at` on replaced.
  function Spliced(bytes: Bytes, at: int, data: Bytes): (r: Bytes)
    requires 0 <= at && at + |data| <= |bytes|
    ensures |r| == |bytes|
    ensures forall i: int {:trigger r[i]} :: 0 <= i < |bytes| ==>
      r[i] == if at <= i < at + |data| then data[i - at] else bytes[i]
  {
    bytes[..at] + data + bytes[at + |data|..]
  }

  class Disk {
    var bytes: Bytes

    constructor (bytes: Bytes)
      ensures this.bytes == bytes
    {
      this.bytes := bytes;
    }

    ghost predicate Valid() reads this {
      |bytes| % SECTOR == 0
    }

    // pfs_blkio_read_segment
    method ReadSegment(start: int, ioLen: int, bda: int, len: int) returns (data: Bytes)
      requires 0 <= start <= bda && 0 <= len && bda + len <= start + ioLen <= |bytes| && (ioLen == len ==> start == bda)
      ensures data == bytes[bda..bda + len]
    {
      if ioLen != len {
        var buf := bytes[start..start + ioLen];
        data := buf[bda - start..bda - start + len];
        assert forall k: int :: 0 <= k < len ==> data[k] == buf[bda - start + k] == bytes[bda + k];
      } else {
        data := bytes[bda..bda + len];
      }
    }

    // pfs_blkio_write_segment
    method WriteSegment(start: int, ioLen: int, bda: int, data: Bytes)
      requires 0 <= start <= bda && bda + |data| <= start + ioLen <= |bytes| && (ioLen == |data| ==> start == bda)
      modifies this
      ensures bytes == Spliced(old(bytes), bda, data)
    {
      if ioLen != |data| {
        var buf := bytes[start..start + ioLen];
        var changed := Spliced(buf, bda - start, data);
        bytes := Spliced(bytes, start, changed);
        assert bytes == Spliced(old(bytes), bda, data);
      } else {
        bytes := Spliced(bytes, bda, data);
      }
    }

    /** pfs_blkio_read: exactly the requested bytes. */
    method Read(blkno: int, off: int, len: int) returns (data: Bytes)
      requires Valid() && blkno >= 0 && off >= 0 && len >= 0 && off + len <= BLOCK
      requires blkno * BLOCK + off + len <= |bytes|
      ensures data == bytes[blkno * BLOCK + off..blkno * BLOCK + off + len]
    {
      var done, base := 0, blkno * BLOCK + off;
      data := [];
      while done < len
        invariant 0 <= done <= len && data == bytes[base..base + done]
      {
        var bda := base + done;
        var start, ioLen, opLen := Align(bda, len - done);
        WholeSectorsFit(start + ioLen, bda + opLen, |bytes|);
        var piece := ReadSegment(start, ioLen, bda, opLen);
        assert bytes[base..bda] + bytes[bda..bda + opLen] == bytes[base..bda + opLen];
        data := data + piece;
        done := done + opLen;
      }
    }

    /** pfs_blkio_write: exactly the requested bytes change, to the data. */
    method Write(data: Bytes, blkno: int, off: int)
      requires Valid() && blkno >= 0 && off >= 0 && off + |data| <= BLOCK
      requires blkno * BLOCK + off + |data| <= |bytes|
      modifies this
      ensures Valid() && bytes == Spliced(old(bytes), blkno * BLOCK + off, data)
    {
      hide Spliced;
      var done, base := 0, blkno * BLOCK + off;
      assert data[..0] == [];
      assert bytes == Spliced(old(bytes), base, data[..0]);
      while done < |data|
        invariant 0 <= done <= |data| && |bytes| == |old(bytes)|
        invariant bytes == Spliced(old(bytes), base, data[..done])
      {
        var bda := base + done;
        var start, ioLen, opLen := Align(bda, |data| - done);
        WholeSectorsFit(start + ioLen, bda + opLen, |bytes|);
        WriteSegment(start, ioLen, bda, data[done..done + opLen]);
        SplicedNext(old(bytes), base, data, done, opLen);
        done := done + opLen;
      }
      assert data[..done] == data;
    }
  }

  lemma WholeSectorsFit(end: int, used: int, size: int)
    requires end % SECTOR == 0 && size % SECTOR == 0 && end - SECTOR < used <= size
    ensures end <= size
  {
  }

  lemma SplicedNext(bytes: Bytes, base: int, data: Bytes, done: int, n: int)
    requires 0 <= base && base + |data| <= |bytes| && 0 <= done && 0 <= n && done + n <= |data|
    ensures Spliced(Spliced(bytes, base, data[..done]), base + done, data[done..done + n]) ==
            Spliced(bytes, base, data[..done + n])
  {
  }
}
