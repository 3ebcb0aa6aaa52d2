/**
  * File contents over mapped blocks with holes.
  *
  * A mapped block may have a hole, always a suffix of the block: what the device holds
  * there is stale and reads as zero.  With the block-hole feature on, allocate, write,
  * truncate and read behave as on a plain sequence of bytes that is zero from the file's
  * size on.
  */
module FileIo {
  import opened BlkIo
  import opened BlockTable

  // The block table, which refines such a map.
  type BlockMap = map<int, Dblk>

  const NO_HOLE := 0x7fff_ffff

  // pfs_dblk_holeoff of a mapped block
  function HoleAt(d: Dblk): int {
    if d.holelen > 0 then d.holeoff else NO_HOLE
  }

  // fblkid and fblkoff
  function BlkId(i: int): int {
    i / BLOCK
  }

  function BlkOff(i: int): int {
    i % BLOCK
  }

  // Byte i of the file, whether or not the file is that long.
  function ByteAt(bytes: Bytes, m: BlockMap, i: int): int {
    if i >= 0 && BlkId(i) in m && BlkOff(i) < HoleAt(m[BlkId(i)])
      && 0 <= m[BlkId(i)].blkno * BLOCK + BlkOff(i) < |bytes|
    then bytes[m[BlkId(i)].blkno * BLOCK + BlkOff(i)]
    else 0
  }

  ghost predicate BlockOk(bytes: Bytes, d: Dblk) {
    && d.blkno > 0 && (d.blkno + 1) * BLOCK <= |bytes|
    && (d.holelen == 0 || (d.holelen > 0 && d.holeoff >= 0 && d.holeoff + d.holelen == BLOCK))
  }

  /** Blocks lie on the device, end in their hole if they have one, and no two share a device block. */
  ghost predicate MapOk(bytes: Bytes, m: BlockMap) {
    && |bytes| % SECTOR == 0
    && (forall b: int :: b in m ==> BlockOk(bytes, m[b]))
    && (forall a: int, b: int :: a in m && b in m && a != b ==> m[a].blkno != m[b].blkno)
  }

  /** Beyond its size a file has only zeros. */
  ghost predicate TailZero(bytes: Bytes, m: BlockMap, size: int) {
    forall i: int :: i >= size ==> ByteAt(bytes, m, i) == 0
  }

  /** The file now reads as before, but for the data from off on. */
  ghost predicate Wrote(bytes0: Bytes, m0: BlockMap, bytes: Bytes, m: BlockMap, off: int, data: Bytes) {
    forall i: int :: ByteAt(bytes, m, i) == if off <= i < off + |data| then data[i - off] else ByteAt(bytes0, m0, i)
  }

  // Byte i lies in a mapped block, before its hole.
  predicate Visible(m: BlockMap, i: int) {
    BlkId(i) in m && BlkOff(i) < HoleAt(m[BlkId(i)])
  }

  /** Read through the map m, the data shows where no hole hides it, and nothing else has changed. */
  ghost predicate Shown(bytes0: Bytes, bytes: Bytes, m: BlockMap, off: int, data: Bytes) {
    forall i: int :: ByteAt(bytes, m, i) ==
      if off <= i < off + |data| && Visible(m, i) then data[i - off] else ByteAt(bytes0, m, i)
  }

  lemma BlockOf(b: int, o: int)
    requires 0 <= o < BLOCK
    ensures BlkId(b * BLOCK + o) == b && BlkOff(b * BLOCK + o) == o
  {
  }

  lemma OfBlock(i: int)
    ensures i == BlkId(i) * BLOCK + BlkOff(i) && 0 <= BlkOff(i) < BLOCK
  {
  }

  /** A device write inside block b shows in the file where the hole does not hide it. */
  lemma SpliceShows(bytes: Bytes, m: BlockMap, b: int, off: int, data: Bytes, i: int)
    requires MapOk(bytes, m) && b in m && b >= 0 && 0 <= off && off + |data| <= BLOCK
    ensures m[b].blkno * BLOCK + off + |data| <= |bytes| && m[b].blkno * BLOCK + off >= 0
    ensures var bytes' := Spliced(bytes, m[b].blkno * BLOCK + off, data);
            ByteAt(bytes', m, i) ==
              if b * BLOCK + off <= i < b * BLOCK + off + |data| && BlkOff(i) < HoleAt(m[b])
              then data[i - (b * BLOCK + off)] else ByteAt(bytes, m, i)
  {
    OfBlock(i);
    assert BlockOk(bytes, m[b]);
    if BlkId(i) in m {
      assert BlockOk(bytes, m[BlkId(i)]);
    }
  }

  /** A write that stays before the hole. */
  lemma PlainStep(bytes: Bytes, m: BlockMap, b: int, off: int, data: Bytes)
    requires MapOk(bytes, m) && b in m && b >= 0 && 0 <= off && off + |data| <= BLOCK && off + |data| <= HoleAt(m[b])
    ensures m[b].blkno * BLOCK + off + |data| <= |bytes| && m[b].blkno * BLOCK + off >= 0
    ensures Wrote(bytes, m, Spliced(bytes, m[b].blkno * BLOCK + off, data), m, b * BLOCK + off, data)
  {
    SpliceShows(bytes, m, b, off, data, 0);
    var bytes' := Spliced(bytes, m[b].blkno * BLOCK + off, data);
    var at := b * BLOCK + off;
    forall i: int
      ensures ByteAt(bytes', m, i) == if at <= i < at + |data| then data[i - at] else ByteAt(bytes, m, i)
    {
      SpliceShows(bytes, m, b, off, data, i);
      if at <= i < at + |data| {
        BlockOf(b, i - b * BLOCK);
      }
    }
  }

  function Zeros(n: int): (z: Bytes)
    requires n >= 0
    ensures |z| == n && forall i: int :: 0 <= i < n ==> z[i] == 0
  {
    seq(n, (i: nat) => 0)
  }

  // The device after the eager fill of a block: zeros before the data, the data, zeros after it.
  function Filled(bytes: Bytes, base: int, hole: int, off: int, data: Bytes): (r: Bytes)
    requires 0 <= base && base + BLOCK <= |bytes| && 0 <= hole < BLOCK && 0 <= off && hole < off + |data| <= BLOCK
    ensures |r| == |bytes|
    ensures forall p: int {:trigger r[p]} :: 0 <= p < |bytes| ==>
              r[p] == (if base + off <= p < base + off + |data| then data[p - base - off]
                       else if base + hole <= p < base + BLOCK then 0 else bytes[p])
  {
    var b1 := if hole < off then Spliced(bytes, base + hole, Zeros(off - hole)) else bytes;
    var b2 := Spliced(b1, base + off, data);
    if off + |data| < BLOCK then Spliced(b2, base + off + |data|, Zeros(BLOCK - off - |data|)) else b2
  }

  function WithoutHole(m: BlockMap, b: int): BlockMap
    requires b in m
  {
    m[b := m[b].(holeoff := BLOCK, holelen := 0)]
  }

  /**
    * A write into the hole: zero-filling the rest of it shows the data and hides the
    * stale bytes for good; read through the old map, only the written range changed.
    */
  lemma FillStep(bytes: Bytes, m: BlockMap, b: int, off: int, data: Bytes)
    requires MapOk(bytes, m) && b in m && b >= 0 && 0 <= off && off + |data| <= BLOCK
    requires HoleAt(m[b]) < BLOCK && HoleAt(m[b]) < off + |data|
    ensures var base := m[b].blkno * BLOCK;
            && 0 <= base && base + BLOCK <= |bytes| && 0 <= HoleAt(m[b])
            && var bytes' := Filled(bytes, base, HoleAt(m[b]), off, data);
               && Wrote(bytes, m, bytes', WithoutHole(m, b), b * BLOCK + off, data)
               && Shown(bytes, bytes', m, b * BLOCK + off, data)
               && MapOk(bytes', WithoutHole(m, b)) && MapOk(bytes', m)
  {
    assert BlockOk(bytes, m[b]);
    hide ByteAt, Filled, Visible;
    var base, hole, at := m[b].blkno * BLOCK, HoleAt(m[b]), b * BLOCK + off;
    var bytes', m' := Filled(bytes, base, hole, off, data), WithoutHole(m, b);
    forall i: int
      ensures ByteAt(bytes', m', i) == if at <= i < at + |data| then data[i - at] else ByteAt(bytes, m, i)
      ensures ByteAt(bytes', m, i) ==
        if at <= i < at + |data| && Visible(m, i) then data[i - at] else ByteAt(bytes, m, i)
    {
      FillAt(bytes, m, b, off, data, i);
    }
    MapKept(bytes, m, bytes');
    assert forall a: int :: a in m' ==> m'[a].blkno == m[a].blkno && BlockOk(bytes, m[a]);
  }

  lemma FillAt(bytes: Bytes, m: BlockMap, b: int, off: int, data: Bytes, i: int)
    requires MapOk(bytes, m) && b in m && b >= 0 && 0 <= off && off + |data| <= BLOCK
    requires HoleAt(m[b]) < BLOCK && HoleAt(m[b]) < off + |data| && BlockOk(bytes, m[b])
    ensures var bytes' := Filled(bytes, m[b].blkno * BLOCK, HoleAt(m[b]), off, data);
            var at := b * BLOCK + off;
            && ByteAt(bytes', WithoutHole(m, b), i) == (if at <= i < at + |data| then data[i - at]
              else ByteAt(bytes, m, i))
            && ByteAt(bytes', m, i) == (if at <= i < at + |data|
              && Visible(m, i) then data[i - at] else ByteAt(bytes, m, i))
  {
    hide Filled;
    OfBlock(i);
    if i >= 0 && BlkId(i) in m {
      assert BlockOk(bytes, m[BlkId(i)]);
    }
  }

  // -------------------------------------------------- the plain file it refines

  // The bytes a file of this size has.
  ghost function Content(bytes: Bytes, m: BlockMap, size: int): (c: Bytes)
    requires size >= 0
    ensures |c| == size && forall i: int :: 0 <= i < size ==> c[i] == ByteAt(bytes, m, i)
  {
    seq(size, (i: nat) => ByteAt(bytes, m, i))
  }

  // write() on a sequence of bytes: a gap before the data becomes zeros.
  function PlainWrite(c: Bytes, off: int, data: Bytes): Bytes
    requires off >= 0
  {
    if data == [] then c
    else
      var padded := if |c| < off + |data| then c + Zeros(off + |data| - |c|) else c;
      Spliced(padded, off, data)
  }

  // ftruncate() on a sequence of bytes
  function PlainTruncate(c: Bytes, len: int): Bytes
    requires len >= 0
  {
    if len <= |c| then c[..len] else c + Zeros(len - |c|)
  }

  lemma AsPlainWrite(bytes0: Bytes, m0: BlockMap, size0: int, bytes: Bytes, m: BlockMap, size: int, off: int,
                     data: Bytes)
    requires size0 >= 0 && off >= 0 && TailZero(bytes0, m0, size0) && Wrote(bytes0, m0, bytes, m, off, data)
    requires size == if data != [] && off + |data| > size0 then off + |data| else size0
    ensures Content(bytes, m, size) == PlainWrite(Content(bytes0, m0, size0), off, data)
  {
    hide ByteAt, Spliced;
    var c, want := Content(bytes, m, size), PlainWrite(Content(bytes0, m0, size0), off, data);
    assert |want| == size;
    forall i: int | 0 <= i < size ensures c[i] == want[i] {
      assert i >= size0 ==> ByteAt(bytes0, m0, i) == 0;
    }
  }

  lemma AsPlainTruncate(bytes: Bytes, m0: BlockMap, size0: int, m: BlockMap, len: int)
    requires size0 >= 0 && len >= 0 && TailZero(bytes, m0, size0)
    requires forall i: int :: ByteAt(bytes, m, i) == if i < len then ByteAt(bytes, m0, i) else 0
    ensures Content(bytes, m, len) == PlainTruncate(Content(bytes, m0, size0), len)
  {
    hide ByteAt;
    var c, want := Content(bytes, m, len), PlainTruncate(Content(bytes, m0, size0), len);
    assert |want| == len;
    forall i: int | 0 <= i < len ensures c[i] == want[i] {
      assert i >= size0 ==> ByteAt(bytes, m0, i) == 0;
    }
  }

  // ---------------------------------------------------------------- the file

  lemma WroteNext(bytes0: Bytes, m0: BlockMap, bytes1: Bytes, m1: BlockMap, bytes2: Bytes, m2: BlockMap,
                  off: int, data: Bytes, w: int, n: int)
    requires 0 <= w && 0 <= n && w + n <= |data|
    requires Wrote(bytes0, m0, bytes1, m1, off, data[..w])
    requires Wrote(bytes1, m1, bytes2, m2, off + w, data[w..w + n])
    ensures Wrote(bytes0, m0, bytes2, m2, off, data[..w + n])
  {
    forall i: int ensures ByteAt(bytes2, m2, i) ==
      if off <= i < off + w + n then data[..w + n][i - off] else ByteAt(bytes0, m0, i)
    {
      assert ByteAt(bytes1, m1, i) == if off <= i < off + w then data[..w][i - off] else ByteAt(bytes0, m0, i);
    }
  }

  class File {
    const disk: Disk
    var size: int
    var m: BlockMap

    constructor (disk: Disk)
      requires disk.Valid()
      ensures Valid() && this.disk == disk && size == 0 && m == map[]
    {
      this.disk, size, m := disk, 0, map[];
    }

    ghost predicate Valid() reads this, disk {
      size >= 0 && MapOk(disk.bytes, m) && TailZero(disk.bytes, m, size)
    }

    ghost function Contents(): Bytes
      requires Valid()
      reads this, disk
    {
      Content(disk.bytes, m, size)
    }

    /** pfs_file_read: the bytes of the file, holes and unmapped blocks as zeros, cut at its size. */
    method Read(off: int, len: int) returns (data: Bytes)
      requires Valid() && off >= 0 && len >= 0
      ensures |data| == if off >= size then 0 else if off + len >= size then size - off else len
      ensures forall k: int :: 0 <= k < |data| ==> data[k] == Contents()[off + k]
    {
      var cut := if off >= size then 0 else if off + len >= size then size - off else len;
      data := [];
      var offset := off;
      while |data| < cut
        invariant |data| <= cut && offset == off + |data|
        invariant forall k: int :: 0 <= k < |data| ==> data[k] == ByteAt(disk.bytes, m, off + k)
        decreases cut - |data|
      {
        var piece := ReadPiece(offset, cut - |data|);
        ghost var before := data;
        data := data + piece;
        assert forall k: int :: |before| <= k < |data| ==> data[k] == piece[k - |before|];
        offset := offset + |piece|;
      }
    }

    // One iteration of pfs_file_read.
    method ReadPiece(offset: int, left: int) returns (data: Bytes)
      requires MapOk(disk.bytes, m) && offset >= 0 && left > 0
      ensures 0 < |data| <= left
      ensures forall k: int :: 0 <= k < |data| ==> data[k] == ByteAt(disk.bytes, m, offset + k)
    {
      var b, bo := BlkId(offset), BlkOff(offset);
      OfBlock(offset);
      var hole := if b in m then HoleAt(m[b]) else 0;
      if hole <= bo {
        data := Zeros(if BLOCK - bo < left then BLOCK - bo else left);
      } else {
        var end := if hole < BLOCK then hole else BLOCK;
        var n := if end - bo < left then end - bo else left;
        assert BlockOk(disk.bytes, m[b]);
        data := disk.Read(m[b].blkno, bo, n);
      }
      forall k: int | 0 <= k < |data| ensures data[k] == ByteAt(disk.bytes, m, offset + k) {
        assert offset + k == b * BLOCK + (bo + k);
        BlockOf(b, bo + k);
      }
    }

    // The device writes of the eager path: the gap before the data, the data, the gap after it.
    method FillBlock(blkno: int, hole: int, bo: int, data: Bytes)
      requires |disk.bytes| % SECTOR == 0 && blkno >= 0 && (blkno + 1) * BLOCK <= |disk.bytes|
      requires 0 <= hole < BLOCK && 0 <= bo && hole < bo + |data| <= BLOCK
      modifies disk
      ensures disk.bytes == Filled(old(disk.bytes), blkno * BLOCK, hole, bo, data)
    {
      hide Spliced;
      if hole < bo {
        disk.Write(Zeros(bo - hole), blkno, hole);
      }
      disk.Write(data, blkno, bo);
      if bo + |data| < BLOCK {
        disk.Write(Zeros(BLOCK - bo - |data|), blkno, bo + |data|);
      }
    }

    // One iteration of pfs_file_write, in a mapped block.
    method WritePiece(b: int, bo: int, data: Bytes, ghost m0: BlockMap)
      requires MapOk(disk.bytes, m) && MapOk(disk.bytes, m0) && b in m && b in m0 && m0[b] == m[b] && b >= 0
      requires 0 <= bo && data != [] && bo + |data| <= BLOCK
      modifies this`m, disk
      ensures MapOk(disk.bytes, m) && MapOk(disk.bytes, m0)
      ensures m.Keys == old(m).Keys && forall a: int :: a in m && a != b ==> m[a] == old(m)[a]
      ensures Wrote(old(disk.bytes), old(m), disk.bytes, m, b * BLOCK + bo, data)
      ensures Shown(old(disk.bytes), disk.bytes, m0, b * BLOCK + bo, data)
    {
      hide Spliced, ByteAt, Wrote, Shown, Filled;
      var d := m[b];
      var hole := HoleAt(d);
      assert BlockOk(disk.bytes, d);
      if hole < BLOCK && bo + |data| > hole {
        FillStep(disk.bytes, m, b, bo, data);
        FillStep(disk.bytes, m0, b, bo, data);
        m := WithoutHole(m, b);
        FillBlock(d.blkno, hole, bo, data);
      } else {
        PlainStep(disk.bytes, m, b, bo, data);
        PlainStep(disk.bytes, m0, b, bo, data);
        PlainShown(disk.bytes, m0, b, bo, data);
        MapKept(disk.bytes, m, Spliced(disk.bytes, d.blkno * BLOCK + bo, data));
        MapKept(disk.bytes, m0, Spliced(disk.bytes, d.blkno * BLOCK + bo, data));
        disk.Write(data, d.blkno, bo);
      }
    }

    /**
      * pfs_file_write and pfs_inode_writemodify_commit: over mapped blocks exactly the
      * data is written and the size grows to its end.  At the first block that is not mapped
      * the write gives up and the metadata is rolled back; what the blocks before it hold is
      * then seen through the old holes, and bytes beyond the size stay zero exactly if all
      * that was written there and no hole hides is zero.
      */
    method Write(data: Bytes, off: int) returns (ok: bool, written: int)
      requires Valid() && off >= 0
      modifies this, disk
      ensures ok <==> AllMapped(old(m), off, |data|)
      ensures ok ==> Valid() && Contents() == PlainWrite(old(Contents()), off, data)
      ensures m.Keys == old(m).Keys && written == Reach(old(m), off, |data|) && AllMapped(old(m), off, written)
      ensures if ok then written == |data| else BlkId(off + written) !in old(m)
      ensures !ok ==> m == old(m) && size == old(size) && MapOk(disk.bytes, m)
      ensures !ok ==> Shown(old(disk.bytes), disk.bytes, m, off, data[..written])
      ensures !ok ==> (Valid() <==> CutsClean(old(m), old(size), off, data[..Reach(old(m), off, |data|)]))
    {
      hide ByteAt, Wrote, Shown, TailZero, MapOk, Content, PlainWrite, CutsClean, Reach;
      var m0, inc, offset := m, 0, off;
      written := 0;
      WriteBegins(disk.bytes, m, off, data);
      while written < |data|
        invariant 0 <= written <= |data| && offset == off + written && size == old(size)
        invariant MapOk(disk.bytes, m) && MapOk(disk.bytes, m0) && m.Keys == m0.Keys
        invariant Wrote(old(disk.bytes), m0, disk.bytes, m, off, data[..written])
        invariant Shown(old(disk.bytes), disk.bytes, m0, off, data[..written])
        invariant AllMapped(m0, off, written)
        invariant written + Reach(m0, offset, |data| - written) == Reach(m0, off, |data|)
        invariant written < |data| ==> forall a: int :: a in m && a >= BlkId(offset) ==> m[a] == m0[a]
        invariant inc == if written > 0 && off + written > size then off + written - size else 0
      {
        var b, bo := BlkId(offset), BlkOff(offset);
        OfBlock(offset);
        ReachNext(m0, offset, |data| - written);
        if b !in m {
          m := m0;
          RolledBack(old(disk.bytes), disk.bytes, m0, off, data[..written], size);
          NotAllMapped(m0, off, |data|, written);
          return false, written;
        }
        var left := |data| - written;
        var n := if BLOCK - bo < left then BLOCK - bo else left;
        ghost var bytes1, m1 := disk.bytes, m;
        WritePiece(b, bo, data[written..written + n], m0);
        WroteNext(old(disk.bytes), m0, bytes1, m1, disk.bytes, m, off, data, written, n);
        ShownNext(old(disk.bytes), bytes1, disk.bytes, m0, off, data, written, n);
        MappedNext(m0, off, written, n);
        assert written + n < |data| ==> n == BLOCK - bo;
        if offset + n > size {
          inc := offset + n - size;
        }
        written := written + n;
        offset := offset + n;
        NextBlock(b, bo, n, offset);
      }
      assert data[..written] == data;
      ReachNext(m0, offset, 0);
      WriteEnds(old(disk.bytes), m0, disk.bytes, m, off, data, size);
      AsPlainWrite(old(disk.bytes), m0, size, disk.bytes, m, size + inc, off, data);
      size := size + inc;
      ok := true;
    }

    /**
      * pfs_file_allocate without FALLOC_FL_NO_HIDE_STALE: maps what is not mapped to free
      * device blocks, all hole, so nothing that can be read changes but the size.
      */
    method Allocate(off: int, len: int, keepSize: bool, free: seq<int>) returns (ok: bool)
      requires Valid() && off >= 0 && len >= 0 && FreeBlocks(disk.bytes, m, free)
      modifies this
      ensures Valid() && (!ok ==> m == old(m) && size == old(size))
      ensures ok ==> Contents() == PlainTruncate(old(Contents()), size) && size >= old(size)
      ensures ok ==> AllMapped(m, off, len) && forall a: int :: a in old(m) ==> a in m && m[a] == old(m)[a]
      ensures ok ==> size == if !keepSize && len > 0 && off + len > old(size) then off + len else old(size)
      ensures ok <==> Missing(old(m), BlkId(off), EndBlk(off, len)) <= |free|
    {
      hide ByteAt, MapOk, Missing, EndBlk, AllMapped, FreeBlocks, SameView, Content, PlainTruncate, TailZero;
      var m0, fsize, offset, sum, k := m, size, off, 0, 0;
      AllocateBegins(disk.bytes, m, off, free);
      while sum < len
        invariant k == Missing(m0, BlkId(off), EndBlk(off, sum))
        invariant forall a: int :: a in m <==> a in m0 || BlkId(off) <= a < EndBlk(off, sum)
        invariant 0 < sum < len ==> BlkOff(offset) == 0
        invariant 0 <= sum <= len && offset == off + sum && 0 <= k <= |free| && size == old(size)
        invariant MapOk(disk.bytes, m) && FreeBlocks(disk.bytes, m, free[k..]) && SameView(disk.bytes, m0, m)
        invariant AllMapped(m, off, sum) && forall a: int :: a in m0 ==> a in m && m[a] == m0[a]
        invariant fsize == if sum > 0 && off + sum > size then off + sum else size
      {
        var b := BlkId(offset);
        OfBlock(offset);
        NextMissing(m0, off, sum, len);
        if b !in m {
          if k == |free| {
            m := m0;
            return false;
          }
          AddedBlock(disk.bytes, m0, m, b, free[k..]);
          MappedKept(m, b, Dblk(free[k], 0, BLOCK), off, sum);
          m := m[b := Dblk(free[k], 0, BLOCK)];
          assert free[k + 1..] == free[k..][1..];
          k := k + 1;
        }
        var left := len - sum;
        var n := if BLOCK - BlkOff(offset) < left then BLOCK - BlkOff(offset) else left;
        MappedNext(m, off, sum, n);
        EndNext(off, sum, n);
        if offset + n > fsize {
          fsize := offset + n;
        }
        sum, offset := sum + n, offset + n;
      }
      SameTail(disk.bytes, m0, m, size, if keepSize then size else fsize);
      AsPlainTruncate(disk.bytes, m0, size, m, if keepSize then size else fsize);
      if !keepSize {
        size := fsize;
      }
      ok := true;
    }

    /**
      * pfs_file_truncate: towards the wanted length, by at most `shrink` bytes.  The last
      * block's hole is widened to hide what is cut off, later blocks are unmapped.
      */
    method TruncateOnce(want: int, shrink: int) returns (len: int)
      requires Valid() && want >= 0
      modifies this
      ensures Valid() && size == len
      ensures len == if shrink > 0 && old(size) - want > shrink then old(size) - shrink else want
      ensures forall i: int :: ByteAt(disk.bytes, m, i) == if i < len then ByteAt(disk.bytes, old(m), i) else 0
    {
      hide ByteAt, MapOk;
      len := if shrink > 0 && size - want > shrink then size - shrink else want;
      var last := -1;
      if len != 0 {
        last := BlkId(len - 1);
        if last in m && len < size {
          var bo := BlkOff(len);
          if bo > 0 && bo < HoleAt(m[last]) {
            m := m[last := m[last].(holeoff := bo, holelen := BLOCK - bo)];
          }
        }
      }
      ghost var m1 := m;
      m := map b | b in m && b <= last :: m[b];
      CutMap(disk.bytes, old(m), m1, m, last, len, size);
      size := len;
    }

    /** pfs_file_xftruncate: step by step until the length is reached. */
    method Truncate(want: int, shrink: int)
      requires Valid() && want >= 0
      modifies this
      ensures Valid() && Contents() == PlainTruncate(old(Contents()), want)
    {
      hide MapOk, TailZero, Content;
      var got := TruncateOnce(want, shrink);
      while got != want
        invariant Valid() && size == got >= want
        invariant forall i: int :: ByteAt(disk.bytes, m, i) == if i < got then ByteAt(disk.bytes, old(m), i) else 0
        decreases got - want
      {
        got := TruncateOnce(want, shrink);
      }
      AsPlainTruncate(disk.bytes, old(m), old(size), m, want);
    }
  }

  lemma PlainShown(bytes: Bytes, m: BlockMap, b: int, off: int, data: Bytes)
    requires MapOk(bytes, m) && b in m && b >= 0 && 0 <= off && off + |data| <= BLOCK
    ensures m[b].blkno * BLOCK + off + |data| <= |bytes| && m[b].blkno * BLOCK + off >= 0
    ensures Shown(bytes, Spliced(bytes, m[b].blkno * BLOCK + off, data), m, b * BLOCK + off, data)
  {
    hide ByteAt, Spliced;
    SpliceShows(bytes, m, b, off, data, 0);
    forall i: int ensures ByteAt(Spliced(bytes, m[b].blkno * BLOCK + off, data), m, i) ==
      if b * BLOCK + off <= i < b * BLOCK + off + |data|
        && Visible(m, i) then data[i - (b * BLOCK + off)] else ByteAt(bytes, m, i)
    {
      SpliceShows(bytes, m, b, off, data, i);
      if b * BLOCK + off <= i < b * BLOCK + off + |data| { BlockOf(b, i - b * BLOCK); }
    }
  }

  /** Nothing but zeros was written beyond the size where no hole hides it. */
  ghost predicate CutsClean(m: BlockMap, size: int, off: int, data: Bytes) {
    forall i: int :: off <= i < off + |data| && size <= i && Visible(m, i) ==> data[i - off] == 0
  }

  lemma MapKept(bytes0: Bytes, m: BlockMap, bytes: Bytes)
    requires MapOk(bytes0, m) && |bytes| == |bytes0|
    ensures MapOk(bytes, m)
  {
    assert forall b: int :: b in m ==> BlockOk(bytes0, m[b]);
  }

  /** How many bytes from an offset on lie before the first block that is not mapped. */
  function Reach(m: BlockMap, off: int, len: int): (r: int)
    requires off >= 0 && len >= 0
    ensures 0 <= r <= len
    decreases len
  {
    var n := if BLOCK - BlkOff(off) < len then BLOCK - BlkOff(off) else len;
    if len == 0 || BlkId(off) !in m then 0 else n + Reach(m, off + n, len - n)
  }

  lemma ReachNext(m: BlockMap, off: int, len: int)
    requires off >= 0 && len >= 0
    ensures len == 0 || BlkId(off) !in m ==> Reach(m, off, len) == 0
    ensures len > 0 && BlkId(off) in m ==>
      var n := if BLOCK - BlkOff(off) < len then BLOCK - BlkOff(off) else len;
      Reach(m, off, len) == n + Reach(m, off + n, len - n)
  {
  }

  /** Every block the range touches is mapped. */
  ghost predicate AllMapped(m: BlockMap, off: int, len: int) {
    forall i: int {:trigger BlkId(i)} :: off <= i < off + len ==> BlkId(i) in m
  }

  // The block after the last one the range touches.
  function EndBlk(off: int, len: int): int {
    if len == 0 then BlkId(off) else BlkId(off + len - 1) + 1
  }

  // How many of the blocks from lo up to hi are not mapped.
  function Missing(m: BlockMap, lo: int, hi: int): nat
    decreases hi - lo
  {
    if hi <= lo then 0 else Missing(m, lo, hi - 1) + if hi - 1 in m then 0 else 1
  }

  lemma {:induction false} MissingGrows(m: BlockMap, lo: int, mid: int, hi: int)
    requires lo <= mid <= hi
    ensures Missing(m, lo, mid) <= Missing(m, lo, hi)
    decreases hi - mid
  {
    if mid < hi { MissingGrows(m, lo, mid, hi - 1); }
  }

  lemma NextMissing(m: BlockMap, off: int, sum: int, len: int)
    requires 0 <= sum < len && off >= 0 && (sum > 0 ==> BlkOff(off + sum) == 0)
    ensures BlkId(off + sum) == EndBlk(off, sum) >= BlkId(off)
    ensures Missing(m, BlkId(off), EndBlk(off, sum) + 1) <= Missing(m, BlkId(off), EndBlk(off, len))
    ensures Missing(m, BlkId(off), EndBlk(off, sum) + 1) ==
            Missing(m, BlkId(off), EndBlk(off, sum)) + if BlkId(off + sum) in m then 0 else 1
  {
    OfBlock(off);
    OfBlock(off + sum);
    OfBlock(off + sum - 1);
    OfBlock(off + len - 1);
    MissingGrows(m, BlkId(off), EndBlk(off, sum) + 1, EndBlk(off, len));
  }

  lemma EndNext(off: int, sum: int, n: int)
    requires 0 <= sum && off >= 0 && n > 0 && BlkOff(off + sum) + n <= BLOCK && BlkId(off + sum) == EndBlk(off, sum)
    ensures EndBlk(off, sum + n) == EndBlk(off, sum) + 1
    ensures BlkOff(off + sum) + n == BLOCK ==> BlkOff(off + sum + n) == 0
  {
    OfBlock(off + sum);
    OfBlock(off + sum + n - 1);
    OfBlock(off + sum + n);
  }

  lemma MappedNext(m: BlockMap, off: int, w: int, n: int)
    requires AllMapped(m, off, w) && w >= 0 && off >= 0 && n > 0 && BlkId(off + w) in m && BlkOff(off + w) + n <= BLOCK
    ensures AllMapped(m, off, w + n)
  {
    OfBlock(off + w);
    forall i: int | off + w <= i < off + w + n ensures BlkId(i) in m {
      BlockOf(BlkId(off + w), BlkOff(off + w) + (i - off - w));
    }
  }

  lemma MappedKept(m: BlockMap, b: int, d: Dblk, off: int, len: int)
    requires AllMapped(m, off, len)
    ensures AllMapped(m[b := d], off, len)
  {
  }

  lemma NotAllMapped(m: BlockMap, off: int, len: int, w: int)
    requires 0 <= w < len && BlkId(off + w) !in m
    ensures !AllMapped(m, off, len)
  {
  }

  lemma NextBlock(b: int, bo: int, n: int, offset: int)
    requires 0 <= bo < BLOCK && 0 < n && bo + n <= BLOCK && offset == b * BLOCK + bo + n
    ensures bo + n == BLOCK ==> BlkId(offset) == b + 1
  {
    if bo + n == BLOCK {
      BlockOf(b + 1, 0);
    }
  }

  lemma WriteBegins(bytes: Bytes, m: BlockMap, off: int, data: Bytes)
    ensures Wrote(bytes, m, bytes, m, off, data[..0]) && Shown(bytes, bytes, m, off, data[..0])
  {
  }

  lemma ShownNext(bytes0: Bytes, bytes1: Bytes, bytes2: Bytes, m: BlockMap, off: int, data: Bytes, w: int, n: int)
    requires 0 <= w && 0 <= n && w + n <= |data|
    requires Shown(bytes0, bytes1, m, off, data[..w]) && Shown(bytes1, bytes2, m, off + w, data[w..w + n])
    ensures Shown(bytes0, bytes2, m, off, data[..w + n])
  {
    hide ByteAt, Visible;
    forall i: int ensures ByteAt(bytes2, m, i) ==
      if off <= i < off + w + n && Visible(m, i) then data[..w + n][i - off] else ByteAt(bytes0, m, i)
    {
      assert ByteAt(bytes1, m, i) ==
        if off <= i < off + w && Visible(m, i) then data[..w][i - off] else ByteAt(bytes0, m, i);
    }
  }

  lemma RolledBack(bytes0: Bytes, bytes: Bytes, m: BlockMap, off: int, data: Bytes, size: int)
    requires TailZero(bytes0, m, size) && Shown(bytes0, bytes, m, off, data)
    ensures TailZero(bytes, m, size) <==> CutsClean(m, size, off, data)
  {
    hide ByteAt, Visible;
    if TailZero(bytes, m, size) {
      forall i: int | off <= i < off + |data| && size <= i && Visible(m, i) ensures data[i - off] == 0 {
        assert ByteAt(bytes, m, i) == 0;
      }
    }
  }

  lemma WriteEnds(bytes0: Bytes, m0: BlockMap, bytes: Bytes, m: BlockMap, off: int, data: Bytes, size: int)
    requires TailZero(bytes0, m0, size) && Wrote(bytes0, m0, bytes, m, off, data)
    ensures TailZero(bytes, m, if data != [] && off + |data| > size then off + |data| else size)
  {
  }

  /** Distinct device blocks that the file does not use. */
  ghost predicate FreeBlocks(bytes: Bytes, m: BlockMap, free: seq<int>) {
    && (forall k: nat :: k < |free| ==> free[k] > 0 && (free[k] + 1) * BLOCK <= |bytes|)
    && (forall j: nat, k: nat :: j < k < |free| ==> free[j] != free[k])
    && (forall k: nat, b: int :: k < |free| && b in m ==> m[b].blkno != free[k])
  }

  ghost predicate SameView(bytes: Bytes, m0: BlockMap, m: BlockMap) {
    forall i: int :: ByteAt(bytes, m, i) == ByteAt(bytes, m0, i)
  }

  lemma AllocateBegins(bytes: Bytes, m: BlockMap, off: int, free: seq<int>)
    ensures Missing(m, BlkId(off), EndBlk(off, 0)) == 0 && EndBlk(off, 0) == BlkId(off)
    ensures AllMapped(m, off, 0) && SameView(bytes, m, m) && free[0..] == free
  {
  }

  lemma AddedBlock(bytes: Bytes, m0: BlockMap, m: BlockMap, b: int, free: seq<int>)
    requires MapOk(bytes, m) && FreeBlocks(bytes, m, free) && free != [] && b !in m && SameView(bytes, m0, m)
    ensures var m' := m[b := Dblk(free[0], 0, BLOCK)];
            MapOk(bytes, m') && FreeBlocks(bytes, m', free[1..]) && SameView(bytes, m0, m')
  {
    var m' := m[b := Dblk(free[0], 0, BLOCK)];
    assert BlockOk(bytes, m'[b]);
    assert forall a: int :: a in m ==> BlockOk(bytes, m[a]);
    forall i: int ensures ByteAt(bytes, m', i) == ByteAt(bytes, m0, i) {
      OfBlock(i);
      assert ByteAt(bytes, m, i) == ByteAt(bytes, m0, i);
    }
  }

  lemma SameTail(bytes: Bytes, m0: BlockMap, m: BlockMap, size: int, size': int)
    requires SameView(bytes, m0, m) && TailZero(bytes, m0, size) && size <= size'
    ensures TailZero(bytes, m, size')
    ensures forall i: int :: ByteAt(bytes, m, i) == if i < size' then ByteAt(bytes, m0, i) else 0
  {
  }

  /** Cutting a file: what is left before len reads as before, everything else as zero. */
  lemma CutMap(bytes: Bytes, m0: BlockMap, m1: BlockMap, m: BlockMap, last: int, len: int, size: int)
    requires MapOk(bytes, m0) && TailZero(bytes, m0, size) && len >= 0 && size >= 0
    requires last == if len == 0 then -1 else BlkId(len - 1)
    requires if len != 0 && last in m0 && len < size && BlkOff(len) > 0 && BlkOff(len) < HoleAt(m0[last])
             then m1 == m0[last := m0[last].(holeoff := BlkOff(len), holelen := BLOCK - BlkOff(len))] else m1 == m0
    requires m == map b | b in m1 && b <= last :: m1[b]
    ensures MapOk(bytes, m) && TailZero(bytes, m, len)
    ensures forall i: int :: ByteAt(bytes, m, i) == if i < len then ByteAt(bytes, m0, i) else 0
  {
    hide MapOk;
    CutMapOk(bytes, m0, m1, m, last, len);
    forall i: int ensures ByteAt(bytes, m, i) == if i < len then ByteAt(bytes, m0, i) else 0 {
      CutAt(bytes, m0, m1, m, last, len, size, i);
    }
  }

  lemma CutMapOk(bytes: Bytes, m0: BlockMap, m1: BlockMap, m: BlockMap, last: int, len: int)
    requires MapOk(bytes, m0) && len >= 0
    requires m1 == m0 || (last in m0 && BlkOff(len) > 0
      && m1 == m0[last := m0[last].(holeoff := BlkOff(len), holelen := BLOCK - BlkOff(len))])
    requires m == map b | b in m1 && b <= last :: m1[b]
    ensures MapOk(bytes, m)
  {
    OfBlock(len);
    assert forall b: int :: b in m0 ==> BlockOk(bytes, m0[b]);
    assert forall b: int :: b in m ==> b in m0 && m[b].blkno == m0[b].blkno;
  }

  lemma CutAt(bytes: Bytes, m0: BlockMap, m1: BlockMap, m: BlockMap, last: int, len: int, size: int, i: int)
    requires TailZero(bytes, m0, size) && len >= 0 && size >= 0
    requires last == if len == 0 then -1 else BlkId(len - 1)
    requires if len != 0 && last in m0 && len < size && BlkOff(len) > 0 && BlkOff(len) < HoleAt(m0[last])
             then m1 == m0[last := m0[last].(holeoff := BlkOff(len), holelen := BLOCK - BlkOff(len))] else m1 == m0
    requires m == map b | b in m1 && b <= last :: m1[b]
    ensures ByteAt(bytes, m, i) == if i < len then ByteAt(bytes, m0, i) else 0
  {
    OfBlock(i);
    OfBlock(len);
    OfBlock(len - 1);
    if i >= len {
      assert len >= size ==> ByteAt(bytes, m0, i) == 0;
    }
  }

  /**
    * A file of one byte whose first block has no hole left, and whose second block is gone:
    * a write across both gives up at the second, and the rest of the first block then holds
    * data beyond the size, which shows when the file grows.
    */
  method FailedWriteShows() returns (f: File, ok: bool)
    ensures !ok && f.size == 1 && !TailZero(f.disk.bytes, f.m, f.size)
  {
    hide ByteAt, Shown, TailZero, MapOk, Content, PlainWrite;
    var disk := new Disk(Zeros(2 * BLOCK));
    f := new File(disk);
    f.m, f.size := map[0 := Dblk(1, BLOCK, 0)], 1;
    OneBlockValid(disk.bytes, f.m);
    var data: Bytes := seq(BLOCK + 1, (i: nat) => 1);
    var written;
    ok, written := f.Write(data, 0);
    BlockOf(0, 1);
    BlockOf(1, 0);
    assert BlkId(BLOCK) !in f.m.Keys;
    assert written < BLOCK ==> BlkId(written) == 0 by { if written < BLOCK { BlockOf(0, written); } }
    assert Visible(f.m, 1) && data[..written][1 - 0] == 1;
  }

  lemma OneBlockValid(bytes: Bytes, m: BlockMap)
    requires bytes == Zeros(2 * BLOCK) && m == map[0 := Dblk(1, BLOCK, 0)]
    ensures MapOk(bytes, m) && TailZero(bytes, m, 1)
  {
    assert BlockOk(bytes, m[0]);
  }
}
