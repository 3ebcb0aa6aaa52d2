/**
  * Backup and restore together: the stream of a chunk, cut one way when it is read and another
  * when it is written, puts the chunk's data back where it was.
  */
module ChunkCopy {
  import opened ChunkFormat
  import opened ChunkBackup
  import opened ChunkRestore

  predicate CopyOk(v: Volume, chunk: int, now: int, meta: seq<Frag>, devSize: int) {
    && VolumeOk(v, chunk) && 0 <= now < 0x8000_0000 * WORD && Whole(meta) && Bounded(Lens(meta))
    && (chunk + 1) * BLOCKS * PER_BLOCK <= devSize
  }

  lemma FrontParts(s: Source)
    requires SourceOk(s)
    ensures |Front(s)| == FrontSize(s.meta) && Front(s)[0] == s.header && Front(s)[1..1 + META] == s.meta
    ensures Front(s)[1 + META..] == Blocks(s.dev, s.base, Lens(s.meta), BLOCKS - 1)
  {
    hide Lens, Blocks;
  }

  // The header of a stream decodes to what it was made from.
  lemma StreamHeader(v: Volume, chunk: int, now: int, meta: seq<Frag>, crc: Frag -> int, withCrc: bool, devSize: int)
    requires CopyOk(v, chunk, now, meta, devSize)
    ensures var t := Stream(Opened(v, chunk, now, meta, crc, withCrc));
            |t| == FrontSize(meta) + SumSize(meta, withCrc) && |t[0].cells| == CELLS
              && HeaderOf(t) == HeaderFor(v, chunk, now, withCrc, meta)
            && t[1..1 + META] == meta
  {
    hide Lens, EncodeHeader, DecodeHeader;
    var s := Opened(v, chunk, now, meta, crc, withCrc);
    OpenedSizes(s);
    FrontParts(s);
    HeaderRoundTrip(HeaderFor(v, chunk, now, withCrc, meta));
    var t := Stream(s);
    assert t[0] == Front(s)[0];
    assert t[1..1 + META] == Front(s)[1..1 + META];
  }

  lemma StreamTaken(v: Volume, chunk: int, now: int, meta: seq<Frag>, crc: Frag -> int, withCrc: bool, devSize: int)
    requires CopyOk(v, chunk, now, meta, devSize)
    ensures Taken(Stream(Opened(v, chunk, now, meta, crc, withCrc)), devSize)
  {
    hide Lens, Stream, HeaderOf;
    StreamHeader(v, chunk, now, meta, crc, withCrc, devSize);
    SizesWhole(FrontSize(meta) + SumSize(meta, withCrc));
    SizesWhole(SumSize(meta, withCrc));
  }

  lemma SizesWhole(n: int)
    ensures n * FRAGMENT % FRAGMENT == 0
  {
  }

  // What follows the header is the table, the data of the blocks, and sums that match.
  lemma StreamParts(v: Volume, chunk: int, now: int, meta: seq<Frag>, crc: Frag -> int, withCrc: bool, devSize: int)
    requires CopyOk(v, chunk, now, meta, devSize)
    ensures var t := Stream(Opened(v, chunk, now, meta, crc, withCrc));
            Taken(t, devSize) && TotalOf(t, devSize) == |t| && MetaOf(t) == meta
              && BaseOf(t) == chunk * BLOCKS * PER_BLOCK
            && DataOf(t, devSize) == Blocks(v.dev, chunk * BLOCKS * PER_BLOCK, Lens(meta), BLOCKS - 1)
              && SumsMatch(t, crc, devSize)
            && HeaderOf(t).crc == withCrc
  {
    hide Lens, Accepts, Agrees, Blocks, PackSums, Sums, HeaderOf;
    var s := Opened(v, chunk, now, meta, crc, withCrc);
    var t := Stream(s);
    StreamTaken(v, chunk, now, meta, crc, withCrc, devSize);
    StreamHeader(v, chunk, now, meta, crc, withCrc, devSize);
    OpenedSizes(s);
    FrontParts(s);
    var front := FrontOf(t, devSize);
    assert t[..front] == Front(s);
    assert t[1 + META..front] == Front(s)[1 + META..];
    assert t[front..TotalOf(t, devSize)] == PackSums(Sums(crc, Front(s)), CrcSize(s));
  }

  // A whole run of writes, cut any way: as much of the stream as they carried is taken, and the
  // restore is finished exactly when that is all of it.
  method WriteAll(r: Restore, stream: seq<Frag>, lens: seq<int>) returns (err: bool)
    requires r.Valid() && r.writeSize == 0 && r.feed == stream && Taken(stream, |r.dev0|)
    requires forall i: int :: 0 <= i < |lens| ==> 0 <= lens[i] && lens[i] % FRAGMENT == 0
    modifies r
    ensures r.Valid()
    ensures err ==> r.Refused()
    ensures !err ==> r.writeSize == Min(Asked(lens), TotalOf(stream, |r.dev0|))
  {
    hide Held, Agrees, Accepts, SumsMatch, Bad, r.Refused, r.Begun, r.Failed;
    err := false;
    var i := 0;
    while i < |lens| && !err
      invariant 0 <= i <= |lens| && r.Valid() && 0 <= r.writeSize <= TotalOf(stream, |r.dev0|)
      invariant err ==> r.Refused()
      invariant !err ==> r.writeSize == Min(Asked(lens[..i]), TotalOf(stream, |r.dev0|))
      decreases |lens| - i, !err
    {
      var n := Min(lens[i] / FRAGMENT, |stream| - r.writeSize);
      SizesWhole(n);
      var used;
      err, used := r.Write(stream[r.writeSize..r.writeSize + n], n * FRAGMENT);
      r.WithinStream();
      assert lens[..i + 1][..i] == lens[..i];
      i := i + 1;
    }
    assert !err ==> lens[..i] == lens;
  }

  // A stream of a well-kept chunk is never refused.
  lemma NeverRefused(r: Restore, v: Volume, chunk: int, now: int, meta: seq<Frag>, crc: Frag -> int, withCrc: bool)
    requires r.Valid() && CopyOk(v, chunk, now, meta, |r.dev0|) && r.crc == crc
    requires r.feed == Stream(Opened(v, chunk, now, meta, crc, withCrc))
    requires forall b: int :: !Bad(meta, b)
    ensures !r.Refused()
    ensures r.spot.stage != Finished ==> !r.Failed()
  {
    hide Held, Stream, Lens, Agrees, HeadOf, Bad;
    StreamParts(v, chunk, now, meta, crc, withCrc, |r.dev0|);
    if r.spot.stage == AtData { HeldFacts(r.feed, r.crc, r.dev0, r.dev, r.spot, r.bufs, r.writeSize); }
  }

  // Every fragment the stream carried is back, and the rest of the device is as it was.
  lemma Restored(r: Restore, v: Volume, chunk: int, now: int, meta: seq<Frag>, crc: Frag -> int, withCrc: bool, i: int)
    requires r.Valid() && r.spot.stage == Finished && CopyOk(v, chunk, now, meta, |r.dev0|)
    requires r.feed == Stream(Opened(v, chunk, now, meta, crc, withCrc)) && 0 <= i < |r.dev0|
    ensures |r.dev| == |r.dev0|
    ensures Hit(chunk * BLOCKS * PER_BLOCK, Lens(meta), i) ==> i < |v.dev| && r.dev[i] == v.dev[i]
    ensures !Hit(chunk * BLOCKS * PER_BLOCK, Lens(meta), i) ==> r.dev[i] == r.dev0[i]
  {
    hide Stream, Lens, Agrees, HeadOf, Accepts, Sums, PackSums, Summed, Blocks, SumsMatch;
    StreamParts(v, chunk, now, meta, crc, withCrc, |r.dev0|);
    var base, lens := chunk * BLOCKS * PER_BLOCK, Lens(meta);
    if Hit(base, lens, i) {
      var b, k := (i - base) / PER_BLOCK, (i - base) % PER_BLOCK;
      assert i == Start(base, b) + k;
      BlockInData(v.dev, base, lens, BLOCKS - 1, b, k);
    }
  }

  // A damaged fragment that its checksum shows is not accepted.
  lemma DamageShows(t: seq<Frag>, t': seq<Frag>, crc: Frag -> int, devSize: int, i: int)
    requires Taken(t, devSize) && Taken(t', devSize) && HeaderOf(t).crc && SumsMatch(t, crc, devSize)
    requires FrontOf(t, devSize) == FrontOf(t', devSize) && TotalOf(t, devSize) == TotalOf(t', devSize)
    requires t[FrontOf(t, devSize)..TotalOf(t, devSize)] == t'[FrontOf(t, devSize)..TotalOf(t, devSize)]
    requires 0 <= i < FrontOf(t, devSize) && crc(t[i]) != crc(t'[i])
    ensures !SumsMatch(t', crc, devSize)
  {
    hide Agrees, Accepts, HeaderOf, Lens;
    var front, n := FrontOf(t, devSize), TotalOf(t, devSize) - FrontOf(t, devSize);
    if SumsMatch(t', crc, devSize) {
      var a, b := Sums(crc, t[..front]), Sums(crc, t'[..front]);
      assert a[i] != b[i];
      RoomForSums(t, devSize);
      PackShowsSums(a, b, n);
    }
  }

  lemma RoomForSums(t: seq<Frag>, devSize: int)
    requires Taken(t, devSize) && HeaderOf(t).crc
    ensures FrontOf(t, devSize) <= CELLS * (TotalOf(t, devSize) - FrontOf(t, devSize))
  {
    hide Lens, HeaderOf;
  }

  // The fragments of the whole stream.
  function CopySize(table: seq<Used>, holes: bool, withCrc: bool): int
    requires TableOk(table)
  {
    TableLens(table, holes);
    FrontSize(PackHeads(HeadsOf(table, holes))) + SumSize(PackHeads(HeadsOf(table, holes)), withCrc)
  }

  // A chunk of a volume copied to another device through any two ways of cutting the stream.
  method Copy(v: Volume, chunk: int, now: int, table: seq<Used>, holes: bool, crc: Frag -> int, withCrc: bool,
              readLens: seq<int>, target: seq<Frag>, writeLens: seq<int>) returns (done: bool, dev: seq<Frag>)
    requires VolumeOk(v, chunk) && 0 <= now < 0x8000_0000 * WORD && (chunk + 1) * BLOCKS * PER_BLOCK <= |target|
    requires TableOk(table) && forall i: int :: 0 <= i < BLOCKS ==> table[i].block == i
    requires forall i: int :: 0 <= i < |readLens| ==> 0 <= readLens[i] && readLens[i] % FRAGMENT == 0
    requires forall i: int :: 0 <= i < |writeLens| ==> 0 <= writeLens[i] && writeLens[i] % FRAGMENT == 0
    requires CopySize(table, holes, withCrc) <= Asked(readLens) && CopySize(table, holes, withCrc) <= Asked(writeLens)
    ensures done && |dev| == |target| && Bounded(Lens(PackHeads(HeadsOf(table, holes))))
    ensures forall i: int ::
      0 <= i < |target| && !Hit(chunk * BLOCKS * PER_BLOCK, Lens(PackHeads(HeadsOf(table, holes))), i) ==>
        dev[i] == target[i]
    ensures forall i: int ::
      0 <= i < |target| && Hit(chunk * BLOCKS * PER_BLOCK, Lens(PackHeads(HeadsOf(table, holes))), i) ==>
      i < |v.dev| && dev[i] == v.dev[i]
  {
    hide Stands, Held, Stream, Lens, PackHeads, HeadsOf, Bad, Agrees, Accepts, SumsMatch, EncodeHeader;
    ghost var meta := PackHeads(HeadsOf(table, holes));
    var b := new Backup(v, chunk, now, table, holes, crc, withCrc);
    forall at: int ensures !Bad(meta, at) { NoneBad(table, holes, at); }
    OpenedSizes(b.src);
    var err, stream := ReadAll(b, readLens);
    assert stream == Stream(b.src) by { assert Stream(b.src)[..|Stream(b.src)|] == Stream(b.src); }
    StreamParts(v, chunk, now, meta, crc, withCrc, |target|);
    var r := new Restore(target, crc, stream);
    err := WriteAll(r, stream, writeLens);
    NeverRefused(r, v, chunk, now, meta, crc, withCrc);
    done, dev := !err && r.spot.stage == Finished, r.dev;
    Restored(r, v, chunk, now, meta, crc, withCrc, 0);
    forall i: int | 0 <= i < |target|
      ensures |dev| == |target| && (if Hit(chunk * BLOCKS * PER_BLOCK, Lens(meta), i) then i < |v.dev|
        && dev[i] == v.dev[i] else dev[i] == target[i])
    {
      Restored(r, v, chunk, now, meta, crc, withCrc, i);
    }
  }
}
