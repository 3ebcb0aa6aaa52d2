/**
  * Writing a stream back to a chunk, a caller's buffer at a time.
  */
module ChunkRestore {
  import opened ChunkFormat
  import opened ChunkBackup

  // chunk_write_header: the headers a restore goes on with
  predicate Accepts(h: Header) {
    && h.magic == MAGIC && h.version == VERSION && h.chunkSize == CHUNK && h.blockSize == BLOCK && h.ioUnit == IO_UNIT
    && h.sectorSize == SECTOR && h.streamSize != 0 && h.streamSize % FRAGMENT == 0 && h.metaSize != 0
      && h.metaSize % FRAGMENT == 0
    && (h.crc ==> h.crcSize != 0 && h.crcSize % FRAGMENT == 0)
  }

  function HeaderOf(feed: seq<Frag>): Header
    requires |feed| > 0 && |feed[0].cells| == CELLS
  {
    DecodeHeader(feed[0])
  }

  // The sizes an accepted header gives are those of what follows, and the device has the chunk.
  predicate Agrees(feed: seq<Frag>, devSize: int)
    requires |feed| > 0 && |feed[0].cells| == CELLS
  {
    var h := HeaderOf(feed);
    && h.metaSize == META * FRAGMENT && |feed| >= 1 + META
    && Whole(feed[1..1 + META]) && Bounded(Lens(feed[1..1 + META]))
    && (h.crc ==> h.crcSize == SumSize(feed[1..1 + META], true) * FRAGMENT)
    && h.streamSize == (FrontSize(feed[1..1 + META]) + SumSize(feed[1..1 + META], h.crc)) * FRAGMENT
    && h.streamSize <= |feed| * FRAGMENT
    && 0 <= h.chunk && (h.chunk + 1) * BLOCKS * PER_BLOCK <= devSize
  }

  predicate Sound(feed: seq<Frag>, devSize: int) {
    |feed| > 0 && |feed[0].cells| == CELLS && (Accepts(HeaderOf(feed)) ==> Agrees(feed, devSize))
  }

  predicate Taken(feed: seq<Frag>, devSize: int) {
    Sound(feed, devSize) && Accepts(HeaderOf(feed))
  }

  function MetaOf(feed: seq<Frag>): seq<Frag>
    requires |feed| >= 1 + META
  {
    feed[1..1 + META]
  }

  function FrontOf(feed: seq<Frag>, devSize: int): (r: int)
    requires Taken(feed, devSize)
    ensures 1 + META <= r <= |feed|
  {
    FrontSize(MetaOf(feed))
  }

  function TotalOf(feed: seq<Frag>, devSize: int): (r: int)
    requires Taken(feed, devSize)
    ensures FrontOf(feed, devSize) <= r <= |feed|
  {
    FrontSize(MetaOf(feed)) + SumSize(MetaOf(feed), HeaderOf(feed).crc)
  }

  function BaseOf(feed: seq<Frag>): int
    requires |feed| > 0 && |feed[0].cells| == CELLS
  {
    HeaderOf(feed).chunk * BLOCKS * PER_BLOCK
  }

  // ---- the device once `upto` fragments of the data have landed

  predicate Hit(base: int, lens: seq<int>, i: int)
    requires Bounded(lens)
  {
    base <= i < Start(base, BLOCKS) && (i - base) % PER_BLOCK < lens[(i - base) / PER_BLOCK]
  }

  function Pos(base: int, lens: seq<int>, i: int): (r: int)
    requires Bounded(lens) && Hit(base, lens, i)
    ensures 0 <= r < Below(lens, BLOCKS - 1)
  {
    BelowGrows(lens, (i - base) / PER_BLOCK, BLOCKS - 1);
    BelowGrows(lens, -1, (i - base) / PER_BLOCK - 1);
    Above(lens, (i - base) / PER_BLOCK) + (i - base) % PER_BLOCK
  }

  ghost predicate Landed(dev0: seq<Frag>, dev: seq<Frag>, base: int, lens: seq<int>, data: seq<Frag>, upto: int)
    requires Bounded(lens) && |data| == Below(lens, BLOCKS - 1)
  {
    |dev| == |dev0| && forall i: int :: 0 <= i < |dev0| ==>
      dev[i] == if Hit(base, lens, i) && Pos(base, lens, i) < upto then data[Pos(base, lens, i)] else dev0[i]
  }

  function Put(dev: seq<Frag>, at: int, x: seq<Frag>): (r: seq<Frag>)
    requires 0 <= at && at + |x| <= |dev|
    ensures |r| == |dev|
    ensures forall i: int :: 0 <= i < |dev| ==> r[i] == if at <= i < at + |x| then x[i - at] else dev[i]
  {
    dev[..at] + x + dev[at + |x|..]
  }

  // Fragments of one block are passed over in order, after those of later blocks.
  lemma PosOrder(base: int, lens: seq<int>, b: int, k: int, n: int, i: int)
    requires Bounded(lens) && 0 <= b < BLOCKS && 0 <= k && 0 <= n && k + n <= lens[b] && Hit(base, lens, i)
    ensures Start(base, b) + k <= i < Start(base, b) + k + n <==>
      Above(lens, b) + k <= Pos(base, lens, i) < Above(lens, b) + k + n
    ensures Start(base, b) + k <= i < Start(base, b) + k + n ==>
      Pos(base, lens, i) - (Above(lens, b) + k) == i - (Start(base, b) + k)
  {
    var c, j := (i - base) / PER_BLOCK, (i - base) % PER_BLOCK;
    assert i == Start(base, c) + j;
    if c < b {
      BelowGrows(lens, c, b - 1);
    } else if b < c {
      BelowGrows(lens, b, c);
    }
  }

  lemma LandStep(dev0: seq<Frag>, dev: seq<Frag>, base: int, lens: seq<int>, data: seq<Frag>, b: int, k: int, n: int)
    requires Bounded(lens) && |data| == Below(lens, BLOCKS - 1) && 0 <= b < BLOCKS && 0 <= k && 0 <= n
      && k + n <= lens[b]
    requires 0 <= base && Start(base, BLOCKS) <= |dev0| && Landed(dev0, dev, base, lens, data, Above(lens, b) + k)
    ensures |dev| == |dev0| && 0 <= Above(lens, b) + k <= Above(lens, b) + k + n <= |data|
    ensures Landed(dev0, Put(dev, Start(base, b) + k, data[Above(lens, b) + k..Above(lens, b) + k + n]), base, lens,
      data, Above(lens, b) + k + n)
  {
    BelowGrows(lens, b, BLOCKS - 1);
    var at, from := Start(base, b) + k, Above(lens, b) + k;
    var dev' := Put(dev, at, data[from..from + n]);
    forall i: int | 0 <= i < |dev0|
      ensures dev'[i] ==
        if Hit(base, lens, i) && Pos(base, lens, i) < from + n then data[Pos(base, lens, i)] else dev0[i]
    {
      if Hit(base, lens, i) {
        PosOrder(base, lens, b, k, n, i);
      } else {
        MissOutside(base, lens, b, k, n, i);
      }
    }
  }

  lemma MissOutside(base: int, lens: seq<int>, b: int, k: int, n: int, i: int)
    requires Bounded(lens) && 0 <= b < BLOCKS && 0 <= k && 0 <= n && k + n <= lens[b] && !Hit(base, lens, i)
    ensures !(Start(base, b) + k <= i < Start(base, b) + k + n)
  {
  }

  // ---- where a restore stands

  datatype Spot = Spot(stage: Stage, block: int, written: int)

  predicate SpotOk(lens: seq<int>, p: Spot)
    requires Bounded(lens)
  {
    && -1 <= p.block < BLOCKS && 0 <= p.written && (p.block < 0 ==> p.written == 0)
    && (p.block >= 0 ==> p.written == 0 || p.written < lens[p.block])
  }

  function DataOf(feed: seq<Frag>, devSize: int): (r: seq<Frag>)
    requires Taken(feed, devSize)
    ensures |r| == Below(Lens(MetaOf(feed)), BLOCKS - 1)
  {
    feed[1 + META..FrontOf(feed, devSize)]
  }

  // The device holds the first `upto` fragments of the data.
  ghost predicate Poured(feed: seq<Frag>, dev0: seq<Frag>, dev: seq<Frag>, upto: int)
    requires Taken(feed, |dev0|)
  {
    Landed(dev0, dev, BaseOf(feed), Lens(MetaOf(feed)), DataOf(feed, |dev0|), upto)
  }

  datatype Buffers = Buffers(meta: seq<Frag>, sums: seq<int>, crcs: seq<Frag>)

  predicate Summed(feed: seq<Frag>, crc: Frag -> int, w: int, sums: seq<int>)
    requires 0 <= w <= |feed|
  {
    |feed| > 0 && |feed[0].cells| == CELLS && HeaderOf(feed).crc ==> sums == Sums(crc, feed[..w])
  }

  // After w fragments of the feed.
  ghost predicate Held(feed: seq<Frag>, crc: Frag -> int, dev0: seq<Frag>, dev: seq<Frag>, p: Spot, u: Buffers,
                       w: int) {
    && Taken(feed, |dev0|) && 0 <= w <= TotalOf(feed, |dev0|)
    && (p.stage == AtMeta || p.stage == AtData || p.stage == AtCrc || p.stage == Finished)
    && SpotOk(Lens(MetaOf(feed)), p)
    && Summed(feed, crc, Min(w, FrontOf(feed, |dev0|)), u.sums)
    && Poured(feed, dev0, dev, Min(w, FrontOf(feed, |dev0|)) - 1 - META)
    && (p.stage == AtMeta ==>
      w == 1 + |u.meta| < 1 + META && u.meta == feed[1..w] && p.block == BLOCKS - 1 && p.written == 0 && u.crcs == [])
    && (p.stage != AtMeta ==> u.meta == MetaOf(feed))
    && (p.stage == AtData ==> w == 1 + META + Above(Lens(MetaOf(feed)), p.block) + p.written && u.crcs == [])
    && (p.stage == AtCrc ==> HeaderOf(feed).crc)
    && (p.stage == AtCrc || p.stage == Finished ==>
      FrontOf(feed, |dev0|) <= w && u.crcs == feed[FrontOf(feed, |dev0|)..w])
    && (p.stage == Finished ==> w == TotalOf(feed, |dev0|) && (HeaderOf(feed).crc ==> SumsMatch(feed, crc, |dev0|)))
  }

  // The checksums at the end are those of the fragments before.
  predicate SumsMatch(feed: seq<Frag>, crc: Frag -> int, devSize: int)
    requires Taken(feed, devSize)
  {
    var front := FrontOf(feed, devSize);
    feed[front..TotalOf(feed, devSize)] == PackSums(Sums(crc, feed[..front]), TotalOf(feed, devSize) - front)
  }

  // ---- the steps keep it

  function Added(on: bool, crc: Frag -> int, sums: seq<int>, x: seq<Frag>): seq<int> {
    if on then sums + Sums(crc, x) else sums
  }

  lemma SummedStep(feed: seq<Frag>, crc: Frag -> int, w: int, sums: seq<int>, n: int)
    requires |feed| > 0 && |feed[0].cells| == CELLS && 0 <= w && 0 <= n && w + n <= |feed| && Summed(feed, crc, w, sums)
    ensures Summed(feed, crc, w + n, Added(HeaderOf(feed).crc, crc, sums, feed[w..w + n]))
  {
    assert feed[..w + n] == feed[..w] + feed[w..w + n];
    SumsJoin(crc, feed[..w], feed[w..w + n]);
  }

  lemma HeaderMove(feed: seq<Frag>, crc: Frag -> int, dev: seq<Frag>)
    requires Taken(feed, |dev|)
    ensures Held(feed, crc, dev, dev, Spot(AtMeta, BLOCKS - 1, 0),
      Buffers([], Added(HeaderOf(feed).crc, crc, [], [feed[0]]), []), 1)
  {
    hide Agrees, Accepts, Lens, HeaderOf, Bounded, Below;
    assert Sums(crc, feed[..0]) == [] && feed[0..0 + 1] == [feed[0]] && feed[1..1] == [];
    SummedStep(feed, crc, 0, [], 1);
  }

  // Nothing has landed before the data.
  lemma PourNone(feed: seq<Frag>, dev0: seq<Frag>, dev: seq<Frag>, a: int, b: int)
    requires Taken(feed, |dev0|) && a <= 0 && b <= 0 && Poured(feed, dev0, dev, a)
    ensures Poured(feed, dev0, dev, b)
  {
    hide Agrees, Accepts, Lens, HeaderOf, Below;
  }

  lemma MetaMove(feed: seq<Frag>, crc: Frag -> int, dev0: seq<Frag>, dev: seq<Frag>, p: Spot, u: Buffers, w: int,
                 n: int)
    requires Held(feed, crc, dev0, dev, p, u, w) && p.stage == AtMeta && 0 < n <= META - |u.meta|
    ensures w + n <= |feed|
    ensures Held(feed, crc, dev0, dev, p.(stage := if |u.meta| + n == META then AtData else AtMeta),
                 u.(meta := u.meta + feed[w..w + n], sums := Added(HeaderOf(feed).crc, crc, u.sums, feed[w..w + n])),
                   w + n)
  {
    hide Agrees, Accepts, Lens, HeaderOf, Bounded, Below, Landed;
    SummedStep(feed, crc, w, u.sums, n);
    SliceSplits(feed, 1, w, w + n);
    PourNone(feed, dev0, dev, w - 1 - META, w + n - 1 - META);
  }

  lemma DataWhere(feed: seq<Frag>, devSize: int, b: int)
    requires Taken(feed, devSize) && -1 <= b < BLOCKS
    ensures 0 <= Above(Lens(MetaOf(feed)), b) && 1 + META + Above(Lens(MetaOf(feed)), b) <= FrontOf(feed, devSize)
    ensures b >= 0 ==> Above(Lens(MetaOf(feed)), b) + Lens(MetaOf(feed))[b] == Above(Lens(MetaOf(feed)), b - 1)
    ensures b == -1 ==> 1 + META + Above(Lens(MetaOf(feed)), b) == FrontOf(feed, devSize)
    ensures b == BLOCKS - 1 ==> Above(Lens(MetaOf(feed)), b) == 0
  {
    hide Accepts, Lens, HeaderOf;
    BelowGrows(Lens(MetaOf(feed)), b, BLOCKS - 1);
  }

  function Next(p: Spot, n: int, length: int): Spot {
    if p.written + n == length then Spot(p.stage, p.block - 1, 0) else Spot(p.stage, p.block, p.written + n)
  }

  lemma PourStep(feed: seq<Frag>, dev0: seq<Frag>, dev: seq<Frag>, b: int, k: int, n: int, w: int)
    requires Taken(feed, |dev0|) && 0 <= b < BLOCKS && 0 <= k && 0 <= n && k + n <= Lens(MetaOf(feed))[b]
    requires Poured(feed, dev0, dev, Above(Lens(MetaOf(feed)), b) + k)
      && w == 1 + META + Above(Lens(MetaOf(feed)), b) + k
    ensures 0 <= Start(BaseOf(feed), b) + k && Start(BaseOf(feed), b) + k + n <= |dev0| == |dev|
    ensures 0 <= w && w + n <= |feed|
    ensures Poured(feed, dev0, Put(dev, Start(BaseOf(feed), b) + k, feed[w..w + n]),
      Above(Lens(MetaOf(feed)), b) + k + n)
  {
    hide Accepts, Lens, HeaderOf, Below, Landed;
    var lens, data := Lens(MetaOf(feed)), DataOf(feed, |dev0|);
    DataWhere(feed, |dev0|, b);
    DataWhere(feed, |dev0|, b - 1);
    LandStep(dev0, dev, BaseOf(feed), lens, data, b, k, n);
    assert data[Above(lens, b) + k..Above(lens, b) + k + n] == feed[w..w + n];
  }

  lemma DataMove(feed: seq<Frag>, crc: Frag -> int, dev0: seq<Frag>, dev: seq<Frag>, p: Spot, u: Buffers, w: int,
                 n: int)
    requires Held(feed, crc, dev0, dev, p, u, w) && p.stage == AtData && p.block >= 0
      && 0 <= n <= Lens(MetaOf(feed))[p.block] - p.written
    ensures w + n <= TotalOf(feed, |dev0|)
    ensures 0 <= Start(BaseOf(feed), p.block) + p.written && Start(BaseOf(feed), p.block) + p.written + n <= |dev|
    ensures Held(feed, crc, dev0, Put(dev, Start(BaseOf(feed), p.block) + p.written, feed[w..w + n]),
                 Next(p, n, Lens(MetaOf(feed))[p.block]),
                   u.(sums := Added(HeaderOf(feed).crc, crc, u.sums, feed[w..w + n])), w + n)
  {
    hide Agrees, Accepts, Lens, HeaderOf, Below, Poured, Above, Start, FrontOf, Sums;
    DataWhere(feed, |dev0|, p.block);
    DataWhere(feed, |dev0|, p.block - 1);
    PourStep(feed, dev0, dev, p.block, p.written, n, w);
    SummedStep(feed, crc, w, u.sums, n);
  }

  // All blocks are done: the checksums follow.
  lemma CrcNextMove(feed: seq<Frag>, crc: Frag -> int, dev0: seq<Frag>, dev: seq<Frag>, p: Spot, u: Buffers, w: int)
    requires Held(feed, crc, dev0, dev, p, u, w) && p.stage == AtData && p.block < 0 && HeaderOf(feed).crc
    ensures Held(feed, crc, dev0, dev, p.(stage := AtCrc), u, w)
  {
    hide Agrees, Accepts, Lens, HeaderOf, Below, Poured, Above, FrontOf, Sums;
    DataWhere(feed, |dev0|, -1);
  }

  lemma CrcFill(feed: seq<Frag>, crc: Frag -> int, dev0: seq<Frag>, dev: seq<Frag>, p: Spot, u: Buffers, w: int, n: int)
    requires Held(feed, crc, dev0, dev, p, u, w) && p.stage == AtCrc && 0 <= n <= TotalOf(feed, |dev0|) - w
    ensures Held(feed, crc, dev0, dev, p, u.(crcs := u.crcs + feed[w..w + n]), w + n)
  {
    hide Agrees, Accepts, Lens, HeaderOf, Below, Poured, Above, Sums;
    SliceSplits(feed, FrontOf(feed, |dev0|), w, w + n);
  }

  // Short of the checksums the stream has not ended, if it has any.
  lemma NotEnded(feed: seq<Frag>, crc: Frag -> int, dev0: seq<Frag>, dev: seq<Frag>, p: Spot, u: Buffers, w: int)
    requires Held(feed, crc, dev0, dev, p, u, w) && (p.stage == AtMeta || p.stage == AtData)
    ensures w <= FrontOf(feed, |dev0|) && (HeaderOf(feed).crc ==> w < TotalOf(feed, |dev0|))
  {
    hide Accepts, Lens, HeaderOf, Below, Poured, Above, Sums;
    if p.stage == AtData && p.block >= 0 {
      DataWhere(feed, |dev0|, p.block);
      DataWhere(feed, |dev0|, p.block - 1);
    } else if p.stage == AtData {
      DataWhere(feed, |dev0|, -1);
    }
  }

  // At the end of the stream the comparison of the two buffers decides.
  lemma EndMove(feed: seq<Frag>, crc: Frag -> int, dev0: seq<Frag>, dev: seq<Frag>, p: Spot, u: Buffers, w: int)
    requires Held(feed, crc, dev0, dev, p, u, w) && w == TotalOf(feed, |dev0|) && p.stage != Finished
    ensures HeaderOf(feed).crc ==>
      (u.crcs == PackSums(u.sums, w - FrontOf(feed, |dev0|)) <==> SumsMatch(feed, crc, |dev0|))
    ensures !HeaderOf(feed).crc || SumsMatch(feed, crc, |dev0|) ==>
      Held(feed, crc, dev0, dev, p.(stage := Finished), u, w)
  {
    hide Accepts, Lens, HeaderOf, Below, Poured, Above, Sums;
    if p.stage == AtMeta || p.stage == AtData { NotEnded(feed, crc, dev0, dev, p, u, w); }
  }

  lemma PutMore(dev: seq<Frag>, at: int, x: seq<Frag>, y: seq<Frag>)
    requires 0 <= at && at + |x| + |y| <= |dev|
    ensures Put(Put(dev, at, x), at + |x|, y) == Put(dev, at, x + y)
  {
  }

  // block_write: in units the device takes
  method BlockWrite(dev: seq<Frag>, x: seq<Frag>, at: int) returns (r: seq<Frag>)
    requires 0 <= at && at + |x| <= |dev|
    ensures r == Put(dev, at, x)
  {
    r := dev;
    var done := 0;
    assert Put(dev, at, x[..0]) == dev;
    while done < |x|
      invariant 0 <= done <= |x| && r == Put(dev, at, x[..done])
    {
      var len := Min(IO_UNIT / FRAGMENT, |x| - done);
      PutMore(dev, at, x[..done], x[done..done + len]);
      SliceSplits(x, 0, done, done + len);
      r := Put(r, at + done, x[done..done + len]);
      done := done + len;
    }
    assert x[..|x|] == x;
  }

  const NO_BUFFERS := Buffers([], [], [])

  function Steps(p: Spot): nat {
    if p.stage == AtData && p.block >= -1 then p.block + 2 else 0
  }

  class Restore {
    ghost const feed: seq<Frag>
    ghost const dev0: seq<Frag>
    const crc: Frag -> int
    var dev: seq<Frag>
    var header: Header
    var spot: Spot
    var bufs: Buffers
    var writeSize: int

    ghost predicate Begun() reads this {
      var held := Held(feed, crc, dev0, dev, spot, bufs, writeSize);
      held && header == HeaderOf(feed)
    }

    // At the end and not finished: the checksums differed.
    ghost predicate Failed() reads this {
      Taken(feed, |dev0|) && writeSize == TotalOf(feed, |dev0|) && HeaderOf(feed).crc && !SumsMatch(feed, crc, |dev0|)
    }

    ghost predicate Valid() reads this {
      && Sound(feed, |dev0|)
      && if spot.stage == AtHeader then writeSize == 0 && dev == dev0 && bufs == NO_BUFFERS
        && spot == Spot(AtHeader, BLOCKS - 1, 0)
         else Begun() && (writeSize == TotalOf(feed, |dev0|) && spot.stage != Finished ==> Failed())
    }

    // pfs_chunk_writestream_open: on a device, for a stream that is to come
    constructor (dev: seq<Frag>, crc: Frag -> int, ghost feed: seq<Frag>)
      requires Sound(feed, |dev|)
      ensures Valid() && writeSize == 0 && this.feed == feed && this.dev0 == dev && this.crc == crc
        && spot.stage == AtHeader
    {
      this.feed, dev0, this.crc, this.dev := feed, dev, crc, dev;
      header := Header(0, 0, 0, false, [], 0, 0, 0, 0, 0, 0, 0, 0, 0);
      spot, bufs, writeSize := Spot(AtHeader, BLOCKS - 1, 0), NO_BUFFERS, 0;
    }

    // chunk_write_data where a block still has data to come
    method WriteBlock(buf: seq<Frag>) returns (used: int)
      requires Begun() && spot.stage == AtData && 0 < |buf| && writeSize + |buf| <= |feed| && 0 <= writeSize
      requires buf == feed[writeSize..writeSize + |buf|]
      requires Whole(bufs.meta) && bufs.meta == MetaOf(feed) && 0 <= spot.block < BLOCKS
        && spot.written < Lens(bufs.meta)[spot.block]
      modifies this
      ensures Begun() && spot.stage == AtData && 0 < used <= |buf| && writeSize == old(writeSize) + used
    {
      hide Held, Lens, HeadOf;
      var length := Lens(bufs.meta)[spot.block];
      used := Min(length - spot.written, |buf|);
      DataMove(feed, crc, dev0, dev, spot, bufs, writeSize, used);
      assert buf[..used] == feed[writeSize..writeSize + used];
      dev := BlockWrite(dev, buf[..used], header.chunk * BLOCKS * PER_BLOCK + spot.block * PER_BLOCK + spot.written);
      var sums := bufs.sums;
      if header.crc {
        sums := SumUp(crc, buf[..used], sums);
      }
      bufs := bufs.(sums := sums);
      spot := Next(spot, used, length);
      writeSize := writeSize + used;
    }

    // Takes n fragments of the block table or of the checksums.
    method Take(x: seq<Frag>)
      requires Begun() && (spot.stage == AtMeta || spot.stage == AtCrc) && 0 <= writeSize && writeSize + |x| <= |feed|
      requires x == feed[writeSize..writeSize + |x|]
      requires spot.stage == AtMeta ==> 0 < |x| <= META - |bufs.meta|
      requires spot.stage == AtCrc ==> Taken(feed, |dev0|) && |x| <= TotalOf(feed, |dev0|) - writeSize
      modifies this
      ensures Begun() && writeSize == old(writeSize) + |x| && (x == [] ==> spot == old(spot))
      ensures spot.stage == AtMeta || spot.stage == AtData || spot.stage == AtCrc
    {
      hide Held;
      if spot.stage == AtMeta {
        MetaMove(feed, crc, dev0, dev, spot, bufs, writeSize, |x|);
        var sums := bufs.sums;
        if header.crc {
          sums := SumUp(crc, x, sums);
        }
        bufs := bufs.(meta := bufs.meta + x, sums := sums);
        spot := spot.(stage := if |bufs.meta| == META then AtData else AtMeta);
      } else {
        CrcFill(feed, crc, dev0, dev, spot, bufs, writeSize, |x|);
        bufs := bufs.(crcs := bufs.crcs + x);
      }
      writeSize := writeSize + |x|;
    }

    // chunk_write_data
    method WriteData(buf: seq<Frag>) returns (err: bool, used: int)
      requires Valid() && spot.stage == AtData && 0 < |buf| && 0 <= writeSize && writeSize + |buf| <= |feed|
      requires buf == feed[writeSize..writeSize + |buf|]
      modifies this
      ensures Begun() && 0 <= used <= |buf| && writeSize == old(writeSize) + used
        && (spot.stage == AtData || spot.stage == AtCrc)
      ensures err ==>
        used == 0 && spot == old(spot) && spot.stage == AtData && Whole(bufs.meta) && Bad(bufs.meta, spot.block)
      ensures !err ==> used > 0 || Steps(spot) < old(Steps(spot))
    {
      hide Held, Lens, HeadOf, Agrees, Accepts, SumsMatch;
      err, used := false, 0;
      HeldFacts(feed, crc, dev0, dev, spot, bufs, writeSize);
      if spot.block < 0 {
        if header.crc {
          CrcNextMove(feed, crc, dev0, dev, spot, bufs, writeSize);
          spot := spot.(stage := AtCrc);
        }
      } else {
        var head := HeadOf(bufs.meta, spot.block);
        LensAt(bufs.meta, spot.block);
        if head.block != spot.block || head.length % FRAGMENT != 0 {
          err := true;
        } else if head.length == 0 {
          SkipMove(feed, crc, dev0, dev, spot, bufs, writeSize);
          spot := Spot(AtData, spot.block - 1, 0);
        } else {
          used := WriteBlock(buf);
        }
      }
    }

    // One turn of the loop: some of the buffer, at its front.
    method Step(buf: seq<Frag>) returns (err: bool, used: int)
      requires Valid() && spot.stage != Finished && 0 < |buf| && 0 <= writeSize && writeSize + |buf| <= |feed|
      requires buf == feed[writeSize..writeSize + |buf|]
      modifies this
      ensures 0 <= used <= |buf| && writeSize == old(writeSize) + used && spot.stage != Finished
      ensures !err ==>
        Begun() && spot.stage != AtHeader && (used > 0 || Steps(spot) < old(Steps(spot)) || old(Failed()))
      ensures used == 0 ==> Steps(spot) <= old(Steps(spot))
      ensures err ==> Valid() && used == 0
      ensures err ==>
        !Accepts(HeaderOf(feed)) || (spot.stage == AtData && Whole(bufs.meta) && Bad(bufs.meta, spot.block))
    {
      hide Held, Agrees, Accepts, SumsMatch, Bad;
      err, used := false, 0;
      if spot.stage == AtHeader {
        header := DecodeHeader(buf[0]);
        if !Accepts(header) {
          err := true;
        } else {
          HeaderMove(feed, crc, dev0);
          var sums := [];
          if header.crc {
            sums := SumUp(crc, [buf[0]], sums);
          }
          bufs := bufs.(sums := sums);
          spot := spot.(stage := AtMeta);
          used, writeSize := 1, 1;
        }
      } else {
        HeldFacts(feed, crc, dev0, dev, spot, bufs, writeSize);
        if spot.stage == AtData {
          err, used := WriteData(buf);
        } else {
          Sizes(feed, |dev0|);
          var room := if spot.stage == AtMeta then header.metaSize / FRAGMENT - |bufs.meta|
            else header.crcSize / FRAGMENT - |bufs.crcs|;
          used := Min(room, |buf|);
          assert buf[..used] == feed[writeSize..writeSize + used];
          Take(buf[..used]);
        }
      }
    }

    // chunk_write_finish
    method Finish() returns (err: bool)
      requires Begun() && spot.stage != Finished && spot.stage != AtHeader && Taken(feed, |dev0|)
        && writeSize == TotalOf(feed, |dev0|)
      modifies this
      ensures Valid() && writeSize == old(writeSize) && (err <==> Failed()) && (!err ==> spot.stage == Finished)
      ensures err ==> spot == old(spot)
    {
      hide Held, Agrees, Accepts, SumsMatch;
      Sizes(feed, |dev0|);
      EndMove(feed, crc, dev0, dev, spot, bufs, writeSize);
      if writeSize != header.streamSize / FRAGMENT {
        err := true;
      } else if header.crc && PackSums(bufs.sums, header.crcSize / FRAGMENT) != bufs.crcs {
        err := true;
      } else {
        spot, err := spot.(stage := Finished), false;
      }
    }

    // Why a restore stops with an error.
    ghost predicate Refused()
      requires Sound(feed, |dev0|)
      reads this
    {
      var badBlock := spot.stage == AtData && Whole(bufs.meta) && Bad(bufs.meta, spot.block);
      !Accepts(HeaderOf(feed)) || badBlock || Failed()
    }

    lemma WithinStream()
      requires Valid()
      ensures 0 <= writeSize && Sound(feed, |dev0|)
      ensures spot.stage != AtHeader ==> Taken(feed, |dev0|) && writeSize <= TotalOf(feed, |dev0|)
      ensures spot.stage == Finished ==> writeSize == TotalOf(feed, |dev0|)
    {
      hide Held;
      if spot.stage != AtHeader { HeldFacts(feed, crc, dev0, dev, spot, bufs, writeSize); }
    }

    // One turn of the loop, and the end of the stream if that is where it led.
    method Turn(buf: seq<Frag>) returns (err: bool, used: int)
      requires Valid() && spot.stage != Finished && 0 < |buf| && 0 <= writeSize && writeSize + |buf| <= |feed|
      requires buf == feed[writeSize..writeSize + |buf|]
      modifies this
      ensures Valid() && 0 <= used <= |buf| && writeSize == old(writeSize) + used
      ensures err ==> Refused()
      ensures !err ==> spot.stage != AtHeader && (used > 0 || Steps(spot) < old(Steps(spot)) || spot.stage == Finished)
      ensures used == 0 ==> Steps(spot) <= old(Steps(spot))
    {
      hide Held, Agrees, Accepts, SumsMatch, Bad;
      err, used := Step(buf);
      if !err {
        HeldFacts(feed, crc, dev0, dev, spot, bufs, writeSize);
        Sizes(feed, |dev0|);
        if writeSize >= header.streamSize / FRAGMENT {
          err := Finish();
        }
      }
    }

    // pfs_chunk_writestream
    method Write(buf: seq<Frag>, len: int) returns (err: bool, used: int)
      requires Valid() && len >= 0 && 0 <= writeSize
      requires len % FRAGMENT == 0 ==>
        |buf| == len / FRAGMENT && writeSize + |buf| <= |feed| && buf == feed[writeSize..writeSize + |buf|]
      modifies this
      ensures Valid() && writeSize == old(writeSize) + used
      ensures len % FRAGMENT != 0 ==> err && used == 0 && dev == old(dev) && spot == old(spot)
      ensures len % FRAGMENT == 0 && !err && |buf| > 0 ==>
        Taken(feed, |dev0|) && used == Min(|buf|, TotalOf(feed, |dev0|) - old(writeSize))
      ensures len % FRAGMENT == 0 && !err && |buf| == 0 ==> used == 0
      ensures err && len % FRAGMENT == 0 ==> Refused()
    {
      hide Held, Agrees, Accepts, SumsMatch, Bad, Refused, Begun, Failed;
      err, used := false, 0;
      if len % FRAGMENT != 0 {
        err := true;
      } else {
        while used < |buf| && spot.stage != Finished && !err
          invariant Valid() && 0 <= used <= |buf| && writeSize == old(writeSize) + used
          invariant used > 0 && !err ==> spot.stage != AtHeader
          invariant err ==> Refused()
          decreases |buf| - used, Steps(spot), spot.stage != Finished, !err
        {
          var n;
          assert buf[used..] == feed[writeSize..writeSize + (|buf| - used)];
          err, n := Turn(buf[used..]);
          used := used + n;
        }
        WithinStream();
      }
    }
  }

  lemma Sizes(feed: seq<Frag>, devSize: int)
    requires Taken(feed, devSize)
    ensures var h := HeaderOf(feed); h.metaSize / FRAGMENT == META && h.streamSize / FRAGMENT == TotalOf(feed, devSize)
                                     && (h.crc ==>
                                       h.crcSize / FRAGMENT == TotalOf(feed, devSize) - FrontOf(feed, devSize))
  {
    hide Lens, Accepts;
  }

  lemma HeldFacts(feed: seq<Frag>, crc: Frag -> int, dev0: seq<Frag>, dev: seq<Frag>, p: Spot, u: Buffers, w: int)
    requires Held(feed, crc, dev0, dev, p, u, w)
    ensures Taken(feed, |dev0|) && 0 <= w <= TotalOf(feed, |dev0|) && SpotOk(Lens(MetaOf(feed)), p)
    ensures p.stage == AtMeta ==> |u.meta| < META && w == 1 + |u.meta|
    ensures p.stage == AtData ==> Whole(u.meta) && u.meta == MetaOf(feed) && Bounded(Lens(u.meta))
    ensures p.stage == AtData && p.block < 0 && !HeaderOf(feed).crc ==> w == TotalOf(feed, |dev0|)
    ensures p.stage == AtCrc ==>
      FrontOf(feed, |dev0|) <= w && HeaderOf(feed).crc && |u.crcs| == w - FrontOf(feed, |dev0|)
    ensures p.stage == Finished ==> w == TotalOf(feed, |dev0|)
  {
    hide Accepts, Lens, Poured, Sums;
    if p.stage == AtData && p.block < 0 { DataWhere(feed, |dev0|, -1); }
  }

  lemma SkipMove(feed: seq<Frag>, crc: Frag -> int, dev0: seq<Frag>, dev: seq<Frag>, p: Spot, u: Buffers, w: int)
    requires Held(feed, crc, dev0, dev, p, u, w) && p.stage == AtData && p.block >= 0
      && Lens(MetaOf(feed))[p.block] == 0
    ensures Held(feed, crc, dev0, dev, Spot(AtData, p.block - 1, 0), u, w)
  {
    hide Agrees, Accepts, Lens, HeaderOf, Poured, Sums, Above, Below;
    DataWhere(feed, |dev0|, p.block);
  }
}
