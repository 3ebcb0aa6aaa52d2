/**
  * Reading a chunk out as a stream, a caller's buffer at a time.  The stream is fixed when it
  * is opened: whatever sizes the caller asks for, the pieces put together are that stream.
  */
module ChunkBackup {
  import opened ChunkFormat

  datatype Stage = AtHeader | AtMeta | AtData | AtCrc | Finished

  // What a stream is made from: the chunk on the device, its header and block table.
  datatype Source = Source(dev: seq<Frag>, base: int, header: Frag, meta: seq<Frag>, crc: Frag -> int, withCrc: bool)

  predicate SourceOk(s: Source) {
    Whole(s.meta) && Bounded(Lens(s.meta)) && 0 <= s.base && Start(s.base, BLOCKS) <= |s.dev|
  }

  // An entry the stream stops at: it names another block, or a length that is no whole fragments.
  predicate Bad(meta: seq<Frag>, b: int)
    requires Whole(meta)
  {
    0 <= b < BLOCKS && (HeadOf(meta, b).block != b || HeadOf(meta, b).length % FRAGMENT != 0)
  }

  // Everything in front of the checksums.
  ghost function Front(s: Source): seq<Frag>
    requires SourceOk(s)
  {
    [s.header] + s.meta + Blocks(s.dev, s.base, Lens(s.meta), BLOCKS - 1)
  }

  ghost function CrcSize(s: Source): int
    requires SourceOk(s)
  {
    if s.withCrc then Units(|Front(s)|, CELLS) else 0
  }

  ghost function Stream(s: Source): seq<Frag>
    requires SourceOk(s)
  {
    Front(s) + PackSums(Sums(s.crc, Front(s)), CrcSize(s))
  }

  // Where a stream stands, and what of its front is still to come.
  datatype Place = Place(stage: Stage, metaRead: int, block: int, blockRead: int)

  predicate PlaceOk(s: Source, p: Place)
    requires SourceOk(s)
  {
    && 0 <= p.metaRead <= META && -1 <= p.block < BLOCKS && 0 <= p.blockRead
    && (p.block < 0 ==> p.blockRead == 0)
    && (p.block >= 0 ==> p.blockRead == 0 || p.blockRead < Lens(s.meta)[p.block])
  }

  ghost function Body(s: Source, p: Place): seq<Frag>
    requires SourceOk(s) && PlaceOk(s, p)
  {
    match p.stage
    case AtHeader => Front(s)
    case AtMeta => s.meta[p.metaRead..] + Blocks(s.dev, s.base, Lens(s.meta), BLOCKS - 1)
    case AtData => Tail(s.dev, s.base, Lens(s.meta), p.block, p.blockRead)
    case AtCrc => []
    case Finished => []
  }

  // What is still to come.
  ghost function Rest(s: Source, p: Place, sums: seq<int>, crcSize: int, crcRead: int): seq<Frag>
    requires SourceOk(s) && PlaceOk(s, p) && 0 <= crcRead <= crcSize
  {
    Body(s, p) + PackSums(sums + Sums(s.crc, Body(s, p)), crcSize)[crcRead..]
  }

  lemma SumsJoin(crc: Frag -> int, a: seq<Frag>, b: seq<Frag>)
    ensures Sums(crc, a + b) == Sums(crc, a) + Sums(crc, b)
  {
  }

  // Fragments handed out and summed up leave the stream as it was.
  lemma FrontStep(s: Source, p: Place, q: Place, x: seq<Frag>, sums: seq<int>, sums': seq<int>, crcSize: int)
    requires SourceOk(s) && PlaceOk(s, p) && PlaceOk(s, q) && crcSize >= 0
    requires Body(s, p) == x + Body(s, q) && (sums' == sums + Sums(s.crc, x) || crcSize == 0)
    ensures Rest(s, p, sums, crcSize, 0) == x + Rest(s, q, sums', crcSize, 0)
  {
    hide Body, PackSums, SourceOk, PlaceOk;
    SumsJoin(s.crc, x, Body(s, q));
    var all := sums + Sums(s.crc, Body(s, p));
    if crcSize != 0 {
      assert all == sums' + Sums(s.crc, Body(s, q));
    } else {
      assert PackSums(all, crcSize) == [] == PackSums(sums' + Sums(s.crc, Body(s, q)), crcSize);
    }
    assert x + (Body(s, q) + PackSums(all, crcSize)[0..]) == Body(s, p) + PackSums(all, crcSize)[0..];
  }

  lemma HeaderStep(s: Source, p: Place)
    requires SourceOk(s) && PlaceOk(s, p) && p.stage == AtHeader && p.metaRead == 0
    ensures Body(s, p) == [s.header] + Body(s, p.(stage := AtMeta))
  {
    hide Blocks, Lens, Bounded, HeadOf;
    assert s.meta[0..] == s.meta;
  }

  lemma MetaStep(s: Source, p: Place, n: int)
    requires SourceOk(s) && PlaceOk(s, p) && p.stage == AtMeta && 0 <= n <= META - p.metaRead && p.block == BLOCKS - 1
      && p.blockRead == 0
    ensures Body(s, p) == s.meta[p.metaRead..p.metaRead + n]
                          + Body(s, p.(metaRead := p.metaRead + n, stage := if p.metaRead + n == META then AtData
                            else AtMeta))
  {
    hide Lens, HeadOf;
    TailIsBlocks(s.dev, s.base, Lens(s.meta), BLOCKS - 1);
    assert s.meta[p.metaRead..] == s.meta[p.metaRead..p.metaRead + n] + s.meta[p.metaRead + n..];
    if p.metaRead + n == META {
      assert s.meta[p.metaRead + n..] == [];
    }
  }

  lemma BlockStep(s: Source, p: Place, n: int)
    requires SourceOk(s) && PlaceOk(s, p) && p.stage == AtData && p.block >= 0
      && 0 <= n <= Lens(s.meta)[p.block] - p.blockRead
    ensures Body(s, p) == s.dev[Start(s.base, p.block) + p.blockRead..Start(s.base, p.block) + p.blockRead + n]
                          + Body(s, if p.blockRead + n == Lens(s.meta)[p.block]
                            then p.(block := p.block - 1, blockRead := 0)
                                    else p.(blockRead := p.blockRead + n))
  {
    hide Lens, HeadOf, Tail, Blocks;
    TailStep(s.dev, s.base, Lens(s.meta), p.block, p.blockRead, n);
    TailEnds(s.dev, s.base, Lens(s.meta), p.block);
  }

  // block_read: in units the device takes
  method BlockRead(dev: seq<Frag>, n: int, at: int) returns (out: seq<Frag>)
    requires 0 <= at && 0 <= n && at + n <= |dev|
    ensures out == dev[at..at + n]
  {
    out := [];
    while |out| < n
      invariant |out| <= n && out == dev[at..at + |out|]
    {
      var len := Min(IO_UNIT / FRAGMENT, n - |out|);
      out := out + dev[at + |out|..at + |out| + len];
    }
  }

  // chunk_calc_frag_crc
  method SumUp(crc: Frag -> int, frags: seq<Frag>, sums: seq<int>) returns (r: seq<int>)
    ensures r == sums + Sums(crc, frags)
  {
    r := sums;
    for i := 0 to |frags|
      invariant r == sums + Sums(crc, frags[..i])
    {
      r := r + [crc(frags[i])];
    }
    assert frags[..|frags|] == frags;
  }

  // ---- the table a stream is opened with

  // What the metadata cache says of a block: where its written part ends counts if the file
  // system tracks holes.
  datatype Used = Used(block: int, used: bool, hole: int)

  function Hole(u: Used, b: int, holes: bool): int { if !holes || b == 0 then BLOCK else u.hole }

  function LengthOf(u: Used, b: int, holes: bool): int
    requires 0 <= u.hole <= BLOCK
  {
    if !u.used || Hole(u, b, holes) == 0 then 0 else Units(Hole(u, b, holes), FRAGMENT) * FRAGMENT
  }

  predicate TableOk(table: seq<Used>) {
    |table| == BLOCKS && forall i: int :: 0 <= i < BLOCKS ==> 0 <= table[i].block < WORD && 0 <= table[i].hole <= BLOCK
  }

  // The stream carries the written part of every used block, and nothing of the others.
  lemma LengthCovers(u: Used, b: int, holes: bool)
    requires 0 <= u.hole <= BLOCK
    ensures LengthOf(u, b, holes) % FRAGMENT == 0 && 0 <= LengthOf(u, b, holes) <= BLOCK
    ensures u.used ==> Hole(u, b, holes) <= LengthOf(u, b, holes) < Hole(u, b, holes) + FRAGMENT
    ensures !u.used ==> LengthOf(u, b, holes) == 0
  {
  }

  function HeadsOf(table: seq<Used>, holes: bool): (r: seq<Head>)
    requires TableOk(table)
    ensures |r| == BLOCKS
  {
    seq(BLOCKS, i requires 0 <= i < BLOCKS => Head(table[i].block, LengthOf(table[i], i, holes)))
  }

  // readstream_load: the block table, and how much comes before the checksums
  method LoadHeads(table: seq<Used>, holes: bool) returns (heads: seq<Head>, size: int)
    requires TableOk(table)
    ensures heads == HeadsOf(table, holes) && Bounded(Lens(PackHeads(heads)))
    ensures size == 1 + META + Below(Lens(PackHeads(heads)), BLOCKS - 1)
  {
    hide LengthOf, Lens, PackHeads;
    heads := [];
    size := 1 + META;
    ghost var lens := Lens(PackHeads(HeadsOf(table, holes)));
    TableLens(table, holes);
    for i := 0 to BLOCKS
      invariant |heads| == i && size == 1 + META + Below(lens, i - 1)
      invariant forall j: int :: 0 <= j < i ==> heads[j] == Head(table[j].block, LengthOf(table[j], j, holes))
    {
      var u := table[i];
      var length := LengthOf(u, i, holes);
      heads := heads + [Head(u.block, length)];
      size := size + length / FRAGMENT;
    }
  }

  lemma HeadsCountable(table: seq<Used>, holes: bool)
    requires TableOk(table)
    ensures Countable(HeadsOf(table, holes))
  {
    hide LengthOf;
    forall j: int | 0 <= j < BLOCKS ensures 0 <= LengthOf(table[j], j, holes) < WORD {
      LengthCovers(table[j], j, holes);
    }
  }

  lemma TableLens(table: seq<Used>, holes: bool)
    requires TableOk(table)
    ensures Bounded(Lens(PackHeads(HeadsOf(table, holes))))
    ensures forall i: int :: 0 <= i < BLOCKS ==>
      Lens(PackHeads(HeadsOf(table, holes)))[i] == LengthOf(table[i], i, holes) / FRAGMENT
  {
    hide PackHeads, HeadOf, LengthOf;
    var heads := HeadsOf(table, holes);
    forall i: int | 0 <= i < BLOCKS
      ensures HeadOf(PackHeads(heads), i) == heads[i] && 0 <= heads[i].length / FRAGMENT <= PER_BLOCK
    {
      HeadsCountable(table, holes);
      HeadsRoundTrip(heads, i);
      LengthCovers(table[i], i, holes);
    }
  }

  // A table that names each block in its place never stops the stream.
  lemma NoneBad(table: seq<Used>, holes: bool, b: int)
    requires TableOk(table) && (forall i: int :: 0 <= i < BLOCKS ==> table[i].block == i)
    ensures !Bad(PackHeads(HeadsOf(table, holes)), b)
  {
    hide PackHeads, HeadOf, LengthOf;
    if 0 <= b < BLOCKS {
      HeadsCountable(table, holes);
      HeadsRoundTrip(HeadsOf(table, holes), b);
      LengthCovers(table[b], b, holes);
    }
  }

  // ---- opening

  datatype Volume = Volume(dev: seq<Frag>, chunks: int, name: seq<int>)

  predicate VolumeOk(v: Volume, chunk: int) {
    |v.name| == 17 && 0 <= v.name[0] < 0x100_0000 && 0 <= chunk < v.chunks && v.chunks * BLOCKS * PER_BLOCK <= |v.dev|
  }

  function FrontSize(meta: seq<Frag>): (r: int)
    requires Whole(meta) && Bounded(Lens(meta))
    ensures 0 < r < WORD / CELLS
  {
    BelowBound(Lens(meta), BLOCKS - 1);
    1 + META + Below(Lens(meta), BLOCKS - 1)
  }

  function SumSize(meta: seq<Frag>, withCrc: bool): (r: int)
    requires Whole(meta) && Bounded(Lens(meta))
    ensures 0 <= r < WORD / CELLS
  {
    if withCrc then Units(FrontSize(meta), CELLS) else 0
  }

  function HeaderFor(v: Volume, chunk: int, now: int, withCrc: bool, meta: seq<Frag>): Header
    requires Whole(meta) && Bounded(Lens(meta))
  {
    Header(MAGIC, VERSION, now, withCrc, v.name, CHUNK, BLOCK, IO_UNIT, SECTOR, v.chunks, chunk, META * FRAGMENT,
           SumSize(meta, withCrc) * FRAGMENT, (FrontSize(meta) + SumSize(meta, withCrc)) * FRAGMENT)
  }

  // The stream of a chunk, opened at time `now`.
  function Opened(v: Volume, chunk: int, now: int, meta: seq<Frag>, crc: Frag -> int, withCrc: bool): (s: Source)
    requires VolumeOk(v, chunk) && 0 <= now < 0x8000_0000 * WORD && Whole(meta) && Bounded(Lens(meta))
    ensures SourceOk(s)
  {
    Source(v.dev, chunk * BLOCKS * PER_BLOCK, EncodeHeader(HeaderFor(v, chunk, now, withCrc, meta)), meta, crc, withCrc)
  }

  lemma OpenedSizes(s: Source)
    requires SourceOk(s)
    ensures |Front(s)| == FrontSize(s.meta) && CrcSize(s) == SumSize(s.meta, s.withCrc)
    ensures |Stream(s)| == FrontSize(s.meta) + SumSize(s.meta, s.withCrc)
  {
  }

  const START := Place(AtHeader, 0, BLOCKS - 1, 0)

  lemma OpenedStands(s: Source)
    requires SourceOk(s)
    ensures Stands(s, START, [], 0, 0)
  {
    hide Front, HeadOf, Lens;
    assert [] + Sums(s.crc, Front(s)) == Sums(s.crc, Front(s));
    var pack := PackSums(Sums(s.crc, Front(s)), CrcSize(s));
    assert pack[0..] == pack && Stream(s)[0..] == Stream(s);
  }

  // ---- the stream

  // The rules each stage keeps.
  predicate Local(s: Source, p: Place, crcRead: int) {
    && (p.stage == AtHeader || p.stage == AtMeta ==> p.block == BLOCKS - 1 && p.blockRead == 0)
    && (p.stage == AtHeader ==> p.metaRead == 0)
    && (p.stage == AtMeta ==> p.metaRead < META)
    && (p.stage == AtHeader || p.stage == AtMeta || p.stage == AtData ==> crcRead == 0)
    && (p.stage == AtCrc ==> s.withCrc)
  }

  // The stream stands `read` fragments from its start.
  ghost predicate Stands(s: Source, p: Place, sums: seq<int>, crcRead: int, read: int) {
    && SourceOk(s) && PlaceOk(s, p) && Local(s, p, crcRead)
    && 0 <= crcRead <= CrcSize(s) && 0 <= read <= |Stream(s)|
    && (s.withCrc ==> |sums| + |Body(s, p)| == |Front(s)|)
    && Rest(s, p, sums, CrcSize(s), crcRead) == Stream(s)[read..]
  }

  lemma DropMore(s: seq<Frag>, r: int, x: seq<Frag>, y: seq<Frag>)
    requires 0 <= r <= |s| && s[r..] == x + y
    ensures r + |x| <= |s| && s[r..r + |x|] == x && s[r + |x|..] == y
  {
    assert s[r..r + |x|] == s[r..][..|x|] && s[r + |x|..] == s[r..][|x|..];
  }

  lemma FrontMove(s: Source, p: Place, q: Place, x: seq<Frag>, sums: seq<int>, sums': seq<int>, read: int)
    requires Stands(s, p, sums, 0, read) && PlaceOk(s, q) && Local(s, q, 0)
    requires Body(s, p) == x + Body(s, q) && sums' == if s.withCrc then sums + Sums(s.crc, x) else sums
    ensures Stands(s, q, sums', 0, read + |x|) && 0 <= read <= read + |x| <= |Stream(s)|
      && x == Stream(s)[read..read + |x|]
  {
    hide Body, Front, Stream, SourceOk, PlaceOk, Local, Rest, Sums;
    FrontStep(s, p, q, x, sums, sums', CrcSize(s));
    DropMore(Stream(s), read, x, Rest(s, q, sums', CrcSize(s), 0));
  }

  lemma CrcMove(s: Source, p: Place, sums: seq<int>, crcRead: int, read: int, n: int)
    requires Stands(s, p, sums, crcRead, read) && p.stage == AtCrc && 0 <= n && crcRead + n <= CrcSize(s)
    ensures Stands(s, p, sums, crcRead + n, read + n) && 0 <= read <= read + n <= |Stream(s)|
    ensures PackSums(sums, CrcSize(s))[crcRead..crcRead + n] == Stream(s)[read..read + n]
  {
    hide Front, Stream, SourceOk, PlaceOk, PackSums, CrcSize;
    var all := PackSums(sums, CrcSize(s));
    assert sums + Sums(s.crc, []) == sums;
    assert Rest(s, p, sums, CrcSize(s), crcRead) == all[crcRead..];
    assert Rest(s, p, sums, CrcSize(s), crcRead + n) == all[crcRead + n..];
    SliceSplits(all, crcRead, crcRead + n, |all|);
    DropMore(Stream(s), read, all[crcRead..crcRead + n], all[crcRead + n..]);
  }

  function Turns(p: Place): nat { if p.stage == AtData && p.block >= -1 then p.block + 2 else 0 }

  class Backup {
    const src: Source
    const size: int
    const crcSize: int
    var readSize: int
    var place: Place
    var crcRead: int
    var sums: seq<int>

    ghost predicate Coherent() reads this {
      var at := Stands(src, place, sums, crcRead, readSize);
      at && size == |Stream(src)| && crcSize == CrcSize(src)
    }

    ghost predicate Valid() reads this {
      Coherent() && (place.stage == Finished <==> readSize == size)
    }

    // pfs_chunk_readstream_open
    constructor (v: Volume, chunk: int, now: int, table: seq<Used>, holes: bool, crc: Frag -> int, withCrc: bool)
      requires VolumeOk(v, chunk) && 0 <= now < 0x8000_0000 * WORD && TableOk(table)
      ensures Valid() && readSize == 0
      ensures Bounded(Lens(PackHeads(HeadsOf(table, holes))))
      ensures src == Opened(v, chunk, now, PackHeads(HeadsOf(table, holes)), crc, withCrc)
    {
      hide Stands, Stream, CrcSize, Lens, PackHeads, HeadsOf;
      var heads, front := LoadHeads(table, holes);
      var sumSize := if withCrc then Units(front, CELLS) else 0;
      src := Opened(v, chunk, now, PackHeads(heads), crc, withCrc);
      OpenedSizes(Opened(v, chunk, now, PackHeads(heads), crc, withCrc));
      OpenedStands(Opened(v, chunk, now, PackHeads(heads), crc, withCrc));
      crcSize := sumSize;
      size := front + sumSize;
      readSize, crcRead, sums, place := 0, 0, [], START;
    }

    // Hands out `frags`, which lead from `place` to `to`, and sums them up.
    method Emit(frags: seq<Frag>, to: Place)
      requires Coherent() && crcRead == 0 && PlaceOk(src, place) && PlaceOk(src, to) && Local(src, to, 0)
      requires Body(src, place) == frags + Body(src, to) && (to.stage == AtCrc ==> frags == [])
      modifies this
      ensures Coherent() && place == to && crcRead == 0
      ensures readSize == old(readSize) + |frags| <= size && frags == Stream(src)[old(readSize)..readSize]
    {
      hide Stands, Stream, PlaceOk, Local, Body, CrcSize;
      ghost var was, wasSums := place, sums;
      if to.stage != AtCrc && src.withCrc {
        sums := SumUp(src.crc, frags, sums);
      }
      assert Sums(src.crc, []) == [];
      FrontMove(src, was, to, frags, wasSums, sums, readSize);
      readSize := readSize + |frags|;
      place := to;
    }

    // chunk_read_data where a block still has data: at most `left` fragments of it
    method ReadBlock(left: int) returns (out: seq<Frag>)
      requires Coherent() && place.stage == AtData && crcRead == 0 && left > 0
      requires SourceOk(src) && PlaceOk(src, place) && 0 <= place.block && place.blockRead < Lens(src.meta)[place.block]
      modifies this
      ensures Coherent() && crcRead == 0 && place.stage == AtData && out != [] && |out| <= left
      ensures readSize == old(readSize) + |out| <= size && out == Stream(src)[old(readSize)..readSize]
    {
      hide Stands, Stream, Body, CrcSize, Lens, HeadOf;
      var length := Lens(src.meta)[place.block];
      var n := Min(length - place.blockRead, left);
      BlockStep(src, place, n);
      out := BlockRead(src.dev, n, Start(src.base, place.block) + place.blockRead);
      if place.blockRead + n == length {
        Emit(out, place.(block := place.block - 1, blockRead := 0));
      } else {
        Emit(out, place.(blockRead := place.blockRead + n));
      }
    }

    // chunk_read_data
    method ReadData(left: int) returns (err: bool, out: seq<Frag>)
      requires Valid() && place.stage == AtData && left > 0
      modifies this
      ensures Coherent() && crcRead == 0 && place.stage != Finished && |out| <= left
      ensures readSize == old(readSize) + |out| <= size && out == Stream(src)[old(readSize)..readSize]
      ensures err ==> place == old(place) && out == [] && Bad(src.meta, place.block)
      ensures !err ==> out != [] || Turns(place) < old(Turns(place))
    {
      hide Stands, Stream, Body, CrcSize, Lens, HeadOf;
      err, out := false, [];
      StandFacts(src, place, sums, crcRead, readSize);
      if place.block < 0 {
        if src.withCrc {
          CrcNext(src, place);
          Emit([], place.(stage := AtCrc));
        }
      } else {
        var head := HeadOf(src.meta, place.block);
        LensAt(src.meta, place.block);
        if head.block != place.block || head.length % FRAGMENT != 0 {
          err := true;
        } else if head.length == 0 {
          BlockStep(src, place, 0);
          Emit([], place.(block := place.block - 1, blockRead := 0));
        } else {
          out := ReadBlock(left);
        }
      }
    }

    // One turn of the loop: a piece of at most `left` fragments.
    method Step(left: int) returns (err: bool, out: seq<Frag>)
      requires Valid() && place.stage != Finished && left > 0
      modifies this
      ensures Coherent() && place.stage != Finished && |out| <= left
      ensures readSize == old(readSize) + |out| <= size && out == Stream(src)[old(readSize)..readSize]
      ensures err ==> place == old(place) && out == [] && place.stage == AtData && Bad(src.meta, place.block)
      ensures !err ==> out != [] || Turns(place) < old(Turns(place))
    {
      hide Stands, Stream, Body, CrcSize, Lens, HeadOf;
      err, out := false, [];
      StandFacts(src, place, sums, crcRead, readSize);
      match place.stage
      case AtHeader =>
        HeaderStep(src, place);
        out := [src.header];
        Emit(out, place.(stage := AtMeta));
      case AtMeta =>
        var n := Min(META - place.metaRead, left);
        MetaStep(src, place, n);
        out := src.meta[place.metaRead..place.metaRead + n];
        Emit(out, place.(metaRead := place.metaRead + n, stage := if place.metaRead + n == META then AtData
          else AtMeta));
      case AtData =>
        err, out := ReadData(left);
      case AtCrc =>
        var n := Min(crcSize - crcRead, left);
        CrcMove(src, place, sums, crcRead, readSize, n);
        out := PackSums(sums, crcSize)[crcRead..crcRead + n];
        crcRead := crcRead + n;
        readSize := readSize + n;
    }

    // chunk_read_finish
    method Finish() returns (err: bool)
      requires Coherent() && place.stage != Finished && readSize == size
      modifies this
      ensures !err && Valid() && readSize == old(readSize)
    {
      hide Stands;
      EndFacts(src, place, sums, crcRead, readSize);
      if readSize != size || (src.withCrc && |sums| != size - crcSize) {
        err := true;
      } else {
        place, err := place.(stage := Finished), false;
      }
    }

    // pfs_chunk_readstream
    method Read(len: int) returns (err: bool, out: seq<Frag>)
      requires Valid() && len >= 0
      modifies this
      ensures Valid()
      ensures readSize == old(readSize) + |out| <= size && out == Stream(src)[old(readSize)..readSize]
      ensures len % FRAGMENT != 0 ==> err && out == [] && place == old(place)
      ensures !err ==> |out| == Min(len / FRAGMENT, size - old(readSize))
      ensures err && len % FRAGMENT == 0 ==> place.stage == AtData && Bad(src.meta, place.block)
    {
      hide Stands, Stream, HeadOf;
      StandsWithin(src, place, sums, crcRead, readSize);
      err, out := false, [];
      if len % FRAGMENT != 0 {
        err := true;
      } else {
        var n := len / FRAGMENT;
        while |out| < n && place.stage != Finished && !err
          invariant Valid() && |out| <= n
          invariant 0 <= old(readSize) <= readSize == old(readSize) + |out| <= size
            && out == Stream(src)[old(readSize)..readSize]
          invariant err ==> place.stage == AtData && Bad(src.meta, place.block)
          decreases n - |out|, Turns(place), !err
        {
          var piece;
          err, piece := Step(n - |out|);
          SliceSplits(Stream(src), old(readSize), readSize - |piece|, readSize);
          out := out + piece;
          if !err && readSize >= size {
            err := Finish();
          }
        }
      }
    }
  }

  // The fragments asked for by a run of calls.
  function Asked(lens: seq<int>): (r: int)
    requires forall i: int :: 0 <= i < |lens| ==> 0 <= lens[i]
    ensures r >= 0
  {
    if lens == [] then 0 else Asked(lens[..|lens| - 1]) + lens[|lens| - 1] / FRAGMENT
  }

  // A whole run of reads, cut any way: what they hand out, put together, is the stream as far
  // as they asked for it.
  method ReadAll(b: Backup, lens: seq<int>) returns (err: bool, out: seq<Frag>)
    requires b.Valid() && b.readSize == 0
    requires forall i: int :: 0 <= i < |lens| ==> 0 <= lens[i] && lens[i] % FRAGMENT == 0
    modifies b
    ensures b.Valid() && b.readSize == |out|
    ensures out == Stream(b.src)[..|out|]
    ensures !err ==> |out| == Min(Asked(lens), b.size)
    ensures err ==> exists at: int :: Bad(b.src.meta, at)
  {
    hide Stands, Stream, HeadOf, Bad;
    StandsWithin(b.src, b.place, b.sums, b.crcRead, b.readSize);
    err, out := false, [];
    var i := 0;
    while i < |lens| && !err
      invariant 0 <= i <= |lens| && b.Valid() && 0 <= b.readSize == |out| <= b.size && out == Stream(b.src)[..|out|]
      invariant !err ==> |out| == Min(Asked(lens[..i]), b.size)
      invariant err ==> exists at: int :: Bad(b.src.meta, at)
      decreases |lens| - i, !err
    {
      var piece;
      err, piece := b.Read(lens[i]);
      SliceSplits(Stream(b.src), 0, |out|, b.readSize);
      out := out + piece;
      assert lens[..i + 1][..i] == lens[..i];
      i := i + 1;
    }
    assert !err ==> lens[..i] == lens;
  }

  lemma StandsWithin(s: Source, p: Place, sums: seq<int>, crcRead: int, read: int)
    requires Stands(s, p, sums, crcRead, read)
    ensures SourceOk(s) && Whole(s.meta) && 0 <= read <= |Stream(s)|
  {
  }

  lemma EndFacts(s: Source, p: Place, sums: seq<int>, crcRead: int, read: int)
    requires Stands(s, p, sums, crcRead, read) && read == |Stream(s)|
    ensures Stands(s, p.(stage := Finished), sums, crcRead, read)
    ensures s.withCrc ==> |sums| == |Stream(s)| - CrcSize(s)
  {
    hide Front, Lens, HeadOf, Local;
    var r := Rest(s, p, sums, CrcSize(s), crcRead);
    assert |r| == 0;
    assert Body(s, p) == [] && crcRead == CrcSize(s);
    assert Local(s, p.(stage := Finished), crcRead) by { LocalEnd(s, p, crcRead); }
  }

  lemma LocalEnd(s: Source, p: Place, crcRead: int)
    ensures Local(s, p.(stage := Finished), crcRead)
  {
  }

  lemma StandFacts(s: Source, p: Place, sums: seq<int>, crcRead: int, read: int)
    requires Stands(s, p, sums, crcRead, read) && read != |Stream(s)|
    ensures SourceOk(s) && PlaceOk(s, p) && Local(s, p, crcRead) && 0 <= crcRead && 0 <= read < |Stream(s)|
    ensures p.stage == AtCrc ==> crcRead < CrcSize(s)
    ensures p.stage == AtData && p.block < 0 ==> s.withCrc
  {
    hide Front, Lens, HeadOf;
    var r := Rest(s, p, sums, CrcSize(s), crcRead);
    assert |r| > 0;
  }

  lemma LensAt(meta: seq<Frag>, b: int)
    requires Whole(meta) && 0 <= b < BLOCKS
    ensures Lens(meta)[b] == HeadOf(meta, b).length / FRAGMENT
  {
  }

  lemma CrcNext(s: Source, p: Place)
    requires SourceOk(s) && PlaceOk(s, p) && p.stage == AtData && p.block < 0
    ensures Body(s, p) == [] + Body(s, p.(stage := AtCrc))
  {
  }
}
