/**
  * The file a chunk is backed up to: a header, the block table, the data of the blocks from
  * the last to the first, and one checksum for each fragment before.  Everything is counted in
  * fragments of 4096 bytes, and a fragment is 1024 cells of 32 bits.
  */
module ChunkFormat {
  datatype Frag = Frag(cells: seq<int>)

  const CELLS := 1024
  const FRAGMENT := 4096
  const BLOCKS := 2560            // of a chunk
  const PER_BLOCK := 1024         // fragments of a block
  const BLOCK := 4194304
  const CHUNK := 10737418240
  const META := 10                // fragments of the block table
  const MAGIC := 0x43CB40FA34
  const VERSION := 1
  const IO_UNIT := 16384
  const SECTOR := 4096
  const WORD := 0x1_0000_0000

  function Min(a: int, b: int): int { if a < b then a else b }

  // How many units of n it takes to hold x.
  function Units(x: int, n: int): (r: int)
    requires x >= 0 && n > 0
    ensures r >= 0 && n * r >= x && n * (r - 1) < x
  {
    (x + n - 1) / n
  }

  // ---- numbers in cells

  // A signed 64-bit number from its two halves.
  function Num(lo: int, hi: int): int {
    if hi < 0x8000_0000 then lo + hi * WORD else lo + hi * WORD - WORD * WORD
  }

  function Lo(x: int): int { x % WORD }

  function Hi(x: int): int { x / WORD }

  lemma NumRoundTrip(x: int)
    requires 0 <= x < 0x8000_0000 * WORD
    ensures Num(Lo(x), Hi(x)) == x
  {
  }

  // ---- header

  datatype Header = Header(magic: int, version: int, ctime: int, crc: bool, name: seq<int>, chunkSize: int,
                           blockSize: int,
                           ioUnit: int, sectorSize: int, chunks: int, chunk: int, metaSize: int, crcSize: int,
                             streamSize: int)

  // The widths of the fields; the name takes 16 cells and the three bytes beside the flag.
  predicate Stored(h: Header) {
    && |h.name| == 17 && 0 <= h.name[0] < 0x100_0000
    && 0 <= h.magic < 0x8000_0000 * WORD && 0 <= h.version < 0x8000_0000 * WORD && 0 <= h.ctime < 0x8000_0000 * WORD
    && 0 <= h.chunkSize < 0x8000_0000 * WORD && 0 <= h.streamSize < 0x8000_0000 * WORD
  }

  function Padding(n: nat): seq<int> { seq(n, _ => 0) }

  function EncodeHeader(h: Header): (f: Frag)
    requires Stored(h)
    ensures |f.cells| == CELLS
  {
    Frag([Lo(h.magic), Hi(h.magic), Lo(h.version), Hi(h.version), Lo(h.ctime), Hi(h.ctime),
      (if h.crc then 1 else 0) + 256 * h.name[0]]
         + h.name[1..]
         + [0, Lo(h.chunkSize), Hi(h.chunkSize), h.blockSize, h.ioUnit, h.sectorSize, h.chunks, h.chunk, h.metaSize,
           h.crcSize, 0,
            Lo(h.streamSize), Hi(h.streamSize)]
         + Padding(988))
  }

  function DecodeHeader(f: Frag): Header
    requires |f.cells| == CELLS
  {
    var c := f.cells;
    Header(Num(c[0], c[1]), Num(c[2], c[3]), Num(c[4], c[5]), c[6] % 256 != 0, [c[6] / 256] + c[7..23],
      Num(c[24], c[25]),
           c[26], c[27], c[28], c[29], c[30], c[31], c[32], Num(c[34], c[35]))
  }

  lemma HeaderRoundTrip(h: Header)
    requires Stored(h)
    ensures DecodeHeader(EncodeHeader(h)) == h
  {
    var c := EncodeHeader(h).cells;
    assert c[6] == (if h.crc then 1 else 0) + 256 * h.name[0];
    assert c[7..23] == h.name[1..];
    assert [h.name[0]] + h.name[1..] == h.name;
    NumRoundTrip(h.magic);
    NumRoundTrip(h.version);
    NumRoundTrip(h.ctime);
    NumRoundTrip(h.chunkSize);
    NumRoundTrip(h.streamSize);
  }

  // ---- block table

  datatype Head = Head(block: int, length: int)

  function HeadCells(h: Head): seq<int> { [Lo(h.block), Hi(h.block), Lo(h.length), Hi(h.length)] }

  predicate Whole(meta: seq<Frag>) {
    |meta| == META && forall i: int :: 0 <= i < META ==> |meta[i].cells| == CELLS
  }

  // The entry of block b in the table's buffer.
  function HeadOf(meta: seq<Frag>, b: int): Head
    requires Whole(meta) && 0 <= b < BLOCKS
  {
    var c, i := meta[b / 256].cells, 4 * (b % 256);
    Head(Num(c[i], c[i + 1]), Num(c[i + 2], c[i + 3]))
  }

  predicate Countable(heads: seq<Head>) {
    |heads| == BLOCKS && forall i: int :: 0 <= i < BLOCKS ==> 0 <= heads[i].block < WORD && 0 <= heads[i].length < WORD
  }

  function MetaFrag(heads: seq<Head>, i: int): Frag
    requires |heads| == BLOCKS && 0 <= i < META
  {
    Frag(seq(CELLS, j requires 0 <= j < CELLS => HeadCells(heads[256 * i + j / 4])[j % 4]))
  }

  function PackHeads(heads: seq<Head>): (r: seq<Frag>)
    requires |heads| == BLOCKS
    ensures Whole(r)
  {
    seq(META, i requires 0 <= i < META => MetaFrag(heads, i))
  }

  lemma CellOfHead(heads: seq<Head>, b: int, d: int)
    requires |heads| == BLOCKS && 0 <= b < BLOCKS && 0 <= d < 4
    ensures PackHeads(heads)[b / 256].cells[4 * (b % 256) + d] == HeadCells(heads[b])[d]
  {
    var j := 4 * (b % 256) + d;
    assert j / 4 == b % 256 && j % 4 == d && 256 * (b / 256) + b % 256 == b;
  }

  lemma HeadsRoundTrip(heads: seq<Head>, b: int)
    requires Countable(heads) && 0 <= b < BLOCKS
    ensures HeadOf(PackHeads(heads), b) == heads[b]
  {
    hide PackHeads, Num, Lo, Hi;
    var h := heads[b];
    CellOfHead(heads, b, 0);
    CellOfHead(heads, b, 1);
    CellOfHead(heads, b, 2);
    CellOfHead(heads, b, 3);
    NumRoundTrip(h.block);
    NumRoundTrip(h.length);
  }

  // ---- checksums

  function Sums(crc: Frag -> int, frags: seq<Frag>): (r: seq<int>)
    ensures |r| == |frags|
  {
    seq(|frags|, i requires 0 <= i < |frags| => crc(frags[i]))
  }

  function SumFrag(sums: seq<int>, i: int): Frag
    requires i >= 0
  {
    Frag(seq(CELLS, j requires 0 <= j < CELLS => if CELLS * i + j < |sums| then sums[CELLS * i + j] else 0))
  }

  // A cleared buffer of n fragments with the checksums at its front.
  function PackSums(sums: seq<int>, n: int): (r: seq<Frag>)
    requires n >= 0
    ensures |r| == n
  {
    seq(n, i requires 0 <= i < n => SumFrag(sums, i))
  }

  // A buffer large enough shows all of its checksums.
  lemma PackShowsSums(a: seq<int>, b: seq<int>, n: int)
    requires |a| == |b| <= CELLS * n && PackSums(a, n) == PackSums(b, n) && n >= 0
    ensures a == b
  {
    forall k | 0 <= k < |a| ensures a[k] == b[k] {
      var i, j := k / CELLS, k % CELLS;
      assert PackSums(a, n)[i].cells[j] == a[k] && PackSums(b, n)[i].cells[j] == b[k];
    }
  }

  // ---- data

  // The data fragments of each block.
  function Lens(meta: seq<Frag>): (r: seq<int>)
    requires Whole(meta)
    ensures |r| == BLOCKS
  {
    seq(BLOCKS, b requires 0 <= b < BLOCKS => HeadOf(meta, b).length / FRAGMENT)
  }

  predicate Bounded(lens: seq<int>) {
    |lens| == BLOCKS && forall b: int :: 0 <= b < BLOCKS ==> 0 <= lens[b] <= PER_BLOCK
  }

  // Data fragments of the blocks up to b.
  function Below(lens: seq<int>, b: int): (r: int)
    requires Bounded(lens) && -1 <= b < BLOCKS
    ensures r >= 0
    decreases b + 1
  {
    if b < 0 then 0 else lens[b] + Below(lens, b - 1)
  }

  // Where the data of the block after b ends, counted from the start of the data.
  function Above(lens: seq<int>, b: int): int
    requires Bounded(lens) && -1 <= b < BLOCKS
  {
    Below(lens, BLOCKS - 1) - Below(lens, b)
  }

  lemma {:induction false} BelowGrows(lens: seq<int>, a: int, b: int)
    requires Bounded(lens) && -1 <= a <= b < BLOCKS
    ensures Below(lens, a) <= Below(lens, b)
    ensures a < b ==> Below(lens, a) + lens[b] <= Below(lens, b)
    decreases b - a
  {
    if a < b { BelowGrows(lens, a, b - 1); }
  }

  lemma {:induction false} BelowBound(lens: seq<int>, b: int)
    requires Bounded(lens) && -1 <= b < BLOCKS
    ensures Below(lens, b) <= (b + 1) * PER_BLOCK
    decreases b + 1
  {
    if b >= 0 { BelowBound(lens, b - 1); }
  }

  // Where block b starts on the device.
  function Start(base: int, b: int): int { base + b * PER_BLOCK }

  // The blocks from b to the first, each cut to its length.
  function Blocks(dev: seq<Frag>, base: int, lens: seq<int>, b: int): (r: seq<Frag>)
    requires Bounded(lens) && -1 <= b < BLOCKS && 0 <= base && Start(base, BLOCKS) <= |dev|
    ensures |r| == Below(lens, b)
    decreases b + 1
  {
    if b < 0 then [] else dev[Start(base, b)..Start(base, b) + lens[b]] + Blocks(dev, base, lens, b - 1)
  }

  // Block b from its fragment k on, and the blocks before it.
  function Tail(dev: seq<Frag>, base: int, lens: seq<int>, b: int, k: int): (r: seq<Frag>)
    requires Bounded(lens) && -1 <= b < BLOCKS && 0 <= base && Start(base, BLOCKS) <= |dev|
    requires 0 <= k && (b >= 0 ==> k <= lens[b])
  {
    if b < 0 then [] else dev[Start(base, b) + k..Start(base, b) + lens[b]] + Blocks(dev, base, lens, b - 1)
  }

  lemma TailIsBlocks(dev: seq<Frag>, base: int, lens: seq<int>, b: int)
    requires Bounded(lens) && -1 <= b < BLOCKS && 0 <= base && Start(base, BLOCKS) <= |dev|
    ensures Tail(dev, base, lens, b, 0) == Blocks(dev, base, lens, b)
  {
    assert Start(base, b) + 0 == Start(base, b);
  }

  lemma SliceSplits(s: seq<Frag>, a: int, b: int, c: int)
    requires 0 <= a <= b <= c <= |s|
    ensures s[a..c] == s[a..b] + s[b..c]
  {
  }

  lemma SplitBefore(s: seq<Frag>, a: int, b: int, c: int, z: seq<Frag>)
    requires 0 <= a <= b <= c <= |s|
    ensures s[a..c] + z == s[a..b] + (s[b..c] + z)
  {
  }

  lemma OnDevice(dev: seq<Frag>, base: int, lens: seq<int>, b: int)
    requires Bounded(lens) && 0 <= b < BLOCKS && 0 <= base && Start(base, BLOCKS) <= |dev|
    ensures 0 <= Start(base, b) && Start(base, b) + lens[b] <= |dev|
  {
  }

  lemma TailStep(dev: seq<Frag>, base: int, lens: seq<int>, b: int, k: int, n: int)
    requires Bounded(lens) && 0 <= b < BLOCKS && 0 <= base && Start(base, BLOCKS) <= |dev|
    requires 0 <= k && 0 <= n && k + n <= lens[b]
    ensures Tail(dev, base, lens, b, k) ==
            dev[Start(base, b) + k..Start(base, b) + k + n] + Tail(dev, base, lens, b, k + n)
  {
    hide Blocks, Below, Start;
    OnDevice(dev, base, lens, b);
    var at := Start(base, b);
    SplitBefore(dev, at + k, at + k + n, at + lens[b], Blocks(dev, base, lens, b - 1));
  }

  lemma TailEnds(dev: seq<Frag>, base: int, lens: seq<int>, b: int)
    requires Bounded(lens) && 0 <= b < BLOCKS && 0 <= base && Start(base, BLOCKS) <= |dev|
    ensures Tail(dev, base, lens, b, lens[b]) == Tail(dev, base, lens, b - 1, 0)
  {
    TailIsBlocks(dev, base, lens, b - 1);
    var at := Start(base, b) + lens[b];
    assert dev[at..at] == [];
  }

  lemma Joined(a: seq<Frag>, b: seq<Frag>, i: int)
    requires 0 <= i < |b|
    ensures (a + b)[|a| + i] == b[i]
  {
  }

  lemma OneMoreBlock(dev: seq<Frag>, base: int, lens: seq<int>, b: int)
    requires Bounded(lens) && 0 <= b < BLOCKS && 0 <= base && Start(base, BLOCKS) <= |dev|
    ensures Below(lens, b) == lens[b] + Below(lens, b - 1) && |Blocks(dev, base, lens, b - 1)| == Below(lens, b - 1)
    ensures Blocks(dev, base, lens, b) == dev[Start(base, b)..Start(base, b) + lens[b]] + Blocks(dev, base, lens, b - 1)
  {
  }

  // The first lens[b] fragments of block b stand together in the data.
  lemma {:induction false} BlockInData(dev: seq<Frag>, base: int, lens: seq<int>, top: int, b: int, k: int)
    requires Bounded(lens) && 0 <= b <= top < BLOCKS && 0 <= base && Start(base, BLOCKS) <= |dev| && 0 <= k < lens[b]
    ensures 0 <= Below(lens, top) - Below(lens, b) + k < Below(lens, top)
    ensures Blocks(dev, base, lens, top)[Below(lens, top) - Below(lens, b) + k] == dev[Start(base, b) + k]
    decreases top
  {
    hide Blocks, Below;
    OneMoreBlock(dev, base, lens, top);
    if b < top {
      BlockInData(dev, base, lens, top - 1, b, k);
      var s := Start(base, top);
      Joined(dev[s..s + lens[top]], Blocks(dev, base, lens, top - 1), Below(lens, top - 1) - Below(lens, b) + k);
    }
  }
}
