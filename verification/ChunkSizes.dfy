/**
  * A restore's counters, for any accepted header and any block table behind it, whether or not
  * their sizes agree: where a stream ends that is handed over piece by piece.
  */
module ChunkSizes {
  import opened ChunkFormat
  import opened ChunkBackup
  import opened ChunkRestore

  // What an accepted header says, in fragments.
  datatype Sizes = Sizes(meta: int, crc: int, stream: int, summed: bool)

  const HEADS := 256              // entries in a fragment of the block table

  predicate Given(z: Sizes) {
    z.meta > 0 && z.stream > 0 && (z.summed ==> z.crc > 0)
  }

  function SizesOf(h: Header): Sizes {
    Sizes(h.metaSize / FRAGMENT, h.crcSize / FRAGMENT, h.streamSize / FRAGMENT, h.crc)
  }

  // The entries of the table's buffer; the buffer is as long as the header says.
  predicate Table(z: Sizes, heads: seq<Head>) {
    |heads| == HEADS * z.meta && forall b: int :: 0 <= b < |heads| ==> heads[b].length >= 0
  }

  // chunk_write_data turns the entry down.
  predicate Unfit(heads: seq<Head>, b: int)
    requires 0 <= b < |heads|
  {
    heads[b].block != b || heads[b].length % FRAGMENT != 0
  }

  datatype Count = Count(stage: Stage, block: int, done: int, meta: int, crcs: int, sums: int, written: int)

  // Outside: a table entry or a checksum beyond the end of its buffer.
  datatype Turn = Outside | Refused | Went(c: Count)

  // After the header.
  function Start(z: Sizes): Count {
    Count(AtMeta, BLOCKS - 1, 0, 0, 0, if z.summed then 1 else 0, 1)
  }

  // The end of a turn: n fragments were taken, and their checksums are kept short of the last stage.
  function Summed(z: Sizes, c: Count, n: int): Turn {
    var sums := if z.summed && c.stage != AtCrc then c.sums + n else c.sums;
    if z.summed && sums > CELLS * z.crc then Outside else Went(c.(sums := sums, written := c.written + n))
  }

  // One turn of the loop in pfs_chunk_writestream, with `left` fragments at hand.
  function Step(z: Sizes, heads: seq<Head>, c: Count, left: int): Turn
    requires Table(z, heads)
  {
    match c.stage
    case AtMeta =>
      var n := Min(z.meta - c.meta, left);
      Summed(z, c.(meta := c.meta + n, stage := if c.meta + n == z.meta then AtData else AtMeta), n)
    case AtData =>
      if c.block < 0 then Went(if z.summed then c.(stage := AtCrc) else c)
      else if c.block >= |heads| then Outside
      else if Unfit(heads, c.block) then Refused
      else if heads[c.block].length == 0 then Went(c.(block := c.block - 1, done := 0))
      else
        var n := Min(heads[c.block].length / FRAGMENT - c.done, left);
        Summed(z, if c.done + n == heads[c.block].length / FRAGMENT then c.(block := c.block - 1, done := 0)
                  else c.(done := c.done + n), n)
    case AtCrc =>
      var n := Min(z.crc - c.crcs, left);
      Summed(z, c.(crcs := c.crcs + n), n)
    case _ => Refused
  }

  // Endless: the loop goes on without taking anything.
  datatype Outcome = OutOfBounds | TurnedDown | Endless | Complete

  // How much is at hand when so much has been taken.
  ghost predicate Cuts(z: Sizes, cuts: int -> int) {
    forall w: int :: 0 < w < z.stream ==> 0 < cuts(w) <= z.stream - w
  }

  // The whole stream, from a state on.
  ghost function Drive(z: Sizes, heads: seq<Head>, cuts: int -> int, c: Count): Outcome
    requires Given(z) && Table(z, heads) && Cuts(z, cuts) && Inv(z, heads, c)
    decreases z.stream - c.written, Rank(c)
  {
    if c.written >= z.stream then Complete
    else
      match Step(z, heads, c, cuts(c.written))
      case Outside => OutOfBounds
      case Refused => TurnedDown
      case Went(next) =>
        if next == c then Endless
        else
          StepInv(z, heads, c, cuts(c.written));
          Drive(z, heads, cuts, next)
  }

  function Rank(c: Count): nat {
    if c.stage == AtMeta then BLOCKS + 2 else if c.stage == AtData && c.block >= -1 then c.block + 2 else 0
  }

  // ---- where the sizes lead

  // Data fragments from block b down to the first entry that is turned down.
  function Good(heads: seq<Head>, b: int): (r: int)
    requires b < |heads| && forall i: int :: 0 <= i < |heads| ==> heads[i].length >= 0
    ensures r >= 0
    decreases b + 1
  {
    if b < 0 || Unfit(heads, b) then 0 else heads[b].length / FRAGMENT + Good(heads, b - 1)
  }

  predicate AllGood(heads: seq<Head>, b: int)
    requires b < |heads|
    decreases b + 1
  {
    b < 0 || (!Unfit(heads, b) && AllGood(heads, b - 1))
  }

  // What comes before the checksums, as far as the table is accepted.
  function Front(z: Sizes, heads: seq<Head>): int
    requires Table(z, heads) && z.meta >= META
  {
    1 + z.meta + Good(heads, BLOCKS - 1)
  }

  predicate SumsFit(z: Sizes, n: int) {
    z.summed ==> n <= CELLS * z.crc
  }

  /**
    * No access leaves its buffer: the stream ends within the table, or the table has an entry for
    * every block; and the checksum buffer has room for what is taken before the checksums.
    */
  predicate Fits(z: Sizes, heads: seq<Head>)
    requires Table(z, heads)
  {
    if z.stream <= 1 + z.meta then SumsFit(z, z.stream)
    else z.meta >= META && SumsFit(z, Min(z.stream, Front(z, heads)))
  }

  function Verdict(z: Sizes, heads: seq<Head>): Outcome
    requires Table(z, heads)
  {
    if !Fits(z, heads) then OutOfBounds
    else if z.stream <= 1 + z.meta || z.stream <= Front(z, heads) then Complete
    else if !AllGood(heads, BLOCKS - 1) then TurnedDown
    else if z.summed && z.stream <= Front(z, heads) + z.crc then Complete
    else Endless
  }

  // ---- invariant

  ghost predicate Inv(z: Sizes, heads: seq<Head>, c: Count) {
    && Table(z, heads) && SumsFit(z, c.sums) && (z.summed && c.stage != AtCrc ==> c.sums == c.written)
    && match c.stage
       case AtMeta =>
         0 <= c.meta < z.meta && c.written == 1 + c.meta && c.block == BLOCKS - 1 && c.done == 0 && c.crcs == 0
       case AtData => c.meta == z.meta && c.crcs == 0 && InData(z, heads, c)
       case AtCrc => InCrc(z, heads, c)
       case _ => false
  }

  ghost predicate InData(z: Sizes, heads: seq<Head>, c: Count)
    requires Table(z, heads)
  {
    if z.meta < META then c.block == BLOCKS - 1 && c.done == 0 && c.written == 1 + z.meta
    else
      && -1 <= c.block < BLOCKS && 0 <= c.done
      && (c.done > 0 ==> c.block >= 0 && !Unfit(heads, c.block) && c.done < heads[c.block].length / FRAGMENT)
      && c.written + Good(heads, c.block) - c.done == Front(z, heads)
      && c.written > z.meta
      && (AllGood(heads, c.block) <==> AllGood(heads, BLOCKS - 1))
  }

  ghost predicate InCrc(z: Sizes, heads: seq<Head>, c: Count)
    requires Table(z, heads)
  {
    && z.meta >= META && z.summed && AllGood(heads, BLOCKS - 1) && 0 <= c.crcs <= z.crc
    && c.written == Front(z, heads) + c.crcs && c.sums == Front(z, heads)
  }

  lemma StepInv(z: Sizes, heads: seq<Head>, c: Count, left: int)
    requires Given(z) && Inv(z, heads, c) && 0 < left
    ensures Step(z, heads, c, left).Went? ==>
      var next := Step(z, heads, c, left).c;
      && Inv(z, heads, next) && c.written <= next.written <= c.written + left
      && (next != c && next.written == c.written ==> Rank(next) < Rank(c))
  {
    if c.stage == AtData { DataInv(z, heads, c, left); }
  }

  lemma DataInv(z: Sizes, heads: seq<Head>, c: Count, left: int)
    requires Given(z) && Inv(z, heads, c) && 0 < left && c.stage == AtData
    ensures Step(z, heads, c, left).Went? ==>
      var next := Step(z, heads, c, left).c;
      && Inv(z, heads, next) && c.written <= next.written <= c.written + left
      && (next != c && next.written == c.written ==> Rank(next) < Rank(c))
  {
    if 0 <= c.block < |heads| && !Unfit(heads, c.block) {
      assert z.meta >= META;
      assert Good(heads, c.block) == heads[c.block].length / FRAGMENT + Good(heads, c.block - 1);
      assert AllGood(heads, c.block) == AllGood(heads, c.block - 1);
    }
  }

  lemma StepEnds(z: Sizes, heads: seq<Head>, c: Count, left: int)
    requires Given(z) && Inv(z, heads, c) && 0 < left <= z.stream - c.written && c.written < z.stream
    ensures Step(z, heads, c, left) == Outside ==> Verdict(z, heads) == OutOfBounds
    ensures Step(z, heads, c, left) == Refused ==> Verdict(z, heads) == TurnedDown
    ensures Step(z, heads, c, left) == Went(c) ==> Verdict(z, heads) == Endless
  {
  }

  lemma StreamEnds(z: Sizes, heads: seq<Head>, c: Count)
    requires Given(z) && Inv(z, heads, c) && c.written == z.stream
    ensures Verdict(z, heads) == Complete
  {
  }

  /** However the stream is cut, its sizes alone decide how the restore of it ends. */
  lemma {:induction false} DriveEnds(z: Sizes, heads: seq<Head>, cuts: int -> int, c: Count)
    requires Given(z) && Table(z, heads) && Cuts(z, cuts) && Inv(z, heads, c) && 0 < c.written <= z.stream
    ensures Drive(z, heads, cuts, c) == Verdict(z, heads)
    decreases z.stream - c.written, Rank(c)
  {
    hide Inv, Step, Verdict;
    if c.written >= z.stream {
      StreamEnds(z, heads, c);
    } else {
      var left := cuts(c.written);
      StepEnds(z, heads, c, left);
      StepInv(z, heads, c, left);
      var t := Step(z, heads, c, left);
      if t.Went? && t.c != c {
        DriveEnds(z, heads, cuts, t.c);
      }
    }
  }

  /** The same from the header on: outside a buffer, turned down, endless or complete, as the sizes say. */
  lemma SizesDecide(h: Header, heads: seq<Head>, cuts: int -> int)
    requires Accepts(h) && h.metaSize >= 0 && h.crcSize >= 0 && h.streamSize >= 0
    requires Table(SizesOf(h), heads) && Cuts(SizesOf(h), cuts)
    ensures Given(SizesOf(h)) && Inv(SizesOf(h), heads, Start(SizesOf(h)))
    ensures Drive(SizesOf(h), heads, cuts, Start(SizesOf(h))) == Verdict(SizesOf(h), heads)
  {
    hide Drive, Verdict;
    DriveEnds(SizesOf(h), heads, cuts, Start(SizesOf(h)));
  }

  /** A header that is accepted with a table of one fragment and a stream that goes on behind it. */
  lemma ShortTable(h: Header, heads: seq<Head>)
    requires h == Header(MAGIC, VERSION, 0, false, [], CHUNK, BLOCK, IO_UNIT, SECTOR, 1, 0, FRAGMENT, 0, 3 * FRAGMENT)
    requires Table(SizesOf(h), heads)
    ensures Accepts(h) && Verdict(SizesOf(h), heads) == OutOfBounds
  {
    assert 3 * FRAGMENT / FRAGMENT == 3;
  }

  function HeadsIn(meta: seq<Frag>): (r: seq<Head>)
    requires Whole(meta)
    ensures |r| == BLOCKS && forall b: int :: 0 <= b < BLOCKS ==> r[b] == HeadOf(meta, b)
  {
    seq(BLOCKS, b requires 0 <= b < BLOCKS => HeadOf(meta, b))
  }

  lemma LengthsCount(meta: seq<Frag>)
    requires Whole(meta) && Bounded(Lens(meta))
    ensures forall b: int :: 0 <= b < BLOCKS ==>
      HeadsIn(meta)[b].length >= 0 && HeadsIn(meta)[b].length / FRAGMENT == Lens(meta)[b]
  {
    hide HeadOf;
    forall b: int | 0 <= b < BLOCKS
      ensures HeadsIn(meta)[b].length >= 0 && HeadsIn(meta)[b].length / FRAGMENT == Lens(meta)[b]
    {
      assert Lens(meta)[b] == HeadOf(meta, b).length / FRAGMENT;
    }
  }

  lemma {:induction false} GoodBelow(meta: seq<Frag>, b: int)
    requires Whole(meta) && Bounded(Lens(meta)) && -1 <= b < BLOCKS
    requires forall i: int :: 0 <= i < BLOCKS ==>
      HeadsIn(meta)[i].length >= 0 && HeadsIn(meta)[i].length / FRAGMENT == Lens(meta)[i]
    ensures Good(HeadsIn(meta), b) <= Below(Lens(meta), b)
    ensures AllGood(HeadsIn(meta), b) ==> Good(HeadsIn(meta), b) == Below(Lens(meta), b)
    decreases b + 1
  {
    hide HeadOf, Lens, HeadsIn;
    if b >= 0 { GoodBelow(meta, b - 1); }
  }

  /** A stream whose header agrees with what follows stays inside the buffers and comes to an end. */
  lemma AgreeingEnds(feed: seq<Frag>, devSize: int)
    requires Taken(feed, devSize)
    ensures Table(SizesOf(HeaderOf(feed)), HeadsIn(MetaOf(feed)))
    ensures Verdict(SizesOf(HeaderOf(feed)), HeadsIn(MetaOf(feed))) == Complete ||
            Verdict(SizesOf(HeaderOf(feed)), HeadsIn(MetaOf(feed))) == TurnedDown
    ensures AllGood(HeadsIn(MetaOf(feed)), BLOCKS - 1) ==>
            Verdict(SizesOf(HeaderOf(feed)), HeadsIn(MetaOf(feed))) == Complete
  {
    hide HeadOf, Lens, HeadsIn, Good, AllGood, Below, Whole;
    var meta := MetaOf(feed);
    ChunkRestore.Sizes(feed, devSize);
    LengthsCount(meta);
    GoodBelow(meta, BLOCKS - 1);
  }
}
