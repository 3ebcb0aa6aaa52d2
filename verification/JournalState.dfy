/**
  * The invariants that tie the journal's memory to its disk, and what each step of
  * commit, copy and trim does to them.
  */
module JournalState {
  import opened Common
  import opened JournalSpec
  import opened JournalLog
  import opened JournalDevice
  import opened JournalSectors

  // A trim group as a value: its range, the log offset at its right end, its sectors.
  datatype Span = Span(lo: nat, hi: nat, off: nat, sects: Sectors)

  // The file system: number of metadata sectors and the image mkfs made.
  datatype Volume = Volume(n: nat, base: Image)

  ghost predicate WellFormed(v: Volume, hist: seq<Tx>) {
    Shaped(v.n, v.base) && HistFits(v.n, hist)
  }

  /** A disk from which recovery gives exactly the history: the log holds (tail, head], every sector is fresh. */
  ghost predicate Durable(v: Volume, d: Disk, hist: seq<Tx>) {
    var logged := Logged(d.log, d.leader, hist);
    && WellFormed(v, hist)
    && logged
    && FreshImage(v.n, v.base, hist, d.leader.tailTx, d.image)
  }

  /** Every state the disk has been in is durable for the transactions its leader record names, and
    * that number never goes back. */
  ghost predicate Safe(v: Volume, trace: seq<Disk>, hist: seq<Tx>) {
    && (forall k: nat :: k < |trace| ==> SafeAt(v, trace[k], hist))
    && (forall j: nat, k: nat :: j < k < |trace| ==> trace[j].leader.headTx <= trace[k].leader.headTx)
  }

  ghost predicate SafeAt(v: Volume, d: Disk, hist: seq<Tx>) {
    d.leader.headTx <= |hist| && Durable(v, d, hist[..d.leader.headTx])
  }

  lemma SafeAppends(v: Volume, trace: seq<Disk>, trace': seq<Disk>, hist: seq<Tx>)
    requires Safe(v, trace, hist) && trace <= trace'
    requires forall k: nat :: |trace| <= k < |trace'| ==> Durable(v, trace'[k], hist)
    ensures Safe(v, trace', hist)
  {
    assert hist[..|hist|] == hist;
    forall k: nat | k < |trace'|
      ensures SafeAt(v, trace'[k], hist) && (k >= |trace| ==> trace'[k].leader.headTx == |hist|)
    {
      if k < |trace| {
        assert trace'[k] == trace[k];
      }
    }
    forall j: nat, k: nat | j < k < |trace'| ensures trace'[j].leader.headTx <= trace'[k].leader.headTx {
      if k < |trace| {
        assert trace'[j] == trace[j] && trace'[k] == trace[k];
      }
    }
  }

  lemma SafeGrows(v: Volume, trace: seq<Disk>, hist: seq<Tx>, tx: Tx)
    requires Safe(v, trace, hist)
    ensures Safe(v, trace, hist + [tx])
  {
    forall k: nat | k < |trace| ensures SafeAt(v, trace[k], hist + [tx]) {
      assert SafeAt(v, trace[k], hist);
      assert (hist + [tx])[..trace[k].leader.headTx] == hist[..trace[k].leader.headTx];
    }
  }

  /** A new volume: mkfs writes the empty range (0, 0], whatever the log file holds. */
  lemma NewVolumeDurable(v: Volume, log: seq<Entry>)
    requires Shaped(v.n, v.base) && |log| > 0
    ensures var d := Disk(v.base, log, Leader(0, 0, 0, 0, 0));
            Durable(v, d, []) && Safe(v, [d], []) && SafeAt(v, d, [])
  {
    forall b: nat | b < v.n ensures FreshSector(v.n, v.base, [], 0, b, v.base[b]) {
      CurrentIsFresh(v.n, v.base, [], 0, b);
    }
  }

  // ------------------------------------------------------------- trim coverage

  /** Every sector touched in (lo, hi] is there, filed under the last transaction to touch it. */
  ghost predicate Files(n: nat, hist: seq<Tx>, index: Index, lo: nat, hi: nat) {
    && lo <= hi <= |hist|
    && (forall t: nat, b: int :: lo <= t < hi && Touches(hist[t], b) ==> b in index && index[b].txid > t)
    && (forall b: int :: b in index ==> 0 <= b < n && lo < index[b].txid <= hi && Touches(hist[index[b].txid - 1], b))
  }

  /** Copied buffers hold objects no older than the group's last transaction. */
  ghost predicate FreshCopies(v: Volume, hist: seq<Tx>, index: Index, hi: nat)
    requires WellFormed(v, hist)
  {
    forall b: int :: b in index && index[b].buf.Some? && 0 <= b < v.n ==>
      FreshSector(v.n, v.base, hist, hi, b, index[b].buf.value)
  }

  ghost predicate Covers(v: Volume, hist: seq<Tx>, g: Span) {
    var shaped, filed := Shape(g.sects, g.lo, g.hi), Files(v.n, hist, g.sects.index, g.lo, g.hi);
    && WellFormed(v, hist)
    && shaped && filed
    && FreshCopies(v, hist, g.sects.index, g.hi)
  }

  /** The offset just after transaction `hi` in the log. */
  ghost predicate OffsetAt(leader: Leader, hist: seq<Tx>, size: nat, hi: nat, off: nat) {
    && leader.tailTx <= hi <= |hist|
    && off == Wrap(leader.tailOff, |Live(hist, leader.tailTx, hi)|, size)
  }

  /** The two groups are contiguous and cover (tail, upTo]; the waiting one is ready to flush. */
  ghost predicate Chained(v: Volume, hist: seq<Tx>, leader: Leader, size: nat, work: Span, wait: Span, upTo: nat) {
    var working, waiting := Covers(v, hist, work), Covers(v, hist, wait);
    var shaped := Shape(wait.sects, wait.lo, wait.hi);
    && working && Tight(work.sects) && work.hi == upTo
    && OffsetAt(leader, hist, size, work.hi, work.off)
    && wait.sects.empty == 0 && wait.sects.first == None && shaped
    && (if wait.lo < wait.hi then
          && waiting && OffsetAt(leader, hist, size, wait.hi, wait.off)
          && leader.tailTx == wait.lo && wait.hi == work.lo
        else wait.lo == wait.hi && leader.tailTx == work.lo)
  }

  // ------------------------------------------------------------------- insert

  lemma InsertFiles(n: nat, hist: seq<Tx>, index: Index, lo: nat, hi: nat, index': Index)
    requires Files(n, hist, index, lo, hi) && hi < |hist| && TxFits(n, hist[hi])
    requires HoldsInserted(index, index', hi + 1, hist[hi])
    ensures Files(n, hist, index', lo, hi + 1)
  {
    hide TxFits;
    forall t: nat, b: int | lo <= t < hi + 1 && Touches(hist[t], b) ensures b in index' && index'[b].txid > t {
      assert b in index' <==> b in index || Touches(hist[hi], b);
    }
    forall b: int | b in index'
      ensures 0 <= b < n && lo < index'[b].txid <= hi + 1 && Touches(hist[index'[b].txid - 1], b)
    {
      if Touches(hist[hi], b) { TouchedFits(n, hist[hi], b); }
    }
  }

  lemma TouchedFits(n: nat, tx: Tx, b: int)
    requires TxFits(n, tx) && Touches(tx, b)
    ensures 0 <= b < n
  {
  }

  lemma InsertFresh(v: Volume, hist: seq<Tx>, index: Index, lo: nat, hi: nat, index': Index)
    requires WellFormed(v, hist) && Files(v.n, hist, index, lo, hi) && FreshCopies(v, hist, index, hi) && hi < |hist|
    requires HoldsInserted(index, index', hi + 1, hist[hi])
    ensures FreshCopies(v, hist, index', hi + 1)
  {
    forall b: int | b in index' && index'[b].buf.Some? && 0 <= b < v.n
      ensures FreshSector(v.n, v.base, hist, hi + 1, b, index'[b].buf.value)
    {
      assert b in index;
      var s := index[b].buf.value;
      SyncedIsFresh(v.n, v.base, hist, hi, b, s);
      if !Touches(hist[hi], b) {
        UntouchedStaysFresh(v.n, v.base, hist, hi, hi + 1, b, s);
      }
    }
  }

  /** A committed transaction is filed in the group that ends just before it. */
  lemma InsertCovers(v: Volume, hist: seq<Tx>, g: Span, g': Span)
    requires Covers(v, hist, g) && g.hi < |hist|
    requires g'.lo == g.lo && g'.hi == g.hi + 1 && Shape(g'.sects, g'.lo, g'.hi)
    requires HoldsInserted(g.sects.index, g'.sects.index, g.hi + 1, hist[g.hi])
    ensures Covers(v, hist, g')
  {
    InsertFiles(v.n, hist, g.sects.index, g.lo, g.hi, g'.sects.index);
    InsertFresh(v, hist, g.sects.index, g.lo, g.hi, g'.sects.index);
  }

  lemma InsertOffset(leader: Leader, hist: seq<Tx>, size: nat, hi: nat, off: nat)
    requires OffsetAt(leader, hist, size, hi, off) && hi < |hist|
    requires leader.tailOff < size && |Live(hist, leader.tailTx, hi + 1)| < size
    ensures OffsetAt(leader, hist, size, hi + 1, Wrap(off, |hist[hi]|, size))
  {
    StartsOrdered(hist, leader.tailTx, hi);
    NextStart(hist, hi);
  }

  // ------------------------------------------------- committing and copying

  lemma GrowCovers(v: Volume, hist: seq<Tx>, tx: Tx, g: Span)
    requires Covers(v, hist, g) && TxFits(v.n, tx)
    ensures Covers(v, hist + [tx], g)
  {
    var more := hist + [tx];
    assert HistFits(v.n, more);
    forall b: int | b in g.sects.index && g.sects.index[b].buf.Some? && 0 <= b < v.n
      ensures FreshSector(v.n, v.base, more, g.hi, b, g.sects.index[b].buf.value)
    {
      FreshGrows(v.n, v.base, hist, more, g.hi, b, g.sects.index[b].buf.value);
    }
    assert forall t: nat :: t < |hist| ==> more[t] == hist[t];
  }

  lemma GrowOffset(leader: Leader, hist: seq<Tx>, tx: Tx, size: nat, hi: nat, off: nat)
    requires OffsetAt(leader, hist, size, hi, off)
    ensures OffsetAt(leader, hist + [tx], size, hi, off)
  {
    var more := hist + [tx];
    assert more[..hi] == hist[..hi] && more[..leader.tailTx] == hist[..leader.tailTx];
  }

  lemma CopyFiles(n: nat, hist: seq<Tx>, index: Index, index': Index, lo: nat, hi: nat, meta: Image)
    requires Files(n, hist, index, lo, hi) && CopiedFrom(index, index', meta)
    ensures Files(n, hist, index', lo, hi)
  {
    hide Files;
    assert SameTxids(index, index');
    SameFiles(n, hist, index, index', lo, hi);
  }

  ghost predicate SameTxids(index: Index, index': Index) {
    && (forall b: int :: b in index' <==> b in index)
    && forall b: int :: b in index' ==> index'[b].txid == index[b].txid
  }

  lemma SameFiles(n: nat, hist: seq<Tx>, index: Index, index': Index, lo: nat, hi: nat)
    requires Files(n, hist, index, lo, hi) && SameTxids(index, index')
    ensures Files(n, hist, index', lo, hi)
  {
    hide Touches;
  }

  lemma CopyFresh(v: Volume, hist: seq<Tx>, index: Index, index': Index, hi: nat, meta: Image)
    requires WellFormed(v, hist) && FreshCopies(v, hist, index, hi) && CopiedFrom(index, index', meta)
    requires meta == StateAt(v.n, v.base, hist, |hist|) && hi <= |hist|
    ensures FreshCopies(v, hist, index', hi)
  {
    forall b: int | b in index' && index'[b].buf.Some? && 0 <= b < v.n
      ensures FreshSector(v.n, v.base, hist, hi, b, index'[b].buf.value)
    {
      CurrentIsFresh(v.n, v.base, hist, hi, b);
      assert b in index;
    }
  }

  /** Copies taken from memory, which is at the last transaction, are fresh enough for any group. */
  lemma CopyCovers(v: Volume, hist: seq<Tx>, g: Span, sects: Sectors, meta: Image)
    requires Covers(v, hist, g) && Shape(sects, g.lo, g.hi) && CopiedFrom(g.sects.index, sects.index, meta)
    requires meta == StateAt(v.n, v.base, hist, |hist|)
    ensures Covers(v, hist, g.(sects := sects))
  {
    CopyFiles(v.n, hist, g.sects.index, sects.index, g.lo, g.hi, meta);
    CopyFresh(v, hist, g.sects.index, sects.index, g.hi, meta);
  }

  /** A fresh group may start where any other ends. */
  lemma EmptyCovers(v: Volume, hist: seq<Tx>, t: nat, off: nat, sects: Sectors)
    requires WellFormed(v, hist) && t <= |hist| && Shape(sects, t, t)
    ensures sects.index == map[] && Covers(v, hist, Span(t, t, off, sects))
  {
    assert forall b: int :: b !in sects.index;
    assert sects.index == map[];
  }

  // ------------------------------------------------------------------- commit

  /** Whatever landed of a transaction not yet named by the leader record, the disk is as durable as before. */
  lemma LogWriteDurable(v: Volume, d: Disk, d': Disk, hist: seq<Tx>, len: nat)
    requires Durable(v, d, hist) && LogOnly(d, d', d.leader.headOff, len)
    requires len <= |d.log| - UsedSpace(|d.log|, d.leader.tailOff, d.leader.headOff)
    ensures Durable(v, d', hist)
  {
    FreeSpaceIsFree(d.log, d'.log, d.leader, hist, len);
  }

  lemma CommitDurable(v: Volume, d: Disk, hist: seq<Tx>, tx: Tx)
    requires Durable(v, d, hist) && TxFits(v.n, tx)
    requires |tx| < |d.log| - UsedSpace(|d.log|, d.leader.tailOff, d.leader.headOff)
    requires Laid(d.log, d.leader.headOff, Encode(tx, d.leader.headTx + 1, d.leader.headLsn))
    ensures Durable(v, d.(leader := Advanced(d.leader, |tx|, |d.log|)), hist + [tx])
  {
    CommitLogged(d.log, d.leader, hist, tx);
    assert HistFits(v.n, hist + [tx]);
    FreshImageGrows(v.n, v.base, hist, hist + [tx], d.leader.tailTx, d.image);
  }

  // --------------------------------------------------------------------- trim

  /** A partly flushed trim changes nothing that recovery sees. */
  lemma FlushDurable(v: Volume, d: Disk, d': Disk, hist: seq<Tx>, g: Span)
    requires Durable(v, d, hist) && Covers(v, hist, g) && g.lo == d.leader.tailTx
    requires Mixed(d.image, d'.image, g.sects.index) && d'.log == d.log && d'.leader == d.leader
    ensures Durable(v, d', hist)
  {
    forall b: nat | b < v.n ensures FreshSector(v.n, v.base, hist, g.lo, b, d'.image[b]) {
      assert FreshSector(v.n, v.base, hist, g.lo, b, d.image[b]);
      if d'.image[b] != d.image[b] {
        FreshEarlier(v.n, v.base, hist, g.hi, g.lo, b, d'.image[b]);
      }
    }
  }

  /** Once the whole group is on disk, its transactions are no longer needed in the log. */
  lemma TrimDurable(v: Volume, d: Disk, hist: seq<Tx>, g: Span)
    requires Durable(v, d, hist) && Covers(v, hist, g) && g.lo == d.leader.tailTx
    requires OffsetAt(d.leader, hist, |d.log|, g.hi, g.off)
    requires forall b: int :: b in g.sects.index ==> 0 <= b < |d.image| && g.sects.index[b].buf == Some(d.image[b])
    ensures Durable(v, d.(leader := d.leader.(tailTx := g.hi, tailOff := g.off)), hist)
  {
    TrimLogged(d.log, d.leader, hist, g.hi, g.off);
    forall b: nat | b < v.n ensures FreshSector(v.n, v.base, hist, g.hi, b, d.image[b]) {
      if b !in g.sects.index {
        assert FreshSector(v.n, v.base, hist, g.lo, b, d.image[b]);
        UntouchedStaysFresh(v.n, v.base, hist, g.lo, g.hi, b, d.image[b]);
      }
    }
  }

  /** Offsets of the remaining groups are unchanged by a trim. */
  lemma TrimOffset(log: seq<Entry>, leader: Leader, hist: seq<Tx>, to: nat, toOff: nat, hi: nat, off: nat)
    requires Logged(log, leader, hist) && to <= hi
    requires OffsetAt(leader, hist, |log|, to, toOff) && OffsetAt(leader, hist, |log|, hi, off)
    ensures OffsetAt(leader.(tailTx := to, tailOff := toOff), hist, |log|, hi, off)
  {
    LiveShrinks(hist, leader.tailTx, to, hi);
    LiveShrinks(hist, leader.tailTx, hi, |hist|);
  }

  // ------------------------------------------------- the two groups together

  lemma ChainedCopy(v: Volume, hist: seq<Tx>, leader: Leader, size: nat, work: Span, wait: Span, upTo: nat,
                    sects: Sectors, meta: Image)
    requires Chained(v, hist, leader, size, work, wait, upTo) && meta == StateAt(v.n, v.base, hist, |hist|)
    requires Shape(sects, work.lo, work.hi) && Tight(sects) && CopiedFrom(work.sects.index, sects.index, meta)
    ensures Chained(v, hist, leader, size, work.(sects := sects), wait, upTo)
  {
    CopyCovers(v, hist, work, sects, meta);
    hide Covers, Shape, OffsetAt;
  }

  /** A swap hands the copied group over and starts an empty one at its right end. */
  lemma ChainedSwap(v: Volume, hist: seq<Tx>, leader: Leader, size: nat, work: Span, wait: Span, upTo: nat)
    requires Chained(v, hist, leader, size, work, wait, upTo) && wait.lo == wait.hi && work.sects.empty == 0
    ensures Chained(v, hist, leader, size, Span(work.hi, work.hi, work.off, wait.sects), work, upTo)
    ensures wait.sects.index == map[]
  {
    assert forall b: int :: b !in wait.sects.index;
    assert wait.sects.index == map[];
    assert Shape(wait.sects, work.hi, work.hi);
    EmptyCovers(v, hist, work.hi, work.off, wait.sects);
    hide Covers, Shape, OffsetAt;
  }

  lemma TailBefore(v: Volume, hist: seq<Tx>, leader: Leader, size: nat, work: Span, wait: Span, upTo: nat)
    requires Chained(v, hist, leader, size, work, wait, upTo)
    ensures leader.tailTx <= work.lo <= upTo
  {
  }

  lemma LoggedFits(log: seq<Entry>, leader: Leader, hist: seq<Tx>)
    requires Logged(log, leader, hist)
    ensures leader.tailTx <= |hist| && leader.tailOff < |log| && |Live(hist, leader.tailTx, |hist|)| < |log|
  {
  }

  lemma ChainedInsert(v: Volume, hist: seq<Tx>, log: seq<Entry>, leader: Leader, work: Span, wait: Span, upTo: nat,
                      sects: Sectors)
    requires Chained(v, hist, leader, |log|, work, wait, upTo) && upTo < |hist| && Logged(log, leader, hist)
    requires Shape(sects, work.lo, upTo + 1) && Tight(sects)
    requires HoldsInserted(work.sects.index, sects.index, upTo + 1, hist[upTo])
    ensures Chained(v, hist, leader, |log|,
                    Span(work.lo, upTo + 1, Wrap(work.off, |hist[upTo]|, |log|), sects), wait, upTo + 1)
  {
    hide Covers, Shape, OffsetAt, Logged, HoldsInserted;
    LoggedFits(log, leader, hist);
    TailBefore(v, hist, leader, |log|, work, wait, upTo);
    var work' := Span(work.lo, upTo + 1, Wrap(work.off, |hist[upTo]|, |log|), sects);
    InsertCovers(v, hist, work, work');
    LiveShrinks(hist, leader.tailTx, upTo + 1, |hist|);
    InsertOffset(leader, hist, |log|, work.hi, work.off);
  }

  lemma ChainedCommit(v: Volume, hist: seq<Tx>, leader: Leader, leader': Leader, size: nat, work: Span, wait: Span,
                      upTo: nat, tx: Tx)
    requires Chained(v, hist, leader, size, work, wait, upTo) && TxFits(v.n, tx)
    requires leader'.tailTx == leader.tailTx && leader'.tailOff == leader.tailOff
    ensures Chained(v, hist + [tx], leader', size, work, wait, upTo)
  {
    GrowCovers(v, hist, tx, work);
    GrowOffset(leader, hist, tx, size, work.hi, work.off);
    if wait.lo < wait.hi {
      GrowCovers(v, hist, tx, wait);
      GrowOffset(leader, hist, tx, size, wait.hi, wait.off);
    }
    hide Covers, Shape;
  }

  /** After a trim the waiting group is empty and the other starts at the new tail. */
  lemma ChainedTrim(v: Volume, hist: seq<Tx>, log: seq<Entry>, leader: Leader, work: Span, wait: Span, upTo: nat,
                    wait': Span)
    requires Chained(v, hist, leader, |log|, work, wait, upTo) && Logged(log, leader, hist) && wait.lo < wait.hi
    requires wait'.lo == wait'.hi && Shape(wait'.sects, wait'.lo, wait'.hi)
    requires wait'.sects.empty == 0 && wait'.sects.first == None
    ensures Chained(v, hist, leader.(tailTx := wait.hi, tailOff := wait.off), |log|, work, wait', upTo)
  {
    TrimOffset(log, leader, hist, wait.hi, wait.off, work.hi, work.off);
    hide Covers, Shape, OffsetAt;
  }

  /** A group of some transactions has some sectors. */
  lemma SomethingToFlush(v: Volume, hist: seq<Tx>, g: Span)
    requires Covers(v, hist, g) && g.lo < g.hi
    ensures g.sects.count > 0
  {
    var op := hist[g.lo][0];
    assert Touches(hist[g.lo], op.bda);
    assert op.bda in g.sects.index;
    assert Placed(g.sects.queue, op.bda);
  }
}
