/**
  * The circular log file and the device under it.
  *
  * Offsets and lengths count log entries.  The entry of transaction t's k-th
  * operation has a fixed place in the endless stream `Flat(hist)`; the file keeps
  * the part of that stream between the leader record's tail and head, starting at
  * `tailOff` and wrapping at the end of the file.
  */
module JournalLog {
  import opened JournalSpec

  datatype Entry = Entry(lsn: nat, txid: nat, op: Op, more: bool)

  // pfs_leader_record: the transactions (tailTx, headTx] are in the log.
  datatype Leader = Leader(tailTx: nat, headTx: nat, tailOff: nat, headOff: nat, headLsn: nat)

  datatype Disk = Disk(image: Image, log: seq<Entry>, leader: Leader)

  // -------------------------------------------------------- circular offsets

  // OFF_MODULAR_ADD
  function Wrap(off: nat, len: nat, size: nat): nat {
    if off + len >= size then off + len - size else off + len
  }

  // How far position p lies after off, going round the file.
  function Distance(off: nat, p: nat, size: nat): int {
    if p >= off then p - off else p + size - off
  }

  // pfs_log_usedspace
  function UsedSpace(size: nat, tailOff: nat, headOff: nat): int {
    var used := headOff - tailOff;
    if used < 0 then used + size else used
  }

  ghost predicate Laid(log: seq<Entry>, off: nat, es: seq<Entry>) {
    && off < |log| && |es| < |log|
    && forall k: nat :: k < |es| ==> log[Wrap(off, k, |log|)] == es[k]
  }

  // ------------------------------------------------------- the entry stream

  // pfs_txop_log for every operation of a transaction, after lsn0.
  function Encode(tx: Tx, txid: nat, lsn0: nat): (es: seq<Entry>)
    ensures |es| == |tx|
  {
    seq(|tx|, (k: nat) requires k < |tx| => Entry(lsn0 + k + 1, txid, tx[k], k + 1 < |tx|))
  }

  function Flat(hist: seq<Tx>): seq<Entry> {
    if hist == [] then []
    else
      var before := Flat(hist[..|hist| - 1]);
      before + Encode(hist[|hist| - 1], |hist|, |before|)
  }

  // Where transaction t + 1 starts in the stream.
  function Start(hist: seq<Tx>, t: nat): nat
    requires t <= |hist|
  {
    |Flat(hist[..t])|
  }

  function Live(hist: seq<Tx>, lo: nat, hi: nat): seq<Entry>
    requires lo <= hi <= |hist|
  {
    StartsOrdered(hist, lo, hi);
    Flat(hist[..hi])[Start(hist, lo)..]
  }

  lemma {:induction false} FlatPrefix(hist: seq<Tx>, lo: nat, hi: nat)
    requires lo <= hi <= |hist|
    ensures Flat(hist[..lo]) <= Flat(hist[..hi])
    decreases hi
  {
    if lo < hi {
      FlatPrefix(hist, lo, hi - 1);
      assert hist[..hi][..hi - 1] == hist[..hi - 1];
    }
  }

  lemma StartsOrdered(hist: seq<Tx>, lo: nat, hi: nat)
    requires lo <= hi <= |hist|
    ensures Start(hist, lo) <= Start(hist, hi)
  {
    FlatPrefix(hist, lo, hi);
  }

  lemma NextStart(hist: seq<Tx>, t: nat)
    requires t < |hist|
    ensures Start(hist, t + 1) == Start(hist, t) + |hist[t]|
  {
    assert hist[..t + 1][..t] == hist[..t];
  }

  /** The k-th operation of transaction t + 1 sits at Start(t) + k, with that number as its lsn. */
  lemma EntryAt(hist: seq<Tx>, hi: nat, t: nat, k: nat)
    requires t < hi <= |hist| && k < |hist[t]|
    ensures Start(hist, t) + k < |Flat(hist[..hi])|
    ensures Flat(hist[..hi])[Start(hist, t) + k] ==
            Entry(Start(hist, t) + k + 1, t + 1, hist[t][k], k + 1 < |hist[t]|)
  {
    FlatPrefix(hist, t + 1, hi);
    NextStart(hist, t);
    assert hist[..t + 1][..t] == hist[..t];
  }

  /** Committing moves the head of the live part and leaves what was there. */
  lemma LiveGrows(hist: seq<Tx>, tx: Tx, lo: nat)
    requires lo <= |hist|
    ensures Live(hist + [tx], lo, |hist| + 1) ==
            Live(hist, lo, |hist|) + Encode(tx, |hist| + 1, Start(hist, |hist|))
  {
    var more := hist + [tx];
    assert more[..|hist|] == hist && hist[..|hist|] == hist && more[..|hist| + 1] == more;
    assert more[..lo] == hist[..lo];
    assert Flat(more) == Flat(hist) + Encode(tx, |more|, |Flat(hist)|);
    StartsOrdered(hist, lo, |hist|);
  }

  /** Trimming to mid drops exactly the entries before it. */
  lemma LiveShrinks(hist: seq<Tx>, lo: nat, mid: nat, hi: nat)
    requires lo <= mid <= hi <= |hist|
    ensures Start(hist, lo) <= Start(hist, mid) <= Start(hist, hi)
    ensures Live(hist, mid, hi) == Live(hist, lo, hi)[Start(hist, mid) - Start(hist, lo)..]
  {
    StartsOrdered(hist, lo, mid);
    StartsOrdered(hist, mid, hi);
  }

  // --------------------------------------------------------- the log on disk

  /**
    * The log file holds the history: the leader's head is the last committed
    * transaction, the live entries lie from tailOff on, and they do not fill the file.
    */
  ghost predicate Logged(log: seq<Entry>, leader: Leader, hist: seq<Tx>) {
    && leader.tailTx <= leader.headTx == |hist|
    && Laid(log, leader.tailOff, Live(hist, leader.tailTx, |hist|))
    && leader.headOff == Wrap(leader.tailOff, |Live(hist, leader.tailTx, |hist|)|, |log|)
    && leader.headLsn == Start(hist, |hist|)
  }

  /** Used space is the total length of the transactions in (tail, head], and less than the file. */
  lemma UsedIsLive(log: seq<Entry>, leader: Leader, hist: seq<Tx>)
    requires Logged(log, leader, hist)
    ensures UsedSpace(|log|, leader.tailOff, leader.headOff) ==
            Start(hist, |hist|) - Start(hist, leader.tailTx)
    ensures 0 <= UsedSpace(|log|, leader.tailOff, leader.headOff) < |log|
    ensures leader.headOff < |log|
  {
    StartsOrdered(hist, leader.tailTx, |hist|);
  }

  /** Only positions less than len after off differ. */
  ghost predicate SameOutside(log: seq<Entry>, log': seq<Entry>, off: nat, len: nat) {
    && |log'| == |log|
    && forall p: nat :: p < |log| && Distance(off, p, |log|) >= len ==> log'[p] == log[p]
  }

  /** A write that fits the free space, whatever of it landed, leaves the live entries alone. */
  lemma FreeSpaceIsFree(log: seq<Entry>, log': seq<Entry>, leader: Leader, hist: seq<Tx>, len: nat)
    requires Logged(log, leader, hist)
    requires len <= |log| - UsedSpace(|log|, leader.tailOff, leader.headOff)
    requires SameOutside(log, log', leader.headOff, len)
    ensures Logged(log', leader, hist)
  {
    UsedIsLive(log, leader, hist);
    var live := Live(hist, leader.tailTx, |hist|);
    forall k: nat | k < |live| ensures log'[Wrap(leader.tailOff, k, |log|)] == live[k] {
      var p := Wrap(leader.tailOff, k, |log|);
      assert Distance(leader.headOff, p, |log|) >= len;
    }
  }

  /** The written transaction joins the live entries once the leader record names it. */
  lemma CommitLogged(log: seq<Entry>, leader: Leader, hist: seq<Tx>, tx: Tx)
    requires Logged(log, leader, hist)
    requires |tx| < |log| - UsedSpace(|log|, leader.tailOff, leader.headOff)
    requires Laid(log, leader.headOff, Encode(tx, leader.headTx + 1, leader.headLsn))
    ensures Logged(log, Advanced(leader, |tx|, |log|), hist + [tx])
  {
    UsedIsLive(log, leader, hist);
    LiveGrows(hist, tx, leader.tailTx);
    var live := Live(hist, leader.tailTx, |hist|);
    var added := Encode(tx, leader.headTx + 1, leader.headLsn);
    var more := Live(hist + [tx], leader.tailTx, |hist| + 1);
    assert (hist + [tx])[..|hist| + 1] == hist + [tx] && (hist + [tx])[..|hist|] == hist[..|hist|];
    NextStart(hist + [tx], |hist|);
    forall k: nat | k < |more| ensures log[Wrap(leader.tailOff, k, |log|)] == more[k] {
      if k >= |live| {
        var j: nat := k - |live|;
        assert log[Wrap(leader.headOff, j, |log|)] == added[j];
        assert Wrap(leader.headOff, j, |log|) == Wrap(leader.tailOff, k, |log|);
      }
    }
  }

  // pfs_log_commit's new record.
  function Advanced(leader: Leader, n: nat, size: nat): Leader {
    leader.(headTx := leader.headTx + 1, headLsn := leader.headLsn + n, headOff := Wrap(leader.headOff, n, size))
  }

  lemma TrimLogged(log: seq<Entry>, leader: Leader, hist: seq<Tx>, to: nat, off: nat)
    requires Logged(log, leader, hist) && leader.tailTx <= to <= |hist|
    requires off == Wrap(leader.tailOff, |Live(hist, leader.tailTx, to)|, |log|)
    ensures Logged(log, leader.(tailTx := to, tailOff := off), hist)
  {
    LiveShrinks(hist, leader.tailTx, to, |hist|);
    var was := Live(hist, leader.tailTx, |hist|);
    var d := Start(hist, to) - Start(hist, leader.tailTx);
    var live := Live(hist, to, |hist|);
    forall k: nat | k < |live| ensures log[Wrap(off, k, |log|)] == live[k] {
      assert log[Wrap(leader.tailOff, d + k, |log|)] == was[d + k];
      assert Wrap(off, k, |log|) == Wrap(leader.tailOff, d + k, |log|);
    }
  }
}
