/**
  * What the metadata journal means.
  *
  * Metadata is an image: a sequence of sectors, each holding a fixed number of
  * objects.  A transaction is a sequence of redo operations, each giving one
  * object's whole new value.  Transaction number t of a history is `hist[t - 1]`,
  * and `StateAt(base, hist, t)` is the image right after it.
  *
  * `Fresh` is the one fact crash recovery needs about a stored object: its value
  * is the one it had after some transaction between the log's tail and its head.
  * Sectors of different ages may then be mixed freely, and redoing the live log
  * still gives the exact image after the last committed transaction
  * (`ReplayIsExact`).
  */
module JournalSpec {
  import opened Common

  type Value = int
  type Sector = seq<Value>
  type Image = seq<Sector>

  // Objects per sector: a 4096 byte sector of 128 byte objects.
  const OBJECTS: nat := 32

  datatype Op = Op(bda: nat, idx: nat, val: Value)
  type Tx = seq<Op>

  predicate Shaped(n: nat, img: Image) {
    |img| == n && forall b: nat :: b < n ==> |img[b]| == OBJECTS
  }

  predicate OpFits(n: nat, op: Op) {
    op.bda < n && op.idx < OBJECTS
  }

  // pfs_log_handle_write insists that a logged transaction has an operation.
  predicate TxFits(n: nat, tx: Tx) {
    tx != [] && forall k: nat :: k < |tx| ==> OpFits(n, tx[k])
  }

  predicate HistFits(n: nat, hist: seq<Tx>) {
    forall t: nat :: t < |hist| ==> TxFits(n, hist[t])
  }

  function ApplyOp(n: nat, img: Image, op: Op): (r: Image)
    requires Shaped(n, img) && OpFits(n, op)
    ensures Shaped(n, r)
  {
    img[op.bda := img[op.bda][op.idx := op.val]]
  }

  predicate OpsFit(n: nat, ops: seq<Op>) {
    forall k: nat :: k < |ops| ==> OpFits(n, ops[k])
  }

  function ApplyOps(n: nat, img: Image, ops: seq<Op>): (r: Image)
    requires Shaped(n, img) && OpsFit(n, ops)
    ensures Shaped(n, r)
  {
    if ops == [] then img
    else ApplyOp(n, ApplyOps(n, img, ops[..|ops| - 1]), ops[|ops| - 1])
  }

  function Replay(n: nat, img: Image, txs: seq<Tx>): (r: Image)
    requires Shaped(n, img) && HistFits(n, txs)
    ensures Shaped(n, r)
  {
    if txs == [] then img
    else ApplyOps(n, Replay(n, img, txs[..|txs| - 1]), txs[|txs| - 1])
  }

  function StateAt(n: nat, base: Image, hist: seq<Tx>, t: nat): (r: Image)
    requires Shaped(n, base) && HistFits(n, hist) && t <= |hist|
    ensures Shaped(n, r)
  {
    Replay(n, base, hist[..t])
  }

  // The value the operations leave in one object, if they write it at all.
  function Written(ops: seq<Op>, b: int, i: nat): Option<Value> {
    if ops == [] then None
    else
      var last := ops[|ops| - 1];
      if last.bda == b && last.idx == i then Some(last.val) else Written(ops[..|ops| - 1], b, i)
  }

  predicate Touches(ops: seq<Op>, b: int) {
    exists k: nat :: k < |ops| && ops[k].bda == b
  }

  lemma {:induction false} ApplyOpsAt(n: nat, img: Image, ops: seq<Op>, b: nat, i: nat)
    requires Shaped(n, img) && OpsFit(n, ops) && b < n && i < OBJECTS
    ensures ApplyOps(n, img, ops)[b][i] ==
            (match Written(ops, b, i) case Some(v) => v case None => img[b][i])
  {
    if ops != [] {
      ApplyOpsAt(n, img, ops[..|ops| - 1], b, i);
    }
  }

  lemma {:induction false} UntouchedUnwritten(ops: seq<Op>, b: int, i: nat)
    requires !Touches(ops, b)
    ensures Written(ops, b, i) == None
  {
    if ops != [] {
      var init := ops[..|ops| - 1];
      assert ops[|ops| - 1].bda != b;
      forall k: nat | k < |init| ensures init[k].bda != b {
        assert ops[k].bda != b;
      }
      UntouchedUnwritten(init, b, i);
    }
  }

  lemma StateStep(n: nat, base: Image, hist: seq<Tx>, t: nat)
    requires Shaped(n, base) && HistFits(n, hist) && t < |hist|
    ensures StateAt(n, base, hist, t + 1) == ApplyOps(n, StateAt(n, base, hist, t), hist[t])
  {
    assert hist[..t + 1][..t] == hist[..t];
  }

  lemma StateOfPrefix(n: nat, base: Image, hist: seq<Tx>, more: seq<Tx>, t: nat)
    requires Shaped(n, base) && HistFits(n, hist) && HistFits(n, more)
    requires hist <= more && t <= |hist|
    ensures StateAt(n, base, hist, t) == StateAt(n, base, more, t)
  {
    assert hist[..t] == more[..t];
  }

  // -------------------------------------------------------------- freshness

  /** `v` is what object (b, i) held after some transaction in [lo, hi]. */
  ghost predicate Fresh(n: nat, base: Image, hist: seq<Tx>, lo: nat, b: nat, i: nat, v: Value)
    requires Shaped(n, base) && HistFits(n, hist) && b < n && i < OBJECTS
  {
    exists t: nat :: lo <= t <= |hist| && StateAt(n, base, hist, t)[b][i] == v
  }

  ghost predicate FreshSector(n: nat, base: Image, hist: seq<Tx>, lo: nat, b: nat, s: Sector)
    requires Shaped(n, base) && HistFits(n, hist) && b < n
  {
    |s| == OBJECTS && forall i: nat :: i < OBJECTS ==> Fresh(n, base, hist, lo, b, i, s[i])
  }

  ghost predicate FreshImage(n: nat, base: Image, hist: seq<Tx>, lo: nat, img: Image)
    requires Shaped(n, base) && HistFits(n, hist)
  {
    Shaped(n, img) && forall b: nat :: b < n ==> FreshSector(n, base, hist, lo, b, img[b])
  }

  /** An image with every object as of the end of the history is the final one. */
  lemma NothingNewer(n: nat, base: Image, hist: seq<Tx>, img: Image)
    requires Shaped(n, base) && HistFits(n, hist) && FreshImage(n, base, hist, |hist|, img)
    ensures img == StateAt(n, base, hist, |hist|)
  {
    var last := StateAt(n, base, hist, |hist|);
    forall b: nat | b < n ensures img[b] == last[b] {
      assert FreshSector(n, base, hist, |hist|, b, img[b]);
      assert forall i: nat :: i < OBJECTS ==> Fresh(n, base, hist, |hist|, b, i, img[b][i]);
    }
  }

  lemma FreshEarlier(n: nat, base: Image, hist: seq<Tx>, lo: nat, lower: nat, b: nat, s: Sector)
    requires Shaped(n, base) && HistFits(n, hist) && b < n
    requires lower <= lo && FreshSector(n, base, hist, lo, b, s)
    ensures FreshSector(n, base, hist, lower, b, s)
  {
    forall i: nat | i < OBJECTS ensures Fresh(n, base, hist, lower, b, i, s[i]) {
      var t: nat :| lo <= t <= |hist| && StateAt(n, base, hist, t)[b][i] == s[i];
    }
  }

  /** Committing more transactions keeps what was fresh fresh. */
  lemma FreshGrows(n: nat, base: Image, hist: seq<Tx>, more: seq<Tx>, lo: nat, b: nat, s: Sector)
    requires Shaped(n, base) && HistFits(n, hist) && HistFits(n, more) && hist <= more && b < n
    requires FreshSector(n, base, hist, lo, b, s)
    ensures FreshSector(n, base, more, lo, b, s)
  {
    forall i: nat | i < OBJECTS ensures Fresh(n, base, more, lo, b, i, s[i]) {
      var t: nat :| lo <= t <= |hist| && StateAt(n, base, hist, t)[b][i] == s[i];
      StateOfPrefix(n, base, hist, more, t);
    }
  }

  lemma FreshImageGrows(n: nat, base: Image, hist: seq<Tx>, more: seq<Tx>, lo: nat, img: Image)
    requires Shaped(n, base) && HistFits(n, hist) && HistFits(n, more) && hist <= more
    requires FreshImage(n, base, hist, lo, img)
    ensures FreshImage(n, base, more, lo, img)
  {
    forall b: nat | b < n ensures FreshSector(n, base, more, lo, b, img[b]) {
      FreshGrows(n, base, hist, more, lo, b, img[b]);
    }
  }

  lemma CurrentIsFresh(n: nat, base: Image, hist: seq<Tx>, lo: nat, b: nat)
    requires Shaped(n, base) && HistFits(n, hist) && b < n && lo <= |hist|
    ensures FreshSector(n, base, hist, lo, b, StateAt(n, base, hist, |hist|)[b])
  {
  }

  /** An object transaction lo + 1 does not write is as fresh after it as before it. */
  lemma FreshAdvances(n: nat, base: Image, hist: seq<Tx>, lo: nat, b: nat, i: nat, v: Value)
    requires Shaped(n, base) && HistFits(n, hist) && b < n && i < OBJECTS && lo < |hist|
    requires Fresh(n, base, hist, lo, b, i, v) && Written(hist[lo], b, i) == None
    ensures Fresh(n, base, hist, lo + 1, b, i, v)
  {
    var t: nat :| lo <= t <= |hist| && StateAt(n, base, hist, t)[b][i] == v;
    if t == lo {
      StateStep(n, base, hist, lo);
      ApplyOpsAt(n, StateAt(n, base, hist, lo), hist[lo], b, i);
      assert StateAt(n, base, hist, lo + 1)[b][i] == v;
    }
  }

  lemma {:induction false} UntouchedStaysFresh(
    n: nat, base: Image, hist: seq<Tx>, lo: nat, hi: nat, b: nat, s: Sector)
    requires Shaped(n, base) && HistFits(n, hist) && b < n && lo <= hi <= |hist|
    requires FreshSector(n, base, hist, lo, b, s)
    requires forall t: nat :: lo <= t < hi ==> !Touches(hist[t], b)
    ensures FreshSector(n, base, hist, hi, b, s)
    decreases hi - lo
  {
    if lo < hi {
      forall i: nat | i < OBJECTS ensures Fresh(n, base, hist, lo + 1, b, i, s[i]) {
        UntouchedUnwritten(hist[lo], b, i);
        FreshAdvances(n, base, hist, lo, b, i, s[i]);
      }
      UntouchedStaysFresh(n, base, hist, lo + 1, hi, b, s);
    }
  }

  // ------------------------------------------------- one sector of a transaction

  /** pfs_sectbuf_sync for every operation of the transaction on sector b. */
  function Synced(s: Sector, ops: seq<Op>, b: int): (r: Sector)
    ensures |r| == |s|
  {
    if ops == [] then s
    else
      var rest := Synced(s, ops[..|ops| - 1], b);
      var last := ops[|ops| - 1];
      if last.bda == b && last.idx < |s| then rest[last.idx := last.val] else rest
  }

  lemma {:induction false} SyncedAt(s: Sector, ops: seq<Op>, b: int, i: nat)
    requires i < |s|
    ensures Synced(s, ops, b)[i] == (match Written(ops, b, i) case Some(v) => v case None => s[i])
  {
    if ops != [] {
      SyncedAt(s, ops[..|ops| - 1], b, i);
    }
  }

  /** Syncing a copied sector with the next transaction keeps it fresh one transaction later. */
  lemma SyncedIsFresh(n: nat, base: Image, hist: seq<Tx>, lo: nat, b: nat, s: Sector)
    requires Shaped(n, base) && HistFits(n, hist) && b < n && lo < |hist|
    requires FreshSector(n, base, hist, lo, b, s)
    ensures FreshSector(n, base, hist, lo + 1, b, Synced(s, hist[lo], b))
  {
    forall i: nat | i < OBJECTS ensures Fresh(n, base, hist, lo + 1, b, i, Synced(s, hist[lo], b)[i]) {
      SyncedAt(s, hist[lo], b, i);
      if Written(hist[lo], b, i) == None {
        FreshAdvances(n, base, hist, lo, b, i, s[i]);
      } else {
        StateStep(n, base, hist, lo);
        ApplyOpsAt(n, StateAt(n, base, hist, lo), hist[lo], b, i);
      }
    }
  }

  // --------------------------------------------------------------- recovery

  /**
    * Redoing (lo, |hist|] over any image of fresh objects gives the image after
    * the last transaction, however old each stored sector was.
    */
  lemma ReplayIsExact(n: nat, base: Image, hist: seq<Tx>, lo: nat, img: Image)
    requires Shaped(n, base) && HistFits(n, hist) && lo <= |hist|
    requires FreshImage(n, base, hist, lo, img)
    ensures Replay(n, img, hist[lo..]) == StateAt(n, base, hist, |hist|)
  {
    ReplayKeepsFresh(n, base, hist, lo, img, |hist|);
    var r := Replay(n, img, hist[lo..]);
    assert hist[lo..|hist|] == hist[lo..];
    var goal := StateAt(n, base, hist, |hist|);
    forall b: nat | b < n ensures r[b] == goal[b] {
      forall i: nat | i < OBJECTS ensures r[b][i] == goal[b][i] {
        assert FreshSector(n, base, hist, |hist|, b, r[b]);
        assert Fresh(n, base, hist, |hist|, b, i, r[b][i]);
      }
    }
  }

  /** Redo moves a fresh image forward one transaction at a time. */
  lemma {:induction false} ReplayKeepsFresh(
    n: nat, base: Image, hist: seq<Tx>, lo: nat, img: Image, hi: nat)
    requires Shaped(n, base) && HistFits(n, hist) && lo <= hi <= |hist|
    requires FreshImage(n, base, hist, lo, img)
    ensures FreshImage(n, base, hist, hi, Replay(n, img, hist[lo..hi]))
    decreases hi
  {
    if lo < hi {
      ReplayKeepsFresh(n, base, hist, lo, img, hi - 1);
      assert hist[lo..hi][..hi - lo - 1] == hist[lo..hi - 1];
      ApplyKeepsFresh(n, base, hist, hi - 1, Replay(n, img, hist[lo..hi - 1]));
    }
  }

  lemma ApplyKeepsFresh(n: nat, base: Image, hist: seq<Tx>, lo: nat, img: Image)
    requires Shaped(n, base) && HistFits(n, hist) && lo < |hist|
    requires FreshImage(n, base, hist, lo, img)
    ensures FreshImage(n, base, hist, lo + 1, ApplyOps(n, img, hist[lo]))
  {
    var r := ApplyOps(n, img, hist[lo]);
    forall b: nat | b < n ensures FreshSector(n, base, hist, lo + 1, b, r[b]) {
      forall i: nat | i < OBJECTS ensures r[b][i] == Synced(img[b], hist[lo], b)[i] {
        ApplyOpsAt(n, img, hist[lo], b, i);
        SyncedAt(img[b], hist[lo], b, i);
      }
      assert r[b] == Synced(img[b], hist[lo], b);
      SyncedIsFresh(n, base, hist, lo, b, img[b]);
    }
  }
}
