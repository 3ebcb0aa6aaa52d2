/**
  * Log input and output: the device with every state it has been in, the circular
  * write of a transaction's entries, and the scan that reads them back.
  *
  * A crash may come between any two device writes.  `Device.trace` therefore keeps
  * the state after each single write, so what is proved of every member of the
  * trace holds of every crash.
  */
module JournalDevice {
  import opened JournalSpec
  import opened JournalLog

  /** `d` differs from `d0` only in log positions less than len after off. */
  ghost predicate LogOnly(d0: Disk, d: Disk, off: nat, len: nat) {
    d.image == d0.image && d.leader == d0.leader && SameOutside(d0.log, d.log, off, len)
  }

  ghost predicate TraceLogOnly(trace: seq<Disk>, from: nat, d0: Disk, off: nat, len: nat) {
    forall k: nat :: from <= k < |trace| ==> LogOnly(d0, trace[k], off, len)
  }

  class Device {
    var image: Image
    var log: seq<Entry>
    var leader: Leader
    ghost var trace: seq<Disk>
    ghost var faults: nat      // writes that failed

    ghost function Now(): Disk reads this {
      Disk(image, log, leader)
    }

    constructor (image: Image, log: seq<Entry>, leader: Leader)
      ensures this.image == image && this.log == log && this.leader == leader
      ensures trace == [Now()] && faults == 0
    {
      this.image, this.log, this.leader := image, log, leader;
      trace, faults := [Disk(image, log, leader)], 0;
    }

    // pfs_file_pwrite on the journal file: any prefix may have landed on failure.
    method WriteEntries(off: nat, es: seq<Entry>) returns (ok: bool)
      requires off + |es| <= |log|
      modifies this`log, this`trace, this`faults
      ensures |log| == |old(log)|
      ensures forall p: nat :: p < |log| && !(off <= p < off + |es|) ==> log[p] == old(log)[p]
      ensures ok ==> forall k: nat :: k < |es| ==> log[off + k] == es[k]
      ensures old(trace) <= trace
      ensures TraceLogOnly(trace, |old(trace)|, old(Now()), off, |es|)
      ensures old(faults) <= faults && (ok <==> faults == old(faults))
    {
      var k := 0;
      while k < |es|
        invariant k <= |es| && |log| == |old(log)|
        invariant forall p: nat :: p < |log| && !(off <= p < off + |es|) ==> log[p] == old(log)[p]
        invariant forall j: nat :: j < k ==> log[off + j] == es[j]
        invariant old(trace) <= trace
        invariant TraceLogOnly(trace, |old(trace)|, old(Now()), off, |es|)
        invariant faults == old(faults)
      {
        if * {
          faults := faults + 1;
          return false;
        }
        log := log[off + k := es[k]];
        trace := trace + [Now()];
        assert LogOnly(old(Now()), Now(), off, |es|);
        k := k + 1;
      }
      ok := true;
    }

    // pfsdev_pwrite of one metadata sector: a failed write may have landed.
    method WriteSector(b: nat, s: Sector) returns (ok: bool)
      requires b < |image|
      modifies this`image, this`trace, this`faults
      ensures image == old(image) || image == old(image)[b := s]
      ensures ok ==> image == old(image)[b := s]
      ensures trace == old(trace) || trace == old(trace) + [Now()]
      ensures image != old(image) ==> trace == old(trace) + [Now()]
      ensures old(faults) <= faults && (ok <==> faults == old(faults))
    {
      var lands: bool := *;
      if lands {
        image := image[b := s];
        trace := trace + [Now()];
      }
      ok := *;
      ok := ok && lands;
      if !ok { faults := faults + 1; }
    }

    // pfs_leader_write: one sector, atomic; a failed write did not land.
    method WriteLeader(l: Leader) returns (ok: bool)
      modifies this`leader, this`trace, this`faults
      ensures ok ==> leader == l && trace == old(trace) + [Now()]
      ensures !ok ==> leader == old(leader) && trace == old(trace)
      ensures old(faults) <= faults && (ok <==> faults == old(faults))
    {
      if * {
        faults := faults + 1;
        return false;
      }
      leader := l;
      trace := trace + [Now()];
      ok := true;
    }
  }

  /**
    * pfs_log_write: writes the buffer from `offset` on, wrapping at the end of the
    * file.  On success it lies there; in any case nothing outside it changes.
    */
  method LogWrite(dev: Device, buf: seq<Entry>, offset: nat) returns (ok: bool)
    requires |buf| < |dev.log| && offset < 2 * |dev.log|
    modifies dev`log, dev`trace, dev`faults
    ensures ok ==> Laid(dev.log, Wrap(offset, 0, |dev.log|), buf)
    ensures SameOutside(old(dev.log), dev.log, Wrap(offset, 0, |dev.log|), |buf|)
    ensures old(dev.trace) <= dev.trace
    ensures TraceLogOnly(dev.trace, |old(dev.trace)|, old(dev.Now()), Wrap(offset, 0, |dev.log|), |buf|)
    ensures old(dev.faults) <= dev.faults && (ok <==> dev.faults == old(dev.faults))
  {
    var size := |dev.log|;
    var off0 := Wrap(offset, 0, size);
    var off, done := off0, 0;
    while done < |buf|
      invariant done <= |buf| && |dev.log| == size
      invariant off == Wrap(off0, done, size)
      invariant SameOutside(old(dev.log), dev.log, off0, |buf|)
      invariant forall k: nat :: k < done ==> dev.log[Wrap(off0, k, size)] == buf[k]
      invariant old(dev.trace) <= dev.trace
      invariant TraceLogOnly(dev.trace, |old(dev.trace)|, old(dev.Now()), off0, |buf|)
      invariant dev.faults == old(dev.faults)
    {
      var left := |buf| - done;
      var wlen := if left + off > size then size - off else left;
      ok := WritePiece(dev, off0, off, buf, done, wlen);
      if !ok { return; }
      off := Wrap(off, wlen, size);
      done := done + wlen;
    }
    ok := true;
  }

  // One iteration of the loop above: a piece that does not cross the end of the file.
  method WritePiece(dev: Device, off0: nat, off: nat, buf: seq<Entry>, done: nat, wlen: nat)
    returns (ok: bool)
    requires |buf| < |dev.log| && off0 < |dev.log| && done + wlen <= |buf|
    requires off == Wrap(off0, done, |dev.log|) && off + wlen <= |dev.log|
    modifies dev`log, dev`trace, dev`faults
    ensures |dev.log| == |old(dev.log)|
    ensures forall p: nat :: p < |dev.log| && Distance(off0, p, |dev.log|) >= |buf| ==> dev.log[p] == old(dev.log)[p]
    ensures forall k: nat :: k < done ==>
      dev.log[Wrap(off0, k, |dev.log|)] == old(dev.log)[Wrap(off0, k, |dev.log|)]
    ensures ok ==> forall k: nat :: done <= k < done + wlen ==> dev.log[Wrap(off0, k, |dev.log|)] == buf[k]
    ensures old(dev.trace) <= dev.trace
    ensures TraceLogOnly(dev.trace, |old(dev.trace)|, old(dev.Now()), off0, |buf|)
    ensures old(dev.faults) <= dev.faults && (ok <==> dev.faults == old(dev.faults))
  {
    var piece := buf[done..done + wlen];
    ghost var size := |dev.log|;
    ok := dev.WriteEntries(off, piece);
    forall k: nat | |old(dev.trace)| <= k < |dev.trace|
      ensures LogOnly(old(dev.Now()), dev.trace[k], off0, |buf|)
    {
      assert LogOnly(old(dev.Now()), dev.trace[k], off, wlen);
    }
    if ok {
      forall k: nat | done <= k < done + wlen ensures dev.log[Wrap(off0, k, size)] == buf[k] {
        assert dev.log[off + (k - done)] == piece[k - done];
        assert Wrap(off0, k, size) == off + (k - done);
      }
    }
  }

  /**
    * pfs_tx_log: encodes the transaction into the work buffer, a bufferful at a time,
    * and writes it after the head.  `offset` runs past the end of the file and is
    * wrapped by LogWrite.
    */
  method TxLog(dev: Device, tx: Tx, leader: Leader, bufLen: nat) returns (ok: bool)
    requires bufLen > 0 && |tx| < |dev.log| && leader.headOff < |dev.log|
    modifies dev`log, dev`trace, dev`faults
    ensures ok ==> Laid(dev.log, leader.headOff, Encode(tx, leader.headTx + 1, leader.headLsn))
    ensures SameOutside(old(dev.log), dev.log, leader.headOff, |tx|)
    ensures old(dev.trace) <= dev.trace
    ensures TraceLogOnly(dev.trace, |old(dev.trace)|, old(dev.Now()), leader.headOff, |tx|)
    ensures old(dev.faults) <= dev.faults && (ok <==> dev.faults == old(dev.faults))
  {
    ghost var es := Encode(tx, leader.headTx + 1, leader.headLsn);
    var nle, offset, buf := 0, leader.headOff, [];
    while nle < |tx|
      invariant |buf| <= nle <= |tx| && |buf| < bufLen && buf == es[nle - |buf|..nle]
      invariant offset == leader.headOff + nle - |buf|
      invariant Landed(dev, old(dev.Now()), old(dev.trace), leader.headOff, es, nle - |buf|)
      invariant dev.faults == old(dev.faults)
    {
      ghost var was := buf;
      buf := buf + [Entry(leader.headLsn + nle + 1, leader.headTx + 1, tx[nle], nle + 1 < |tx|)];
      nle := nle + 1;
      assert es[nle - |buf|..nle] == was + [es[nle - 1]];
      if |buf| >= bufLen {
        ok := WriteBuffer(dev, old(dev.Now()), old(dev.trace), leader.headOff, es, buf, nle, offset);
        if !ok { return; }
        offset := offset + |buf|;
        buf := [];
      }
    }
    if buf != [] {
      ok := WriteBuffer(dev, old(dev.Now()), old(dev.trace), leader.headOff, es, buf, nle, offset);
      if !ok { return; }
    }
    ok := true;
  }

  /** The first `done` of the entries lie from off on, and nothing else has changed since d0. */
  ghost predicate Landed(dev: Device, d0: Disk, trace0: seq<Disk>, off: nat, es: seq<Entry>, done: nat)
    reads dev
  {
    && LogOnly(d0, dev.Now(), off, |es|)
    && off < |dev.log| && |es| < |dev.log| && done <= |es|
    && (forall k: nat :: k < done ==> dev.log[Wrap(off, k, |dev.log|)] == es[k])
    && trace0 <= dev.trace
    && TraceLogOnly(dev.trace, |trace0|, d0, off, |es|)
  }

  method WriteBuffer(dev: Device, ghost d0: Disk, ghost trace0: seq<Disk>, ghost off: nat,
                     ghost es: seq<Entry>, buf: seq<Entry>, ghost nle: nat, offset: nat)
    returns (ok: bool)
    requires |buf| <= nle && Landed(dev, d0, trace0, off, es, nle - |buf|)
    requires nle <= |es| && buf == es[nle - |buf|..nle] && offset == off + nle - |buf|
    modifies dev`log, dev`trace, dev`faults
    ensures Landed(dev, d0, trace0, off, es, if ok then nle else 0)
    ensures old(dev.faults) <= dev.faults && (ok <==> dev.faults == old(dev.faults))
  {
    ghost var size := |dev.log|;
    ghost var was := dev.log;
    ok := LogWrite(dev, buf, offset);
    ghost var done := nle - |buf|;
    assert Wrap(offset, 0, size) == Wrap(off, done, size);
    forall p: nat | p < size && Distance(off, p, size) >= |es| ensures dev.log[p] == d0.log[p] {
      assert was[p] == d0.log[p];
    }
    forall k: nat | |trace0| <= k < |dev.trace| ensures LogOnly(d0, dev.trace[k], off, |es|) {
      if k >= |old(dev.trace)| {
        assert LogOnly(old(dev.Now()), dev.trace[k], Wrap(off, done, size), |buf|);
      }
    }
    if ok {
      forall k: nat | k < nle ensures dev.log[Wrap(off, k, size)] == es[k] {
        if k < done {
          assert was[Wrap(off, k, size)] == es[k];
        } else {
          assert dev.log[Wrap(Wrap(off, done, size), k - done, size)] == buf[k - done];
          assert Wrap(Wrap(off, done, size), k - done, size) == Wrap(off, k, size) && buf[k - done] == es[k];
        }
      }
    }
  }

  datatype ReplayTx = ReplayTx(id: nat, ops: Tx)

  // pfs_log_read: up to the next fragment boundary, the end of the file or the buffer.
  function ReadLength(size: nat, off: nat, bufLen: nat): (n: nat)
    requires off < size && bufLen > 0
    ensures 0 < n <= size - off
  {
    var toBoundary := bufLen - off % bufLen;
    if toBoundary + off > size then size - off else toBoundary
  }

  /** The transactions (start, t] read whole, then j operations of the next one. */
  ghost predicate ScannedUpTo(hist: seq<Tx>, start: nat, t: nat, j: nat, txs: seq<ReplayTx>) {
    && start <= t <= |hist|
    && |txs| == t - start + (if j == 0 then 0 else 1)
    && (forall k: nat :: k < t - start ==> txs[k] == ReplayTx(start + k + 1, hist[start + k]))
    && (j > 0 ==> t < |hist| && j < |hist[t]| && txs[t - start] == ReplayTx(t + 1, hist[t][..j]))
  }

  // pfs_tx_recreate_op, after starting a new transaction when the txid changes.
  function Recreate(txs: seq<ReplayTx>, le: Entry): seq<ReplayTx> {
    var open := if txs == [] || txs[|txs| - 1].id != le.txid then txs + [ReplayTx(le.txid, [])] else txs;
    var cur := open[|open| - 1];
    open[|open| - 1 := cur.(ops := cur.ops + [le.op])]
  }

  lemma RecreateStep(hist: seq<Tx>, start: nat, t: nat, j: nat, txs: seq<ReplayTx>, le: Entry)
    requires ScannedUpTo(hist, start, t, j, txs) && t < |hist| && j < |hist[t]|
    requires le.txid == t + 1 && le.op == hist[t][j]
    ensures if j + 1 < |hist[t]| then ScannedUpTo(hist, start, t, j + 1, Recreate(txs, le))
            else ScannedUpTo(hist, start, t + 1, 0, Recreate(txs, le))
  {
    assert hist[t][..j + 1] == hist[t][..j] + [hist[t][j]];
    assert j + 1 == |hist[t]| ==> hist[t][..j + 1] == hist[t];
  }

  /** The buffer holds the file from offset on, and pos entries of it are used. */
  predicate Buffered(log: seq<Entry>, offset: nat, buf: seq<Entry>, pos: nat) {
    offset < |log| && offset + |buf| <= |log| && pos <= |buf| && buf == log[offset..offset + |buf|]
  }

  method Refill(log: seq<Entry>, off0: nat, buf0: seq<Entry>, pos0: nat, bufLen: nat)
    returns (offset: nat, buf: seq<Entry>, pos: nat)
    requires bufLen > 0 && Buffered(log, off0, buf0, pos0)
    ensures Buffered(log, offset, buf, pos) && pos < |buf|
    ensures Wrap(offset, pos, |log|) == Wrap(off0, pos0, |log|) == offset + pos
  {
    offset, buf, pos := off0, buf0, pos0;
    if pos >= |buf| {
      offset := Wrap(offset, |buf|, |log|);
      buf := log[offset..offset + ReadLength(|log|, offset, bufLen)];
      pos := 0;
    }
  }

  /** The n-th live entry, when n entries end j operations into transaction t + 1. */
  lemma LiveEntry(hist: seq<Tx>, start: nat, stop: nat, t: nat, j: nat, n: nat)
    requires start <= t < stop <= |hist| && j < |hist[t]|
    requires Start(hist, t) + j == Start(hist, start) + n
    ensures n < |Live(hist, start, stop)|
    ensures Live(hist, start, stop)[n] ==
            Entry(Start(hist, start) + n + 1, t + 1, hist[t][j], j + 1 < |hist[t]|)
    ensures j + 1 == |hist[t]| ==> Start(hist, t + 1) == Start(hist, start) + n + 1
    ensures j + 1 == |hist[t]| && t + 1 == stop ==> n + 1 == |Live(hist, start, stop)|
  {
    EntryAt(hist, stop, t, j);
    NextStart(hist, t);
    StartsOrdered(hist, start, stop);
  }

  /**
    * pfs_log_scan: from the live entries of (start, stop] it recreates exactly those
    * transactions, in order, reading fragment by fragment round the file.  The
    * assertions of pfs_log_scan on lsn and txid hold at every entry.
    */
  method Scan(log: seq<Entry>, startOff: nat, start: nat, stop: nat, bufLen: nat, ghost hist: seq<Tx>)
    returns (txs: seq<ReplayTx>, n: nat)
    requires bufLen > 0 && start <= stop <= |hist|
    requires forall t: nat :: t < |hist| ==> hist[t] != []
    requires Laid(log, startOff, Live(hist, start, stop))
    ensures |txs| == stop - start
    ensures forall k: nat :: k < |txs| ==> txs[k] == ReplayTx(start + k + 1, hist[start + k])
    ensures n == |Live(hist, start, stop)|
  {
    txs, n := [], 0;
    if start == stop { return; }
    var offset, buf, pos := startOff, [], 0;
    var lastLsn: int, lastTx: nat := -1, start;
    ghost var t: nat, j: nat := start, 0;
    LiveEntry(hist, start, stop, t, j, n);
    while true
      invariant ScannedUpTo(hist, start, t, j, txs) && t < stop && j < |hist[t]|
      invariant Start(hist, t) + j == Start(hist, start) + n && n < |Live(hist, start, stop)|
      invariant Buffered(log, offset, buf, pos) && Wrap(offset, pos, |log|) == Wrap(startOff, n, |log|)
      invariant lastTx == if j == 0 then t else t + 1
      invariant lastLsn == -1 || lastLsn == Start(hist, start) + n
      decreases |Live(hist, start, stop)| - n
    {
      offset, buf, pos := Refill(log, offset, buf, pos, bufLen);
      var le := buf[pos];
      LiveEntry(hist, start, stop, t, j, n);
      assert le == Live(hist, start, stop)[n];
      assert lastLsn < 0 || le.lsn - lastLsn == 1;
      assert le.txid - lastTx == 0 || le.txid - lastTx == 1;
      assert start < le.txid <= stop;
      RecreateStep(hist, start, t, j, txs, le);
      txs := Recreate(txs, le);
      n := n + 1;
      if le.txid == stop && !le.more { break; }
      lastLsn, lastTx := le.lsn, le.txid;
      pos := pos + 1;
      t, j := if le.more then t else t + 1, if le.more then j + 1 else 0;
      LiveEntry(hist, start, stop, t, j, n);
    }
  }
}
