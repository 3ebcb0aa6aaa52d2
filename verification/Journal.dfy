/**
  * The log thread's work on the journal: commit, copying and swapping of trim groups,
  * trim, the write and trim handlers, and mounting after a crash.
  */
module Journal {
  import opened Common
  import opened JournalSpec
  import opened JournalLog
  import opened JournalDevice
  import opened JournalSectors
  import opened JournalTrim
  import opened JournalState

  datatype Config = Config(bufLen: nat, sectThreshold: int, txThreshold: int, swapInMax: int)

  // The options are registered with pfs_check_ival_normal: all positive.
  predicate ValidConfig(c: Config) {
    c.bufLen > 0 && c.sectThreshold > 0 && c.txThreshold > 0 && c.swapInMax > 0
  }

  // Who calls pfs_log_tryswap_trimgroup.
  datatype Caller = OnWrite | OnReplayDone | OnTrim | OnTick

  datatype Io = Stop | Cont | Back

  // Positions in the order of handlers.
  const LOG_TRIM := 3
  const LOG_WRITE := 6

  ghost function View(g: TrimGroup): Span reads g {
    Span(g.ltxid, g.rtxid, g.roffset, g.sects)
  }

  /** The disk is durable for the history, and so was every disk state so far for its part of it. */
  ghost predicate Backed(v: Volume, trace: seq<Disk>, d: Disk, leader: Leader, hist: seq<Tx>) {
    var durable, safe := Durable(v, d, hist), Safe(v, trace, hist);
    d.leader == leader && durable && safe
  }

  /** Memory is the image after the last committed transaction. */
  ghost predicate Consistent(v: Volume, trace: seq<Disk>, d: Disk, leader: Leader, meta: Image, hist: seq<Tx>) {
    var backed := Backed(v, trace, d, leader, hist);
    && backed
    && meta == StateAt(v.n, v.base, hist, |hist|)
  }

  class Journal {
    const cfg: Config
    const dev: Device
    ghost const vol: Volume
    var meta: Image
    var leader: Leader
    var work: TrimGroup
    var wait: TrimGroup
    var spaceNeeded: bool
    var trimForced: bool
    ghost var hist: seq<Tx>

    /** pfs_log_preload and the loading of the metadata sectors. */
    constructor (dev: Device, cfg: Config, ghost vol: Volume, ghost hist: seq<Tx>)
      ensures this.dev == dev && this.cfg == cfg && this.vol == vol && this.hist == hist
      ensures leader == dev.leader && meta == dev.image && !spaceNeeded && !trimForced
      ensures fresh(work) && fresh(wait) && work != wait
      ensures View(work) == Span(leader.tailTx, leader.tailTx, leader.tailOff, NO_SECTORS)
      ensures View(wait) == Span(0, 0, 0, NO_SECTORS)
    {
      this.dev, this.cfg, this.vol, this.hist := dev, cfg, vol, hist;
      leader, meta, spaceNeeded, trimForced := dev.leader, dev.image, false, false;
      var w := new TrimGroup(dev.leader.tailTx, dev.leader.tailOff);
      var u := new TrimGroup(0, 0);
      work, wait := w, u;
    }

    ghost predicate ValidUpTo(upTo: nat) reads this, dev, work, wait {
      var agree := Consistent(vol, dev.trace, dev.Now(), leader, meta, hist);
      var covered := Chained(vol, hist, leader, |dev.log|, View(work), View(wait), upTo);
      work != wait && ValidConfig(cfg) && agree && covered
    }

    ghost predicate Valid() reads this, dev, work, wait {
      ValidUpTo(|hist|)
    }

    // pfs_log_space
    function Space(): int reads this, dev {
      |dev.log| - UsedSpace(|dev.log|, leader.tailOff, leader.headOff)
    }

    /** The copying part of pfs_log_tryswap_trimgroup; false when sectors are left to copy. */
    method SwapIn(force: bool, caller: Caller, locked: bool, ghost upTo: nat) returns (done: bool)
      requires ValidUpTo(upTo)
      modifies work`sects
      ensures ValidUpTo(upTo)
      ensures done ==> work.sects.empty == 0
      ensures force && (caller == OnWrite || locked) ==> done
    {
      hide Chained, Consistent, Shape;
      ReadyToCopy(vol, dev.trace, dev.Now(), leader, meta, hist, View(work), View(wait), upTo);
      var empty := work.sects.empty;
      var over := work.Ntx() >= cfg.txThreshold || work.sects.count >= cfg.sectThreshold;
      var skip :=
        || empty == 0
        || (!force && (caller == OnWrite || caller == OnReplayDone) && !over)
        || (caller != OnWrite && !locked);
      if !skip {
        var limit := if !force && !over then cfg.swapInMax else empty;
        var sects := CopySectors(work.sects, work.ltxid, work.rtxid, meta, limit);
        ChainedCopy(vol, hist, leader, |dev.log|, View(work), View(wait), upTo, sects, meta);
        work.sects := sects;
      }
      done := work.sects.empty == 0;
    }

    /** pfs_log_tryswap_trimgroup */
    method TrySwap(force: bool, caller: Caller, locked: bool, ghost upTo: nat)
      requires ValidUpTo(upTo)
      modifies this`work, this`wait, work, wait
      ensures ValidUpTo(upTo) && {work, wait} == old({work, wait})
      ensures old(wait.Ntx()) > 0 ==>
                wait == old(wait) && View(wait) == old(View(wait)) && work.Ntx() == old(work.Ntx())
      ensures force && (caller == OnWrite || locked) && old(wait.Ntx()) <= 0 ==> wait == old(work) && work.Ntx() == 0
      ensures Rank() == old(Rank())
    {
      hide Consistent, Chained;
      GroupRanges(vol, hist, leader, |dev.log|, View(work), View(wait), upTo);
      var done := SwapIn(force, caller, locked, upTo);
      if done && wait.Ntx() <= 0 &&
         (force || work.sects.count >= cfg.sectThreshold || work.Ntx() >= cfg.txThreshold) {
        ChainedSwap(vol, hist, leader, |dev.log|, View(work), View(wait), upTo);
        work, wait := wait, work;
        work.ltxid := wait.rtxid;
        work.rtxid := wait.rtxid;
        work.roffset := wait.roffset;
      }
    }

    /**
      * pfs_log_trim: flush the waiting group, move the tail past it, forget its sectors.
      * Every device state on the way recovers the same history.
      */
    method Trim(ghost upTo: nat) returns (ok: bool)
      requires ValidUpTo(upTo)
      modifies this`leader, dev`image, dev`leader, dev`trace, dev`faults, work, wait
      ensures ValidUpTo(upTo) && old(dev.trace) <= dev.trace
      ensures View(work) == old(View(work))
      ensures leader.headOff == old(leader).headOff && leader.headTx == old(leader).headTx
      ensures ok ==> wait.Ntx() == 0 && leader.tailTx == work.ltxid == old(leader).tailTx + old(wait.Ntx())
      ensures old(dev.faults) <= dev.faults && (ok <==> dev.faults == old(dev.faults))
      ensures !ok ==> View(wait) == old(View(wait))
    {
      GroupRanges(vol, hist, leader, |dev.log|, View(work), View(wait), upTo);
      ok := true;
      if wait.ltxid != wait.rtxid {
        ok := Flush(upTo);
        if ok {
          ok := MoveTail(upTo);
        }
      }
    }

    method Flush(ghost upTo: nat) returns (ok: bool)
      requires ValidUpTo(upTo) && wait.ltxid < wait.rtxid
      modifies dev`image, dev`trace, dev`faults
      ensures ValidUpTo(upTo) && old(dev.trace) <= dev.trace
      ensures ok ==> forall b: int :: b in wait.sects.index ==>
                0 <= b < |dev.image| && wait.sects.index[b].buf == Some(dev.image[b])
      ensures old(dev.faults) <= dev.faults && (ok <==> dev.faults == old(dev.faults))
    {
      ghost var d0 := dev.Now();
      ReadyToFlush(vol, hist, leader, View(work), View(wait), upTo, d0);
      hide Chained, Consistent, Shape, Safe, Durable;
      ok := FlushSectors(dev, wait.sects, wait.ltxid, wait.rtxid);
      FlushConsistent(vol, old(dev.trace), d0, leader, meta, hist, dev.trace, dev.Now(), View(wait));
    }

    method MoveTail(ghost upTo: nat) returns (ok: bool)
      requires ValidUpTo(upTo) && wait.ltxid < wait.rtxid
      requires forall b: int :: b in wait.sects.index ==>
                0 <= b < |dev.image| && wait.sects.index[b].buf == Some(dev.image[b])
      modifies this`leader, dev`leader, dev`trace, dev`faults, work, wait
      ensures ValidUpTo(upTo) && old(dev.trace) <= dev.trace
      ensures View(work) == old(View(work))
      ensures leader.headOff == old(leader).headOff && leader.headTx == old(leader).headTx
      ensures ok ==> wait.Ntx() == 0 && leader.tailTx == work.ltxid == old(leader).tailTx + old(wait.Ntx())
      ensures old(dev.faults) <= dev.faults && (ok <==> dev.faults == old(dev.faults))
      ensures !ok ==> View(wait) == old(View(wait))
    {
      ReadyToTrim(vol, hist, leader, View(work), View(wait), upTo, dev.trace, dev.Now(), meta);
      ghost var worked, waited := View(work), View(wait);
      var moved := leader.(tailTx := wait.rtxid, tailOff := wait.roffset);
      ok := dev.WriteLeader(moved);
      if ok {
        leader := moved;
        wait.Delete(moved.tailTx);
        work.Delete(moved.tailTx);
        assert View(work) == worked;
        assert wait.sects.index == map[] by {
          assert forall b: int :: b !in wait.sects.index;
        }
        Emptied(wait.sects, wait.ltxid);
        ChainedTrim(vol, hist, dev.log, old(leader), worked, waited, upTo, View(wait));
      }
    }

    /**
      * pfs_log_commit: the entries first, then the leader record that names them.
      * Every device state on the way recovers the old history or, once the leader
      * record is written, the new one.
      */
    method Commit(tx: Tx) returns (ok: bool)
      requires Backed(vol, dev.trace, dev.Now(), leader, hist) && ValidConfig(cfg)
      requires TxFits(vol.n, tx) && |tx| < Space()
      modifies this`leader, this`hist, dev`log, dev`leader, dev`trace, dev`faults
      ensures Backed(vol, dev.trace, dev.Now(), leader, hist)
      ensures |dev.log| == old(|dev.log|) && old(dev.trace) <= dev.trace
      ensures ok ==> hist == old(hist) + [tx] && leader == Advanced(old(leader), |tx|, |dev.log|)
      ensures !ok ==> hist == old(hist) && leader == old(leader)
      ensures old(dev.faults) <= dev.faults && (ok <==> dev.faults == old(dev.faults))
    {
      UsedIsLive(dev.log, leader, hist);
      ghost var d0 := dev.Now();
      ok := TxLog(dev, tx, leader, cfg.bufLen);
      LogWriteBacked(vol, old(dev.trace), d0, leader, hist, dev.trace, dev.Now(), |tx|);
      if ok {
        var moved := Advanced(leader, |tx|, |dev.log|);
        CommitBacked(vol, dev.trace, dev.Now(), leader, hist, tx);
        hide Backed;
        ok := dev.WriteLeader(moved);
        if ok {
          leader := moved;
          hist := hist + [tx];
        }
      }
    }

    /** pfs_log_add_trimentry */
    method AddTrimEntry(tx: Tx, ghost upTo: nat)
      requires ValidUpTo(upTo) && upTo < |hist| && tx == hist[upTo]
      modifies work
      ensures ValidUpTo(upTo + 1)
    {
      hide Consistent, Chained, Shape, HoldsInserted, Logged;
      ghost var worked := View(work);
      ReadyToInsert(vol, dev.trace, dev.Now(), leader, meta, hist, View(work), View(wait), upTo);
      work.Insert(work.rtxid + 1, |tx|, tx, |dev.log|);
      ChainedInsert(vol, hist, dev.log, leader, worked, View(wait), upTo, work.sects);
    }

    method CommitAndApply(tx: Tx) returns (ok: bool)
      requires Valid() && TxFits(vol.n, tx) && |tx| < Space()
      modifies this`leader, this`hist, this`meta, dev`log, dev`leader, dev`trace, dev`faults
      ensures ok ==> hist == old(hist) + [tx] && ValidUpTo(|hist| - 1)
      ensures !ok ==> hist == old(hist) && Valid()
      ensures old(dev.faults) <= dev.faults && (ok <==> dev.faults == old(dev.faults))
      ensures |dev.log| == old(|dev.log|) && old(dev.trace) <= dev.trace
    {
      hide Backed, Chained;
      ok := Commit(tx);
      if ok {
        WriteSteps(vol, old(hist), dev.log, old(leader), leader, View(work), View(wait), meta, tx);
        meta := ApplyTx(vol.n, meta, tx);
      }
    }

    /** The free space is less than the log: a transaction as long as the log never finds room. */
    lemma Crowded(len: nat)
      requires Valid()
      ensures len >= |dev.log| ==> len >= Space()
    {
      UsedIsLive(dev.log, leader, hist);
    }

    method AskForSpace()
      requires Valid()
      modifies this`spaceNeeded
      ensures Valid() && spaceNeeded
    {
      spaceNeeded := true;
    }

    /** pfs_log_handle_write, for a log whose leader record nobody else moves. */
    method HandleWrite(tx: Tx) returns (io: Io)
      requires Valid() && TxFits(vol.n, tx)
      modifies this, dev, work, wait
      ensures Valid() && {work, wait} == old({work, wait}) && old(dev.trace) <= dev.trace
      ensures io == Back <==> |tx| >= old(Space())
      ensures io != Back ==> spaceNeeded == old(spaceNeeded)
      ensures io == Back ==> spaceNeeded && View(work) == old(View(work)) && View(wait) == old(View(wait))
      ensures io == Back ==> leader == old(leader) && work == old(work) && wait == old(wait)
      ensures io == Cont ==> hist == old(hist) + [tx]
      ensures io != Cont ==> hist == old(hist)
      ensures |dev.log| == old(|dev.log|) && trimForced == old(trimForced)
      ensures old(dev.faults) <= dev.faults && (io == Stop <==> dev.faults > old(dev.faults))
      ensures |tx| >= |dev.log| ==> io == Back
    {
      hide ValidUpTo, Space;
      Crowded(|tx|);
      if |tx| >= Space() {
        AskForSpace();
        return Back;
      }
      var ok := CommitAndApply(tx);
      if !ok { return Stop; }
      AddTrimEntry(tx, |hist| - 1);
      TrySwap(false, OnWrite, true, |hist|);
      io := Cont;
    }

    // pfs_log_need_trim
    predicate NeedTrim() reads this, work, wait {
      && leader.tailTx != leader.headTx
      && (work.sects.count >= cfg.sectThreshold || work.Ntx() >= cfg.txThreshold)
      && wait.ltxid < wait.rtxid
    }

    /** How many of the groups hold transactions. */
    ghost function Rank(): nat reads this, work, wait {
      (if wait.Ntx() > 0 then 1 else 0) + (if work.Ntx() > 0 then 1 else 0)
    }

    /** pfs_log_handle_trim: when space is needed it empties a group, if any holds transactions. */
    method HandleTrim(locked: bool) returns (io: Io)
      requires Valid()
      modifies this`leader, this`work, this`wait, this`spaceNeeded, this`trimForced
      modifies dev`image, dev`leader, dev`trace, dev`faults, work, wait
      ensures Valid() && {work, wait} == old({work, wait}) && old(dev.trace) <= dev.trace
      ensures io != Back && !trimForced
      ensures !old(trimForced) ==> !spaceNeeded
      ensures old(trimForced) ==> spaceNeeded == old(spaceNeeded)
      ensures (if old(trimForced) then locked else old(spaceNeeded)) && io == Cont ==>
        Rank() < old(Rank()) || Rank() == 0
      ensures (if old(trimForced) then locked else old(spaceNeeded)) && io == Cont && old(Rank()) > 0 ==>
        leader.tailTx > old(leader).tailTx
      ensures old(trimForced) || !old(spaceNeeded) ==> Rank() <= old(Rank())
      ensures leader.headTx == old(leader).headTx
      ensures old(dev.faults) <= dev.faults && (io == Stop <==> dev.faults > old(dev.faults))
        && |dev.log| == old(|dev.log|)
    {
      hide Chained, Consistent;
      var ok := true;
      if trimForced {
        TrySwap(true, OnTrim, locked, |hist|);
        trimForced := false;
        ok := Trim(|hist|);
      } else if spaceNeeded {
        TrySwap(true, OnWrite, locked, |hist|);
        spaceNeeded := false;
        ok := Trim(|hist|);
      } else if NeedTrim() {
        ok := Trim(|hist|);
      }
      io := if ok then Cont else Stop;
    }

    /**
      * pfs_log_handle_req for a write request: a transaction shorter than the log steps
      * back to TRIM at most twice, and it is committed unless a device write failed.  One
      * that is not shorter steps back every time, as HandleWrite says of every state.
      */
    method Submit(tx: Tx, trimQueued: bool, locked: bool) returns (io: Io, backs: nat)
      requires Valid() && TxFits(vol.n, tx) && |tx| < |dev.log| && !spaceNeeded && !trimForced
      modifies this, dev, work, wait
      ensures Valid() && {work, wait} == old({work, wait}) && old(dev.trace) <= dev.trace
      ensures backs <= 2 && io != Back && !spaceNeeded && !trimForced
      ensures io == Cont ==> hist == old(hist) + [tx]
      ensures io == Stop ==> hist == old(hist)
      ensures old(dev.faults) <= dev.faults && (io == Stop <==> dev.faults > old(dev.faults))
      ensures |dev.log| == old(|dev.log|)
    {
      hide Chained, Consistent;
      var trim, write := trimQueued, true;
      var i := LOG_TRIM;
      backs, io := 0, Cont;
      while i <= LOG_WRITE
        invariant LOG_TRIM <= i <= LOG_WRITE + 1
        invariant Valid() && {work, wait} == old({work, wait}) && old(dev.trace) <= dev.trace
        invariant |dev.log| == old(|dev.log|) && !trimForced && io != Back
        invariant hist == if i > LOG_WRITE && io == Cont then old(hist) + [tx] else old(hist)
        invariant spaceNeeded ==> i == LOG_TRIM && trim && backs + Rank() <= 3 && Rank() > 0
        invariant !spaceNeeded && i <= LOG_WRITE ==> backs + Rank() <= 2
        invariant backs <= 2 && old(dev.faults) <= dev.faults && (io == Stop <==> dev.faults > old(dev.faults))
        invariant io == Stop ==> i > LOG_WRITE
        decreases 3 - backs, LOG_WRITE + 1 - i
      {
        if i == LOG_TRIM && trim {
          trim := false;
          io := HandleTrim(locked);
          i := if io == Stop then LOG_WRITE + 1 else i + 1;
        } else if i == LOG_WRITE {
          HoldsIfFull(vol, dev.trace, dev.Now(), leader, meta, hist, View(work), View(wait), |tx|);
          io := HandleWrite(tx);
          if io == Back {
            trim, i, backs, io := true, LOG_TRIM, backs + 1, Cont;
          } else {
            i := i + 1;
          }
        } else {
          i := i + 1;
        }
      }
    }

    /** Between requests no trim is pending. */
    ghost predicate Quiet() reads this, dev, work, wait {
      Valid() && !spaceNeeded && !trimForced
    }

    lemma Assured()
      requires Quiet()
      ensures Safe(vol, dev.trace, hist) && hist[..dev.leader.headTx] == hist
    {
    }

    lemma HoldsLive()
      requires Valid()
      ensures leader.tailTx <= leader.headTx && (Rank() == 0 <==> leader.tailTx == leader.headTx)
    {
    }

    /**
      * pfs_log_handle_flush and the trim it steps back to; true stands for the answer EAGAIN, false
      * for ENODATA.  If there is something to flush and the lock is free, the tail moves forward
      * unless a device write fails.
      */
    method HandleFlush(locked: bool) returns (again: bool)
      requires Quiet()
      modifies this, dev`image, dev`leader, dev`trace, dev`faults, work, wait
      ensures Quiet() && {work, wait} == old({work, wait}) && old(dev.trace) <= dev.trace && hist == old(hist)
      ensures meta == old(meta) && leader.headTx == old(leader).headTx && Rank() <= old(Rank())
      ensures old(dev.faults) <= dev.faults && |dev.log| == old(|dev.log|)
      ensures again <==> old(leader.tailTx != leader.headTx)
      ensures !again ==> leader == old(leader) && dev.trace == old(dev.trace) && dev.faults == old(dev.faults)
      ensures again && locked && dev.faults == old(dev.faults) ==>
        leader.tailTx > old(leader).tailTx && Rank() < old(Rank())
    {
      hide Chained, Consistent;
      HoldsLive();
      again := leader.tailTx != leader.headTx;
      if again {
        trimForced := true;
        var _ := HandleTrim(locked);
      }
    }

    /**
      * pfs_mount_flush, one round for each of `locks`: once the answer is that nothing is left, the
      * metadata on disk is the image in memory.  Two rounds that find the lock free and one more
      * round are enough unless a device write fails.
      */
    method FlushOut(locks: seq<bool>) returns (flushed: bool)
      requires Quiet()
      modifies this, dev`image, dev`leader, dev`trace, dev`faults, work, wait
      ensures Quiet() && {work, wait} == old({work, wait}) && old(dev.trace) <= dev.trace && hist == old(hist)
      ensures old(dev.faults) <= dev.faults && |dev.log| == old(|dev.log|)
      ensures flushed ==> leader.tailTx == leader.headTx && dev.image == meta == old(meta)
      ensures locks != [] && Granted(locks[..|locks| - 1]) >= 2 && dev.faults == old(dev.faults) ==> flushed
    {
      hide Chained, Consistent, Granted;
      NoneGranted(locks);
      flushed := false;
      var k := 0;
      while !flushed && k < |locks|
        invariant k <= |locks| && Quiet() && {work, wait} == old({work, wait}) && old(dev.trace) <= dev.trace
        invariant hist == old(hist) && meta == old(meta) && old(dev.faults) <= dev.faults
        invariant |dev.log| == old(|dev.log|)
        invariant flushed ==> leader.tailTx == leader.headTx
        invariant !flushed && dev.faults == old(dev.faults) ==> Granted(locks[..k]) + Rank() <= 2
        invariant !flushed && dev.faults == old(dev.faults) && k > 0 ==> Granted(locks[..k - 1]) <= 1
      {
        HoldsLive();
        MoreGranted(locks, k);
        var again := HandleFlush(locks[k]);
        flushed := !again;
        k := k + 1;
      }
      if flushed { FlushedImage(vol, dev.trace, dev.Now(), leader, meta, hist); }
    }

    /** One request of the log thread's queue. */
    method Handle(r: Request, locked: bool) returns (acked: seq<Tx>)
      requires Quiet() && Answerable(vol, |dev.log|, r)
      modifies this, dev, work, wait
      ensures Quiet() && {work, wait} == old({work, wait}) && |dev.log| == old(|dev.log|)
      ensures old(dev.trace) <= dev.trace
      ensures hist == old(hist) + acked && old(dev.faults) <= dev.faults
      ensures acked == if r.Write? && dev.faults == old(dev.faults) then [r.tx] else []
    {
      hide ValidUpTo;
      acked := [];
      match r
      case Write(tx, trimDue) =>
        var io, _ := Submit(tx, trimDue, locked);
        if io == Cont { acked := [tx]; }
      case PeriodicTrim =>
        var _ := HandleTrim(locked);
      case FlushAll =>
        var _ := HandleFlush(locked);
      case Tick =>
        TrySwap(false, OnTick, locked, |hist|);
    }

    /** pfs_txlist_replay: redo the scanned transactions over the loaded image. */
    method ReplayAll(txs: seq<ReplayTx>)
      requires Backed(vol, dev.trace, dev.Now(), leader, hist) && meta == dev.image
      requires |txs| == |hist| - leader.tailTx
      requires forall k: nat :: k < |txs| ==> txs[k] == ReplayTx(leader.tailTx + k + 1, hist[leader.tailTx + k])
      modifies this`meta
      ensures meta == StateAt(vol.n, vol.base, hist, |hist|)
    {
      ghost var lo := leader.tailTx;
      var k := 0;
      assert hist[lo..lo] == [];
      while k < |txs|
        invariant k <= |txs| && HistFits(vol.n, hist[lo..lo + k])
        invariant meta == Replay(vol.n, dev.image, hist[lo..lo + k])
      {
        assert hist[lo..lo + k + 1][..k] == hist[lo..lo + k];
        assert TxFits(vol.n, hist[lo + k]);
        meta := ApplyTx(vol.n, meta, txs[k].ops);
        k := k + 1;
      }
      assert hist[lo..lo + k] == hist[lo..];
      ReplayIsExact(vol.n, vol.base, hist, lo, dev.image);
    }

    /**
      * pfs_log_load, the replay, and pfs_log_handle_replaydone: after a crash anywhere
      * memory is the image after the last committed transaction, and the trim groups
      * cover the live log again.
      */
    method Load(locks: seq<bool>)
      requires Backed(vol, dev.trace, dev.Now(), leader, hist) && ValidConfig(cfg) && work != wait
      requires meta == dev.image
      requires View(work) == Span(leader.tailTx, leader.tailTx, leader.tailOff, NO_SECTORS)
      requires View(wait) == Span(0, 0, 0, NO_SECTORS)
      modifies this`meta, this`work, this`wait, work, wait
      ensures Valid() && {work, wait} == old({work, wait})
      ensures work.rtxid == leader.headTx && work.roffset == leader.headOff
    {
      hide Chained;
      var txs, _ := Scan(dev.log, leader.tailOff, leader.tailTx, leader.headTx, cfg.bufLen, hist);
      ReplayAll(txs);
      LoadBegins(vol, hist, dev.log, leader);
      FileAll(txs, locks);
      LoadEnds(vol, hist, leader, dev.log, View(work), View(wait));
    }

    /** pfs_log_replaytx_put */
    method FileAll(txs: seq<ReplayTx>, locks: seq<bool>)
      requires ValidUpTo(leader.tailTx) && |txs| == |hist| - leader.tailTx
      requires forall k: nat :: k < |txs| ==> txs[k] == ReplayTx(leader.tailTx + k + 1, hist[leader.tailTx + k])
      modifies this`work, this`wait, work, wait
      ensures Valid() && {work, wait} == old({work, wait})
    {
      hide ValidUpTo;
      var k := 0;
      while k < |txs|
        invariant k <= |txs| && ValidUpTo(leader.tailTx + k) && {work, wait} == old({work, wait})
      {
        AddTrimEntry(txs[k].ops, leader.tailTx + k);
        k := k + 1;
        TrySwap(false, OnReplayDone, k < |locks| && locks[k], leader.tailTx + k);
      }
    }
  }

  lemma ReadyToCopy(v: Volume, trace: seq<Disk>, d: Disk, leader: Leader, meta: Image, hist: seq<Tx>,
                    work: Span, wait: Span, upTo: nat)
    requires Consistent(v, trace, d, leader, meta, hist)
    requires Chained(v, hist, leader, |d.log|, work, wait, upTo)
    ensures Shape(work.sects, work.lo, work.hi) && work.sects.empty >= 0
    ensures WellFormed(v, hist) && meta == StateAt(v.n, v.base, hist, |hist|)
    ensures forall b: int :: b in work.sects.index ==> 0 <= b < |meta|
  {
  }

  // How many rounds find the lock free.
  function Granted(locks: seq<bool>): nat {
    if locks == [] then 0 else Granted(locks[..|locks| - 1]) + if locks[|locks| - 1] then 1 else 0
  }

  lemma NoneGranted(locks: seq<bool>)
    ensures Granted(locks[..0]) == 0
  {
  }

  lemma MoreGranted(locks: seq<bool>, k: nat)
    requires k < |locks|
    ensures Granted(locks[..k + 1]) == Granted(locks[..k]) + if locks[k] then 1 else 0
  {
    assert locks[..k + 1][..k] == locks[..k];
  }

  /** With nothing live in the log the disk holds the image in memory. */
  lemma FlushedImage(v: Volume, trace: seq<Disk>, d: Disk, leader: Leader, meta: Image, hist: seq<Tx>)
    requires Consistent(v, trace, d, leader, meta, hist) && leader.tailTx == leader.headTx
    ensures d.image == meta
  {
    NothingNewer(v.n, v.base, hist, d.image);
  }

  lemma GroupRanges(v: Volume, hist: seq<Tx>, leader: Leader, size: nat, work: Span, wait: Span, upTo: nat)
    requires Chained(v, hist, leader, size, work, wait, upTo)
    ensures work.lo <= work.hi == upTo && wait.lo <= wait.hi
    ensures leader.tailTx == if wait.lo < wait.hi then wait.lo else work.lo
  {
  }

  lemma ReadyToFlush(v: Volume, hist: seq<Tx>, leader: Leader, work: Span, wait: Span, upTo: nat, d: Disk)
    requires Durable(v, d, hist) && d.leader == leader
    requires Chained(v, hist, leader, |d.log|, work, wait, upTo) && wait.lo < wait.hi
    ensures Shape(wait.sects, wait.lo, wait.hi) && wait.sects.empty == 0 && wait.sects.count > 0
    ensures forall b: int :: b in wait.sects.index ==> 0 <= b < |d.image|
    ensures Covers(v, hist, wait) && wait.lo == leader.tailTx
  {
    SomethingToFlush(v, hist, wait);
  }

  lemma FlushConsistent(v: Volume, trace0: seq<Disk>, d0: Disk, leader: Leader, meta: Image, hist: seq<Tx>,
                        trace: seq<Disk>, d: Disk, wait: Span)
    requires Consistent(v, trace0, d0, leader, meta, hist) && Covers(v, hist, wait) && wait.lo == leader.tailTx
    requires trace0 <= trace && TraceMixed(trace, |trace0|, d0, wait.sects.index)
    requires Mixed(d0.image, d.image, wait.sects.index) && d.log == d0.log && d.leader == d0.leader
    ensures Consistent(v, trace, d, leader, meta, hist)
  {
    FlushDurable(v, d0, d, hist, wait);
    forall k: nat | |trace0| <= k < |trace| ensures Durable(v, trace[k], hist) {
      FlushDurable(v, d0, trace[k], hist, wait);
    }
    SafeAppends(v, trace0, trace, hist);
  }

  lemma ReadyToTrim(v: Volume, hist: seq<Tx>, leader: Leader, work: Span, wait: Span, upTo: nat,
                    trace: seq<Disk>, d: Disk, meta: Image)
    requires Consistent(v, trace, d, leader, meta, hist)
    requires Chained(v, hist, leader, |d.log|, work, wait, upTo) && wait.lo < wait.hi
    requires forall b: int :: b in wait.sects.index ==>
               0 <= b < |d.image| && wait.sects.index[b].buf == Some(d.image[b])
    ensures var moved := leader.(tailTx := wait.hi, tailOff := wait.off);
            var d' := d.(leader := moved);
            Consistent(v, trace + [d'], d', moved, meta, hist)
  {
    TrimDurable(v, d, hist, wait);
    var d' := d.(leader := leader.(tailTx := wait.hi, tailOff := wait.off));
    SafeAppends(v, trace, trace + [d'], hist);
  }

  lemma Emptied(s: Sectors, t: nat)
    requires s.index == map[] && Shape(s, t, t) && Tight(s)
    ensures s.empty == 0 && s.first == None
  {
    assert Empties(s.index) == {};
  }

  lemma ReadyToInsert(v: Volume, trace: seq<Disk>, d: Disk, leader: Leader, meta: Image, hist: seq<Tx>,
                      work: Span, wait: Span, upTo: nat)
    requires Consistent(v, trace, d, leader, meta, hist)
    requires Chained(v, hist, leader, |d.log|, work, wait, upTo)
    ensures Logged(d.log, leader, hist)
    ensures Shape(work.sects, work.lo, work.hi) && Tight(work.sects) && work.lo <= work.hi == upTo
  {
  }

  /** pfs_tx_apply */
  method ApplyTx(ghost n: nat, meta: Image, ops: seq<Op>) returns (r: Image)
    requires Shaped(n, meta) && OpsFit(n, ops)
    ensures r == ApplyOps(n, meta, ops)
  {
    r := meta;
    var k := 0;
    assert ops[..0] == [];
    while k < |ops|
      invariant k <= |ops| && OpsFit(n, ops[..k]) && r == ApplyOps(n, meta, ops[..k])
    {
      var op := ops[k];
      assert ops[..k + 1][..k] == ops[..k];
      r := r[op.bda := r[op.bda][op.idx := op.val]];
      k := k + 1;
    }
    assert ops[..k] == ops;
  }

  lemma LogWriteBacked(v: Volume, trace0: seq<Disk>, d0: Disk, leader: Leader, hist: seq<Tx>,
                       trace: seq<Disk>, d: Disk, len: nat)
    requires Backed(v, trace0, d0, leader, hist) && trace0 <= trace
    requires len <= |d0.log| - UsedSpace(|d0.log|, leader.tailOff, leader.headOff)
    requires LogOnly(d0, d, leader.headOff, len) && TraceLogOnly(trace, |trace0|, d0, leader.headOff, len)
    ensures Backed(v, trace, d, leader, hist)
  {
    LogWriteDurable(v, d0, d, hist, len);
    forall k: nat | |trace0| <= k < |trace| ensures Durable(v, trace[k], hist) {
      LogWriteDurable(v, d0, trace[k], hist, len);
    }
    SafeAppends(v, trace0, trace, hist);
  }

  lemma CommitBacked(v: Volume, trace: seq<Disk>, d: Disk, leader: Leader, hist: seq<Tx>, tx: Tx)
    requires Backed(v, trace, d, leader, hist) && TxFits(v.n, tx)
    requires |tx| < |d.log| - UsedSpace(|d.log|, leader.tailOff, leader.headOff)
    requires Laid(d.log, leader.headOff, Encode(tx, leader.headTx + 1, leader.headLsn))
    ensures var moved := Advanced(leader, |tx|, |d.log|);
            var d' := d.(leader := moved);
            Backed(v, trace + [d'], d', moved, hist + [tx])
  {
    CommitDurable(v, d, hist, tx);
    SafeGrows(v, trace, hist, tx);
    var d' := d.(leader := Advanced(leader, |tx|, |d.log|));
    SafeAppends(v, trace, trace + [d'], hist + [tx]);
  }

  lemma ChainedFits(v: Volume, hist: seq<Tx>, leader: Leader, size: nat, work: Span, wait: Span, upTo: nat)
    requires Chained(v, hist, leader, size, work, wait, upTo)
    ensures WellFormed(v, hist)
  {
  }

  lemma WriteSteps(v: Volume, hist: seq<Tx>, log: seq<Entry>, leader: Leader, leader': Leader, work: Span, wait: Span,
                   meta: Image, tx: Tx)
    requires Chained(v, hist, leader, |log|, work, wait, |hist|) && TxFits(v.n, tx)
    requires leader' == Advanced(leader, |tx|, |log|) && meta == StateAt(v.n, v.base, hist, |hist|)
    ensures Chained(v, hist + [tx], leader', |log|, work, wait, |hist|)
    ensures Shaped(v.n, meta) && ApplyOps(v.n, meta, tx) == StateAt(v.n, v.base, hist + [tx], |hist| + 1)
  {
    hide Chained;
    ChainedCommit(v, hist, leader, leader', |log|, work, wait, |hist|, tx);
    ChainedFits(v, hist, leader, |log|, work, wait, |hist|);
    StateOfPrefix(v.n, v.base, hist, hist + [tx], |hist|);
    StateStep(v.n, v.base, hist + [tx], |hist|);
  }

  /** A transaction shorter than the log fails to fit only while some group holds transactions. */
  lemma HoldsIfFull(v: Volume, trace: seq<Disk>, d: Disk, leader: Leader, meta: Image, hist: seq<Tx>,
                    work: Span, wait: Span, len: nat)
    requires Consistent(v, trace, d, leader, meta, hist)
    requires Chained(v, hist, leader, |d.log|, work, wait, |hist|)
    requires len < |d.log|
    ensures len >= |d.log| - UsedSpace(|d.log|, leader.tailOff, leader.headOff) ==>
              wait.lo < wait.hi || work.lo < work.hi
  {
    UsedIsLive(d.log, leader, hist);
  }

  lemma LoadBegins(v: Volume, hist: seq<Tx>, log: seq<Entry>, leader: Leader)
    requires WellFormed(v, hist) && Logged(log, leader, hist)
    ensures Chained(v, hist, leader, |log|, Span(leader.tailTx, leader.tailTx, leader.tailOff, NO_SECTORS),
                    Span(0, 0, 0, NO_SECTORS), leader.tailTx)
  {
    assert Empties(NO_SECTORS.index) == {};
    EmptyCovers(v, hist, leader.tailTx, leader.tailOff, NO_SECTORS);
  }

  lemma LoadEnds(v: Volume, hist: seq<Tx>, leader: Leader, log: seq<Entry>, work: Span, wait: Span)
    requires Logged(log, leader, hist) && Chained(v, hist, leader, |log|, work, wait, |hist|)
    ensures work.hi == leader.headTx && work.off == leader.headOff
  {
  }

  /**
    * Mounting any state the disk has been in gives exactly the transactions its
    * leader record names: nothing committed is lost, nothing uncommitted appears.
    */
  method Recover(d: Disk, cfg: Config, locks: seq<bool>, ghost vol: Volume, ghost hist: seq<Tx>) returns (j: Journal)
    requires SafeAt(vol, d, hist) && ValidConfig(cfg)
    ensures j.Valid() && fresh(j) && fresh(j.dev) && fresh(j.work) && fresh(j.wait)
    ensures j.cfg == cfg && j.vol == vol && j.hist == hist[..d.leader.headTx] && j.dev.Now() == d
    ensures j.meta == StateAt(vol.n, vol.base, j.hist, |j.hist|)
    ensures !j.spaceNeeded && !j.trimForced
  {
    var dev := new Device(d.image, d.log, d.leader);
    ghost var mine := hist[..d.leader.headTx];
    assert mine[..|mine|] == mine;
    assert Safe(vol, dev.trace, mine);
    j := new Journal(dev, cfg, vol, mine);
    j.Load(locks);
  }

  datatype Request = Write(tx: Tx, trimDue: bool) | PeriodicTrim | FlushAll | Tick

  ghost predicate Answerable(v: Volume, size: nat, r: Request) {
    r.Write? ==> TxFits(v.n, r.tx) && |r.tx| < size
  }

  /** What a crash recovers never shrinks: later states of the disk recover more of the same history. */
  lemma RecoveryOnlyGrows(v: Volume, trace: seq<Disk>, hist: seq<Tx>, j: nat, k: nat)
    requires Safe(v, trace, hist) && j <= k < |trace|
    ensures trace[j].leader.headTx <= trace[k].leader.headTx <= |hist|
    ensures hist[..trace[j].leader.headTx] <= hist[..trace[k].leader.headTx]
  {
    assert SafeAt(v, trace[k], hist);
  }

  // The transactions the requests ask to write.
  function Writes(requests: seq<Request>): seq<Tx> {
    if requests == [] then [] else
    var r := requests[|requests| - 1];
    Writes(requests[..|requests| - 1]) + if r.Write? then [r.tx] else []
  }

  // `a` is `b` with some elements left out.
  predicate Subsequence(a: seq<Tx>, b: seq<Tx>) {
    if b == [] then a == [] else
    var b' := b[..|b| - 1];
    Subsequence(a, b') || (a != [] && a[|a| - 1] == b[|b| - 1] && Subsequence(a[..|a| - 1], b'))
  }

  lemma SubsequenceGrows(a: seq<Tx>, b: seq<Tx>, x: Tx)
    requires Subsequence(a, b)
    ensures Subsequence(a, b + [x]) && Subsequence(a + [x], b + [x])
  {
    assert (b + [x])[..|b|] == b && (a + [x])[..|a|] == a;
  }

  lemma NoneAcked(requests: seq<Request>)
    ensures Writes(requests[..0]) == [] && Subsequence([], Writes(requests[..0]))
  {
  }

  lemma MoreAcked(requests: seq<Request>, k: nat, acked: seq<Tx>, done: seq<Tx>)
    requires k < |requests| && Subsequence(acked, Writes(requests[..k]))
    requires done == [] || (requests[k].Write? && done == [requests[k].tx])
    ensures Subsequence(acked + done, Writes(requests[..k + 1]))
    ensures acked == Writes(requests[..k]) && (requests[k].Write? ==> done == [requests[k].tx]) ==>
              acked + done == Writes(requests[..k + 1])
  {
    hide Subsequence;
    assert requests[..k + 1][..k] == requests[..k];
    var asked := Writes(requests[..k]);
    assert acked + [] == acked && asked + [] == asked;
    if requests[k].Write? { SubsequenceGrows(acked, asked, requests[k].tx); }
  }

  /**
    * The log thread over any sequence of requests, with the meta lock free or not as
    * `locks` says.  Every state the disk goes through recovers the transactions its
    * leader record names; the acknowledged transactions are committed in the order they
    * were asked for, and all of them are if no device write failed.
    */
  method Serve(j: Journal, requests: seq<Request>, locks: seq<bool>) returns (acked: seq<Tx>)
    requires j.Quiet()
    requires forall k: nat :: k < |requests| ==> Answerable(j.vol, |j.dev.log|, requests[k])
    modifies j, j.dev, j.work, j.wait
    ensures j.Quiet() && j.hist == old(j.hist) + acked
    ensures Subsequence(acked, Writes(requests))
    ensures j.dev.faults == old(j.dev.faults) ==> acked == Writes(requests)
    ensures Safe(j.vol, j.dev.trace, j.hist) && old(j.dev.trace) <= j.dev.trace
  {
    hide Safe, Durable, SafeAt, j.Quiet, Answerable, Subsequence, Writes;
    acked := [];
    var k := 0;
    NoneAcked(requests);
    while k < |requests|
      invariant k <= |requests| && j.Quiet() && old(j.dev.faults) <= j.dev.faults
      invariant {j.work, j.wait} == old({j.work, j.wait}) && |j.dev.log| == old(|j.dev.log|)
      invariant j.hist == old(j.hist) + acked && old(j.dev.trace) <= j.dev.trace
      invariant Subsequence(acked, Writes(requests[..k]))
      invariant j.dev.faults == old(j.dev.faults) ==> acked == Writes(requests[..k])
    {
      var done := j.Handle(requests[k], k < |locks| && locks[k]);
      MoreAcked(requests, k, acked, done);
      acked := acked + done;
      k := k + 1;
    }
    assert requests[..k] == requests;
    j.Assured();
  }
}
