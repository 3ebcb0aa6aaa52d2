/**
  * Trim groups: the dirty sectors of the transactions (ltxid, rtxid], each to be
  * copied from memory and later flushed when the log is trimmed.
  */
module JournalTrim {
  import opened Common
  import opened JournalSpec
  import opened JournalLog
  import opened JournalDevice
  import opened JournalSectors

  lemma TouchesNext(ops: seq<Op>, k: nat, b: int)
    requires k < |ops|
    ensures Touches(ops[..k + 1], b) <==> Touches(ops[..k], b) || ops[k].bda == b
  {
    var a, c := ops[..k], ops[..k + 1];
    assert c[k] == ops[k];
    assert forall j: nat :: j < k ==> a[j] == c[j];
  }

  /** One more operation of the same transaction. */
  lemma InsertedNext(was: Index, index: Index, txid: nat, ops: seq<Op>, k: nat)
    requires k < |ops| && HoldsInserted(was, index, txid, ops[..k])
    ensures HoldsInserted(was, Touched(index, txid, ops[k]), txid, ops[..k + 1])
  {
    forall b: int
      ensures Touches(ops[..k + 1], b) <==> Touches(ops[..k], b) || ops[k].bda == b
    {
      TouchesNext(ops, k, b);
    }
    assert ops[..k + 1][..k] == ops[..k];
    var index' := Touched(index, txid, ops[k]);
    forall b: int | b in index'
      ensures index'[b] == if Touches(ops[..k + 1], b) then Inserted(was, txid, ops[..k + 1], b) else was[b]
    {
      if b == ops[k].bda {
        SyncedUntouched(was, ops[..k], b);
      } else if Touches(ops[..k + 1], b) {
        assert index'[b] == index[b] == Inserted(was, txid, ops[..k], b);
      }
    }
  }

  lemma NothingInserted(index: Index, txid: nat, ops: seq<Op>)
    ensures HoldsInserted(index, index, txid, ops[..0])
  {
  }

  lemma SyncedUntouched(was: Index, ops: seq<Op>, b: int)
    ensures !Touches(ops, b) && b in was ==> SyncAll(was[b].buf, ops, b) == was[b].buf
  {
    if !Touches(ops, b) && b in was && was[b].buf.Some? {
      var s := was[b].buf.value;
      forall i: nat | i < |s| ensures Synced(s, ops, b)[i] == s[i] {
        SyncedAt(s, ops, b, i);
        UntouchedUnwritten(ops, b, i);
      }
      assert Synced(s, ops, b) == s;
    }
  }

  // --------------------------------------------------------------- queue moves

  method Find(queue: seq<int>, b: int) returns (k: nat)
    requires Placed(queue, b)
    ensures k < |queue| && queue[k] == b
  {
    k := 0;
    while k < |queue| && queue[k] != b
      invariant k <= |queue| && forall i: nat :: i < k ==> queue[i] != b
    {
      k := k + 1;
    }
  }

  lemma MovedAt(queue: seq<int>, k: nat, i: nat)
    requires k < |queue| && i < |queue|
    ensures Origin(|queue|, k, i) < |queue| && Moved(queue, k)[i] == queue[Origin(|queue|, k, i)]
  {
    var rest := queue[..k] + queue[k + 1..];
    assert Moved(queue, k) == rest + [queue[k]];
    assert i + 1 < |queue| ==> Moved(queue, k)[i] == rest[i];
  }

  lemma MovedPlaced(queue: seq<int>, k: nat, b: int)
    requires k < |queue| && Placed(queue, b)
    ensures Placed(Moved(queue, k), b)
  {
    var i: nat :| i < |queue| && queue[i] == b;
    var j := if i < k then i else if i == k then |queue| - 1 else i - 1;
    MovedAt(queue, k, j);
    assert Moved(queue, k)[j] == b;
  }

  lemma MovedOrder(queue: seq<int>, index: Index, lo: nat, hi: nat, k: nat, i: nat, j: nat)
    requires Queued(queue, index, lo, hi) && k < |queue| && i < j < |queue|
    ensures Moved(queue, k)[i] != Moved(queue, k)[j]
    ensures j + 1 < |queue| ==> TxOf(index, Moved(queue, k)[i]) <= TxOf(index, Moved(queue, k)[j])
    ensures Moved(queue, k)[i] != queue[k]
    ensures j + 1 < |queue| ==> Moved(queue, k)[j] != queue[k]
    ensures Moved(queue, k)[i] in index
  {
    MovedAt(queue, k, i);
    MovedAt(queue, k, j);
  }

  /** Moving a touched sector to the tail keeps the order. */
  lemma MoveToTail(queue: seq<int>, index: Index, lo: nat, hi: nat, k: nat, buf: Option<Sector>)
    requires Queued(queue, index, lo, hi) && k < |queue| && lo < hi
    ensures Queued(Moved(queue, k), index[queue[k] := SectBuf(hi, buf)], lo, hi)
  {
    var q, index' := Moved(queue, k), index[queue[k] := SectBuf(hi, buf)];
    MovedAt(queue, k, |queue| - 1);
    forall i: nat, j: nat | i < j < |q|
      ensures q[i] != q[j] && TxOf(index', q[i]) <= TxOf(index', q[j])
    {
      MovedOrder(queue, index, lo, hi, k, i, j);
    }
    forall i: nat | i < |q| ensures q[i] in index' {
      MovedAt(queue, k, i);
    }
    forall b: int | b in index' ensures Placed(q, b) {
      MovedPlaced(queue, k, b);
    }
  }

  lemma AddAtTail(queue: seq<int>, index: Index, lo: nat, hi: nat, b: int)
    requires Queued(queue, index, lo, hi) && b !in index && lo < hi
    ensures Queued(queue + [b], index[b := SectBuf(hi, None)], lo, hi)
  {
    var q, index' := queue + [b], index[b := SectBuf(hi, None)];
    forall c: int | c in index' ensures Placed(q, c) {
      if c == b {
        assert q[|queue|] == b;
      } else {
        var i: nat :| i < |queue| && queue[i] == c;
        assert q[i] == c;
      }
    }
  }

  /** The popped head leaves the rest in order. */
  lemma PopHead(queue: seq<int>, index: Index, lo: nat, hi: nat)
    requires Queued(queue, index, lo, hi) && queue != []
    ensures Queued(queue[1..], index - {queue[0]}, lo, hi)
  {
    var q, m := queue[1..], index - {queue[0]};
    forall i: nat | i < |q| ensures q[i] == queue[i + 1] && q[i] in m {
    }
    forall b: int | b in m ensures Placed(q, b) {
      var i: nat :| i < |queue| && queue[i] == b;
      assert q[i - 1] == b;
    }
  }

  // ------------------------------------------------------------ pointer moves

  lemma MovedPointer(queue: seq<int>, index: Index, index': Index, k: nat, first: Option<int>)
    requires Distinct(queue) && k < |queue| && Pointed(queue, index, first)
    requires forall b: int :: Copied(index, b) ==> Copied(index', b)
    ensures Pointed(Moved(queue, k), index', NextFirst(queue, k, first))
  {
    var q, first' := Moved(queue, k), NextFirst(queue, k, first);
    if first.Some? {
      var f: nat :| f < |queue| && queue[f] == first.value;
      var f' := if f == k && k + 1 < |queue| then k + 1 else f;
      assert queue[f'] == first'.value;
      MovedPlaced(queue, k, first'.value);
      forall i: nat, j: nat | i < j < |q| && q[j] == first'.value ensures Copied(index', q[i]) {
        MovedAt(queue, k, i);
        MovedAt(queue, k, j);
        assert Origin(|queue|, k, j) == f';
        assert Copied(index, queue[Origin(|queue|, k, i)]);
      }
    }
  }

  lemma AddedPointer(queue: seq<int>, index: Index, lo: nat, hi: nat, b: int, index': Index,
                     first: Option<int>, first': Option<int>)
    requires Queued(queue, index, lo, hi) && b !in index && Pointed(queue, index, first)
    requires forall c: int :: Copied(index, c) ==> Copied(index', c)
    requires first' == first || (first' == Some(b) && Empties(index) == {})
    ensures Pointed(queue + [b], index', first')
  {
    var q := queue + [b];
    assert q[|queue|] == b;
    if first'.Some? {
      forall i: nat, j: nat | i < j < |q| && q[j] == first'.value ensures Copied(index', q[i]) {
        assert q[i] == queue[i] && (j < |queue| ==> q[j] == queue[j]);
        var c := queue[i];
        assert Copied(index, c) <==> c !in Empties(index);
      }
      if first' == first {
        var f: nat :| f < |queue| && queue[f] == first.value;
        assert q[f] == first.value;
      }
    }
  }

  lemma PoppedPointer(queue: seq<int>, index: Index, first: Option<int>)
    requires queue != [] && Distinct(queue) && Pointed(queue, index, first)
    ensures Pointed(queue[1..], index - {queue[0]}, PoppedFirst(queue, first))
  {
    var q, first' := queue[1..], PoppedFirst(queue, first);
    if first'.Some? {
      forall i: nat, j: nat | i < j < |q| && q[j] == first'.value ensures Copied(index - {queue[0]}, q[i]) {
        assert q[i] == queue[i + 1] && q[j] == queue[j + 1];
      }
      var f: nat :| f < |queue| && queue[f] == first.value;
      assert q[if f == 0 then 0 else f - 1] == first'.value;
    }
  }

  // ----------------------------------------------------------- whole-list steps

  lemma MoveShape(s: Sectors, lo: nat, hi: nat, k: nat, buf: Option<Sector>)
    requires Shape(s, lo, hi) && k < |s.queue| && lo < hi
    requires buf.Some? == Copied(s.index, s.queue[k])
    ensures Shape(MovedSectors(s, k, hi, buf), lo, hi)
    ensures s.first == None ==> buf.Some?
  {
    var index' := s.index[s.queue[k] := SectBuf(hi, buf)];
    assert s.queue[k] in s.index;
    assert Empties(index') == Empties(s.index);
    assert buf == None ==> s.queue[k] in Empties(s.index);
    MoveToTail(s.queue, s.index, lo, hi, k, buf);
    MovedPointer(s.queue, s.index, index', k, s.first);
  }

  lemma AddShape(s: Sectors, lo: nat, hi: nat, b: int)
    requires Shape(s, lo, hi) && b !in s.index && lo < hi
    ensures Shape(AddedSectors(s, b, hi), lo, hi)
  {
    var s' := AddedSectors(s, b, hi);
    AddAtTail(s.queue, s.index, lo, hi, b);
    EmptiesAdded(s.index, b, hi);
    AddedPointer(s.queue, s.index, lo, hi, b, s'.index, s.first, s'.first);
  }

  lemma EmptiesAdded(index: Index, b: int, txid: nat)
    requires b !in index
    ensures |Empties(index[b := SectBuf(txid, None)])| == |Empties(index)| + 1
    ensures |Empties(index)| == 0 ==> Empties(index) == {}
  {
    assert Empties(index[b := SectBuf(txid, None)]) == Empties(index) + {b};
  }

  lemma EmptiesPopped(index: Index, b: int)
    requires b in index
    ensures |Empties(index - {b})| == |Empties(index)| - (if index[b].buf == None then 1 else 0)
  {
    assert Empties(index - {b}) == Empties(index) - {b};
  }

  lemma PopShape(s: Sectors, lo: nat, hi: nat)
    requires Shape(s, lo, hi) && s.queue != []
    ensures s.queue[0] in s.index && Shape(PoppedSectors(s), lo, hi)
  {
    PopHead(s.queue, s.index, lo, hi);
    PoppedPointer(s.queue, s.index, s.first);
    EmptiesPopped(s.index, s.queue[0]);
    PoppedCounted(s, lo, hi);
  }

  lemma PoppedCounted(s: Sectors, lo: nat, hi: nat)
    requires Shape(s, lo, hi) && s.queue != [] && s.queue[0] in s.index
    ensures Counted(PoppedSectors(s))
  {
    var b := s.queue[0];
    EmptiesPopped(s.index, b);
    if |s.queue| == 1 {
      assert forall c: int :: c in s.index ==> Placed(s.queue, c) && c == b;
      NoneEmpty(s.index - {b});
    }
  }

  /** The head of the queue is the oldest. */
  lemma HeadIsOldest(s: Sectors, lo: nat, hi: nat)
    requires Shape(s, lo, hi)
    ensures s.queue == [] <==> s.index == map[]
    ensures forall b: int :: b in s.index ==> TxOf(s.index, s.queue[0]) <= s.index[b].txid
  {
    assert s.queue != [] ==> s.queue[0] in s.index;
    forall b: int | b in s.index ensures s.queue != [] && TxOf(s.index, s.queue[0]) <= s.index[b].txid {
      var i: nat :| i < |s.queue| && s.queue[i] == b;
    }
    assert s.queue == [] ==> forall b: int :: b !in s.index;
  }

  lemma ShapeWidens(s: Sectors, lo: nat, hi: nat)
    requires Shape(s, lo, hi)
    ensures Shape(s, lo, hi + 1)
  {
  }

  /** The body of pfs_trimgroup_insert's loop. */
  method TouchSector(s: Sectors, ghost lo: nat, txid: nat, op: Op) returns (r: Sectors)
    requires Shape(s, lo, txid) && Tight(s) && lo < txid
    ensures Shape(r, lo, txid) && Tight(r) && r.index == Touched(s.index, txid, op)
  {
    var b := op.bda;
    assert b in s.index ==> Placed(s.queue, b);
    if b in s.index {
      var buf := s.index[b].buf;
      var k := Find(s.queue, b);
      MoveShape(s, lo, txid, k, Sync(buf, op));
      assert s.first != None || buf != None;
      r := MovedSectors(s, k, txid, Sync(buf, op));
    } else {
      AddShape(s, lo, txid, b);
      assert s.empty == 0 ==> s.first == None;
      r := AddedSectors(s, b, txid);
    }
  }

  /** pfs_trimgroup_insert's loop: touched sectors move to the tail, synced if already copied. */
  method InsertSectors(s: Sectors, ghost lo: nat, txid: nat, ops: seq<Op>) returns (r: Sectors)
    requires Shape(s, lo, txid) && Tight(s) && lo < txid
    ensures Shape(r, lo, txid) && Tight(r) && HoldsInserted(s.index, r.index, txid, ops)
  {
    NothingInserted(s.index, txid, ops);
    var k := 0;
    r := s;
    while k < |ops|
      invariant k <= |ops| && Shape(r, lo, txid) && Tight(r)
      invariant HoldsInserted(s.index, r.index, txid, ops[..k])
    {
      InsertedNext(s.index, r.index, txid, ops, k);
      r := TouchSector(r, lo, txid, ops[k]);
      k := k + 1;
    }
    assert ops[..k] == ops;
  }

  // Some sectors have no copy yet, all of them are to go, and others are to stay.
  ghost predicate Strands(s: Sectors, to: nat) {
    && s.empty > 0
    && (forall b: int :: b in s.index && s.index[b].buf == None ==> s.index[b].txid <= to)
    && (exists b: int :: b in s.index && s.index[b].txid > to)
  }

  lemma StrandsShows(s: Sectors, r: Sectors, lo: nat, hi: nat, to: nat)
    requires Shape(s, lo, hi) && Shape(r, lo, hi) && Remaining(s.index, r.index, to)
    requires forall b: int :: b in r.index ==> r.index[b].txid > to
    ensures Strands(s, to) <==> s.empty > 0 && r.empty == 0 && r.index != map[]
  {
    assert r.empty == |Empties(r.index)|;
    if Strands(s, to) {
      NoneEmpty(r.index);
    } else if s.empty > 0 && r.empty == 0 {
      assert forall b: int :: b in r.index ==> b !in Empties(r.index);
      assert forall b: int :: b !in r.index;
      assert r.index == map[];
    }
  }

  /**
    * pfs_trimgroup_delete's loop: exactly the sectors last changed after `to` stay.
    * It leaves the pointer at a copied sector, which the next insert asserts
    * against, if and only if it strands the sectors that stay.
    */
  method DeleteSectors(s: Sectors, ghost lo: nat, ghost hi: nat, to: nat) returns (r: Sectors)
    requires Shape(s, lo, hi)
    ensures Shape(r, lo, hi) && Remaining(s.index, r.index, to)
    ensures forall b: int :: b in r.index ==> r.index[b].txid > to
    ensures Tight(s) ==> (Tight(r) <==> !Strands(s, to))
  {
    r := s;
    assert s.empty > 0 ==> s.first.Some?;
    while r.queue != [] && TxOf(r.index, r.queue[0]) <= to
      invariant Shape(r, lo, hi) && Remaining(s.index, r.index, to)
      invariant r.empty <= s.empty
      invariant Tight(s) && r.first != None ==> s.empty > 0
      invariant s.empty > 0 && r.queue != [] ==> r.first != None
      decreases |r.queue|
    {
      PopShape(r, lo, hi);
      r := PoppedSectors(r);
    }
    HeadIsOldest(r, lo, hi);
    StrandsShows(s, r, lo, hi, to);
  }

  lemma InsertedOne(was: Index, index: Index, txid: nat, op: Op)
    requires HoldsInserted(was, index, txid, [op])
    ensures forall b: int :: b in index <==> b in was || b == op.bda
    ensures forall b: int :: b in was && b != op.bda ==> index[b] == was[b]
    ensures op.bda in index && index[op.bda].txid == txid
    ensures index[op.bda].buf.Some? <==> op.bda in was && was[op.bda].buf.Some?
  {
    assert forall b: int :: Touches([op], b) <==> b == op.bda by { assert [op][0] == op; }
  }

  lemma OneEmpty(index: Index, b: int)
    requires b in index && forall c: int :: c in index ==> (index[c].buf == None <==> c == b)
    ensures Empties(index) == {b} && |Empties(index)| == 1
  {
    assert forall c: int :: c in Empties(index) <==> c == b;
  }

  // Transaction 1 changes sector 5, which is then copied.
  method CopiedOnce(meta: Image, op: Op) returns (s: Sectors)
    requires |meta| > 5 && op.bda == 5
    ensures Shape(s, 0, 1) && Tight(s) && (forall b: int :: b in s.index <==> b == 5) && s.index[5].buf.Some?
  {
    assert Empties(NO_SECTORS.index) == {};
    s := InsertSectors(NO_SECTORS, 0, 1, [op]);
    InsertedOne(NO_SECTORS.index, s.index, 1, op);
    OneEmpty(s.index, 5);
    s := CopySectors(s, 0, 1, meta, 1);
    assert s.empty == |Empties(s.index)| && (s.index[5].buf == None ==> 5 in Empties(s.index));
  }

  /**
    * Transaction 1 changes sector 5, which is then copied; transaction 2 changes sector 7 and
    * transaction 3 sector 5 again.  A trim by another host up to transaction 2 removes the only
    * sector without a copy and leaves the pointer at sector 5: the next insert's assertion fails.
    */
  method StalePointer(meta: Image, op5: Op, op7: Op) returns (s: Sectors, r: Sectors)
    requires |meta| > 7 && op5.bda == 5 && op7.bda == 7
    ensures Shape(s, 0, 3) && Tight(s) && Strands(s, 2)
    ensures Shape(r, 0, 3) && Remaining(s.index, r.index, 2) && !Tight(r)
  {
    hide Queued, Pointed, HoldsInserted;
    s := CopiedOnce(meta, op5);
    ghost var first := s.index;
    ShapeWidens(s, 0, 1);
    s := InsertSectors(s, 0, 2, [op7]);
    InsertedOne(first, s.index, 2, op7);
    ghost var second := s.index;
    ShapeWidens(s, 0, 2);
    s := InsertSectors(s, 0, 3, [op5]);
    InsertedOne(second, s.index, 3, op5);
    OneEmpty(s.index, 7);
    r := DeleteSectors(s, 0, 3, 2);
  }

  lemma CopyStep(s: Sectors, lo: nat, hi: nat, meta: Image, index: Index, empty: int, p: nat)
    requires Copying(s, lo, hi, meta, index, empty, p) && p < |s.queue|
    requires forall b: int :: b in s.index ==> 0 <= b < |meta|
    ensures var b := s.queue[p];
            && b in index && 0 <= b < |meta| && (index[b].buf == None ==> empty > 0)
            && Copying(s, lo, hi, meta, CopyOne(index, b, meta),
                       if index[b].buf == None then empty - 1 else empty, p + 1)
  {
    hide Queued;
    var b := s.queue[p];
    QueuedIsIndexed(s.queue, index, lo, hi, p);
    assert b in index && b in s.index;
    var index' := CopyOne(index, b, meta);
    CopyCount(index, b, meta);
    CopyQueued(s.queue, index, lo, hi, b, meta);
    forall i: nat | i < p + 1 ensures Copied(index', s.queue[i]) {
      assert i < p ==> Copied(index, s.queue[i]);
    }
  }

  lemma QueuedIsIndexed(queue: seq<int>, index: Index, lo: nat, hi: nat, p: nat)
    requires Queued(queue, index, lo, hi) && p < |queue|
    ensures queue[p] in index
  {
  }

  /** A copy takes one sector off the empty ones, if it was one. */
  lemma CopyCount(index: Index, b: int, meta: Image)
    requires b in index && 0 <= b < |meta|
    ensures |Empties(CopyOne(index, b, meta))| == |Empties(index)| - if index[b].buf == None then 1 else 0
    ensures index[b].buf == None ==> |Empties(index)| > 0
  {
    assert Empties(CopyOne(index, b, meta)) == Empties(index) - {b};
    assert index[b].buf == None <==> b in Empties(index);
  }

  lemma CopyQueued(queue: seq<int>, index: Index, lo: nat, hi: nat, b: int, meta: Image)
    requires Queued(queue, index, lo, hi) && b in index && 0 <= b < |meta|
    ensures Queued(queue, CopyOne(index, b, meta), lo, hi)
  {
    var index' := CopyOne(index, b, meta);
    forall i: nat, j: nat | i < j < |queue| ensures TxOf(index', queue[i]) <= TxOf(index', queue[j]) {
      assert TxOf(index, queue[i]) <= TxOf(index, queue[j]);
    }
  }

  lemma CopyBegins(s: Sectors, lo: nat, hi: nat, meta: Image)
    requires Shape(s, lo, hi) && s.empty > 0
    ensures s.first.Some? && Placed(s.queue, s.first.value) && s.count == |s.queue|
    ensures forall p: nat :: p < |s.queue| && s.queue[p] == s.first.value ==>
              Copying(s, lo, hi, meta, s.index, s.empty, p)
  {
  }

  lemma NoneEmpty(index: Index)
    requires forall b: int :: b in index ==> Copied(index, b)
    ensures Empties(index) == {}
  {
    assert forall b: int :: b !in Empties(index);
  }

  lemma CopyKeeps(s: Sectors, lo: nat, hi: nat, meta: Image, index: Index, empty: int, p: nat)
    requires Copying(s, lo, hi, meta, index, empty, p)
    ensures CopiedFrom(s.index, index, meta)
  {
  }

  lemma CopyEnds(s: Sectors, lo: nat, hi: nat, meta: Image, index: Index, empty: int, p: nat)
    requires Copying(s, lo, hi, meta, index, empty, p) && s.count == |s.queue|
    ensures empty != 0 ==> p < |s.queue|
    ensures Shape(Sectors(s.queue, index, s.count, empty, if empty == 0 then None else Some(s.queue[p])), lo, hi)
  {
    if p == |s.queue| {
      forall b: int | b in index ensures Copied(index, b) {
        var i: nat :| i < |s.queue| && s.queue[i] == b;
      }
      NoneEmpty(index);
    }
  }

  /**
    * The copying loop of pfs_log_tryswap_trimgroup: from the pointer on, `limit`
    * empty sectors get their copy from memory, or all if there are no more.
    */
  method CopySectors(s: Sectors, ghost lo: nat, ghost hi: nat, meta: Image, limit: int) returns (r: Sectors)
    requires Shape(s, lo, hi) && s.empty > 0 && limit > 0
    requires forall b: int :: b in s.index ==> 0 <= b < |meta|
    ensures Shape(r, lo, hi) && Tight(r) && CopiedFrom(s.index, r.index, meta)
    ensures r.empty == if limit < s.empty then s.empty - limit else 0
  {
    CopyBegins(s, lo, hi, meta);
    var index, empty, swapIn := s.index, s.empty, limit;
    var p := Find(s.queue, s.first.value);
    assert Copying(s, lo, hi, meta, index, empty, p);
    hide Shape, Copying;
    while p < |s.queue| && empty != 0 && swapIn != 0
      invariant Copying(s, lo, hi, meta, index, empty, p) && p <= |s.queue|
      invariant empty >= 0 && swapIn >= 0 && swapIn == limit - (s.empty - empty)
    {
      CopyStep(s, lo, hi, meta, index, empty, p);
      var b := s.queue[p];
      if index[b].buf == None {
        index := CopyOne(index, b, meta);
        swapIn := swapIn - 1;
        empty := empty - 1;
      }
      p := p + 1;
    }
    CopyEnds(s, lo, hi, meta, index, empty, p);
    CopyKeeps(s, lo, hi, meta, index, empty, p);
    r := Sectors(s.queue, index, s.count, empty, if empty == 0 then None else Some(s.queue[p]));
  }

  /**
    * pfs_trimgroup_flush: on success every sector of the group is on the device and
    * no other has changed; until then, and on failure, some of them are.
    */
  method FlushSectors(dev: Device, s: Sectors, ghost lo: nat, ghost hi: nat) returns (ok: bool)
    requires Shape(s, lo, hi) && s.empty == 0
    requires forall b: int :: b in s.index ==> 0 <= b < |dev.image|
    modifies dev`image, dev`trace, dev`faults
    ensures old(dev.trace) <= dev.trace && TraceMixed(dev.trace, |old(dev.trace)|, old(dev.Now()), s.index)
    ensures Mixed(old(dev.image), dev.image, s.index)
    ensures ok ==> forall b: int :: b in s.index ==> s.index[b].buf == Some(dev.image[b])
    ensures old(dev.faults) <= dev.faults && (ok <==> dev.faults == old(dev.faults))
  {
    var k := 0;
    while k < |s.queue|
      invariant dev.faults == old(dev.faults)
      invariant k <= |s.queue| && Mixed(old(dev.image), dev.image, s.index)
      invariant old(dev.trace) <= dev.trace
      invariant TraceMixed(dev.trace, |old(dev.trace)|, old(dev.Now()), s.index)
      invariant forall i: nat :: i < k ==> s.index[s.queue[i]].buf == Some(dev.image[s.queue[i]])
    {
      var b := s.queue[k];
      assert s.index[b].buf == None ==> b in Empties(s.index);
      ok := dev.WriteSector(b, s.index[b].buf.value);
      if !ok { return; }
      k := k + 1;
    }
    ok := true;
    forall b: int | b in s.index ensures s.index[b].buf == Some(dev.image[b]) {
      var i: nat :| i < |s.queue| && s.queue[i] == b;
    }
  }

  class TrimGroup {
    var ltxid: nat
    var rtxid: nat
    var roffset: nat
    var sects: Sectors

    ghost predicate Valid() reads this {
      ltxid <= rtxid && Shape(sects, ltxid, rtxid)
    }

    constructor (txid: nat, offset: nat)
      ensures Valid() && sects == NO_SECTORS
      ensures ltxid == rtxid == txid && roffset == offset
    {
      ltxid, rtxid, roffset, sects := txid, txid, offset, NO_SECTORS;
    }

    // pfs_trimgroup_ntx
    function Ntx(): int reads this {
      rtxid - ltxid
    }

    /** pfs_trimgroup_insert */
    method Insert(txid: nat, logUsed: nat, ops: seq<Op>, logSize: nat)
      requires Valid() && Tight(sects) && txid == rtxid + 1
      modifies this
      ensures Valid() && Tight(sects) && HoldsInserted(old(sects).index, sects.index, txid, ops)
      ensures ltxid == old(ltxid) && rtxid == txid && roffset == Wrap(old(roffset), logUsed, logSize)
    {
      ShapeWidens(sects, ltxid, rtxid);
      hide Shape, HoldsInserted;
      sects := InsertSectors(sects, ltxid, txid, ops);
      rtxid := txid;
      roffset := Wrap(roffset, logUsed, logSize);
    }

    /** pfs_trimgroup_delete */
    method Delete(to: nat)
      requires Valid()
      modifies this
      ensures Valid() && rtxid == old(rtxid) && roffset == old(roffset)
      ensures ltxid == if to <= old(ltxid) then old(ltxid) else if to < rtxid then to else rtxid
      ensures to <= old(ltxid) ==> sects == old(sects)
      ensures forall b: int :: b in sects.index <==> b in old(sects).index && old(sects).index[b].txid > ltxid
      ensures forall b: int :: b in sects.index ==> sects.index[b] == old(sects).index[b]
      ensures old(Tight(sects)) ==> (Tight(sects) <==> !(to > old(ltxid) && Strands(old(sects), to)))
    {
      if to <= ltxid { return; }
      sects := DeleteSectors(sects, ltxid, rtxid, to);
      ltxid := if to < rtxid then to else rtxid;
    }
  }
}
