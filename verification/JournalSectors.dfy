/**
  * The sector list of a trim group, as a value.
  *
  * In `Sectors`, `queue` is g_sects, `index` the search tree g_rootp, `count` and
  * `empty` are g_nsects and g_nsects_empty, and `first` is g_sect_empty_first.  The
  * queue and the pointer name a sector buffer by its sector's address.
  */
module JournalSectors {
  import opened Common
  import opened JournalSpec
  import opened JournalLog

  datatype SectBuf = SectBuf(txid: nat, buf: Option<Sector>)

  type Index = map<int, SectBuf>

  datatype Sectors = Sectors(queue: seq<int>, index: Index, count: int, empty: int, first: Option<int>)

  const NO_SECTORS := Sectors([], map[], 0, 0, None)

  ghost predicate Placed(queue: seq<int>, b: int) {
    exists i: nat :: i < |queue| && queue[i] == b
  }

  function TxOf(index: Index, b: int): nat {
    if b in index then index[b].txid else 0
  }

  predicate Copied(index: Index, b: int) {
    b in index && index[b].buf.Some?
  }

  /** One queue element per sector, sorted by transaction, all in (lo, hi]. */
  ghost predicate Queued(queue: seq<int>, index: Index, lo: nat, hi: nat) {
    && Distinct(queue)
    && (forall i: nat :: i < |queue| ==> queue[i] in index)
    && (forall b: int :: b in index ==> Placed(queue, b))
    && (forall i: nat, j: nat :: i < j < |queue| ==> TxOf(index, queue[i]) <= TxOf(index, queue[j]))
    && (forall b: int :: b in index ==> lo < index[b].txid <= hi)
  }

  /** Every sector before the pointer is copied. */
  ghost predicate Pointed(queue: seq<int>, index: Index, first: Option<int>) {
    first.Some? ==>
      && Placed(queue, first.value)
      && forall i: nat, j: nat :: i < j < |queue| && queue[j] == first.value ==> Copied(index, queue[i])
  }

  ghost function Empties(index: Index): set<int> {
    set b | b in index && index[b].buf == None
  }

  ghost predicate Counted(s: Sectors) {
    && s.count == |s.queue| && s.empty == |Empties(s.index)|
    && (s.empty > 0 ==> s.first.Some?)
  }

  ghost predicate Shape(s: Sectors, lo: nat, hi: nat) {
    var queued, pointed := Queued(s.queue, s.index, lo, hi), Pointed(s.queue, s.index, s.first);
    queued && pointed && Counted(s)
  }

  /** No empties, no pointer: what pfs_trimgroup_insert asserts. */
  predicate Tight(s: Sectors) {
    s.empty == 0 ==> s.first == None
  }

  // pfs_sectbuf_sync: only a copied sector is refreshed.
  function Sync(buf: Option<Sector>, op: Op): Option<Sector> {
    if buf.Some? && op.idx < |buf.value| then Some(buf.value[op.idx := op.val]) else buf
  }

  function SyncAll(buf: Option<Sector>, ops: seq<Op>, b: int): Option<Sector> {
    if buf.Some? then Some(Synced(buf.value, ops, b)) else None
  }

  // What inserting a transaction leaves for a touched sector.
  function Inserted(index: Index, txid: nat, ops: seq<Op>, b: int): SectBuf {
    SectBuf(txid, if b in index then SyncAll(index[b].buf, ops, b) else None)
  }

  ghost predicate HoldsInserted(was: Index, index: Index, txid: nat, ops: seq<Op>) {
    && (forall b: int :: b in index <==> b in was || Touches(ops, b))
    && (forall b: int :: b in index ==>
          index[b] == if Touches(ops, b) then Inserted(was, txid, ops, b) else was[b])
  }

  function Touched(index: Index, txid: nat, op: Op): Index {
    index[op.bda := SectBuf(txid, if op.bda in index then Sync(index[op.bda].buf, op) else None)]
  }

  // TAILQ_REMOVE, then TAILQ_INSERT_TAIL
  function Moved(queue: seq<int>, k: nat): (q: seq<int>)
    requires k < |queue|
    ensures |q| == |queue|
  {
    queue[..k] + queue[k + 1..] + [queue[k]]
  }

  function Origin(n: nat, k: nat, i: nat): nat {
    if i + 1 == n then k else if i < k then i else i + 1
  }

  /** The pointer after a touched sector moves to the tail. */
  function NextFirst(queue: seq<int>, k: nat, first: Option<int>): Option<int>
    requires k < |queue|
  {
    if first == Some(queue[k]) && k + 1 < |queue| then Some(queue[k + 1]) else first
  }

  function PoppedFirst(queue: seq<int>, first: Option<int>): Option<int>
    requires queue != []
  {
    if first == Some(queue[0]) then (if |queue| == 1 then None else Some(queue[1])) else first
  }

  function MovedSectors(s: Sectors, k: nat, txid: nat, buf: Option<Sector>): Sectors
    requires k < |s.queue|
  {
    s.(queue := Moved(s.queue, k), index := s.index[s.queue[k] := SectBuf(txid, buf)],
       first := NextFirst(s.queue, k, s.first))
  }

  function AddedSectors(s: Sectors, b: int, txid: nat): Sectors {
    Sectors(s.queue + [b], s.index[b := SectBuf(txid, None)], s.count + 1, s.empty + 1,
            if s.empty == 0 then Some(b) else s.first)
  }

  function PoppedSectors(s: Sectors): Sectors
    requires s.queue != [] && s.queue[0] in s.index
  {
    Sectors(s.queue[1..], s.index - {s.queue[0]}, s.count - 1,
            if s.index[s.queue[0]].buf == None then s.empty - 1 else s.empty, PoppedFirst(s.queue, s.first))
  }

  /** What pfs_trimgroup_delete has not removed yet is as it was. */
  ghost predicate Remaining(was: Index, index: Index, to: nat) {
    && (forall b: int :: b in was && was[b].txid > to ==> b in index)
    && (forall b: int :: b in index ==> b in was && index[b] == was[b])
  }

  /** Nothing has changed but that some empty sectors now hold their copy from memory. */
  ghost predicate CopiedFrom(was: Index, index: Index, meta: Image) {
    && index.Keys == was.Keys
    && forall b: int :: b in index ==>
         || index[b] == was[b]
         || (was[b].buf == None && 0 <= b < |meta| && index[b] == was[b].(buf := Some(meta[b])))
  }

  /** Where the copying loop is: everything before p copied, counts in step. */
  ghost predicate Copying(s: Sectors, lo: nat, hi: nat, meta: Image, index: Index, empty: int, p: nat) {
    && p <= |s.queue| && Queued(s.queue, index, lo, hi) && CopiedFrom(s.index, index, meta)
    && empty == |Empties(index)|
    && forall i: nat :: i < p ==> Copied(index, s.queue[i])
  }

  function CopyOne(index: Index, b: int, meta: Image): Index
    requires b in index && 0 <= b < |meta|
  {
    if index[b].buf == None then index[b := index[b].(buf := Some(meta[b]))] else index
  }

  /** Each sector is as it was or as the group's buffer has it. */
  ghost predicate Mixed(was: Image, img: Image, index: Index) {
    && |img| == |was|
    && forall b: int :: 0 <= b < |img| ==> img[b] == was[b] || (b in index && index[b].buf == Some(img[b]))
  }

  ghost predicate TraceMixed(trace: seq<Disk>, from: nat, d0: Disk, index: Index) {
    forall k: nat :: from <= k < |trace| ==>
      Mixed(d0.image, trace[k].image, index) && trace[k].log == d0.log && trace[k].leader == d0.leader
  }
}
