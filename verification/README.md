# A verified model of PolarFS

PolarFS is a user-space file system on a shared block device.  This project models the parts of it
whose correctness rests on many steps fitting together, and proves what they promise over every input,
every interleaving or every crash:

- the disk lease that lets at most one host mount for writing (`Lease*`);
- the shared-memory queue of the daemon, the event counts its blocking calls sleep on, and the element
  pool behind it (`Mpmc*`, `MemPool*`);
- the metadata journal: commit, trim groups, trim, the circular log, and recovery (`Journal*`);
- the index and file structures: AVL tree (`Avl*`), block table, block input and output, file contents
  with holes (`BlockTable`, `BlkIo`, `FileIo`), name cache (`NameTable`, `NameCache`, `NameRuns`), block discard
  (`Discard`), chunk backup and restore (`Chunk*`), allocator (`Allocator`), directory tree
  (`DirLists`, `DirTree`, `Directories`).

`dafny verify dfyconfig.toml` covers the whole project.  Protocols between hosts or threads are state
machines (`State`, `Event`, `Enabled`, `Apply`, `Run`); code that changes objects in place is written as
classes and methods with loops.  `Common` holds what several parts share.

## What is assumed

- Lease: a sector is read and written atomically; a write takes effect, if at all, before its call
  returns and not after its process ends; a failed write may or may not have landed; one live process per
  host id; all hosts use the same settings; every wall-clock reading is within half the allowed skew of
  a common real time, and the lease clock runs at the rate of real time; bytes of a spoiled sector tell
  which write they spoil; the kill timer ends the process at its deadline.
- Queue and pool: sequentially consistent atomics; tickets, epochs and tags do not wrap; fewer than 2^32
  threads.
- Journal: offsets count entries of 256 bytes; a redo record holds a whole object; a failed leader write
  did not land; failed log and sector writes may have landed in part; one host writes.  The search tree of
  sectors is a map.  `Device.trace` keeps the disk after every single write, so what holds of every
  member of the trace holds of a crash at any moment.
- AVL tree: memory is a map from node addresses to links, and the comparison function an order on keys.
- Files: the block-hole feature is on, FALLOC_FL_NO_HIDE_STALE is not used, one thread works on the file,
  and the caller supplies free device blocks.  Device errors are not modelled there.  A write still handles
  a block that is not mapped, which only another thread that unmaps it after the allocation can bring about.
- Name cache: the hash functions are arbitrary; `hash & mask` on a power of two is `hash % size`.
- Discard: one discard thread, no forced discard; a transaction's changes appear together.
- Backup and restore: the source device does not change while a chunk is read; crc32c is an arbitrary
  function of a fragment.  Sizes are counted in fragments of 4096 bytes: once a caller's length is a
  multiple of that, every length inside is, so the re-checks of pieces have no counterpart.
- Directories: an operation's metadata lock is held, the caller has just found the names it passes, and a
  failed operation is rolled back.

## Findings

Properties the code does not have, each with a concrete case and the exact condition under which it holds,
or for the lease what holds in its place.

- A write transaction as long as the log file is admitted by the assertion at src/pfs_core/pfs_log.cc:1383
  and then steps back to trim in every state: `Journal.Journal.HandleWrite` returns `Back` whenever
  `|tx| >= |log|`.  If it is shorter, `Journal.Journal.Submit` commits it after at most two steps back
  unless a device write fails.
- `pfs_trimgroup_delete` can leave the pointer to the first sector without a copy at a sector that has one,
  which the next insert asserts against: `JournalTrim.StalePointer` gets there by three inserts, a copy and
  a trim by another host.  `JournalTrim.DeleteSectors` shows it happens if and only if some sectors have no copy yet, all of them are to go, and others are to stay.
- A lease watcher that stalls between its last read and its judgement can list as dead a host that has
  since acquired the lease: `LeaseProgress.StalledWatchListsHolder`.  The lease is still safe, because a
  listed holder has always written since, and scans ignore a host only while its sector holds the listed
  bytes: `LeaseProgress.ListedHolderMoved`.
- A trim that fails leaves its blocks marked in progress and off the thread's lists until the next mount:
  `Discard.StrandingRun` is such a run.  `Discard.FailedTrimStrands` and `Discard.StrandedSinceMount` show
  that the blocks of the rounds whose trim failed since the last mount are stranded, and no others.
- A write that gives up at a block another thread has unmapped leaves what it wrote in the blocks before it,
  where it can show beyond the size: `FileIo.FailedWriteShows`.  `FileIo.File.Write` gives the condition: the
  data before the first unmapped block, beyond the size and hidden by no hole, must be zero.
- Freeing an object that is free, or using one that is not, drives an allocator leaf's count two away from
  its bits, and nothing else does: `Allocator.Leaf.Adjust`, `Allocator.Tree.Free`, `Allocator.Tree.Change`;
  `Allocator.FreeTwice` is a tree of one object.  The callers have to keep to it:
  `pfs_metaset_free` checks nothing.
- A restore accepts headers whose sizes do not fit what follows, such as `ChunkSizes.ShortTable`.
  `ChunkSizes.SizesDecide` gives, for any header, table and cut of the stream, the condition under which every
  access stays inside its buffer, and how the restore ends.  The streams of a backup meet it:
  `ChunkSizes.AgreeingEnds`.
- A lease check overlooks a live record whose host id is 0: `LeaseScans.CheckScan` is busy for every live
  record if all of them carry an id, and for none if none does.  No host writes a record without its id.

## Model

| member | source | states |
|---|---|---|
| LeaseSafety.MutualExclusion | src/pfs_core/pfs_paxos.cc:1085-1681 | in every run of any number of hosts, with crashes, spoiled sectors, failed reads and writes and skewed clocks, two holders of the write lease are the same host |
| LeaseSafety.RunInv | src/pfs_core/pfs_paxos.cc:962-1681 | every reachable state keeps the invariant on hosts, sectors, sightings and pairs of hosts from which mutual exclusion follows |
| LeaseSafety.DeadSetSound | src/pfs_core/pfs_paxos.cc:920-1066 | in every run a host that holds the lease or can still come to hold it has written since the bytes any dead set keeps for it |
| LeaseSafety.DeadReadSound | src/pfs_core/pfs_paxos.cc:962-1066 | a read on which a host will be judged dead happens only while that host does not hold the lease and cannot come to hold it |
| LeaseRecords.BallotsDistinct | src/pfs_core/pfs_paxos.cc:182-185 | ballots of different hosts or generations differ |
| LeaseRecords.LiveUntilDeadline | src/pfs_core/pfs_paxos.cc:109-154 | until its deadline a record looks live to every reader within the skew |
| LeaseRecords.ExpiryAgeIsTight | src/pfs_core/pfs_paxos.cc:119-122 | one second less and some admissible pair of clocks would call a holder's record expired |
| LeaseScans.WaitBadSectors | src/pfs_core/pfs_paxos.cc:962-1066 | succeeds if and only if no watched sector's fate is busy; the dead set is then exactly the sectors whose fate is dead, with the bytes they kept |
| LeaseScans.WatchRound | src/pfs_core/pfs_paxos.cc:995-1060 | after a round the list holds the sectors still undecided and the dead set those decided dead, or a busy one was met |
| LeaseScans.ListBadSectors | src/pfs_core/pfs_paxos.cc:962-994 | exactly the unreadable and corrupt sectors of other hosts are listed, each once |
| LeaseScans.WatchEndsInThreeWindows | src/pfs_core/pfs_paxos.cc:937-1066 | whatever is read, a watched sector is decided within three windows |
| LeaseScans.DeadMeansUnchanged | src/pfs_core/pfs_paxos.cc:920-1066 | a sector is judged dead only if it kept the same corrupt bytes in consecutive rounds covering the whole window |
| LeaseScans.CheckScan | src/pfs_core/pfs_paxos.cc:1085-1158 | busy if and only if some other record stops or blocks, and the blocker reported has the freshest timestamp of all blockers, for records that carry a host id; blockers without one are not reported |
| LeaseScans.FreshestExpiresLast | src/pfs_core/pfs_paxos.cc:1405-1509 | when the freshest blocker has expired, so has every record the scan found |
| LeaseProgress.QuietHostAcquires | src/pfs_core/pfs_paxos.cc:1085-1555 | from any state in which no other record blocks or stops it, an idle host has a sequence of its own steps that ends with it holding the lease |
| LeaseProgress.ListedHolderMoved | src/pfs_core/pfs_paxos.cc:920-928 | in every reachable state a listed host that holds the lease has written since, so its sector no longer holds the listed bytes |
| LeaseProgress.StalledWatchListsHolder | src/pfs_core/pfs_paxos.cc:995-1060 | for any number of hosts from two on, a run reaches a state whose next step lists the holder as dead, with outdated bytes |
| MpmcDelivery.PopGetsItsTicket | src/ipc/mpmc.h:187-291 | in every interleaving the pop with ticket t returns the value pushed with ticket t |
| MpmcDelivery.DeliveredOnce | src/ipc/mpmc.h:187-291 | no step replaces a sent or received value, or delivers a ticket a second time |
| MpmcDelivery.RunAccounts | src/ipc/mpmc.h:187-291 | in every state each ticket drawn is owed by one thread or done |
| MpmcDelivery.QuiescentQueue | src/ipc/mpmc.h:187-291 | with no operation in progress the tickets below the head are pushed and those below the tail popped with their values, so the queue holds exactly the ones between |
| MpmcTickets.ExclusiveStorage | src/ipc/mpmc.h:187-291 | no two threads touch the storage of a slot at once |
| MpmcTickets.TicketArithmetic | src/ipc/mpmc.h:309-311 | index and turn of a ticket are remainder and quotient by the capacity, and determine it |
| MpmcTickets.TurnsOnlyGrow | src/ipc/mpmc.h:187-291 | each step moves the turn of a slot forward by one or not at all |
| MpmcTickets.TryRefusesBusySlot | src/ipc/mpmc.h:202-291 | when a try operation refuses at a current ticket, the turn of its slot is strictly behind the ticket's |
| MpmcWakeups.NoLostWakeup | src/ipc/eventcount.h:187-256 | in every run, if the turn a sleeping thread waits for has come, a notifier of that very event is on its way or a thread is about to wake its sleepers |
| MpmcWakeups.WaiterHalfExact | src/ipc/eventcount.h:187-256 | the waiter half of the word is the number of threads between prepare and the end of their wait |
| MpmcWakeups.EpochsMoveByNotifyOnly | src/ipc/eventcount.h:205-222 | an epoch changes only when a notifier of that very event raises it, by one |
| MemPoolTheorems.OnePlaceEach | src/ipc/SharedIndexedMemPool.h:202-215 | in every run every constructed element is in exactly one place: a client, one local list, one global chain or one thread; the next three rows say that these places are what memory shows |
| MemPoolTheorems.LocalListInMemory | src/ipc/SharedIndexedMemPool.h:357-451 | following memory from a local head, as many links as its size field says, gives exactly the elements of that place, each once |
| MemPoolTheorems.GlobalListInMemory | src/ipc/SharedIndexedMemPool.h:357-405 | following memory from the global head gives distinct chain heads ending in 0; each chain is full and holds exactly its place's elements; no element is in an unlisted chain |
| MemPoolTheorems.InFlightInMemory | src/ipc/SharedIndexedMemPool.h:357-451 | what a thread has in flight is what its own variables and memory show: one element, one full chain or nothing |
| MemPoolTheorems.HandsOutFreeElement | src/ipc/SharedIndexedMemPool.h:202-209 | an allocation hands out an element no client held and marks it |
| MemPoolTheorems.LoneAllocFailsOnlyWhenFull | src/ipc/SharedIndexedMemPool.h:89-99 | an allocation that runs alone fails only if clients hold at least capacity() elements |
| MemPoolSafety.RunInv | src/ipc/SharedIndexedMemPool.h:202-451 | every reachable state keeps the invariant of lists, chains, tags and places |
| JournalSpec.ReplayIsExact | src/pfs_core/pfs_tx.cc:654-701 | replaying the live transactions over an image whose every object is no older than the tail gives the image after all of them |
| JournalLog.UsedIsLive | src/pfs_core/pfs_log.cc:548-572 | used space is the length of the live transactions and less than the file |
| JournalLog.EntryAt | src/pfs_core/pfs_log.cc:717-819 | which transaction and operation each live entry of the log is |
| JournalLog.FreeSpaceIsFree | src/pfs_core/pfs_log.cc:548-572 | a write of less than the free space at the head touches no live entry |
| JournalLog.CommitLogged | src/pfs_core/pfs_log.cc:1119-1161 | entries at the head and the moved leader record make the log hold the longer history |
| JournalLog.TrimLogged | src/pfs_core/pfs_log.cc:863-913 | a moved tail leaves the log of the remaining transactions |
| JournalDevice.LogWrite | src/pfs_core/pfs_log.cc:922-948 | a buffer goes round the end of the file; nothing outside changes at any device write; it succeeds if and only if no device write failed |
| JournalDevice.TxLog | src/pfs_core/pfs_tx.cc:424-469 | the entries of a transaction lie after the head, and every disk state on the way differs only there |
| JournalDevice.Scan | src/pfs_core/pfs_log.cc:717-819 | the scan recreates exactly the live transactions, in order, and its assertions on lsn and txid hold |
| JournalDevice.Refill | src/pfs_core/pfs_log.cc:681-704 | the next read continues at the next entry of the circular file |
| JournalTrim.InsertSectors | src/pfs_core/pfs_log.cc:293-348 | the group holds each touched sector once, newest last, with copies brought up to date |
| JournalTrim.DeleteSectors | src/pfs_core/pfs_log.cc:351-379 | exactly the sectors changed after `to` stay; the pointer is right unless all sectors without a copy went and others stayed, and then it is wrong |
| JournalTrim.StalePointer | src/pfs_core/pfs_log.cc:351-379 | three inserts, a copy and a trim after which the pointer is left at a copied sector |
| JournalTrim.CopySectors | src/pfs_core/pfs_log.cc:407-492 | the next `limit` sectors without a copy get it from memory, and the pointer moves to the next one |
| JournalTrim.FlushSectors | src/pfs_core/pfs_log.cc:382-404 | every disk state on the way has some sectors of the group and no other change; on success all of them; it fails if and only if a device write failed |
| JournalTrim.TrimGroup.Insert | src/pfs_core/pfs_log.cc:293-348 | a transaction is filed and the group's end moves past it |
| JournalTrim.TrimGroup.Delete | src/pfs_core/pfs_log.cc:351-379 | the group's start and sectors after a trim up to `to`, with the same exact condition on the pointer |
| JournalState.NewVolumeDurable | src/pfs_core/pfs_paxos.cc:415-511 | a formatted volume recovers the empty history |
| JournalState.LogWriteDurable | src/pfs_core/pfs_log.cc:922-948 | a crash during the log write recovers the old history |
| JournalState.CommitDurable | src/pfs_core/pfs_log.cc:1119-1161 | the leader write makes the new transaction part of what is recovered |
| JournalState.FlushDurable | src/pfs_core/pfs_log.cc:382-404 | a crash with any part of a group flushed recovers the same history |
| JournalState.TrimDurable | src/pfs_core/pfs_log.cc:863-913 | with the group flushed, moving the tail past it recovers the same history |
| Journal.Journal.Commit | src/pfs_core/pfs_log.cc:1119-1161 | every disk state on the way recovers the old or the new history; the new one exactly if no device write failed |
| Journal.Journal.Trim | src/pfs_core/pfs_log.cc:863-913 | the waiting group is flushed, the tail moved and the sectors forgotten, with every disk state recovering the same history |
| Journal.Journal.TrySwap | src/pfs_core/pfs_log.cc:407-492 | the groups still cover the live log; a forced swap hands the group over |
| Journal.Journal.SwapIn | src/pfs_core/pfs_log.cc:407-492 | copying keeps the invariant and, when forced on a write, leaves nothing uncopied |
| Journal.Journal.AddTrimEntry | src/pfs_core/pfs_log.cc:495-506 | a committed transaction is covered by the working group |
| Journal.Journal.HandleWrite | src/pfs_core/pfs_log.cc:1309-1425 | steps back if and only if the transaction does not fit, always if it is as long as the log; stops if and only if a device write failed; else the history grows by it |
| Journal.Journal.HandleTrim | src/pfs_core/pfs_log.cc:1428-1514 | a trim for space empties a group that holds transactions; it stops if and only if a device write failed |
| Journal.Journal.Submit | src/pfs_core/pfs_log.cc:1619-1648 | a transaction shorter than the log steps back at most twice, and is committed if no device write fails |
| Journal.Journal.HandleFlush | src/pfs_core/pfs_log.cc:1517-1543 | asks to come again if and only if something is live in the log; with the lock free and no device fault the tail then moves forward and a group is emptied; the history and memory stay |
| Journal.Journal.FlushOut | src/pfs_core/pfs_mount.cc:1130-1157 | when nothing is left to flush the metadata on disk is the image in memory; two rounds with the lock free and one more are enough unless a device write fails |
| Journal.Journal.Load | src/pfs_core/pfs_log.cc:951-1012 | after a mount memory is the image of the last committed transaction and the groups cover the live log again |
| Journal.Journal.ReplayAll | src/pfs_core/pfs_tx.cc:654-701 | the scanned transactions over the loaded image give the image after the whole history |
| Journal.Journal.FileAll | src/pfs_core/pfs_log.cc:1993-2012 | replayed transactions are filed in the groups |
| Journal.Recover | src/pfs_core/pfs_log.cc:1919-1955 | mounting any state the disk has been in gives exactly the transactions its leader record names |
| Journal.RecoveryOnlyGrows | src/pfs_core/pfs_log.cc:1119-1161 | a later disk state recovers an extension of what an earlier one does |
| Journal.Serve | src/pfs_core/pfs_log.cc:1651-1811 | over any requests every disk state is recoverable; the acknowledged transactions are a subsequence of the requested ones, committed in order, and all of them if no device write failed |
| AvlShape.RotatedFacts | src/pfs_core/pfs_avl.cc:145-219 | a rotation of a subtree that leans by two restores balance, and its height says whether to go on |
| AvlShape.RotatedLine | src/pfs_core/pfs_avl.cc:145-219 | a rotation keeps the in-order sequence |
| AvlShape.LineReversed | src/pfs_core/pfs_avl.cc:84-99 | the sequence in one direction is the reverse of the other |
| AvlLinks.PlugRep | src/pfs_core/pfs_avl.cc:34-99 | a subtree and the path above it in memory are one tree in memory, and the other way round |
| AvlExchange.ExchangeRenames | src/pfs_core/pfs_avl.cc:354-420 | the field by field exchange of two nodes in memory is a renaming of the tree |
| AvlExchange.LinksAgree | src/pfs_core/pfs_avl.cc:34-99 | in memory that represents a tree every node's kids are lower and point back at it, and it hangs where its parent says |
| Avl.Tree.Rotate | src/pfs_core/pfs_avl.cc:145-219 | the pointer surgery makes memory the rotated tree |
| Avl.Tree.Insert | src/pfs_core/pfs_avl.cc:222-266 | memory is a balanced search tree again, with the node at its place and all else in order |
| Avl.Tree.Find | src/pfs_core/pfs_avl.cc:314-335 | finds the node with the key if there is one, and otherwise where it belongs |
| Avl.Tree.Add | src/pfs_core/pfs_avl.cc:338-351 | adds at the place found |
| Avl.Tree.Outermost | src/pfs_core/pfs_avl.cc:132-142 | the first or last node in order |
| Avl.Tree.Walk | src/pfs_core/pfs_avl.cc:102-129 | the next node in the given direction, or none at the end |
| Avl.Tree.Detach | src/pfs_core/pfs_avl.cc:269-287 | a node with at most one child leaves the tree |
| Avl.Tree.Exchange | src/pfs_core/pfs_avl.cc:354-420 | an inner node changes places with its neighbour in order: memory is the same balanced tree with these nodes renamed |
| Avl.Tree.Remove | src/pfs_core/pfs_avl.cc:354-420 | memory is a balanced search tree of the same sequence without the node |
| BlockTable.SetSlot | src/pfs_core/pfs_inode.cc:194-233 | one slot changes and the four-bit count stays the number of mapped slots, mod 16 |
| BlockTable.ClearSlot | src/pfs_core/pfs_inode.cc:162-191 | one slot is cleared, and the vector is freed with its last mapped slot and not before |
| BlockTable.Blocks.Get | src/pfs_core/pfs_inode.cc:236-247 | what the map has, or nothing |
| BlockTable.Blocks.Put | src/pfs_core/pfs_inode.cc:208-233 | the map with one id changed |
| BlockTable.Blocks.Remove | src/pfs_core/pfs_inode.cc:162-191 | the map without one id |
| BlockTable.Blocks.DeleteFrom | src/pfs_core/pfs_inode.cc:360-380 | the map without the ids from `start` on; if a deletion fails, without those before it |
| BlkIo.Align | src/pfs_core/pfs_blkio.cc:77-102 | a piece the device can do that covers the next bytes |
| BlkIo.Disk.Read | src/pfs_core/pfs_blkio.cc:157-220 | exactly the bytes asked for |
| BlkIo.Disk.Write | src/pfs_core/pfs_blkio.cc:157-237 | exactly the bytes asked for change, through sector read-modify-write |
| FileIo.File.Read | src/pfs_core/pfs_file.cc:561-639 | the file's bytes, holes and unmapped blocks as zeros, cut at its size |
| FileIo.File.Write | src/pfs_core/pfs_file.cc:655-797 | over mapped blocks write() on a plain byte sequence; otherwise what shows after the roll back, and exactly when bytes beyond the size stay zero |
| FileIo.FailedWriteShows | src/pfs_core/pfs_file.cc:679-693 | a failed write that leaves data beyond the size |
| FileIo.File.Allocate | src/pfs_core/pfs_file.cc:891-948 | succeeds if and only if there are as many free blocks as unmapped ones in the range, and changes nothing readable but the size |
| FileIo.File.TruncateOnce | src/pfs_core/pfs_file.cc:393-468 | the bytes before the length reached stay, all others are zero |
| FileIo.File.Truncate | src/pfs_core/pfs_file.cc:1010-1034 | ends, and is ftruncate() on a plain byte sequence |
| FileIo.AsPlainWrite | src/pfs_core/pfs_file.cc:655-797 | data written over a zero tail is write() on the plain sequence, gaps as zeros |
| FileIo.AsPlainTruncate | src/pfs_core/pfs_file.cc:393-468 | a cut with a zero tail is ftruncate() on the plain sequence |
| NameTable.InsertHolds | src/pfs_core/pfs_namecache.cc:282-319 | an insert into the bucket a search looks at keeps every item where it is searched for, in either table |
| NameTable.RemoveHolds | src/pfs_core/pfs_namecache.cc:198-204 | a removal keeps it |
| NameTable.MoveStep | src/pfs_core/pfs_namecache.cc:615-678 | moving one entry of the current bucket loses and doubles nothing |
| NameTable.MoveEnds | src/pfs_core/pfs_namecache.cc:615-678 | a moved bucket, and the exchange of the tables after the last one, leave every item where it is searched for |
| NameTable.ExpandHolds | src/pfs_core/pfs_namecache.cc:681-730 | so does the start of a move |
| NameCache.Cache.Enter | src/pfs_core/pfs_namecache.cc:328-429 | a name is added if and only if it is not reserved, not cached and its bucket has room; then the least recently used beyond the limit go; a name already cached is promoted or stays; one name per directory entry is kept |
| NameCache.Cache.Lookup | src/pfs_core/pfs_namecache.cc:500-554 | found if and only if cached, with its inode, and promoted if asked for |
| NameCache.Cache.DeleteByDeno | src/pfs_core/pfs_namecache.cc:470-497 | with one name per directory entry, no name of it is cached afterwards |
| NameCache.Cache.Evict | src/pfs_core/pfs_namecache.cc:217-229 | the most recently used stay, as many as the limit allows |
| NameCache.Cache.Promote | src/pfs_core/pfs_namecache.cc:260-267 | the entry comes first and the others keep their order |
| NameCache.Cache.MoveBucket | src/pfs_core/pfs_namecache.cc:615-678 | one round of the background move keeps the cache's entries and moves exactly one bucket on, or exchanges the tables after the last |
| NameTable.BucketIs | src/pfs_core/pfs_namecache.cc:282-319 | wherever the move stands, a bucket holds exactly the items whose hash shares its slot |
| NameRuns.Run | src/pfs_core/pfs_namecache.cc:328-678 | over enter, lookup, delete and move in any order the cache is a least-recently-used list of the live names: it answers exactly as the list does, a new name is refused if and only if its bucket is full, and every live name is found as long as every new name comes while there is room |
| NameRuns.NothingLost | src/pfs_core/pfs_namecache.cc:217-229 | no live name is ever missing if and only if every new name comes while fewer names are live than the limit and is not refused |
| NameRuns.RoomyFinds | src/pfs_core/pfs_namecache.cc:397-401 | with fewer live names than fill a bucket no new name is refused, so all of them are found |
| NameRuns.RecentStays | src/pfs_core/pfs_namecache.cc:217-267 | a cached name stays cached until as many uses of other names have passed as the cache holds |
| NameRuns.FoundWhileRecent | src/pfs_core/pfs_namecache.cc:328-554 | a name entered, or promoted by a use, is found until then unless it is deleted |
| NameRuns.OrderWithin | src/pfs_core/pfs_namecache.cc:198-229 | the list holds live names only, each once |
| NameRuns.BucketSize | src/pfs_core/pfs_namecache.cc:373-393 | the length of a bucket is the number of cached names of its slot |
| Discard.RunInv | src/pfs_core/pfs_mount.cc:1362-1725 | every interleaving of alloc, free, select, mark, trim and remount keeps tags, trees and the thread's list consistent |
| Discard.TrimIsSafe | src/pfs_core/pfs_mount.cc:1522-1574 | a block handed to trim is unused, in progress, and in no open user transaction |
| Discard.UntouchableWhileInProgress | src/pfs_core/pfs_meta.cc:335-480 | over the whole stretch between the two commits the block stays unused, in progress and unallocated |
| Discard.InProgressEndsOnlyWhenDone | src/pfs_core/pfs_meta.cc:1350-1460 | a block in progress is unused and not allocated, and only the commit of its done mark, after it was trimmed, changes that |
| Discard.ReadyTreeIsReady | src/pfs_core/pfs_meta.cc:1463-1494 | a block taken from the tree of ready blocks is unused and ready, as the allocator asserts |
| Discard.FailedTrimStrands | src/pfs_core/pfs_mount.cc:1630-1670 | a block is stranded exactly by the failure of a trim in the round that holds it, and stays so exactly until the next mount, which lists it again |
| Discard.StrandedSinceMount | src/pfs_core/pfs_mount.cc:1630-1670 | in every reachable state the stranded blocks are those of the rounds whose trim failed since the last mount |
| Discard.StrandingRun | src/pfs_core/pfs_mount.cc:1630-1670 | a run from a new volume that strands a block |
| Discard.NumbersRoundTrip | src/pfs_core/pfs_mount.cc:1732-1753 | block and tag numbers convert back and forth |
| ChunkFormat.HeaderRoundTrip | src/pfs_core/pfs_chunk.cc:836-856 | a header decodes to what was encoded |
| ChunkFormat.HeadsRoundTrip | src/pfs_core/pfs_chunk.cc:661-725 | so does every entry of the block table |
| ChunkFormat.BlockInData | src/pfs_core/pfs_chunk.cc:1000-1049 | where each block's fragments stand in the data |
| ChunkBackup.LoadHeads | src/pfs_core/pfs_chunk.cc:661-725 | the table and the size of what comes before the checksums |
| ChunkBackup.LengthCovers | src/pfs_core/pfs_chunk.cc:705-717 | the stream carries the written part of every used block and nothing of the others |
| ChunkBackup.Backup.Read | src/pfs_core/pfs_chunk.cc:1112-1179 | the next part of the stream, as much as asked for or left; an error only for a length that is no multiple or a bad table entry |
| ChunkBackup.ReadAll | src/pfs_core/pfs_chunk.cc:1112-1179 | however the reads are cut, put together they are the stream |
| ChunkRestore.Restore.Write | src/pfs_core/pfs_chunk.cc:1373-1441 | for a stream whose header is refused or agrees with what follows: takes as much as given or left; an error only for a length that is no multiple, a refused header, a bad table entry or differing checksums |
| ChunkSizes.SizesDecide | src/pfs_core/pfs_chunk.cc:1199-1441 | for every accepted header, whether or not it agrees with what follows, and however the stream is cut, its sizes decide whether an access leaves a buffer, an entry is turned down, the loop takes nothing for ever, or the stream ends |
| ChunkSizes.DriveEnds | src/pfs_core/pfs_chunk.cc:1388-1441 | the same from any state a restore comes through |
| ChunkSizes.AgreeingEnds | src/pfs_core/pfs_chunk.cc:1199-1441 | a stream whose header agrees with what follows stays inside the buffers and is completed unless a table entry is turned down |
| ChunkSizes.ShortTable | src/pfs_core/pfs_chunk.cc:1201-1245 | a header that is accepted although its table is too short for the entries read |
| ChunkRestore.LandStep | src/pfs_core/pfs_chunk.cc:1272-1321 | writing the next fragments of a block puts them, and only them, where they belong |
| ChunkRestore.EndMove | src/pfs_core/pfs_chunk.cc:1336-1370 | at the end of the stream the two checksum buffers agree if and only if every recorded checksum is that of its fragment |
| ChunkCopy.Copy | src/pfs_core/pfs_chunk.cc:1112-1441 | for any cut of the reads and of the writes the copy finishes, the carried fragments of every block are equal on both devices, and nothing else changed |
| ChunkCopy.DamageShows | src/pfs_core/pfs_chunk.cc:1336-1370 | a fragment changed so that its checksum differs is not accepted |
| Allocator.MakeDecodes | src/pfs_core/pfs_alloc.cc:65-163 | a number handed out decodes to the leaf and slot it came from |
| Allocator.Leaf.constructor | src/pfs_core/pfs_meta.cc:578-609 | bits and count are those of the unused objects, and the first of them is looked at first |
| Allocator.Leaf.Adjust | src/pfs_core/pfs_alloc.cc:37-49 | how a change moves the count and the bit, and by how much they then disagree |
| Allocator.Leaf.Alloc | src/pfs_core/pfs_alloc.cc:75-97 | the first free and allowed slot in turn from the hint; none if and only if there is none |
| Allocator.Tree.Alloc | src/pfs_core/pfs_alloc.cc:99-134 | fails if and only if every free object is refused; otherwise takes one free, allowed object from the first leaf that has one, in turn from the fullest |
| Allocator.Tree.Free | src/pfs_core/pfs_alloc.cc:137-163 | the object is free again; the counts stay true if and only if it was not free |
| Allocator.Tree.Change | src/pfs_core/pfs_alloc.cc:166-257 | the same for use, redo and undo |
| Allocator.FreeTwice | src/pfs_core/pfs_alloc.cc:136-161 | one object given back twice leaves a count of two and a bit that says used |
| Allocator.Serve | src/pfs_core/pfs_alloc.cc:65-163 | over any requests an ask gets an object that is free and let go, and is refused only if there is none; no object is held twice, none is lost and none made up |
| DirLists.InsertChain | src/pfs_core/pfs_meta.cc:912-936 | the entry comes last in the list, and other entries' data stays |
| DirLists.DeleteChain | src/pfs_core/pfs_meta.cc:939-976 | the entry leaves the list, and other entries' data stays |
| DirTree.MovedTree | src/pfs_core/pfs_dir.cc:609-665 | a subtree hung anywhere but under itself leaves a tree |
| DirTree.CycleIfUnder | src/pfs_core/pfs_dir.cc:739-756 | hung under itself it leaves none |
| Directories.Dirs.Add | src/pfs_core/pfs_dir.cc:282-333 | the tree with one new node, or the error the source gives and no change |
| Directories.Dirs.Del | src/pfs_core/pfs_dir.cc:336-411 | the tree without the node; a directory only if it has no children |
| Directories.Dirs.Walk | src/pfs_core/pfs_dir.cc:739-756 | the walk up ends, at the directory to be moved if and only if the target is it or under it |
| Directories.Dirs.Rename | src/pfs_core/pfs_dir.cc:714-782 | refused if and only if it would form a cycle or replace a directory with children; otherwise one node moves and the replaced one goes |
| Directories.Dirs.Open | src/pfs_core/pfs_dir.cc:414-465 | the entries whose parent the directory is, each once |
| Directories.EveryNodeRooted | src/pfs_core/pfs_dir.cc:189-225 | every linked inode lies below inode 0 and is in exactly one directory's list |

## Left out

- ChunkRestore.Restore.Write: what lands on the device is described for streams whose header agrees with what follows; for the others `ChunkSizes` follows the counters only, with block lengths that are not negative.
- The reset of the lease records that ends a restore of chunk 0 (src/pfs_core/pfs_chunk.cc:1355-1361): `ChunkCopy.Copy` describes the device before it.
- The metadata cache file of a backup, and whether it still describes the device.
- Reading and following the log of another writer (poll, forward leader record), and read-only mounts.
- Lease: the hardware watchdog, `try_reset_lock`, and writing records on behalf of other hosts.
- Queue and pool: weaker memory orders, wrap-around of 32-bit tickets, epochs and tags, the spin loop of a blocking pop, and the clamp of the pool's capacity to 32 bits.
- Device errors in file reads and writes, concurrent writers of one file, FALLOC_FL_NO_HIDE_STALE, and the file descriptor table.
- Name cache: clearing a mount, disabling the cache, and the clock behind the promotion decision, which is a flag.
- Forced discard and fstrim.
- Directories: long names in extension entries, times and sizes of inodes, path lookup, and the release of unlinked inodes.
- The bitmap words of an allocator leaf are a sequence of bits, and only the two levels in use are modelled.
- Extended attributes, quota and usage reports, configuration, tracing, and the network side of the daemon: they would only add easy members.
