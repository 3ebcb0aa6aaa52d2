/**
  Mutual exclusion of the lease over whole runs.

  A host is viable from its verify scan on, for as long as it can still come to
  hold the lease.  While a host is viable its sector holds its own record, live
  to every reader, so another host's scans must take notice of it.
 */
module LeaseSafety {
  import opened LeaseRecords
  import opened LeaseWatch
  import opened LeaseProtocol

  /** Verifying or acquiring: the prepare record must not have expired. */
  predicate Early(pc: Pc) {
    pc.Verifying? || (pc.Writing? && pc.kind.AcquireWrite?) || pc.PrepareTest?
  }

  /** Checking for conflicts: the RW record must not have expired. */
  predicate Middle(pc: Pc) {
    pc.Conflicting? || pc.RwTest? || pc.Arm?
  }

  /** Holding: the kill timer must not have fired. */
  predicate Late(pc: Pc) {
    pc.Held? || pc.Pet? || (pc.Writing? && pc.kind.RenewWrite?)
  }

  predicate InAttempt(pc: Pc) {
    Early(pc) || Middle(pc) || Late(pc)
  }

  predicate RwLanded(pc: Pc) {
    || Middle(pc) || Late(pc) || pc.PrepareTest?
    || (pc.Writing? && pc.kind.AcquireWrite? && pc.write.Return? && pc.write.landed)
  }

  predicate Viable(c: Config, now: real, p: Host) {
    || (Early(p.pc) && !WriteExpired(c, p.own.prepIssue, now))
    || (Middle(p.pc) && !WriteExpired(c, p.own.writeTime, now))
    || (Late(p.pc) && p.timer.Armed? && now < p.timer.deadline)
  }

  predicate ScanPassed(scan: ScanPc, h: HostId) {
    scan.ScanRead? && h < scan.i
  }

  /** p has read b's sector in its verify scan and not been refused. */
  predicate VerifyPassed(pc: Pc, b: HostId) {
    InAttempt(pc) && (pc.Verifying? ==> ScanPassed(pc.scan, b))
  }

  /** p has read a's sector in its conflict scan and not been refused. */
  predicate ConflictPassed(pc: Pc, a: HostId) {
    (pc.Conflicting? && ScanPassed(pc.scan, a)) || pc.RwTest? || pc.Arm? || Late(pc)
  }

  /** The sector still stems from the host's own last write: its record, or that write spoiled. */
  predicate OwnContent(c: Config, cell: Cell, ballot: nat, rw: bool) {
    cell.content.Corrupt? ||
    (cell.content.Valid? &&
     var r := cell.content.rec;
     && r.rw == rw && r.prepare == !rw && r.mbal == ballot && (rw ==> r.bal == ballot)
     && r.ts as real > cell.issued - HalfSkew(c) - 1.0)
  }

  predicate CellInv(now: real, cell: Cell) {
    && cell.issued <= now
    && (cell.content.Corrupt? ==> cell.content.raw.write == cell.writes)
  }

  predicate WriteInv(c: Config, now: real, own: Own, kind: WriteKind, w: WritePc, cell: Cell) {
    && (!w.Issue? ==> w.issue <= now)
    && (!w.Issue? && kind.AcquireWrite? ==> own.prepIssue <= w.issue)
    && ((w.Stamp? || w.Land?) && kind.RenewWrite? ==> cell.issued <= w.issue)
    && (w.Land? ==> w.ts as real > w.issue - HalfSkew(c) - 1.0)
    && (w.Return? && w.landed ==> cell.issued == w.issue)
    && (w.Return? && w.landed && kind.PrepareWrite? ==> OwnContent(c, cell, own.ballot, false))
  }

  predicate ScanInv(c: Config, now: real, scan: ScanPc) {
    scan.ScanRead? ==> scan.clock as real <= now + HalfSkew(c)
  }

  predicate PcInv(c: Config, now: real, p: Host, cell: Cell) {
    match p.pc
    case Writing(kind, w) => WriteInv(c, now, p.own, kind, w, cell)
    case Verifying(scan) => ScanInv(c, now, scan)
    case Conflicting(scan) => ScanInv(c, now, scan)
    case _ => true
  }

  /** When the record on disk was issued, against the times the host itself goes by. */
  predicate TimesInv(c: Config, p: Host, cell: Cell) {
    && (Early(p.pc) && !RwLanded(p.pc) ==> cell.issued == p.own.prepIssue)
    && (p.pc.PrepareTest? ==> p.own.prepIssue <= p.own.writeTime)
    && (p.pc.PrepareTest? || Middle(p.pc) ==> cell.issued == p.own.writeTime)
    && (p.timer.Armed? <==> Late(p.pc))
    && (Late(p.pc) ==> p.own.writeTime <= cell.issued && p.timer.deadline <= cell.issued + c.duration as real)
  }

  /** What holds of one host, its own sector and the time. */
  predicate HostInv(c: Config, now: real, h: HostId, p: Host, cell: Cell) {
    && CellInv(now, cell)
    && PcInv(c, now, p, cell)
    && (InAttempt(p.pc) || p.pc.Writing? ==> p.own.ballot == Ballot(c, p.own.gen, h))
    && (InAttempt(p.pc) ==> OwnContent(c, cell, p.own.ballot, RwLanded(p.pc)))
    && TimesInv(c, p, cell)
  }

  /** Corrupt bytes seen in a's sector belong to a write issued by the given time, or are outdated. */
  predicate BytesSeen(cells: map<HostId, Cell>, a: HostId, raw: Bytes, limit: real) {
    a in cells ==> raw.write <= cells[a].writes && (raw.write == cells[a].writes ==> cells[a].issued <= limit)
  }

  predicate PendingSeen(now: real, cells: map<HostId, Cell>, watch: Watch, w: WatchPc) {
    match w
    case FirstSeen(i, rd) => Bad(rd) && (rd.Got? ==> BytesSeen(cells, i, RawOf(rd), now))
    case Reread(round, k) => round <= now
    case Reseen(round, k, rd) =>
      && round <= now && k < |watch.bad|
      && (Bad(rd) && rd.Got? ==> BytesSeen(cells, watch.bad[k].host, RawOf(rd), now))
    case _ => true
  }

  predicate EntrySeen(now: real, cells: map<HostId, Cell>, e: BadSector) {
    e.since <= now && (!e.unreadable ==> BytesSeen(cells, e.host, e.raw, e.since))
  }

  /** What a host's watch has established about the others. */
  ghost predicate WatchInv(c: Config, now: real, cells: map<HostId, Cell>, watch: Watch) {
    && (forall k | 0 <= k < |watch.bad| :: EntrySeen(now, cells, watch.bad[k]))
    && (forall a | a in watch.dead :: BytesSeen(cells, a, watch.dead[a], now - ExpiryAge(c) as real))
  }

  ghost predicate SeenInv(c: Config, now: real, cells: map<HostId, Cell>, p: Host) {
    WatchInv(c, now, cells, p.watch) && (p.pc.Watching? ==> PendingSeen(now, cells, p.watch, p.pc.watch))
  }

  /** If b passed a in its conflict scan, it outranks a, unless a has yet to pass b in its verify scan. */
  predicate PairInv(c: Config, now: real, a: HostId, pa: Host, b: HostId, pb: Host) {
    a != b && Viable(c, now, pa) && Viable(c, now, pb) && ConflictPassed(pb.pc, a)
    ==> pa.own.ballot < pb.own.ballot || !VerifyPassed(pa.pc, b)
  }

  ghost predicate Inv(c: Config, s: State) {
    && ValidConfig(c)
    && WellFormed(c, s)
    && (forall h | h in s.hosts :: HostInv(c, s.now, h, s.hosts[h], s.cells[h]))
    && (forall h | h in s.hosts :: SeenInv(c, s.now, s.cells, s.hosts[h]))
    && (forall a, b | a in s.hosts && b in s.hosts :: PairInv(c, s.now, a, s.hosts[a], b, s.hosts[b]))
  }

  lemma InitInv(c: Config, s: State)
    requires Init(c, s)
    ensures Inv(c, s)
  {
  }

  // A viable host's own record is live to every scan.

  lemma ViableUnexpired(c: Config, now: real, h: HostId, p: Host, cell: Cell)
    requires HostInv(c, now, h, p, cell) && Viable(c, now, p)
    ensures now < cell.issued + c.duration as real
  {
  }

  lemma ViableLive(c: Config, now: real, h: HostId, p: Host, cell: Cell, clock: int)
    requires HostInv(c, now, h, p, cell) && Viable(c, now, p)
    requires cell.content.Valid?
    requires clock as real <= now + HalfSkew(c)
    ensures RecordLive(c, cell.content.rec.ts, clock)
  {
    ViableUnexpired(c, now, h, p, cell);
    var ts := cell.content.rec.ts;
    assert (clock - ts) as real < (c.duration + c.skew + 1) as real;
  }

  /** Nobody can have put a viable host's current bytes into its dead set. */
  lemma ViableNotDead(c: Config, s: State, a: HostId, b: HostId)
    requires Inv(c, s) && a in s.hosts && b in s.hosts
    requires Viable(c, s.now, s.hosts[a]) && s.cells[a].content.Corrupt?
    ensures !SectorDead(s.hosts[b].watch.dead, a, s.cells[a].content.raw)
  {
    ViableUnexpired(c, s.now, a, s.hosts[a], s.cells[a]);
    assert HostInv(c, s.now, a, s.hosts[a], s.cells[a]);
    assert SeenInv(c, s.now, s.cells, s.hosts[b]);
    assert a in s.hosts[b].watch.dead ==> BytesSeen(s.cells, a, s.hosts[b].watch.dead[a], s.now - ExpiryAge(c) as real);
  }

  /** Verify refuses a viable host whose RW record is on disk. */
  lemma VerifySeesHolder(c: Config, s: State, a: HostId, b: HostId, clock: int, ch: Choice)
    requires Inv(c, s) && a in s.hosts && b in s.hosts && a != b
    requires clock as real <= s.now + HalfSkew(c)
    requires Viable(c, s.now, s.hosts[b]) && RwLanded(s.hosts[b].pc)
    ensures VerifyRefuses(c, s.hosts[a].own.ballot, clock, s.hosts[a].watch.dead, b, ReadSector(s, b, ch))
  {
    var cell := s.cells[b];
    assert HostInv(c, s.now, b, s.hosts[b], cell);
    if cell.content.Corrupt? {
      ViableNotDead(c, s, b, a);
    } else {
      ViableLive(c, s.now, b, s.hosts[b], cell, clock);
    }
  }

  /** A conflict scan that passes a viable host outranks it. */
  lemma ConflictOutranks(c: Config, s: State, a: HostId, b: HostId, clock: int, ch: Choice)
    requires Inv(c, s) && a in s.hosts && b in s.hosts && a != b
    requires clock as real <= s.now + HalfSkew(c)
    requires Viable(c, s.now, s.hosts[a]) && InAttempt(s.hosts[b].pc)
    requires !ConflictRefuses(c, s.hosts[b].own.ballot, clock, s.hosts[b].watch.dead, a, ReadSector(s, a, ch))
    ensures s.hosts[a].own.ballot < s.hosts[b].own.ballot
  {
    var cell := s.cells[a];
    assert HostInv(c, s.now, a, s.hosts[a], cell);
    assert HostInv(c, s.now, b, s.hosts[b], s.cells[b]);
    BallotsDistinct(c, s.hosts[a].own.gen, a, s.hosts[b].own.gen, b);
    if cell.content.Corrupt? {
      ViableNotDead(c, s, a, b);
    } else {
      ViableLive(c, s.now, a, s.hosts[a], cell, clock);
    }
  }

  // Every event keeps the invariant.

  lemma WriteStepInv(c: Config, s: State, h: HostId, p: Host, cell: Cell, ch: Choice)
    requires ValidConfig(c) && HostInv(c, s.now, h, p, cell) && Reads(c, s.now, ch.reading)
    requires p.pc.Writing?
    ensures HostInv(c, s.now, h, HostStep(c, s, h, p, ch), CellStep(s, h, p, cell, ch))
  {
    assert ch.reading < ch.reading.Floor as real + 1.0;
  }

  lemma ScanStepInv(c: Config, s: State, h: HostId, p: Host, cell: Cell, ch: Choice)
    requires ValidConfig(c) && HostInv(c, s.now, h, p, cell) && Reads(c, s.now, ch.reading)
    requires p.pc.Verifying? || p.pc.Conflicting?
    ensures HostInv(c, s.now, h, HostStep(c, s, h, p, ch), CellStep(s, h, p, cell, ch))
  {
    assert ch.reading.Floor as real <= ch.reading;
  }

  lemma StepHostInv(c: Config, s: State, h: HostId, p: Host, cell: Cell, ch: Choice)
    requires ValidConfig(c) && HostInv(c, s.now, h, p, cell) && Reads(c, s.now, ch.reading)
    ensures HostInv(c, s.now, h, HostStep(c, s, h, p, ch), CellStep(s, h, p, cell, ch))
  {
    if p.pc.Writing? {
      WriteStepInv(c, s, h, p, cell, ch);
    } else if p.pc.Verifying? || p.pc.Conflicting? {
      ScanStepInv(c, s, h, p, cell, ch);
    }
  }

  /** Another host's write or spoiled sector only makes what a watch has seen outdated. */
  ghost predicate CellsGrow(cells: map<HostId, Cell>, cells': map<HostId, Cell>) {
    && cells.Keys == cells'.Keys
    && forall a | a in cells ::
         || cells[a].writes < cells'[a].writes
         || (cells[a].writes == cells'[a].writes && cells[a].issued == cells'[a].issued)
  }

  lemma SeenInvKept(c: Config, now: real, now': real, cells: map<HostId, Cell>, cells': map<HostId, Cell>, p: Host)
    requires SeenInv(c, now, cells, p) && now <= now'
    requires CellsGrow(cells, cells')
    ensures SeenInv(c, now', cells', p)
  {
    forall k | 0 <= k < |p.watch.bad| ensures EntrySeen(now', cells', p.watch.bad[k]) {
      assert EntrySeen(now, cells, p.watch.bad[k]);
    }
    forall a | a in p.watch.dead ensures BytesSeen(cells', a, p.watch.dead[a], now' - ExpiryAge(c) as real) {
      assert BytesSeen(cells, a, p.watch.dead[a], now - ExpiryAge(c) as real);
    }
  }

  lemma DeadWasSeen(c: Config, now: real, cells: map<HostId, Cell>, e: BadSector, rd: ReadResult, round: real)
    requires EntrySeen(now, cells, e) && round <= now
    requires Judge(c, e, rd, round, now).Dead?
    requires ValidConfig(c)
    ensures BytesSeen(cells, e.host, Judge(c, e, rd, round, now).raw, now - ExpiryAge(c) as real)
  {
    assert ElapsedSeconds(now, round) <= 0;
    assert (round - e.since).Floor as real <= round - e.since;
  }

  lemma KeptWasSeen(c: Config, now: real, cells: map<HostId, Cell>, e: BadSector, rd: ReadResult, round: real)
    requires EntrySeen(now, cells, e)
    requires Bad(rd) && rd.Got? ==> BytesSeen(cells, e.host, RawOf(rd), now)
    requires Judge(c, e, rd, round, now).Keep?
    ensures EntrySeen(now, cells, Judge(c, e, rd, round, now).entry)
  {
  }

  lemma ReseenStep(c: Config, s: State, h: HostId, w: WatchPc, watch: Watch, ch: Choice)
    requires ValidConfig(c) && w.Reseen?
    requires WatchInv(c, s.now, s.cells, watch) && PendingSeen(s.now, s.cells, watch, w)
    ensures var r := WatchStep(c, s, h, w, watch, ch);
            WatchInv(c, s.now, s.cells, r.1) && (r.0.Watching? ==> PendingSeen(s.now, s.cells, r.1, r.0.watch))
  {
    var k := w.k;
    var e := watch.bad[k];
    assert EntrySeen(s.now, s.cells, e);
    var watch' := WatchStep(c, s, h, w, watch, ch).1;
    match Judge(c, e, w.rd, w.round, s.now)
    case Busy =>
    case Keep(entry) => KeptWasSeen(c, s.now, s.cells, e, w.rd, w.round);
    case Usable => RestSeen(s.now, s.cells, watch.bad, k);
    case Dead(raw) => RestSeen(s.now, s.cells, watch.bad, k); DeadWasSeen(c, s.now, s.cells, e, w.rd, w.round);
  }

  lemma RestSeen(now: real, cells: map<HostId, Cell>, bad: seq<BadSector>, k: nat)
    requires k < |bad| && forall i | 0 <= i < |bad| :: EntrySeen(now, cells, bad[i])
    ensures var rest := bad[..k] + bad[k + 1..]; forall i | 0 <= i < |rest| :: EntrySeen(now, cells, rest[i])
  {
  }

  lemma WatchStepInv(c: Config, s: State, h: HostId, w: WatchPc, watch: Watch, ch: Choice)
    requires ValidConfig(c)
    requires forall a | a in s.cells :: CellInv(s.now, s.cells[a])
    requires WatchInv(c, s.now, s.cells, watch) && PendingSeen(s.now, s.cells, watch, w)
    ensures var r := WatchStep(c, s, h, w, watch, ch);
            WatchInv(c, s.now, s.cells, r.1) && (r.0.Watching? ==> PendingSeen(s.now, s.cells, r.1, r.0.watch))
  {
    if w.Reseen? {
      ReseenStep(c, s, h, w, watch, ch);
    }
  }

  lemma StepSeenInv(c: Config, s: State, h: HostId, p: Host, ch: Choice)
    requires ValidConfig(c) && SeenInv(c, s.now, s.cells, p)
    requires forall a | a in s.cells :: CellInv(s.now, s.cells[a])
    ensures SeenInv(c, s.now, s.cells, HostStep(c, s, h, p, ch))
  {
    if p.pc.Watching? {
      WatchStepInv(c, s, h, p.pc.watch, p.watch, ch);
    }
  }

  /** A host that is viable after a step already was, except on entering its verify scan. */
  lemma StepViable(c: Config, s: State, h: HostId, p: Host, cell: Cell, ch: Choice)
    requires ValidConfig(c) && HostInv(c, s.now, h, p, cell)
    requires p.timer.Armed? ==> s.now < p.timer.deadline
    ensures var p' := HostStep(c, s, h, p, ch);
            Viable(c, s.now, p') ==>
              || (p'.pc.Verifying? && p'.pc.scan.ScanClock?)
              || (Viable(c, s.now, p) && p'.own.ballot == p.own.ballot)
  {
  }

  /** A host passes a in its conflict scan only through a read of a's sector. */
  lemma StepPassesConflict(c: Config, s: State, h: HostId, p: Host, ch: Choice, a: HostId)
    requires 1 <= a <= c.hosts && a != h
    requires InAttempt(p.pc) && ConflictPassed(HostStep(c, s, h, p, ch).pc, a) && !ConflictPassed(p.pc, a)
    ensures p.pc.Conflicting? && p.pc.scan.ScanRead? && p.pc.scan.i == a
    ensures !ConflictRefuses(c, p.own.ballot, p.pc.scan.clock, p.watch.dead, a, ReadSector(s, a, ch))
  {
  }

  lemma StepPassesVerify(c: Config, s: State, h: HostId, p: Host, ch: Choice, b: HostId)
    requires 1 <= b <= c.hosts && b != h
    requires InAttempt(p.pc) && VerifyPassed(HostStep(c, s, h, p, ch).pc, b) && !VerifyPassed(p.pc, b)
    ensures p.pc.Verifying? && p.pc.scan.ScanRead? && p.pc.scan.i == b
    ensures !VerifyRefuses(c, p.own.ballot, p.pc.scan.clock, p.watch.dead, b, ReadSector(s, b, ch))
  {
  }

  lemma StepPairScanner(c: Config, s: State, h: HostId, ch: Choice, a: HostId)
    requires Inv(c, s) && Enabled(c, s, Step(h, ch)) && a in s.hosts
    ensures PairInv(c, s.now, a, s.hosts[a], h, HostStep(c, s, h, s.hosts[h], ch))
  {
    var pb, pb' := s.hosts[h], HostStep(c, s, h, s.hosts[h], ch);
    if a != h && Viable(c, s.now, s.hosts[a]) && Viable(c, s.now, pb') && ConflictPassed(pb'.pc, a) {
      assert HostInv(c, s.now, h, pb, s.cells[h]);
      StepViable(c, s, h, pb, s.cells[h], ch);
      assert PairInv(c, s.now, a, s.hosts[a], h, pb);
      if !ConflictPassed(pb.pc, a) {
        StepPassesConflict(c, s, h, pb, ch, a);
        ConflictOutranks(c, s, a, h, pb.pc.scan.clock, ch);
      }
    }
  }

  lemma StepPairScanned(c: Config, s: State, h: HostId, ch: Choice, b: HostId)
    requires Inv(c, s) && Enabled(c, s, Step(h, ch)) && b in s.hosts
    ensures PairInv(c, s.now, h, HostStep(c, s, h, s.hosts[h], ch), b, s.hosts[b])
  {
    var pa, pa' := s.hosts[h], HostStep(c, s, h, s.hosts[h], ch);
    if b != h && Viable(c, s.now, pa') && Viable(c, s.now, s.hosts[b])
       && ConflictPassed(s.hosts[b].pc, h) && VerifyPassed(pa'.pc, b) {
      assert HostInv(c, s.now, h, pa, s.cells[h]);
      StepViable(c, s, h, pa, s.cells[h], ch);
      assert PairInv(c, s.now, h, pa, b, s.hosts[b]);
      if !VerifyPassed(pa.pc, b) {
        StepPassesVerify(c, s, h, pa, ch, b);
        VerifySeesHolder(c, s, h, b, pa.pc.scan.clock, ch);
      }
    }
  }

  lemma CellOfHost(c: Config, now: real, h: HostId, p: Host, cell: Cell)
    requires HostInv(c, now, h, p, cell)
    ensures CellInv(now, cell)
  {
  }

  lemma PairSelf(c: Config, now: real, a: HostId, p: Host)
    ensures PairInv(c, now, a, p, a, p)
  {
  }

  lemma StepInv(c: Config, s: State, h: HostId, ch: Choice)
    requires Inv(c, s) && Enabled(c, s, Step(h, ch))
    ensures Inv(c, Apply(c, s, Step(h, ch)))
  {
    hide HostInv, PairInv, SeenInv, HostStep;
    var s' := Apply(c, s, Step(h, ch));
    assert HostInv(c, s.now, h, s.hosts[h], s.cells[h]);
    StepHostInv(c, s, h, s.hosts[h], s.cells[h], ch);
    forall g | g in s'.hosts ensures HostInv(c, s'.now, g, s'.hosts[g], s'.cells[g]) {
      if g != h {
        assert HostInv(c, s.now, g, s.hosts[g], s.cells[g]);
      }
    }
    assert CellsGrow(s.cells, s'.cells);
    forall a | a in s.cells ensures CellInv(s.now, s.cells[a]) {
      CellOfHost(c, s.now, a, s.hosts[a], s.cells[a]);
    }
    StepSeenInv(c, s, h, s.hosts[h], ch);
    forall g | g in s'.hosts ensures SeenInv(c, s'.now, s'.cells, s'.hosts[g]) {
      SeenInvKept(c, s.now, s'.now, s.cells, s'.cells, s'.hosts[g]);
    }
    forall a, b | a in s'.hosts && b in s'.hosts
      ensures PairInv(c, s'.now, a, s'.hosts[a], b, s'.hosts[b])
    {
      if a == b {
        PairSelf(c, s'.now, a, s'.hosts[a]);
      } else if b == h {
        StepPairScanner(c, s, h, ch, a);
      } else if a == h {
        StepPairScanned(c, s, h, ch, b);
      } else {
        assert PairInv(c, s.now, a, s.hosts[a], b, s.hosts[b]);
      }
    }
  }

  lemma TickInv(c: Config, s: State, d: real)
    requires Inv(c, s) && d > 0.0
    ensures Inv(c, Apply(c, s, Tick(d)))
  {
    var s' := Apply(c, s, Tick(d));
    forall g | g in s'.hosts ensures HostInv(c, s'.now, g, s'.hosts[g], s'.cells[g]) {
      assert HostInv(c, s.now, g, s.hosts[g], s.cells[g]);
    }
    forall g | g in s'.hosts ensures SeenInv(c, s'.now, s'.cells, s'.hosts[g]) {
      SeenInvKept(c, s.now, s'.now, s.cells, s'.cells, s'.hosts[g]);
    }
    forall a, b | a in s'.hosts && b in s'.hosts
      ensures PairInv(c, s'.now, a, s'.hosts[a], b, s'.hosts[b])
    {
      assert PairInv(c, s.now, a, s.hosts[a], b, s.hosts[b]);
    }
  }

  lemma SpoilInv(c: Config, s: State, h: HostId, noise: nat)
    requires Inv(c, s) && h in s.cells
    ensures Inv(c, Apply(c, s, Spoil(h, noise)))
  {
    var s' := Apply(c, s, Spoil(h, noise));
    forall g | g in s'.hosts ensures HostInv(c, s'.now, g, s'.hosts[g], s'.cells[g]) {
      assert HostInv(c, s.now, g, s.hosts[g], s.cells[g]);
    }
    forall g | g in s'.hosts ensures SeenInv(c, s'.now, s'.cells, s'.hosts[g]) {
      SeenInvKept(c, s.now, s'.now, s.cells, s'.cells, s'.hosts[g]);
    }
    forall a, b | a in s'.hosts && b in s'.hosts
      ensures PairInv(c, s'.now, a, s'.hosts[a], b, s'.hosts[b])
    {
      assert PairInv(c, s.now, a, s.hosts[a], b, s.hosts[b]);
    }
  }

  lemma CrashInv(c: Config, s: State, h: HostId)
    requires Inv(c, s) && h in s.hosts
    ensures Inv(c, Apply(c, s, Crash(h)))
  {
    var s' := Apply(c, s, Crash(h));
    forall g | g in s'.hosts ensures HostInv(c, s'.now, g, s'.hosts[g], s'.cells[g]) {
      assert HostInv(c, s.now, g, s.hosts[g], s.cells[g]);
    }
    forall g | g in s'.hosts ensures SeenInv(c, s'.now, s'.cells, s'.hosts[g]) {
      assert SeenInv(c, s.now, s.cells, s.hosts[g]);
    }
    forall a, b | a in s'.hosts && b in s'.hosts
      ensures PairInv(c, s'.now, a, s'.hosts[a], b, s'.hosts[b])
    {
      assert PairInv(c, s.now, a, s.hosts[a], b, s.hosts[b]);
    }
  }

  lemma EventInv(c: Config, s: State, e: Event)
    requires Inv(c, s) && Enabled(c, s, e)
    ensures Inv(c, Apply(c, s, e))
  {
    match e
    case Tick(d) => TickInv(c, s, d);
    case Spoil(h, noise) => SpoilInv(c, s, h, noise);
    case Crash(h) => CrashInv(c, s, h);
    case Step(h, ch) => StepInv(c, s, h, ch);
  }

  lemma {:induction false} RunInv(c: Config, states: seq<State>, events: seq<Event>, k: nat)
    requires Run(c, states, events) && k < |states|
    ensures Inv(c, states[k])
  {
    if k == 0 {
      InitInv(c, states[0]);
    } else {
      RunInv(c, states, events, k - 1);
      EventInv(c, states[k - 1], events[k - 1]);
    }
  }

  /** In every state of every run, at most one host holds the lease. */
  lemma MutualExclusion(c: Config, states: seq<State>, events: seq<Event>, k: nat, a: HostId, b: HostId)
    requires Run(c, states, events) && k < |states|
    requires Holds(states[k], a) && Holds(states[k], b)
    ensures a == b
  {
    RunInv(c, states, events, k);
    var s := states[k];
    assert HostInv(c, s.now, a, s.hosts[a], s.cells[a]) && HostInv(c, s.now, b, s.hosts[b], s.cells[b]);
    assert PairInv(c, s.now, a, s.hosts[a], b, s.hosts[b]);
    assert PairInv(c, s.now, b, s.hosts[b], a, s.hosts[a]);
  }

  /**
    In every run, the bytes kept in some host's dead set never match the sector
    of a host that holds the lease or can still come to hold it: if a is such a
    host, the bytes are those of an earlier write of a, so no scan ignores a.
   */
  lemma DeadSetSound(c: Config, states: seq<State>, events: seq<Event>, k: nat, h: HostId, a: HostId)
    requires Run(c, states, events) && k < |states|
    requires h in states[k].hosts && a in states[k].hosts && a in states[k].cells && a in states[k].hosts[h].watch.dead
    ensures Holds(states[k], a) ==> Viable(c, states[k].now, states[k].hosts[a])
    ensures Viable(c, states[k].now, states[k].hosts[a]) ==>
              states[k].hosts[h].watch.dead[a].write < states[k].cells[a].writes
  {
    RunInv(c, states, events, k);
    var s := states[k];
    assert HostInv(c, s.now, a, s.hosts[a], s.cells[a]);
    if Viable(c, s.now, s.hosts[a]) {
      ViableUnexpired(c, s.now, a, s.hosts[a], s.cells[a]);
      assert SeenInv(c, s.now, s.cells, s.hosts[h]);
      assert BytesSeen(s.cells, a, s.hosts[h].watch.dead[a], s.now - ExpiryAge(c) as real);
    }
  }

  /** A watching read on which host a will be declared dead happens only while a does not hold the lease. */
  lemma DeadReadSound(c: Config, states: seq<State>, events: seq<Event>, k: nat, h: HostId, a: HostId, seen: real)
    requires Run(c, states, events) && k < |states|
    requires h in states[k].hosts && a in states[k].hosts && a in states[k].cells
    requires var p := states[k].hosts[h];
             && p.pc.Watching? && p.pc.watch.Reread? && p.pc.watch.k < |p.watch.bad|
             && p.watch.bad[p.pc.watch.k].host == a
             && seen >= states[k].now
             && Judge(c, p.watch.bad[p.pc.watch.k], Got(states[k].cells[a].content), p.pc.watch.round, seen).Dead?
    ensures !Holds(states[k], a) && !Viable(c, states[k].now, states[k].hosts[a])
  {
    RunInv(c, states, events, k);
    var s := states[k];
    var p := s.hosts[h];
    var e := p.watch.bad[p.pc.watch.k];
    assert HostInv(c, s.now, a, s.hosts[a], s.cells[a]);
    assert SeenInv(c, s.now, s.cells, p);
    assert EntrySeen(s.now, s.cells, e);
    var round := p.pc.watch.round;
    assert ElapsedSeconds(seen, round) <= 0;
    assert (round - e.since).Floor as real <= round - e.since;
    assert s.cells[a].issued + ExpiryAge(c) as real <= s.now;
  }
}
