/**
  The lease protocol as a state machine.  Any number of hosts take atomic steps
  over one sector per host: each step is one clock reading, one sector read, one
  sector write or one write's return.  Time passes, hosts crash and sectors
  spoil at any point, and reads and writes may fail.
 */
module LeaseProtocol {
  import opened LeaseRecords
  import opened LeaseWatch

  datatype WatchPc =
    | FirstRead(i: nat)
    | FirstSeen(i: nat, rd: ReadResult)
    | Sleep
    | Reread(round: real, k: nat)
    | Reseen(round: real, k: nat, rd: ReadResult)

  datatype CheckPc =
    | CheckClock
    | CheckRead(clock: int, i: nat)
    | WaitFirst
    | WaitPoll
    | WaitRead(clock: int)

  datatype WriteKind = PrepareWrite | AcquireWrite | RenewWrite

  datatype WritePc =
    | Issue
    | Stamp(issue: real)
    | Land(issue: real, ts: int)
    | Return(issue: real, landed: bool)

  datatype ScanPc =
    | ScanClock
    | ScanRead(clock: int, i: nat)

  datatype Pc =
    | Idle
    | Watching(watch: WatchPc)
    | Checking(check: CheckPc)
    | ReadOwn
    | Writing(kind: WriteKind, write: WritePc)
    | Verifying(scan: ScanPc)
    | PrepareTest
    | Conflicting(scan: ScanPc)
    | RwTest
    | Arm
    | Held
    | Pet
    | Clear

  /** Sectors an acquisition is watching, and those it has found dead. */
  datatype Watch = Watch(bad: seq<BadSector>, dead: DeadSet)

  /** The pre-check's blocker (host 0 for none), and whether it has been waited for. */
  datatype Wait = Wait(waited: bool, blocker: HostId, ts: int)

  /** Generation, ballot and issue times of this attempt's writes. */
  datatype Own = Own(gen: nat, ballot: nat, prepIssue: real, writeTime: real)

  datatype Timer = Disarmed | Armed(deadline: real)

  /** One process: its program counter and the mount fields the lease code uses. */
  datatype Host = Host(pc: Pc, watch: Watch, wait: Wait, own: Own, timer: Timer)

  /** A sector with, for the proofs only, the number of its host's writes and when the last was issued. */
  datatype Cell = Cell(content: Sector, writes: nat, issued: real)

  datatype State = State(now: real, cells: map<HostId, Cell>, hosts: map<HostId, Host>)

  /** What the environment decides in a host's step. */
  datatype Choice = Choice(reading: real, readable: bool, ok: bool, release: bool)

  datatype Event =
    | Tick(d: real)
    | Spoil(h: HostId, noise: nat)
    | Crash(h: HostId)
    | Step(h: HostId, ch: Choice)

  ghost predicate WellFormed(c: Config, s: State) {
    && (forall h: HostId :: h in s.cells <==> 1 <= h <= c.hosts)
    && (forall h: HostId :: h in s.hosts <==> 1 <= h <= c.hosts)
  }

  const NewHost := Host(Idle, Watch([], map[]), Wait(false, 0, 0), Own(0, 0, 0.0, 0.0), Disarmed)

  /** Nobody runs yet; the sectors hold anything earlier runs may have left. */
  ghost predicate Init(c: Config, s: State) {
    && ValidConfig(c)
    && WellFormed(c, s)
    && (forall h | h in s.hosts :: s.hosts[h] == NewHost)
    && (forall h | h in s.cells ::
          && s.cells[h].issued <= s.now
          && (s.cells[h].content.Corrupt? ==> s.cells[h].content.raw.write == s.cells[h].writes))
  }

  /** The kill timer ends the process at its deadline, so an armed host acts only before it. */
  ghost predicate Enabled(c: Config, s: State, e: Event) {
    && WellFormed(c, s)
    && match e
       case Tick(d) => d > 0.0
       case Spoil(h, _) => h in s.cells
       case Crash(h) => h in s.hosts
       case Step(h, ch) =>
         && h in s.hosts
         && Reads(c, s.now, ch.reading)
         && (s.hosts[h].timer.Armed? ==> s.now < s.hosts[h].timer.deadline)
  }

  function ReadSector(s: State, i: HostId, ch: Choice): (rd: ReadResult) {
    if ch.readable && i in s.cells then Got(s.cells[i].content) else Unreadable
  }

  function WatchStep(c: Config, s: State, h: HostId, w: WatchPc, watch: Watch, ch: Choice): (r: (Pc, Watch)) {
    match w
    case FirstRead(i) =>
      if i > c.hosts then (Watching(Sleep), watch)
      else if i == h then (Watching(FirstRead(i + 1)), watch)
      else
        var rd := ReadSector(s, i, ch);
        (Watching(if Bad(rd) then FirstSeen(i, rd) else FirstRead(i + 1)), watch)
    case FirstSeen(i, rd) =>
      (Watching(FirstRead(i + 1)), if Bad(rd) then watch.(bad := watch.bad + [FirstSight(i, rd, s.now)]) else watch)
    case Sleep =>
      (if watch.bad == [] then Checking(CheckClock) else Watching(Reread(s.now, 0)), watch)
    case Reread(round, k) =>
      (Watching(if k >= |watch.bad| then Sleep else Reseen(round, k, ReadSector(s, watch.bad[k].host, ch))), watch)
    case Reseen(round, k, rd) =>
      if k >= |watch.bad| then (Watching(Sleep), watch)
      else
        var rest := watch.bad[..k] + watch.bad[k + 1..];
        match Judge(c, watch.bad[k], rd, round, s.now)
        case Usable => (Watching(Reread(round, k)), watch.(bad := rest))
        case Busy => (Idle, watch)
        case Dead(raw) => (Watching(Reread(round, k)), Watch(rest, watch.dead[watch.bad[k].host := raw]))
        case Keep(entry) => (Watching(Reread(round, k + 1)), watch.(bad := watch.bad[k := entry]))
  }

  function CheckStep(c: Config, s: State, h: HostId, k: CheckPc, dead: DeadSet, wait: Wait,
                     ch: Choice): (r: (Pc, Wait)) {
    match k
    case CheckClock => (Checking(CheckRead(ch.reading.Floor, 1)), wait.(blocker := 0))
    case CheckRead(clock, i) =>
      if i > c.hosts then
        (if wait.blocker == 0 then ReadOwn else if wait.waited then Idle else Checking(WaitFirst), wait)
      else if i == h then (Checking(CheckRead(clock, i + 1)), wait)
      else
        var rd := ReadSector(s, i, ch);
        if CheckStops(dead, i, rd) then (Idle, wait)
        else (Checking(CheckRead(clock, i + 1)), NextBlocker(c, clock, wait, rd))
    case WaitFirst =>
      var rd := ReadSector(s, wait.blocker, ch);
      if rd.Got? && rd.sector.Valid? && rd.sector.rec.rw
      then (Checking(WaitPoll), wait.(waited := true, ts := rd.sector.rec.ts))
      else (Checking(CheckClock), wait.(waited := true))
    case WaitPoll => (Checking(WaitRead(ch.reading.Floor)), wait)
    case WaitRead(clock) =>
      var rd := ReadSector(s, wait.blocker, ch);
      (if !(rd.Got? && rd.sector.Valid?) then Checking(CheckClock)
       else if rd.sector.rec.ts != wait.ts then Idle
       else if !RecordLive(c, wait.ts, clock) then Checking(CheckClock)
       else Checking(WaitPoll), wait)
  }

  /** The pre-check keeps the blocker with the freshest timestamp. */
  function NextBlocker(c: Config, clock: int, wait: Wait, rd: ReadResult): (w: Wait) {
    if CheckBlocks(c, clock, rd) && (rd.sector.rec.ts > wait.ts || wait.blocker == 0)
    then wait.(blocker := rd.sector.rec.host, ts := rd.sector.rec.ts)
    else wait
  }

  /** What a write's return leads to: a success is reported only for a write that landed. */
  function ReturnStep(kind: WriteKind, issue: real, own: Own, ok: bool): (r: (Pc, Own)) {
    match kind
    case PrepareWrite =>
      if ok then (Verifying(ScanClock), own.(prepIssue := issue, writeTime := issue)) else (Clear, own)
    case AcquireWrite => if ok then (PrepareTest, own.(writeTime := issue)) else (Idle, own)
    case RenewWrite => if ok then (Pet, own.(writeTime := issue)) else (Held, own)
  }

  function WriteStep(s: State, kind: WriteKind, w: WritePc, own: Own, ch: Choice): (r: (Pc, Own)) {
    match w
    case Issue => (Writing(kind, Stamp(s.now)), own)
    case Stamp(issue) => (Writing(kind, Land(issue, ch.reading.Floor)), own)
    case Land(issue, ts) => (Writing(kind, Return(issue, ch.ok)), own)
    case Return(issue, landed) => ReturnStep(kind, issue, own, landed && ch.ok)
  }

  function VerifyStep(c: Config, s: State, h: HostId, scan: ScanPc, p: Host, ch: Choice): (pc: Pc) {
    match scan
    case ScanClock => Verifying(ScanRead(ch.reading.Floor, 1))
    case ScanRead(clock, i) =>
      if i > c.hosts then Writing(AcquireWrite, Issue)
      else if i != h && VerifyRefuses(c, p.own.ballot, clock, p.watch.dead, i, ReadSector(s, i, ch)) then Clear
      else Verifying(ScanRead(clock, i + 1))
  }

  function ConflictStep(c: Config, s: State, h: HostId, scan: ScanPc, p: Host, ch: Choice): (pc: Pc) {
    match scan
    case ScanClock => Conflicting(ScanRead(ch.reading.Floor, 1))
    case ScanRead(clock, i) =>
      if i > c.hosts then RwTest
      else if i != h && ConflictRefuses(c, p.own.ballot, clock, p.watch.dead, i, ReadSector(s, i, ch)) then Clear
      else Conflicting(ScanRead(clock, i + 1))
  }

  function Deadline(c: Config, own: Own): (t: Timer) {
    Armed(own.writeTime + c.duration as real)
  }

  function HostStep(c: Config, s: State, h: HostId, p: Host, ch: Choice): (p': Host) {
    match p.pc
    case Idle => NewHost.(pc := Watching(FirstRead(1)))
    case Watching(w) => var r := WatchStep(c, s, h, w, p.watch, ch); p.(pc := r.0, watch := r.1)
    case Checking(k) => var r := CheckStep(c, s, h, k, p.watch.dead, p.wait, ch); p.(pc := r.0, wait := r.1)
    case ReadOwn =>
      var rd := ReadSector(s, h, ch);
      var gen := if rd.Got? && rd.sector.Valid? then rd.sector.rec.gen + 1 else 1;
      p.(pc := Writing(PrepareWrite, Issue), own := p.own.(gen := gen, ballot := Ballot(c, gen, h)))
    case Writing(kind, w) => var r := WriteStep(s, kind, w, p.own, ch); p.(pc := r.0, own := r.1)
    case Verifying(scan) => p.(pc := VerifyStep(c, s, h, scan, p, ch))
    case PrepareTest =>
      p.(pc := if WriteExpired(c, p.own.prepIssue, s.now) then Clear else Conflicting(ScanClock))
    case Conflicting(scan) => p.(pc := ConflictStep(c, s, h, scan, p, ch))
    case RwTest => p.(pc := if WriteExpired(c, p.own.writeTime, s.now) then Clear else Arm)
    case Arm => if ch.ok then p.(pc := Held, timer := Deadline(c, p.own)) else p.(pc := Clear)
    case Held => if ch.release then p.(pc := Clear, timer := Disarmed) else p.(pc := Writing(RenewWrite, Issue))
    case Pet => p.(pc := Held, timer := if ch.ok then Deadline(c, p.own) else p.timer)
    case Clear => p.(pc := Idle)
  }

  function RecordFor(h: HostId, own: Own, kind: WriteKind, ts: int): (r: Record) {
    if kind.PrepareWrite?
    then Record(false, true, h, own.gen % 0x1_0000_0000, ts, own.ballot, 0)
    else Record(true, false, h, own.gen % 0x1_0000_0000, ts, own.ballot, own.ballot)
  }

  /** The stepping host's own sector: only a landing record write or clear changes it. */
  function CellStep(s: State, h: HostId, p: Host, cell: Cell, ch: Choice): (cell': Cell) {
    match p.pc
    case Writing(kind, Land(issue, ts)) =>
      if ch.ok then Cell(Valid(RecordFor(h, p.own, kind, ts)), cell.writes + 1, issue) else cell
    case Clear => if ch.ok then Cell(Empty, cell.writes + 1, s.now) else cell
    case _ => cell
  }

  function Apply(c: Config, s: State, e: Event): (s': State)
    requires Enabled(c, s, e)
  {
    match e
    case Tick(d) => s.(now := s.now + d)
    case Spoil(h, noise) =>
      s.(cells := s.cells[h := s.cells[h].(content := Corrupt(Bytes(s.cells[h].writes, noise)))])
    case Crash(h) => s.(hosts := s.hosts[h := s.hosts[h].(pc := Idle, timer := Disarmed)])
    case Step(h, ch) =>
      s.(hosts := s.hosts[h := HostStep(c, s, h, s.hosts[h], ch)],
         cells := s.cells[h := CellStep(s, h, s.hosts[h], s.cells[h], ch)])
  }

  /** A run: states joined by enabled events. */
  ghost predicate Run(c: Config, states: seq<State>, events: seq<Event>) {
    && |states| == |events| + 1
    && Init(c, states[0])
    && forall k | 0 <= k < |events| ::
         Enabled(c, states[k], events[k]) && states[k + 1] == Apply(c, states[k], events[k])
  }

  /** Past acquisition, with the kill timer armed and not fired. */
  predicate Holds(s: State, h: HostId) {
    h in s.hosts && s.hosts[h].timer.Armed? && s.now < s.hosts[h].timer.deadline
  }
}
