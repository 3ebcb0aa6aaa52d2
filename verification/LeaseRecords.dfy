/**
  Host records of the cross-host read/write lease: what one sector can hold,
  when a record counts as live, and what each scan of an acquisition refuses.

  Times are real numbers of seconds.  A record's timestamp is the writer's wall
  clock truncated to whole seconds.
 */
module LeaseRecords {

  type HostId = nat

  /** Settings shared by all hosts: number of hosts, lease duration and clock skew in seconds. */
  datatype Config = Config(hosts: nat, duration: int, skew: int)

  predicate ValidConfig(c: Config) {
    c.hosts >= 1 && c.duration >= 1 && c.skew >= 0
  }

  datatype Record = Record(rw: bool, prepare: bool, host: HostId, gen: nat, ts: int, mbal: nat, bal: nat)

  /** The bytes of a corrupt sector: which write of its host they spoil, and how. */
  datatype Bytes = Bytes(write: nat, noise: nat)

  datatype Sector =
    | Empty
    | Valid(rec: Record)
    | Corrupt(raw: Bytes)

  datatype ReadResult =
    | Got(sector: Sector)
    | Unreadable

  /** Corrupt sectors an acquisition has watched until it could treat their writer as dead. */
  type DeadSet = map<HostId, Bytes>

  function RecordAge(ts: int, clock: int): (age: int) {
    clock - ts
  }

  function ExpiryAge(c: Config): (age: int) {
    c.duration + c.skew + 1
  }

  predicate RecordLive(c: Config, ts: int, clock: int) {
    RecordAge(ts, clock) < ExpiryAge(c)
  }

  predicate WriteExpired(c: Config, issue: real, now: real) {
    now - issue >= c.duration as real
  }

  function Ballot(c: Config, gen: nat, host: HostId): (b: nat) {
    gen * c.hosts + host
  }

  /** Half of the allowed difference between two hosts' wall clocks. */
  function HalfSkew(c: Config): (r: real) {
    c.skew as real / 2.0
  }

  /** A wall clock reading that is possible at real time now. */
  predicate Reads(c: Config, now: real, reading: real) {
    now - HalfSkew(c) <= reading <= now + HalfSkew(c)
  }

  predicate SectorDead(dead: DeadSet, host: HostId, raw: Bytes) {
    host in dead && dead[host] == raw
  }

  /** The pre-check stops at once on a sector it cannot judge. */
  predicate CheckStops(dead: DeadSet, host: HostId, rd: ReadResult) {
    match rd
    case Unreadable => true
    case Got(Corrupt(raw)) => !SectorDead(dead, host, raw)
    case Got(_) => false
  }

  /** A live RW record makes the pre-check wait for its writer. */
  predicate CheckBlocks(c: Config, clock: int, rd: ReadResult) {
    rd.Got? && rd.sector.Valid? && rd.sector.rec.rw && RecordLive(c, rd.sector.rec.ts, clock)
  }

  predicate VerifyRefuses(c: Config, ballot: nat, clock: int, dead: DeadSet, host: HostId, rd: ReadResult) {
    match rd
    case Unreadable => true
    case Got(Empty) => false
    case Got(Corrupt(raw)) => !SectorDead(dead, host, raw)
    case Got(Valid(r)) => RecordLive(c, r.ts, clock) && (r.rw || r.mbal > ballot || r.mbal == ballot)
  }

  predicate ConflictRefuses(c: Config, ballot: nat, clock: int, dead: DeadSet, host: HostId, rd: ReadResult) {
    match rd
    case Unreadable => true
    case Got(Empty) => false
    case Got(Corrupt(raw)) => !SectorDead(dead, host, raw)
    case Got(Valid(r)) =>
      (r.rw || r.prepare) && RecordLive(c, r.ts, clock) && (if r.rw then r.bal else r.mbal) > ballot
  }

  lemma LargerGeneration(n: nat, g1: nat, g2: nat)
    requires g1 < g2
    ensures g1 * n + n <= g2 * n
  {
    assert g2 * n == g1 * n + (g2 - g1) * n;
    assert 0 <= (g2 - g1 - 1) * n;
  }

  /** Two hosts can never generate the same ballot, whatever their generations are. */
  lemma BallotsDistinct(c: Config, g1: nat, h1: HostId, g2: nat, h2: HostId)
    requires 1 <= h1 <= c.hosts && 1 <= h2 <= c.hosts
    ensures Ballot(c, g1, h1) == Ballot(c, g2, h2) <==> g1 == g2 && h1 == h2
  {
    if g1 < g2 {
      LargerGeneration(c.hosts, g1, g2);
    } else if g2 < g1 {
      LargerGeneration(c.hosts, g2, g1);
    }
  }

  /**
    A record is live to every reader until the duration has passed since its
    write was issued.  The writer reads its lease clock at issue, then its wall
    clock at stamped; the reader reads its own wall clock at scanned.
   */
  lemma LiveUntilDeadline(c: Config, issue: real, stamped: real, writerClock: real, scanned: real, readerClock: real)
    requires ValidConfig(c)
    requires issue <= stamped
    requires Reads(c, stamped, writerClock) && Reads(c, scanned, readerClock)
    requires !WriteExpired(c, issue, scanned)
    ensures RecordLive(c, writerClock.Floor, readerClock.Floor)
  {
    assert writerClock < writerClock.Floor as real + 1.0;
    assert readerClock.Floor as real <= readerClock;
  }

  /**
    The extra second and the skew are both needed: with an expiry age one less,
    some reader would declare a record dead before its writer's deadline.
   */
  lemma ExpiryAgeIsTight(c: Config)
    requires ValidConfig(c)
    ensures exists issue: real, writerClock: real, scanned: real, readerClock: real ::
              && Reads(c, issue, writerClock) && Reads(c, scanned, readerClock)
              && !WriteExpired(c, issue, scanned)
              && !(RecordAge(writerClock.Floor, readerClock.Floor) < ExpiryAge(c) - 1)
  {
    // The writer's clock is as slow as allowed and just short of a whole second.
    var issue := HalfSkew(c) + 0.75;
    var writerClock := 0.75;
    var scanned := HalfSkew(c) + c.duration as real + 0.5;
    var readerClock := c.skew as real + c.duration as real + 0.5;
    assert writerClock.Floor == 0;
    assert readerClock.Floor == c.skew + c.duration;
    assert Reads(c, issue, writerClock) && Reads(c, scanned, readerClock);
  }
}
