/**
  The loops of an acquisition as code: the watch over unusable sectors, run
  round by round until every sector is decided, and the pre-check's scan for
  the freshest holder.

  look(r, h) is what reading host h's sector in round r gave and the lease clock
  when that read returned; clock(r) is the lease clock before the round's reads.
  Round 0 is the first pass over all sectors.
 */
module LeaseScans {
  import opened LeaseRecords
  import opened LeaseWatch

  datatype Look = Look(rd: ReadResult, seen: real)

  type Looks = (nat, HostId) -> Look
  type Clock = nat -> real

  /** Rounds start at least a second apart, and each read returns within its round. */
  ghost predicate Paced(look: Looks, clock: Clock) {
    && (forall r: nat :: clock(r + 1) >= clock(r) + 1.0)
    && (forall r: nat, h: HostId :: clock(r) <= look(r, h).seen <= clock(r + 1))
  }

  /** The judgement that ends the watch over entry e's sector, and the round that reaches it. */
  datatype Verdict = Verdict(judgement: Judgement, round: nat)

  ghost function Fate(c: Config, look: Looks, clock: Clock, e: BadSector, r: nat): (v: Verdict)
    requires ValidConfig(c) && Paced(look, clock)
    requires e.switches <= MAX_SWITCHES
    ensures !v.judgement.Keep?
    ensures v.round >= r
    decreases MAX_SWITCHES - e.switches, ExpiryAge(c) - ElapsedSeconds(e.since, clock(r))
  {
    var l := look(r, e.host);
    match Judge(c, e, l.rd, clock(r), l.seen)
    case Keep(e') =>
      assert e'.switches == e.switches ==>
               ElapsedSeconds(e.since, clock(r + 1)) >= ElapsedSeconds(e.since, clock(r)) + 1
      by { LaterRound(e.since, clock(r), clock(r + 1)); }
      Fate(c, look, clock, e', r + 1)
    case j => Verdict(j, r)
  }

  lemma LaterRound(since: real, t: real, t': real)
    requires t' >= t + 1.0
    ensures ElapsedSeconds(since, t') >= ElapsedSeconds(since, t) + 1
  {
    assert (t' - since).Floor as real > t' - since - 1.0;
    assert (t - since).Floor as real <= t - since;
  }

  /** Whole seconds until entry e's window is over, as of a round starting at t. */
  function Remaining(c: Config, e: BadSector, t: real): (n: nat) {
    if ElapsedSeconds(e.since, t) < ExpiryAge(c) then ExpiryAge(c) - ElapsedSeconds(e.since, t) else 0
  }

  lemma OneWindowLess(k: int, w: int)
    ensures k * w == (k - 1) * w + w
  {
  }

  lemma {:induction false} FateWithin(c: Config, look: Looks, clock: Clock, e: BadSector, r: nat)
    requires ValidConfig(c) && Paced(look, clock)
    requires e.switches <= MAX_SWITCHES && e.since <= clock(r)
    ensures Fate(c, look, clock, e, r).round
            <= r + (MAX_SWITCHES - e.switches) * (ExpiryAge(c) + 1) + Remaining(c, e, clock(r))
    decreases MAX_SWITCHES - e.switches, ExpiryAge(c) - ElapsedSeconds(e.since, clock(r))
  {
    var l := look(r, e.host);
    match Judge(c, e, l.rd, clock(r), l.seen)
    case Keep(e') =>
      LaterRound(e.since, clock(r), clock(r + 1));
      FateWithin(c, look, clock, e', r + 1);
      if e'.switches != e.switches {
        OneWindowLess(MAX_SWITCHES - e.switches, ExpiryAge(c) + 1);
        assert 0.0 <= clock(r + 1) - e'.since;
        assert ElapsedSeconds(e'.since, clock(r + 1)) >= 0;
      }
    case _ =>
  }

  /** The fate of the sector of a host that round 0 finds bad. */
  ghost function HostFate(c: Config, look: Looks, clock: Clock, h: HostId): (v: Verdict)
    requires ValidConfig(c) && Paced(look, clock) && Bad(look(0, h).rd)
  {
    Fate(c, look, clock, FirstSight(h, look(0, h).rd, look(0, h).seen), 1)
  }

  /** Rounds after which every watched sector is decided: three windows. */
  function LastRound(c: Config): (r: int) {
    (MAX_SWITCHES + 1) * (ExpiryAge(c) + 1)
  }

  /**
    Each state of a sector lasts at most one window, and it may switch between
    corrupt and unreadable at most twice, so three windows always decide it.
   */
  lemma WatchEndsInThreeWindows(c: Config, look: Looks, clock: Clock, h: HostId)
    requires ValidConfig(c) && Paced(look, clock) && Bad(look(0, h).rd)
    ensures HostFate(c, look, clock, h).round <= LastRound(c)
  {
    var e := FirstSight(h, look(0, h).rd, look(0, h).seen);
    assert 0.0 <= clock(1) - e.since;
    FateWithin(c, look, clock, e, 1);
  }

  // What a dead verdict means.

  /** Every read of h's sector in rounds q0..q gave the same corrupt bytes. */
  ghost predicate Unchanged(look: Looks, h: HostId, raw: Bytes, q0: nat, q: int) {
    forall r: nat | q0 <= r <= q :: look(r, h).rd == Got(Corrupt(raw))
  }

  /** Entry e describes what the reads from round q0 up to before round r showed. */
  ghost predicate Describes(look: Looks, e: BadSector, q0: nat, r: nat) {
    && q0 < r
    && e.since == look(q0, e.host).seen
    && (!e.unreadable ==> Unchanged(look, e.host, e.raw, q0, r - 1))
  }

  /** Keeping an entry keeps it in step with the reads; a switch starts the description anew. */
  lemma KeepDescribes(c: Config, look: Looks, clock: Clock, e: BadSector, q0: nat, r: nat)
    requires Describes(look, e, q0, r)
    requires Judge(c, e, look(r, e.host).rd, clock(r), look(r, e.host).seen).Keep?
    ensures var e' := Judge(c, e, look(r, e.host).rd, clock(r), look(r, e.host).seen).entry;
            e'.host == e.host && Describes(look, e', if e'.switches == e.switches then q0 else r, r + 1)
  {
  }

  /** A dead verdict rests on the same bytes read throughout a whole window. */
  lemma DeadNow(c: Config, look: Looks, clock: Clock, e: BadSector, q0: nat, r: nat)
    requires ValidConfig(c) && Paced(look, clock) && Describes(look, e, q0, r)
    requires Judge(c, e, look(r, e.host).rd, clock(r), look(r, e.host).seen).Dead?
    ensures Unchanged(look, e.host, Judge(c, e, look(r, e.host).rd, clock(r), look(r, e.host).seen).raw, q0, r)
    ensures clock(r) - look(q0, e.host).seen >= ExpiryAge(c) as real
  {
    assert ElapsedSeconds(look(r, e.host).seen, clock(r)) <= 0;
    assert (clock(r) - e.since).Floor as real <= clock(r) - e.since;
  }

  lemma {:induction false} DeadFate(c: Config, look: Looks, clock: Clock, e: BadSector, q0: nat, r: nat)
    returns (q1: nat)
    requires ValidConfig(c) && Paced(look, clock)
    requires e.switches <= MAX_SWITCHES && e.since <= clock(r)
    requires Describes(look, e, q0, r)
    ensures var v := Fate(c, look, clock, e, r);
            v.judgement.Dead? ==>
              && q1 < v.round
              && Unchanged(look, e.host, v.judgement.raw, q1, v.round)
              && clock(v.round) - look(q1, e.host).seen >= ExpiryAge(c) as real
    decreases MAX_SWITCHES - e.switches, ExpiryAge(c) - ElapsedSeconds(e.since, clock(r))
  {
    var l := look(r, e.host);
    q1 := q0;
    match Judge(c, e, l.rd, clock(r), l.seen)
    case Keep(e') =>
      LaterRound(e.since, clock(r), clock(r + 1));
      var q0' := if e'.switches == e.switches then q0 else r;
      KeepDescribes(c, look, clock, e, q0, r);
      hide Describes, Unchanged;
      q1 := DeadFate(c, look, clock, e', q0', r + 1);
    case Dead(raw) =>
      DeadNow(c, look, clock, e, q0, r);
    case _ =>
  }

  /**
    A host is declared dead only after its sector was read with the very same
    corrupt bytes in consecutive rounds covering the whole expiry window.
   */
  lemma DeadMeansUnchanged(c: Config, look: Looks, clock: Clock, h: HostId)
    requires ValidConfig(c) && Paced(look, clock) && Bad(look(0, h).rd)
    requires HostFate(c, look, clock, h).judgement.Dead?
    ensures var v := HostFate(c, look, clock, h);
            exists q: nat ::
              && q < v.round && Unchanged(look, h, v.judgement.raw, q, v.round)
              && clock(v.round) - look(q, h).seen >= ExpiryAge(c) as real
  {
    var e := FirstSight(h, look(0, h).rd, look(0, h).seen);
    assert 0.0 <= clock(1) - e.since;
    var q := DeadFate(c, look, clock, e, 0, 1);
  }

  // The loop over all sectors.

  predicate Other(c: Config, me: HostId, h: HostId) {
    1 <= h <= c.hosts && h != me
  }

  ghost predicate Watched(c: Config, me: HostId, look: Looks, h: HostId) {
    Other(c, me, h) && Bad(look(0, h).rd)
  }

  /** Entries not yet decided: one per host, each leading to its host's fate from round r on. */
  ghost predicate Undecided(c: Config, me: HostId, look: Looks, clock: Clock, bad: seq<BadSector>, r: nat)
    requires ValidConfig(c) && Paced(look, clock)
  {
    forall k | 0 <= k < |bad| ::
      && Watched(c, me, look, bad[k].host)
      && bad[k].switches <= MAX_SWITCHES
      && Fate(c, look, clock, bad[k], r) == HostFate(c, look, clock, bad[k].host)
  }

  ghost predicate OncePerHost(bad: seq<BadSector>) {
    forall j, k | 0 <= j < k < |bad| :: bad[j].host != bad[k].host
  }

  ghost predicate Listed(bad: seq<BadSector>, h: HostId) {
    exists k | 0 <= k < |bad| :: bad[k].host == h
  }

  /** Hosts no longer listed are decided: dead with the recorded bytes, or usable again. */
  ghost predicate Decided(c: Config, me: HostId, look: Looks, clock: Clock, bad: seq<BadSector>, dead: DeadSet)
    requires ValidConfig(c) && Paced(look, clock)
  {
    && (forall h | h in dead :: Watched(c, me, look, h) && HostFate(c, look, clock, h).judgement == Dead(dead[h]))
    && (forall h: HostId | Watched(c, me, look, h) && !Listed(bad, h) && h !in dead ::
          HostFate(c, look, clock, h).judgement.Usable?)
  }

  ghost predicate FirstPass(c: Config, me: HostId, look: Looks, bad: seq<BadSector>, n: nat) {
    && (forall k | 0 <= k < |bad| ::
          && 1 <= bad[k].host < n && Watched(c, me, look, bad[k].host)
          && bad[k] == FirstSight(bad[k].host, look(0, bad[k].host).rd, look(0, bad[k].host).seen))
    && (forall h: HostId | h < n && Watched(c, me, look, h) :: Listed(bad, h))
    && OncePerHost(bad)
  }

  method ListBadSectors(c: Config, me: HostId, look: Looks, clock: Clock) returns (bad: seq<BadSector>)
    requires ValidConfig(c) && Paced(look, clock)
    ensures FirstPass(c, me, look, bad, c.hosts + 1)
  {
    bad := [];
    for i := 1 to c.hosts + 1
      invariant FirstPass(c, me, look, bad, i)
    {
      ghost var before := bad;
      if i != me && Bad(look(0, i).rd) {
        bad := bad + [FirstSight(i, look(0, i).rd, look(0, i).seen)];
        assert bad[|before|].host == i;
      }
      forall h: HostId | h < i + 1 && Watched(c, me, look, h) ensures Listed(bad, h) {
        if h < i {
          var k :| 0 <= k < |before| && before[k].host == h;
          assert bad[k].host == h;
        }
      }
    }
  }

  /** Dropping the k-th entry delists exactly its host. */
  lemma Unlist(bad: seq<BadSector>, k: nat)
    requires k < |bad| && OncePerHost(bad)
    ensures var rest := bad[..k] + bad[k + 1..];
            OncePerHost(rest) && forall h: HostId :: Listed(rest, h) <==> Listed(bad, h) && h != bad[k].host
  {
    var rest := bad[..k] + bad[k + 1..];
    forall h: HostId ensures Listed(rest, h) <==> Listed(bad, h) && h != bad[k].host {
      if Listed(rest, h) {
        var i :| 0 <= i < |rest| && rest[i].host == h;
        assert bad[if i < k then i else i + 1].host == h;
      }
      if Listed(bad, h) && h != bad[k].host {
        var i :| 0 <= i < |bad| && bad[i].host == h;
        assert rest[if i < k then i else i - 1].host == h;
      }
    }
  }

  lemma Relist(bad: seq<BadSector>, k: nat, e: BadSector)
    requires k < |bad| && OncePerHost(bad) && e.host == bad[k].host
    ensures OncePerHost(bad[k := e]) && forall h: HostId :: Listed(bad[k := e], h) <==> Listed(bad, h)
  {
    forall h: HostId ensures Listed(bad[k := e], h) <==> Listed(bad, h) {
      if Listed(bad, h) {
        var i :| 0 <= i < |bad| && bad[i].host == h;
        assert bad[k := e][i].host == h;
      }
    }
  }

  /** One round of reads over the watched sectors. */
  method WatchRound(c: Config, me: HostId, look: Looks, clock: Clock, bad0: seq<BadSector>, dead0: DeadSet, r: nat)
    returns (busy: bool, bad: seq<BadSector>, dead: DeadSet)
    requires ValidConfig(c) && Paced(look, clock)
    requires Undecided(c, me, look, clock, bad0, r) && OncePerHost(bad0) && Decided(c, me, look, clock, bad0, dead0)
    ensures busy ==> exists h :: Watched(c, me, look, h) && HostFate(c, look, clock, h).judgement.Busy?
    ensures !busy ==> Undecided(c, me, look, clock, bad, r + 1) && OncePerHost(bad)
    ensures !busy ==> Decided(c, me, look, clock, bad, dead)
  {
    busy, bad, dead := false, bad0, dead0;
    var k := 0;
    while k < |bad|
      invariant 0 <= k <= |bad|
      invariant Undecided(c, me, look, clock, bad[..k], r + 1)
      invariant Undecided(c, me, look, clock, bad[k..], r)
      invariant OncePerHost(bad) && Decided(c, me, look, clock, bad, dead)
      decreases |bad| - k
    {
      var e := bad[k];
      assert bad[k..][0] == e;
      var l := look(r, e.host);
      ghost var v := HostFate(c, look, clock, e.host);
      assert Fate(c, look, clock, e, r) == v;
      match Judge(c, e, l.rd, clock(r), l.seen)
      case Usable =>
        Unlist(bad, k);
        assert (bad[..k] + bad[k + 1..])[..k] == bad[..k] && (bad[..k] + bad[k + 1..])[k..] == bad[k..][1..];
        bad := bad[..k] + bad[k + 1..];
      case Busy =>
        busy := true;
        return;
      case Dead(raw) =>
        Unlist(bad, k);
        assert (bad[..k] + bad[k + 1..])[..k] == bad[..k] && (bad[..k] + bad[k + 1..])[k..] == bad[k..][1..];
        bad, dead := bad[..k] + bad[k + 1..], dead[e.host := raw];
      case Keep(e') =>
        Relist(bad, k, e');
        assert bad[k := e'][..k + 1] == bad[..k] + [e'] && bad[k := e'][k + 1..] == bad[k..][1..];
        bad, k := bad[k := e'], k + 1;
    }
    assert bad[..k] == bad;
  }

  /**
    The watch that opens an acquisition.  It always ends; it lets the
    acquisition go on exactly if no sector's fate is busy, and then the dead set
    holds exactly the sectors whose fate is dead, with the bytes they kept.
   */
  method WaitBadSectors(c: Config, me: HostId, look: Looks, clock: Clock) returns (ok: bool, dead: DeadSet)
    requires ValidConfig(c) && Paced(look, clock)
    ensures ok <==> forall h | Watched(c, me, look, h) :: !HostFate(c, look, clock, h).judgement.Busy?
    ensures ok ==> forall h: HostId :: h in dead <==>
              Watched(c, me, look, h) && HostFate(c, look, clock, h).judgement.Dead?
    ensures ok ==> forall h | h in dead :: HostFate(c, look, clock, h).judgement == Dead(dead[h])
  {
    dead := map[];
    var bad := ListBadSectors(c, me, look, clock);
    var r := 1;
    while bad != []
      invariant r >= 1
      invariant Undecided(c, me, look, clock, bad, r) && OncePerHost(bad)
      invariant Decided(c, me, look, clock, bad, dead)
      decreases LastRound(c) - r
    {
      WatchEndsInThreeWindows(c, look, clock, bad[0].host);
      assert Fate(c, look, clock, bad[0], r).round >= r;
      var busy;
      busy, bad, dead := WatchRound(c, me, look, clock, bad, dead, r);
      if busy {
        ok := false;
        return;
      }
      r := r + 1;
    }
    ok := true;
    forall h | Watched(c, me, look, h) ensures !HostFate(c, look, clock, h).judgement.Busy? {
      assert !Listed(bad, h);
    }
  }

  // The pre-check's scan.

  // A blocking record among the others'.
  ghost predicate Blocking(c: Config, me: HostId, clock: int, results: seq<ReadResult>, i: HostId) {
    |results| == c.hosts + 1 && Other(c, me, i) && CheckBlocks(c, clock, results[i])
  }

  // All of them carry a host id, as every record a host writes does.
  ghost predicate Named(c: Config, me: HostId, clock: int, results: seq<ReadResult>) {
    forall i: HostId :: Blocking(c, me, clock, results, i) ==> results[i].sector.rec.host != 0
  }

  ghost predicate Unnamed(c: Config, me: HostId, clock: int, results: seq<ReadResult>) {
    forall i: HostId :: Blocking(c, me, clock, results, i) ==> results[i].sector.rec.host == 0
  }

  ghost predicate Reported(c: Config, me: HostId, clock: int, results: seq<ReadResult>, blocker: HostId, ts: int) {
    exists i: HostId :: Blocking(c, me, clock, results, i)
      && results[i].sector.rec.host == blocker && results[i].sector.rec.ts == ts
  }

  ghost predicate Freshest(c: Config, me: HostId, clock: int, results: seq<ReadResult>, ts: int) {
    forall i: HostId :: Blocking(c, me, clock, results, i) ==> results[i].sector.rec.ts <= ts
  }

  ghost predicate Stopped(c: Config, me: HostId, dead: DeadSet, results: seq<ReadResult>, i: HostId) {
    |results| == c.hosts + 1 && Other(c, me, i) && CheckStops(dead, i, results[i])
  }

  /**
    Scan all other sectors; results[i] is what reading host i's sector gave.  The
    scan is busy without a blocker on a sector nobody can judge, and busy with a
    blocker if some other host has a live RW record; the blocker is then one with
    the freshest timestamp of all of them.  A record without a host id goes
    unnoticed: if only such records block, the scan is not busy.
   */
  method CheckScan(c: Config, me: HostId, clock: int, dead: DeadSet, results: seq<ReadResult>)
    returns (busy: bool, blocker: HostId, ts: int)
    requires |results| == c.hosts + 1
    ensures busy <==> blocker != 0 || exists i: HostId :: Stopped(c, me, dead, results, i)
    ensures blocker != 0 ==> Reported(c, me, clock, results, blocker, ts)
    ensures blocker != 0 ==> forall i: HostId :: !Stopped(c, me, dead, results, i)
    ensures Unnamed(c, me, clock, results) ==> blocker == 0
    ensures Named(c, me, clock, results) ==>
      (busy <==> exists i: HostId :: Stopped(c, me, dead, results, i) || Blocking(c, me, clock, results, i))
    ensures Named(c, me, clock, results) && blocker != 0 ==> Freshest(c, me, clock, results, ts)
  {
    blocker, ts := 0, 0;
    for i := 1 to c.hosts + 1
      invariant forall j: HostId :: j < i ==> !Stopped(c, me, dead, results, j)
      invariant blocker != 0 ==> Reported(c, me, clock, results, blocker, ts)
      invariant Named(c, me, clock, results) && blocker == 0 ==>
        forall j: HostId :: j < i ==> !Blocking(c, me, clock, results, j)
      invariant Named(c, me, clock, results) && blocker != 0 ==>
        forall j: HostId :: j < i && Blocking(c, me, clock, results, j) ==> results[j].sector.rec.ts <= ts
    {
      if i != me {
        if CheckStops(dead, i, results[i]) {
          assert Stopped(c, me, dead, results, i);
          busy, blocker := true, 0;
          return;
        }
        if CheckBlocks(c, clock, results[i]) && (results[i].sector.rec.ts > ts || blocker == 0) {
          assert Blocking(c, me, clock, results, i);
          blocker, ts := results[i].sector.rec.host, results[i].sector.rec.ts;
        }
      }
    }
    assert forall j: HostId :: Stopped(c, me, dead, results, j) ==> j < c.hosts + 1;
    assert forall j: HostId :: Blocking(c, me, clock, results, j) ==> j < c.hosts + 1;
    busy := blocker != 0;
  }

  /**
    Waiting for the freshest blocker to expire is enough: by then the records of
    all holders the scan had found have expired too.
   */
  lemma FreshestExpiresLast(c: Config, me: HostId, clock: int, clock': int, results: seq<ReadResult>, ts: int,
                            i: HostId)
    requires |results| == c.hosts + 1 && Other(c, me, i) && Freshest(c, me, clock, results, ts)
    requires clock <= clock' && !RecordLive(c, ts, clock')
    ensures !CheckBlocks(c, clock', results[i])
  {
    assert CheckBlocks(c, clock', results[i]) ==> Blocking(c, me, clock, results, i);
  }
}
