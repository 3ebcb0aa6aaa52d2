/**
  The watch over unusable host sectors that opens an acquisition, one sector
  and one read at a time.
 */
module LeaseWatch {
  import opened LeaseRecords

  const MAX_SWITCHES := 2

  /** A sector being watched; since is the lease clock when its current state was first seen. */
  datatype BadSector = BadSector(host: HostId, unreadable: bool, switches: nat, raw: Bytes, since: real)

  datatype Judgement =
    | Usable                     // empty or valid now: the normal checks judge it
    | Busy                       // refuse the lease
    | Dead(raw: Bytes)           // corrupt and unchanged for the whole window
    | Keep(entry: BadSector)     // go on watching

  function ElapsedSeconds(since: real, now: real): (n: int) {
    (now - since).Floor
  }

  predicate Bad(rd: ReadResult) {
    rd.Unreadable? || rd.sector.Corrupt?
  }

  function RawOf(rd: ReadResult): (raw: Bytes) {
    if rd.Got? && rd.sector.Corrupt? then rd.sector.raw else Bytes(0, 0)
  }

  function FirstSight(host: HostId, rd: ReadResult, seen: real): (e: BadSector)
    requires Bad(rd)
  {
    BadSector(host, rd.Unreadable?, 0, RawOf(rd), seen)
  }

  /** The entry after a read that still finds the sector bad, before the window is tested. */
  function Refresh(e: BadSector, rd: ReadResult, seen: real): (e': BadSector)
    requires Bad(rd)
  {
    if e.unreadable == rd.Unreadable? then e
    else if rd.Unreadable? then e.(unreadable := true, switches := e.switches + 1, since := seen)
    else e.(unreadable := false, switches := e.switches + 1, raw := RawOf(rd), since := seen)
  }

  /** One read of a watched sector: round is the lease clock before the round's reads, seen after this one. */
  function Judge(c: Config, e: BadSector, rd: ReadResult, round: real, seen: real): (j: Judgement) {
    if !Bad(rd) then Usable
    else
      var e' := Refresh(e, rd, seen);
      if e'.switches > e.switches && e'.switches > MAX_SWITCHES then Busy
      else if !e.unreadable && rd.Got? && RawOf(rd) != e.raw then Busy
      else if ElapsedSeconds(e'.since, round) >= ExpiryAge(c) then
        if e'.unreadable then Busy else Dead(e'.raw)
      else Keep(e')
  }
}
