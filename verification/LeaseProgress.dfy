/**
  The lease is not safe merely because nobody gets it: whenever every other
  record has expired or been cleared, a host that runs undisturbed acquires it.
 */
module LeaseProgress {
  import opened LeaseRecords
  import opened LeaseWatch
  import opened LeaseProtocol
  import LeaseSafety

  /** Clocks agree with real time, reads and writes succeed. */
  function Smooth(s: State): (ch: Choice) {
    Choice(s.now, true, true, false)
  }

  /** One undisturbed step of host h. */
  ghost predicate Linked(c: Config, h: HostId, s: State, s': State) {
    Enabled(c, s, Step(h, Smooth(s))) && s' == Apply(c, s, Step(h, Smooth(s)))
  }

  /** Undisturbed steps of host h, during which no time passes. */
  ghost predicate Path(c: Config, h: HostId, ss: seq<State>) {
    |ss| > 0 && forall k | 0 <= k < |ss| - 1 :: Linked(c, h, ss[k], ss[k + 1])
  }

  ghost predicate Leads(c: Config, s: State, h: HostId, s': State) {
    exists ss :: Path(c, h, ss) && ss[0] == s && ss[|ss| - 1] == s'
  }

  lemma LeadsJoin(c: Config, s: State, h: HostId, s1: State, s2: State)
    requires Leads(c, s, h, s1) && Leads(c, s1, h, s2)
    ensures Leads(c, s, h, s2)
  {
    var p :| Path(c, h, p) && p[0] == s && p[|p| - 1] == s1;
    var q :| Path(c, h, q) && q[0] == s1 && q[|q| - 1] == s2;
    var r := p[..|p| - 1] + q;
    forall k | 0 <= k < |r| - 1 ensures Linked(c, h, r[k], r[k + 1]) {
      if k < |p| - 1 {
        assert r[k] == p[k] && r[k + 1] == p[k + 1];
      } else {
        assert r[k] == q[k - (|p| - 1)] && r[k + 1] == q[k + 1 - (|p| - 1)];
      }
    }
    assert Path(c, h, r) && r[|r| - 1] == q[|q| - 1] && r[0] == (if |p| == 1 then q[0] else p[0]);
  }

  /** s with host h's process and sector replaced. */
  function With(s: State, h: HostId, p: Host, cell: Cell): (s': State) {
    s.(hosts := s.hosts[h := p], cells := s.cells[h := cell])
  }

  /** Every other sector is empty or holds a record that is no longer live. */
  ghost predicate Quiet(c: Config, s: State, h: HostId) {
    && ValidConfig(c) && WellFormed(c, s) && h in s.hosts
    && forall i | i in s.cells && i != h ::
         && !s.cells[i].content.Corrupt?
         && (s.cells[i].content.Valid? ==> !RecordLive(c, s.cells[i].content.rec.ts, s.now.Floor))
  }

  lemma OneStep(c: Config, s: State, h: HostId, p: Host, cell: Cell)
    requires WellFormed(c, s) && h in s.hosts && ValidConfig(c)
    requires s.hosts[h].timer.Disarmed?
    requires p == HostStep(c, s, h, s.hosts[h], Smooth(s)) && cell == CellStep(s, h, s.hosts[h], s.cells[h], Smooth(s))
    ensures Leads(c, s, h, With(s, h, p, cell))
  {
    var e := Step(h, Smooth(s));
    assert Enabled(c, s, e);
    var s' := Apply(c, s, e);
    assert s' == With(s, h, p, cell);
    assert Path(c, h, [s, s']);
  }

  lemma {:induction false} FirstReadLoop(c: Config, s: State, h: HostId, i: nat)
    requires Quiet(c, s, h) && s.hosts[h].timer.Disarmed?
    requires s.hosts[h].pc == Watching(FirstRead(i)) && 1 <= i <= c.hosts + 1
    ensures Leads(c, s, h, With(s, h, s.hosts[h].(pc := Watching(Sleep)), s.cells[h]))
    decreases c.hosts + 1 - i
  {
    var goal := With(s, h, s.hosts[h].(pc := Watching(Sleep)), s.cells[h]);
    if i > c.hosts {
      OneStep(c, s, h, goal.hosts[h], s.cells[h]);
    } else {
      var p1 := s.hosts[h].(pc := Watching(FirstRead(i + 1)));
      OneStep(c, s, h, p1, s.cells[h]);
      var s1 := With(s, h, p1, s.cells[h]);
      FirstReadLoop(c, s1, h, i + 1);
      assert With(s1, h, s1.hosts[h].(pc := Watching(Sleep)), s1.cells[h]) == goal;
      LeadsJoin(c, s, h, s1, goal);
    }
  }

  lemma {:induction false} CheckReadLoop(c: Config, s: State, h: HostId, i: nat)
    requires Quiet(c, s, h) && s.hosts[h].timer.Disarmed? && s.hosts[h].wait.blocker == 0
    requires s.hosts[h].pc == Checking(CheckRead(s.now.Floor, i)) && 1 <= i <= c.hosts + 1
    ensures Leads(c, s, h, With(s, h, s.hosts[h].(pc := ReadOwn), s.cells[h]))
    decreases c.hosts + 1 - i
  {
    var goal := With(s, h, s.hosts[h].(pc := ReadOwn), s.cells[h]);
    if i > c.hosts {
      OneStep(c, s, h, goal.hosts[h], s.cells[h]);
    } else {
      var p1 := s.hosts[h].(pc := Checking(CheckRead(s.now.Floor, i + 1)));
      OneStep(c, s, h, p1, s.cells[h]);
      var s1 := With(s, h, p1, s.cells[h]);
      CheckReadLoop(c, s1, h, i + 1);
      assert With(s1, h, s1.hosts[h].(pc := ReadOwn), s1.cells[h]) == goal;
      LeadsJoin(c, s, h, s1, goal);
    }
  }

  lemma {:induction false} VerifyLoop(c: Config, s: State, h: HostId, i: nat)
    requires Quiet(c, s, h) && s.hosts[h].timer.Disarmed?
    requires s.hosts[h].pc == Verifying(ScanRead(s.now.Floor, i)) && 1 <= i <= c.hosts + 1
    ensures Leads(c, s, h, With(s, h, s.hosts[h].(pc := Writing(AcquireWrite, Issue)), s.cells[h]))
    decreases c.hosts + 1 - i
  {
    var goal := With(s, h, s.hosts[h].(pc := Writing(AcquireWrite, Issue)), s.cells[h]);
    if i > c.hosts {
      OneStep(c, s, h, goal.hosts[h], s.cells[h]);
    } else {
      var p1 := s.hosts[h].(pc := Verifying(ScanRead(s.now.Floor, i + 1)));
      OneStep(c, s, h, p1, s.cells[h]);
      var s1 := With(s, h, p1, s.cells[h]);
      VerifyLoop(c, s1, h, i + 1);
      assert With(s1, h, s1.hosts[h].(pc := Writing(AcquireWrite, Issue)), s1.cells[h]) == goal;
      LeadsJoin(c, s, h, s1, goal);
    }
  }

  lemma {:induction false} ConflictLoop(c: Config, s: State, h: HostId, i: nat)
    requires Quiet(c, s, h) && s.hosts[h].timer.Disarmed?
    requires s.hosts[h].pc == Conflicting(ScanRead(s.now.Floor, i)) && 1 <= i <= c.hosts + 1
    ensures Leads(c, s, h, With(s, h, s.hosts[h].(pc := RwTest), s.cells[h]))
    decreases c.hosts + 1 - i
  {
    var goal := With(s, h, s.hosts[h].(pc := RwTest), s.cells[h]);
    if i > c.hosts {
      OneStep(c, s, h, goal.hosts[h], s.cells[h]);
    } else {
      var p1 := s.hosts[h].(pc := Conflicting(ScanRead(s.now.Floor, i + 1)));
      OneStep(c, s, h, p1, s.cells[h]);
      var s1 := With(s, h, p1, s.cells[h]);
      ConflictLoop(c, s1, h, i + 1);
      assert With(s1, h, s1.hosts[h].(pc := RwTest), s1.cells[h]) == goal;
      LeadsJoin(c, s, h, s1, goal);
    }
  }

  /** Take one step and report where it leads. */
  lemma Go(c: Config, s0: State, s: State, h: HostId) returns (s': State)
    requires Leads(c, s0, h, s) && Quiet(c, s, h) && s.hosts[h].timer.Disarmed?
    ensures s' == With(s, h, HostStep(c, s, h, s.hosts[h], Smooth(s)),
      CellStep(s, h, s.hosts[h], s.cells[h], Smooth(s)))
    ensures Leads(c, s0, h, s') && Quiet(c, s', h) && s'.now == s.now
  {
    s' := With(s, h, HostStep(c, s, h, s.hosts[h], Smooth(s)), CellStep(s, h, s.hosts[h], s.cells[h], Smooth(s)));
    OneStep(c, s, h, s'.hosts[h], s'.cells[h]);
    LeadsJoin(c, s0, h, s, s');
  }

  lemma WatchesQuietly(c: Config, s0: State, h: HostId) returns (s: State)
    requires Quiet(c, s0, h) && s0.hosts[h].pc.Idle? && s0.hosts[h].timer.Disarmed?
    ensures Leads(c, s0, h, s) && Quiet(c, s, h) && s.now == s0.now
    ensures s.hosts[h].pc == Checking(CheckClock) && s.hosts[h].timer.Disarmed?
  {
    assert Path(c, h, [s0]);
    s := Go(c, s0, s0, h);
    FirstReadLoop(c, s, h, 1);
    var s' := With(s, h, s.hosts[h].(pc := Watching(Sleep)), s.cells[h]);
    LeadsJoin(c, s0, h, s, s');
    s := Go(c, s0, s', h);
  }

  lemma ScoutsQuietly(c: Config, s0: State, h: HostId) returns (s: State)
    requires Quiet(c, s0, h) && s0.hosts[h].pc.Idle? && s0.hosts[h].timer.Disarmed?
    ensures Leads(c, s0, h, s) && Quiet(c, s, h) && s.now == s0.now
    ensures s.hosts[h].pc == ReadOwn && s.hosts[h].timer.Disarmed?
  {
    s := WatchesQuietly(c, s0, h);
    s := Go(c, s0, s, h);
    CheckReadLoop(c, s, h, 1);
    var s' := With(s, h, s.hosts[h].(pc := ReadOwn), s.cells[h]);
    LeadsJoin(c, s0, h, s, s');
    s := s';
  }

  /** Issue, stamp, land and return of a write that succeeds at once. */
  lemma WritesQuietly(c: Config, s0: State, s1: State, h: HostId, kind: WriteKind) returns (s: State)
    requires Leads(c, s0, h, s1) && Quiet(c, s1, h)
    requires s1.hosts[h].pc == Writing(kind, Issue) && s1.hosts[h].timer.Disarmed?
    ensures Leads(c, s0, h, s) && Quiet(c, s, h) && s.now == s1.now
    ensures var r := ReturnStep(kind, s1.now, s1.hosts[h].own, true);
            s.hosts[h] == s1.hosts[h].(pc := r.0, own := r.1)
  {
    s := Go(c, s0, s1, h);
    s := Go(c, s0, s, h);
    s := Go(c, s0, s, h);
    s := Go(c, s0, s, h);
  }

  lemma PreparesQuietly(c: Config, s0: State, h: HostId) returns (s: State)
    requires Quiet(c, s0, h) && s0.hosts[h].pc.Idle? && s0.hosts[h].timer.Disarmed?
    ensures Leads(c, s0, h, s) && Quiet(c, s, h) && s.now == s0.now
    ensures s.hosts[h].pc == Writing(AcquireWrite, Issue) && s.hosts[h].timer.Disarmed?
    ensures s.hosts[h].own.prepIssue == s0.now
  {
    s := ScoutsQuietly(c, s0, h);
    s := Go(c, s0, s, h);
    s := WritesQuietly(c, s0, s, h, PrepareWrite);
    s := Go(c, s0, s, h);
    VerifyLoop(c, s, h, 1);
    var s' := With(s, h, s.hosts[h].(pc := Writing(AcquireWrite, Issue)), s.cells[h]);
    LeadsJoin(c, s0, h, s, s');
    s := s';
  }

  lemma ConflictsQuietly(c: Config, s0: State, s1: State, h: HostId) returns (s: State)
    requires Leads(c, s0, h, s1) && Quiet(c, s1, h)
    requires s1.hosts[h].pc == Conflicting(ScanClock) && s1.hosts[h].timer.Disarmed?
    ensures Leads(c, s0, h, s) && Quiet(c, s, h) && s.now == s1.now
    ensures s.hosts[h] == s1.hosts[h].(pc := RwTest)
  {
    s := Go(c, s0, s1, h);
    ConflictLoop(c, s, h, 1);
    var s' := With(s, h, s.hosts[h].(pc := RwTest), s.cells[h]);
    LeadsJoin(c, s0, h, s, s');
    s := s';
  }

  /** A host that runs undisturbed while all other records are cleared or expired gets the lease. */
  lemma QuietHostAcquires(c: Config, s0: State, h: HostId)
    requires Quiet(c, s0, h) && s0.hosts[h].pc.Idle? && s0.hosts[h].timer.Disarmed?
    ensures exists s :: Leads(c, s0, h, s) && Holds(s, h)
  {
    var s := PreparesQuietly(c, s0, h);
    s := WritesQuietly(c, s0, s, h, AcquireWrite);
    s := Go(c, s0, s, h);
    s := ConflictsQuietly(c, s0, s, h);
    s := Go(c, s0, s, h);
    s := Go(c, s0, s, h);
    assert Holds(s, h);
  }

  // Reachable states.

  ghost predicate Reached(c: Config, s: State) {
    exists states, events :: Run(c, states, events) && states[|states| - 1] == s
  }

  lemma ReachedStep(c: Config, s: State, e: Event)
    requires Reached(c, s) && Enabled(c, s, e)
    ensures Reached(c, Apply(c, s, e))
  {
    var states, events :| Run(c, states, events) && states[|states| - 1] == s;
    var states', events' := states + [Apply(c, s, e)], events + [e];
    assert Run(c, states', events');
  }

  lemma {:induction false} ReachedPath(c: Config, h: HostId, ss: seq<State>, k: nat)
    requires Path(c, h, ss) && Reached(c, ss[0]) && k < |ss|
    ensures Reached(c, ss[k])
  {
    if k > 0 {
      ReachedPath(c, h, ss, k - 1);
      assert Linked(c, h, ss[k - 1], ss[k]);
      ReachedStep(c, ss[k - 1], Step(h, Smooth(ss[k - 1])));
    }
  }

  lemma {:induction false} PathKeepsOthers(c: Config, h: HostId, ss: seq<State>, k: nat, g: HostId)
    requires Path(c, h, ss) && WellFormed(c, ss[0]) && g in ss[0].hosts && g != h && k < |ss|
    ensures WellFormed(c, ss[k]) && ss[k].hosts[g] == ss[0].hosts[g] && ss[k].cells[g] == ss[0].cells[g]
    ensures ss[k].now == ss[0].now
  {
    if k > 0 {
      PathKeepsOthers(c, h, ss, k - 1, g);
      assert Linked(c, h, ss[k - 1], ss[k]);
    }
  }

  /** Host 2's sector is corrupt, everything else is clean. */
  function SpoiledStart(c: Config): (s: State) {
    State(0.0,
          map h: HostId | 1 <= h <= c.hosts && IsHost(c, h) :: SpoiledCell(h),
          map h: HostId | 1 <= h <= c.hosts && IsHost(c, h) :: NewHost)
  }

  predicate IsHost(c: Config, h: HostId) { 1 <= h <= c.hosts }

  function SpoiledCell(h: HostId): Cell { Cell(if h == 2 then Corrupt(Bytes(0, 0)) else Empty, 0, 0.0) }

  /** The same sectors at time t, with host 1 at the given point of its watch. */
  function SpoiledAt(c: Config, t: real, pc: Pc, bad: seq<BadSector>): (s: State)
    requires c.hosts >= 2
  {
    var start := SpoiledStart(c);
    start.(now := t, hosts := start.hosts[1 := NewHost.(pc := pc, watch := Watch(bad, map[]))])
  }

  lemma WatchTo(c: Config, t: real, w: WatchPc, bad: seq<BadSector>, w': WatchPc, bad': seq<BadSector>)
    requires ValidConfig(c) && c.hosts >= 2
    requires Reached(c, SpoiledAt(c, t, Watching(w), bad))
    requires var s := SpoiledAt(c, t, Watching(w), bad);
             WatchStep(c, s, 1, w, Watch(bad, map[]), Smooth(s)) == (Watching(w'), Watch(bad', map[]))
    ensures Reached(c, SpoiledAt(c, t, Watching(w'), bad'))
  {
    var s := SpoiledAt(c, t, Watching(w), bad);
    ReachedStep(c, s, Step(1, Smooth(s)));
    assert Apply(c, s, Step(1, Smooth(s))) == SpoiledAt(c, t, Watching(w'), bad');
  }

  lemma WatchStarts(c: Config)
    requires ValidConfig(c) && c.hosts >= 2
    ensures Reached(c, SpoiledAt(c, 0.0, Watching(FirstRead(1)), []))
  {
    var s := SpoiledStart(c);
    assert Run(c, [s], []);
    ReachedStep(c, s, Step(1, Smooth(s)));
    assert Apply(c, s, Step(1, Smooth(s))) == SpoiledAt(c, 0.0, Watching(FirstRead(1)), []);
  }

  /** The sectors after the corrupt one are clean and add nothing to the list. */
  lemma {:induction false} WatchPasses(c: Config, e: BadSector, i: HostId)
    requires ValidConfig(c) && c.hosts >= 2 && 3 <= i <= c.hosts + 1
    requires Reached(c, SpoiledAt(c, 0.0, Watching(FirstRead(3)), [e]))
    ensures Reached(c, SpoiledAt(c, 0.0, Watching(FirstRead(i)), [e]))
  {
    if i > 3 {
      WatchPasses(c, e, i - 1);
      WatchTo(c, 0.0, FirstRead(i - 1), [e], FirstRead(i), [e]);
    }
  }

  lemma WatcherSees(c: Config, e: BadSector)
    requires ValidConfig(c) && c.hosts >= 2 && e == BadSector(2, false, 0, Bytes(0, 0), 0.0)
    ensures Reached(c, SpoiledAt(c, 0.0, Watching(FirstRead(3)), [e]))
  {
    var rd := Got(Corrupt(Bytes(0, 0)));
    WatchStarts(c);
    WatchTo(c, 0.0, FirstRead(1), [], FirstRead(2), []);
    WatchTo(c, 0.0, FirstRead(2), [], FirstSeen(2, rd), []);
    assert [] + [FirstSight(2, rd, 0.0)] == [e];
    WatchTo(c, 0.0, FirstSeen(2, rd), [], FirstRead(3), [e]);
  }

  lemma WatcherLists(c: Config, e: BadSector)
    requires ValidConfig(c) && c.hosts >= 2 && e == BadSector(2, false, 0, Bytes(0, 0), 0.0)
    ensures Reached(c, SpoiledAt(c, 0.0, Watching(Sleep), [e]))
  {
    WatcherSees(c, e);
    WatchPasses(c, e, c.hosts + 1);
    WatchTo(c, 0.0, FirstRead(c.hosts + 1), [e], Sleep, [e]);
  }

  /** Host 1 watches host 2's sector for the whole window and stalls right after its last read. */
  lemma WatcherStalls(c: Config, e: BadSector)
    requires ValidConfig(c) && c.hosts >= 2 && e == BadSector(2, false, 0, Bytes(0, 0), 0.0)
    ensures var t := ExpiryAge(c) as real;
            Reached(c, SpoiledAt(c, t, Watching(Reseen(t, 0, Got(Corrupt(Bytes(0, 0))))), [e]))
  {
    var rd := Got(Corrupt(Bytes(0, 0)));
    var t := ExpiryAge(c) as real;
    WatcherLists(c, e);
    ReachedStep(c, SpoiledAt(c, 0.0, Watching(Sleep), [e]), Tick(t));
    assert Apply(c, SpoiledAt(c, 0.0, Watching(Sleep), [e]), Tick(t)) == SpoiledAt(c, t, Watching(Sleep), [e]);
    WatchTo(c, t, Sleep, [e], Reread(t, 0), [e]);
    WatchTo(c, t, Reread(t, 0), [e], Reseen(t, 0, rd), [e]);
  }

  lemma StalledJudgement(c: Config, s: State, e: BadSector, t: real)
    requires ValidConfig(c) && WellFormed(c, s) && c.hosts >= 2 && e == BadSector(2, false, 0, Bytes(0, 0), 0.0)
    requires s.now == t == ExpiryAge(c) as real && Holds(s, 2)
    requires s.hosts[1] == NewHost.(pc := Watching(Reseen(t, 0, Got(Corrupt(Bytes(0, 0))))), watch := Watch([e], map[]))
    ensures Enabled(c, s, Step(1, Smooth(s)))
    ensures var s' := Apply(c, s, Step(1, Smooth(s))); Holds(s', 2) && 2 in s'.hosts[1].watch.dead
  {
    assert ElapsedSeconds(0.0, t) == ExpiryAge(c);
    assert Judge(c, e, Got(Corrupt(Bytes(0, 0))), t, t) == Dead(Bytes(0, 0));
  }

  /** The bytes host h keeps for the dead host a are not those of its latest write. */
  predicate Outdated(s: State, h: HostId, a: HostId) {
    h in s.hosts && a in s.cells && a in s.hosts[h].watch.dead && s.hosts[h].watch.dead[a].write < s.cells[a].writes
  }

  /**
    In every reachable state a listed host that holds the lease has written since: while its
    sector still holds the listed bytes it is no holder.
   */
  lemma ListedHolderMoved(c: Config, s: State, h: HostId, a: HostId)
    requires Reached(c, s) && h in s.hosts && a in s.hosts && a in s.cells && a in s.hosts[h].watch.dead
    ensures Holds(s, a) ==> Outdated(s, h, a)
  {
    var states, events :| Run(c, states, events) && states[|states| - 1] == s;
    LeaseSafety.DeadSetSound(c, states, events, |states| - 1, h, a);
  }

  /**
    A watcher that stalls between its last read and its judgement can list a
    host as dead after that host has come back and acquired the lease.  The
    bytes it lists are outdated then, so its later scans still see the holder.
   */
  lemma StalledWatchListsHolder(c: Config)
    requires ValidConfig(c) && c.hosts >= 2
    ensures exists s :: Reached(c, s) && Enabled(c, s, Step(1, Smooth(s)))
              && 2 !in s.hosts[1].watch.dead
              && 2 in Apply(c, s, Step(1, Smooth(s))).hosts[1].watch.dead
              && Holds(Apply(c, s, Step(1, Smooth(s))), 2)
              && Outdated(Apply(c, s, Step(1, Smooth(s))), 1, 2)
  {
    var e := BadSector(2, false, 0, Bytes(0, 0), 0.0);
    WatcherStalls(c, e);
    var t := ExpiryAge(c) as real;
    var s0 := SpoiledAt(c, t, Watching(Reseen(t, 0, Got(Corrupt(Bytes(0, 0))))), [e]);
    QuietHostAcquires(c, s0, 2);
    var s :| Leads(c, s0, 2, s) && Holds(s, 2);
    var ss :| Path(c, 2, ss) && ss[0] == s0 && ss[|ss| - 1] == s;
    ReachedPath(c, 2, ss, |ss| - 1);
    PathKeepsOthers(c, 2, ss, |ss| - 1, 1);
    StalledJudgement(c, s, e, t);
    var s' := Apply(c, s, Step(1, Smooth(s)));
    ReachedStep(c, s, Step(1, Smooth(s)));
    ListedHolderMoved(c, s', 1, 2);
  }
}
