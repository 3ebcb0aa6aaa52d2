/**
  The event counts: the waiter half of each packed word is exactly the number of
  waiting threads, so it never borrows from or carries into the epoch, and no
  wake-up is ever lost.
 */
module MpmcWakeups {
  import opened Mpmc
  import opened MpmcTickets

  /** Between counting itself in and counting itself out again. */
  predicate Waiting(w: WaitPc) {
    w.Recheck? || w.Cancel? || w.EpochTest? || w.Enter? || w.Asleep? || w.Leave?
  }

  predicate CountedIn(cap: nat, th: Thread, side: Side, i: nat)
    requires cap > 0
  {
    th.Busy? && SideOf(th.op) == side && th.pc.Wait? && Waiting(th.pc.w) && Idx(cap, th.pc.t) == i
  }

  function Waiters(cap: nat, threads: map<Tid, Thread>, side: Side, i: nat): (xs: set<Tid>)
    requires cap > 0
  {
    set x | x in threads && CountedIn(cap, threads[x], side, i)
  }

  /** About to raise the epoch of the given event, or to wake its sleepers. */
  predicate Notifies(cap: nat, th: Thread, side: Side, i: nat)
    requires cap > 0
  {
    th.Busy? && th.pc.Notify? && Opposite(SideOf(th.op)) == side && Idx(cap, th.pc.t) == i
  }

  predicate Wakes(cap: nat, th: Thread, side: Side, i: nat)
    requires cap > 0
  {
    th.Busy? && th.pc.Wake? && Opposite(SideOf(th.op)) == side && Idx(cap, th.pc.t) == i
  }

  ghost predicate Notified(cap: nat, threads: map<Tid, Thread>, side: Side, i: nat)
    requires cap > 0
  {
    exists n | n in threads :: Notifies(cap, threads[n], side, i)
  }

  ghost predicate Woken(cap: nat, threads: map<Tid, Thread>, side: Side, i: nat)
    requires cap > 0
  {
    exists n | n in threads :: Wakes(cap, threads[n], side, i)
  }

  predicate Keyed(th: Thread) {
    th.Busy? && th.pc.Wait? && (th.pc.w.Recheck? || th.pc.w.EpochTest? || th.pc.w.Enter? || th.pc.w.Asleep?)
  }

  /** Went to wait after finding its turn had not come. */
  predicate Committed(th: Thread) {
    Keyed(th) && !th.pc.w.Recheck?
  }

  predicate SameSize(q: Turns, w: Words) {
    0 < |q.turn| == |w.full| == |w.empty|
  }

  function WordOf(q: Turns, w: Words, th: Thread): (n: int)
    requires SameSize(q, w) && th.Busy? && th.pc.Wait?
  {
    Word(w, SideOf(th.op), Slot(q, th.pc.t))
  }

  /** A waiting thread whose turn has come has been, or is about to be, told so. */
  ghost predicate ThreadWake(q: Turns, w: Words, threads: map<Tid, Thread>, th: Thread)
    requires SameSize(q, w)
  {
    Keyed(th) ==>
      var side, i, key := SideOf(th.op), Slot(q, th.pc.t), th.pc.w.key;
      && key <= EpochOf(WordOf(q, w, th))
      && (Committed(th) && TurnCame(q, side, th.pc.t) ==>
            key < EpochOf(WordOf(q, w, th)) || Notified(|q.turn|, threads, side, i))
      && (IsAsleep(th) ==> key == EpochOf(WordOf(q, w, th)) || Woken(|q.turn|, threads, side, i))
  }

  ghost predicate Counts(w: Words, threads: map<Tid, Thread>, cap: nat)
    requires 0 < cap == |w.full| == |w.empty|
  {
    forall side: Side, i: nat | i < cap :: WaitersOf(Word(w, side, i)) == |Waiters(cap, threads, side, i)|
  }

  ghost predicate WakeInv(s: State) {
    && TicketInv(s)
    && |s.threads| < ADD_EPOCH
    && Counts(s.words, s.threads, |s.q.turn|)
    && (forall x | x in s.threads :: ThreadWake(s.q, s.words, s.threads, s.threads[x]))
  }

  // Arithmetic of the packed word.

  lemma AddingEpoch(word: int)
    ensures EpochOf(word + ADD_EPOCH) == EpochOf(word) + 1 && WaitersOf(word + ADD_EPOCH) == WaitersOf(word)
  {
  }

  lemma AddingWaiter(word: int)
    requires WaitersOf(word) + 1 < ADD_EPOCH
    ensures EpochOf(word + ADD_WAITER) == EpochOf(word) && WaitersOf(word + ADD_WAITER) == WaitersOf(word) + 1
  {
  }

  lemma DroppingWaiter(word: int)
    requires WaitersOf(word) >= 1
    ensures EpochOf(word + SUB_WAITER) == EpochOf(word) && WaitersOf(word + SUB_WAITER) == WaitersOf(word) - 1
  {
  }

  // Counting waiters.

  lemma FewerThan<T>(a: set<T>, b: set<T>)
    requires a <= b
    ensures |a| <= |b|
  {
    if a != b {
      var x :| x in b && x !in a;
      FewerThan(a, b - {x});
    }
  }

  lemma WaitersFit(cap: nat, threads: map<Tid, Thread>, side: Side, i: nat)
    requires cap > 0
    ensures |Waiters(cap, threads, side, i)| <= |threads|
    ensures forall x | x in threads && !CountedIn(cap, threads[x], side, i) ::
              |Waiters(cap, threads, side, i)| + 1 <= |threads|
  {
    var ws := Waiters(cap, threads, side, i);
    assert ws <= threads.Keys;
    FewerThan(ws, threads.Keys);
    forall x | x in threads && !CountedIn(cap, threads[x], side, i) ensures |ws| + 1 <= |threads| {
      FewerThan(ws + {x}, threads.Keys);
    }
  }

  /** Replacing one thread changes each count by what that thread contributes. */
  lemma WaitersStep(cap: nat, threads: map<Tid, Thread>, x: Tid, th': Thread, side: Side, i: nat)
    requires cap > 0 && x in threads
    ensures |Waiters(cap, threads[x := th'], side, i)| ==
            |Waiters(cap, threads, side, i)|
            - (if CountedIn(cap, threads[x], side, i) then 1 else 0)
            + (if CountedIn(cap, th', side, i) then 1 else 0)
  {
    hide CountedIn;
    var ws, ws' := Waiters(cap, threads, side, i), Waiters(cap, threads[x := th'], side, i);
    assert ws - {x} == ws' - {x};
    WithAndWithout(ws, x);
    WithAndWithout(ws', x);
  }

  lemma WithAndWithout(ws: set<Tid>, x: Tid)
    ensures |ws| == |ws - {x}| + if x in ws then 1 else 0
  {
    assert ws == if x in ws then ws - {x} + {x} else ws - {x};
  }

  lemma WaitersNew(cap: nat, threads: map<Tid, Thread>, x: Tid, side: Side, i: nat)
    requires cap > 0 && x !in threads
    ensures Waiters(cap, threads[x := Idle], side, i) == Waiters(cap, threads, side, i)
  {
  }

  // A thread's promise depends on others only through the notifier it relies on.

  lemma KeepWake(q: Turns, w: Words, threads: map<Tid, Thread>, threads': map<Tid, Thread>, x: Tid, th: Thread)
    requires SameSize(q, w) && ThreadWake(q, w, threads, th)
    requires forall y | y in threads && y != x :: y in threads' && threads'[y] == threads[y]
    requires x in threads && threads[x].Busy? ==> !threads[x].pc.Notify? && !threads[x].pc.Wake?
    ensures ThreadWake(q, w, threads', th)
  {
    if Keyed(th) {
      var side, i := SideOf(th.op), Slot(q, th.pc.t);
      if Notified(|q.turn|, threads, side, i) {
        var n :| n in threads && Notifies(|q.turn|, threads[n], side, i);
        assert n in threads' && Notifies(|q.turn|, threads'[n], side, i);
      }
      if Woken(|q.turn|, threads, side, i) {
        var n :| n in threads && Wakes(|q.turn|, threads[n], side, i);
        assert n in threads' && Wakes(|q.turn|, threads'[n], side, i);
      }
    }
  }

  /** The promise survives a change of words that keeps every epoch. */
  lemma SameEpochs(q: Turns, w: Words, w': Words, threads: map<Tid, Thread>, th: Thread)
    requires SameSize(q, w) && SameSize(q, w') && ThreadWake(q, w, threads, th)
    requires forall side: Side, i: nat | i < |q.turn| :: EpochOf(Word(w', side, i)) == EpochOf(Word(w, side, i))
    ensures ThreadWake(q, w', threads, th)
  {
  }

  /** A step of a thread that neither notifies nor wakes, with turns and words unchanged. */
  lemma QuietStep(s: State, s': State, x: Tid, th': Thread)
    requires WakeInv(s) && TicketInv(s') && s'.words == s.words && s'.threads == s.threads[x := th']
    requires s'.q.turn == s.q.turn
    requires if x in s.threads then !(s.threads[x].Busy? && (s.threads[x].pc.Notify? || s.threads[x].pc.Wake?))
             else th'.Idle? && |s.threads| + 1 < ADD_EPOCH
    requires forall side: Side, i: nat | i < |s.q.turn| && x in s.threads ::
               CountedIn(|s.q.turn|, th', side, i) == CountedIn(|s.q.turn|, s.threads[x], side, i)
    requires ThreadWake(s.q, s.words, s.threads, th')
    ensures WakeInv(s')
  {
    forall side: Side, i: nat | i < |s.q.turn|
      ensures WaitersOf(Word(s'.words, side, i)) == |Waiters(|s.q.turn|, s'.threads, side, i)|
    {
      if x in s.threads {
        WaitersStep(|s.q.turn|, s.threads, x, th', side, i);
      } else {
        WaitersNew(|s.q.turn|, s.threads, x, side, i);
      }
    }
    forall y | y in s'.threads ensures ThreadWake(s'.q, s'.words, s'.threads, s'.threads[y]) {
      KeepWake(s.q, s.words, s.threads, s'.threads, x, s'.threads[y]);
    }
  }

  predicate Counting(w: WaitPc) {
    w.Prepare? || w.Cancel? || w.Leave?
  }

  /** Counting in or out changes one word's waiter half and no epoch. */
  lemma CountAt(cap: nat, w: Words, threads: map<Tid, Thread>, x: Tid, th': Thread, side: Side, i: nat)
    requires 0 < cap == |w.full| == |w.empty| && i < cap && |threads| < ADD_EPOCH
    requires WaitersOf(Word(w, side, i)) == |Waiters(cap, threads, side, i)|
    requires x in threads && threads[x].Busy? && threads[x].pc.Wait? && Counting(threads[x].pc.w)
    requires th'.Busy? && th'.op == threads[x].op && th'.pc.Wait? && th'.pc.t == threads[x].pc.t
    requires Waiting(th'.pc.w) <==> threads[x].pc.w.Prepare?
    ensures var th := threads[x];
            var w' := FetchAdd(w, SideOf(th.op), Idx(cap, th.pc.t), WaitDelta(th.pc.w));
            && EpochOf(Word(w', side, i)) == EpochOf(Word(w, side, i))
            && WaitersOf(Word(w', side, i)) == |Waiters(cap, threads[x := th'], side, i)|
  {
    var th := threads[x];
    WaitersStep(cap, threads, x, th', side, i);
    WaitersFit(cap, threads, side, i);
    if side == SideOf(th.op) && i == Idx(cap, th.pc.t) {
      if th.pc.w.Prepare? {
        AddingWaiter(Word(w, side, i));
      } else {
        assert x in Waiters(cap, threads, side, i);
        DroppingWaiter(Word(w, side, i));
      }
    }
  }

  lemma CountStep(s: State, x: Tid, side: Side, i: nat)
    requires WakeInv(s) && Enabled(s, Step(x)) && i < |s.q.turn|
    requires s.threads[x].pc.Wait? && Counting(s.threads[x].pc.w)
    ensures var s' := Apply(s, Step(x));
            && EpochOf(Word(s'.words, side, i)) == EpochOf(Word(s.words, side, i))
            && WaitersOf(Word(s'.words, side, i)) == |Waiters(|s.q.turn|, s'.threads, side, i)|
  {
    var s' := Apply(s, Step(x));
    var th, t := s.threads[x], s.threads[x].pc.t;
    var th' := Busy(th.op, Wait(t, NextWait(TurnCame(s.q, SideOf(th.op), t), WordOf(s.q, s.words, th), th.pc.w)));
    CountAt(|s.q.turn|, s.words, s.threads, x, th', side, i);
  }

  lemma CountWake(s: State, x: Tid)
    requires WakeInv(s) && Enabled(s, Step(x)) && s.threads[x].pc.Wait? && Counting(s.threads[x].pc.w)
    ensures WakeInv(Apply(s, Step(x)))
  {
    var s' := Apply(s, Step(x));
    StepTickets(s, x);
    forall side: Side, i: nat | i < |s.q.turn|
      ensures WaitersOf(Word(s'.words, side, i)) == |Waiters(|s.q.turn|, s'.threads, side, i)|
      ensures EpochOf(Word(s'.words, side, i)) == EpochOf(Word(s.words, side, i))
    {
      CountStep(s, x, side, i);
    }
    forall y | y in s.threads && y != x ensures ThreadWake(s'.q, s'.words, s'.threads, s.threads[y]) {
      SameEpochs(s.q, s.words, s'.words, s.threads, s.threads[y]);
      KeepWake(s.q, s'.words, s.threads, s'.threads, x, s.threads[y]);
    }
  }

  lemma WaitWake(s: State, x: Tid)
    requires WakeInv(s) && Enabled(s, Step(x)) && s.threads[x].pc.Wait?
    ensures WakeInv(Apply(s, Step(x)))
  {
    if Counting(s.threads[x].pc.w) {
      CountWake(s, x);
    } else {
      TestWake(s, x);
    }
  }

  lemma AddNothing(w: Words, side: Side, i: nat)
    requires i < |w.full| == |w.empty|
    ensures FetchAdd(w, side, i, 0) == w
  {
  }

  /** A test that finds the turn not come, or the epoch unchanged, justifies the wait it leads to. */
  lemma TestedThread(q: Turns, w: Words, threads: map<Tid, Thread>, th: Thread, th': Thread)
    requires SameSize(q, w) && ThreadWake(q, w, threads, th)
    requires th.Busy? && th.pc.Wait? && !th.pc.w.Asleep? && !Counting(th.pc.w) && th'.Busy? && th'.op == th.op
    requires th'.pc == Own(th.pc.t) ||
             th'.pc == Wait(th.pc.t, NextWait(TurnCame(q, SideOf(th.op), th.pc.t), WordOf(q, w, th), th.pc.w))
    ensures ThreadWake(q, w, threads, th')
  {
  }

  /** A test of the turn or of the epoch changes the thread only. */
  lemma TestStep(s: State, x: Tid)
    requires WakeInv(s) && Enabled(s, Step(x)) && s.threads[x].pc.Wait? && !Counting(s.threads[x].pc.w)
    ensures var s', th := Apply(s, Step(x)), s.threads[x];
            && s'.words == s.words && s'.q == s.q && x in s'.threads && s'.threads == s.threads[x := s'.threads[x]]
            && th.Busy? && !th.pc.w.Asleep? && s'.threads[x].Busy? && s'.threads[x].op == th.op
            && (s'.threads[x].pc == Own(th.pc.t) || s'.threads[x].pc ==
                  Wait(th.pc.t, NextWait(TurnCame(s.q, SideOf(th.op), th.pc.t), WordOf(s.q, s.words, th), th.pc.w)))
            && (s'.threads[x].pc.Wait? && Waiting(s'.threads[x].pc.w) <==> Waiting(th.pc.w))
  {
    hide ThreadWake, Counts, TurnCame;
    AddNothing(s.words, SideOf(s.threads[x].op), Slot(s.q, s.threads[x].pc.t));
  }

  lemma TestWake(s: State, x: Tid)
    requires WakeInv(s) && Enabled(s, Step(x)) && s.threads[x].pc.Wait? && !Counting(s.threads[x].pc.w)
    ensures WakeInv(Apply(s, Step(x)))
  {
    hide ThreadWake, Apply, TurnCame, NextWait;
    var s' := Apply(s, Step(x));
    StepTickets(s, x);
    TestStep(s, x);
    TestedThread(s.q, s.words, s.threads, s.threads[x], s'.threads[x]);
    QuietStep(s, s', x, s'.threads[x]);
  }

  /** The publisher stands ready to notify every thread whose turn it has brought about. */
  lemma PublishWakes(s: State, x: Tid, y: Tid)
    requires WakeInv(s) && Enabled(s, Step(x)) && s.threads[x].pc.Publish? && y in s.threads && y != x
    ensures var s' := Apply(s, Step(x)); ThreadWake(s'.q, s'.words, s'.threads, s.threads[y])
  {
    var s' := Apply(s, Step(x));
    var o, u := s.threads[y], s.threads[x].pc.t;
    assert ThreadWake(s.q, s.words, s.threads, o);
    KeepWake(s.q, s.words, s.threads, s'.threads, x, o);
    if Committed(o) && TurnCame(s'.q, SideOf(o.op), o.pc.t) && Slot(s.q, o.pc.t) == Slot(s.q, u) {
      DueAfter(|s.q.turn|, u, SideOf(o.op), o.pc.t);
      assert Notifies(|s.q.turn|, s'.threads[x], SideOf(o.op), Slot(s.q, o.pc.t));
    }
  }

  lemma PublishWake(s: State, x: Tid)
    requires WakeInv(s) && Enabled(s, Step(x)) && s.threads[x].pc.Publish?
    ensures WakeInv(Apply(s, Step(x)))
  {
    var s' := Apply(s, Step(x));
    StepTickets(s, x);
    forall side: Side, i: nat | i < |s.q.turn|
      ensures WaitersOf(Word(s'.words, side, i)) == |Waiters(|s.q.turn|, s'.threads, side, i)|
    {
      WaitersStep(|s.q.turn|, s.threads, x, s'.threads[x], side, i);
    }
    forall y | y in s'.threads ensures ThreadWake(s'.q, s'.words, s'.threads, s'.threads[y]) {
      if y != x {
        PublishWakes(s, x, y);
      }
    }
  }

  /** After the epoch is raised, sleepers of that event rely on the wake that follows. */
  lemma NotifyOther(s: State, x: Tid, y: Tid)
    requires WakeInv(s) && Enabled(s, Step(x)) && s.threads[x].pc.Notify? && y in s.threads && y != x
    ensures var s' := Apply(s, Step(x)); ThreadWake(s'.q, s'.words, s'.threads, s.threads[y])
  {
    var s' := Apply(s, Step(x));
    var th, o := s.threads[x], s.threads[y];
    var ev, slot, cap := Opposite(SideOf(th.op)), Slot(s.q, th.pc.t), |s.q.turn|;
    assert ThreadWake(s.q, s.words, s.threads, o);
    if Keyed(o) {
      var side, i := SideOf(o.op), Slot(s.q, o.pc.t);
      if side == ev && i == slot {
        AddingEpoch(Word(s.words, ev, slot));
        if IsAsleep(o) {
          assert y in Waiters(cap, s.threads, ev, slot);
          assert WaitersOf(Word(s.words, ev, slot)) == |Waiters(cap, s.threads, ev, slot)|;
          assert Wakes(cap, s'.threads[x], ev, slot);
        }
      } else {
        NotifyElsewhere(cap, s.threads, s'.threads, x, side, i);
      }
    }
  }

  lemma NotifyElsewhere(cap: nat, threads: map<Tid, Thread>, threads': map<Tid, Thread>, x: Tid, side: Side, i: nat)
    requires cap > 0 && x in threads && !Notifies(cap, threads[x], side, i) && !Wakes(cap, threads[x], side, i)
    requires forall y | y in threads && y != x :: y in threads' && (threads'[y] == threads[y] || IsAsleep(threads[y]))
    ensures Notified(cap, threads, side, i) ==> Notified(cap, threads', side, i)
    ensures Woken(cap, threads, side, i) ==> Woken(cap, threads', side, i)
  {
    if Notified(cap, threads, side, i) {
      var n :| n in threads && Notifies(cap, threads[n], side, i);
      assert n in threads' && Notifies(cap, threads'[n], side, i);
    }
    if Woken(cap, threads, side, i) {
      var n :| n in threads && Wakes(cap, threads[n], side, i);
      assert n in threads' && Wakes(cap, threads'[n], side, i);
    }
  }

  lemma CountsMatch(s: State, side: Side, i: nat)
    requires WakeInv(s) && i < |s.q.turn|
    ensures SameSize(s.q, s.words) && WaitersOf(Word(s.words, side, i)) == |Waiters(|s.q.turn|, s.threads, side, i)|
  {
  }

  lemma NotifyCount(s: State, x: Tid, side: Side, i: nat)
    requires WakeInv(s) && Enabled(s, Step(x)) && s.threads[x].pc.Notify? && i < |s.q.turn|
    ensures var s' := Apply(s, Step(x));
            WaitersOf(Word(s'.words, side, i)) == |Waiters(|s.q.turn|, s'.threads, side, i)|
  {
    hide WakeInv, Waiters, TicketInv;
    var s' := Apply(s, Step(x));
    CountsMatch(s, side, i);
    WaitersStep(|s.q.turn|, s.threads, x, s'.threads[x], side, i);
    AddingEpoch(Word(s.words, side, i));
  }

  lemma NotifyWake(s: State, x: Tid)
    requires WakeInv(s) && Enabled(s, Step(x)) && s.threads[x].pc.Notify?
    ensures WakeInv(Apply(s, Step(x)))
  {
    var s' := Apply(s, Step(x));
    StepTickets(s, x);
    forall side: Side, i: nat | i < |s.q.turn|
      ensures WaitersOf(Word(s'.words, side, i)) == |Waiters(|s.q.turn|, s'.threads, side, i)|
    {
      NotifyCount(s, x, side, i);
    }
    forall y | y in s'.threads ensures ThreadWake(s'.q, s'.words, s'.threads, s'.threads[y]) {
      if y != x {
        NotifyOther(s, x, y);
      }
    }
  }

  /** A wake leaves nobody asleep on its event and keeps the notifiers other events rely on. */
  lemma WakeOther(q: Turns, w: Words, threads: map<Tid, Thread>, x: Tid, y: Tid)
    requires SameSize(q, w) && x in threads && y in threads && y != x
    requires threads[x].Busy? && threads[x].pc.Wake? && ThreadWake(q, w, threads, threads[y])
    ensures var ev, slot := Opposite(SideOf(threads[x].op)), Slot(q, threads[x].pc.t);
            var threads' := WakeAll(|q.turn|, threads, ev, slot)[x := Idle];
            ThreadWake(q, w, threads', threads'[y])
  {
    var ev, slot, cap := Opposite(SideOf(threads[x].op)), Slot(q, threads[x].pc.t), |q.turn|;
    var threads' := WakeAll(cap, threads, ev, slot)[x := Idle];
    var o := threads[y];
    if Keyed(o) {
      var side, i := SideOf(o.op), Slot(q, o.pc.t);
      if side != ev || i != slot {
        NotifyElsewhere(cap, threads, threads', x, side, i);
      } else if Notified(cap, threads, side, i) {
        var n :| n in threads && Notifies(cap, threads[n], side, i);
        assert n in threads' && Notifies(cap, threads'[n], side, i);
      }
    }
  }

  lemma WakeCount(cap: nat, threads: map<Tid, Thread>, x: Tid, ev: Side, slot: nat, side: Side, i: nat)
    requires cap > 0 && x in threads && threads[x].Busy? && threads[x].pc.Wake?
    ensures Waiters(cap, WakeAll(cap, threads, ev, slot)[x := Idle], side, i) == Waiters(cap, threads, side, i)
  {
    var threads' := WakeAll(cap, threads, ev, slot)[x := Idle];
    forall y | y in threads ensures CountedIn(cap, threads'[y], side, i) == CountedIn(cap, threads[y], side, i) {
    }
  }

  lemma WakeWake(s: State, x: Tid)
    requires WakeInv(s) && Enabled(s, Step(x)) && s.threads[x].pc.Wake?
    ensures WakeInv(Apply(s, Step(x)))
  {
    var s' := Apply(s, Step(x));
    StepTickets(s, x);
    assert s'.threads.Keys == s.threads.Keys;
    forall side: Side, i: nat | i < |s.q.turn|
      ensures WaitersOf(Word(s'.words, side, i)) == |Waiters(|s.q.turn|, s'.threads, side, i)|
    {
      WakeCount(|s.q.turn|, s.threads, x, Opposite(SideOf(s.threads[x].op)), Slot(s.q, s.threads[x].pc.t), side, i);
    }
    forall y | y in s'.threads ensures ThreadWake(s'.q, s'.words, s'.threads, s'.threads[y]) {
      if y != x {
        WakeOther(s.q, s.words, s.threads, x, y);
      }
    }
  }

  lemma RestWake(s: State, x: Tid)
    requires WakeInv(s) && Enabled(s, Step(x))
    requires var pc := s.threads[x].pc; pc.Claim? || pc.TryLoad? || pc.Try? || pc.Own?
    ensures WakeInv(Apply(s, Step(x)))
  {
    StepTickets(s, x);
    var s' := Apply(s, Step(x));
    QuietStep(s, s', x, s'.threads[x]);
  }

  lemma StepWake(s: State, x: Tid)
    requires WakeInv(s) && Enabled(s, Step(x))
    ensures WakeInv(Apply(s, Step(x)))
  {
    match s.threads[x].pc
    case Wait(_, _) => WaitWake(s, x);
    case Publish(_) => PublishWake(s, x);
    case Notify(_) => NotifyWake(s, x);
    case Wake(_) => WakeWake(s, x);
    case _ => RestWake(s, x);
  }

  lemma EventWake(s: State, e: Event)
    requires WakeInv(s) && Enabled(s, e)
    ensures WakeInv(Apply(s, e))
  {
    EventTickets(s, e);
    match e
    case Step(x) => StepWake(s, x);
    case Spawn(x) => QuietStep(s, Apply(s, e), x, Idle);
    case Start(x, op, blocking) => QuietStep(s, Apply(s, e), x, Busy(op, if blocking then Claim else TryLoad));
    case Rouse(x) =>
      assert ThreadWake(s.q, s.words, s.threads, s.threads[x]);
      QuietStep(s, Apply(s, e), x, Roused(s.threads[x]));
  }

  lemma {:induction false} RunWake(states: seq<State>, events: seq<Event>, k: nat)
    requires Run(states, events) && k < |states|
    ensures WakeInv(states[k])
  {
    if k == 0 {
      InitTickets(states[0]);
    } else {
      RunWake(states, events, k - 1);
      EventWake(states[k - 1], events[k - 1]);
    }
  }

  /**
    In every run, a thread asleep on a slot's event although its turn has come
    is about to be woken: some thread is between its turn store and its wake on
    that very event.
   */
  lemma NoLostWakeup(states: seq<State>, events: seq<Event>, k: nat, x: Tid)
    requires Run(states, events) && k < |states| && Shaped(states[k])
    requires x in states[k].threads && IsAsleep(states[k].threads[x])
    requires TurnCame(states[k].q, SideOf(states[k].threads[x].op), states[k].threads[x].pc.t)
    ensures var s, th := states[k], states[k].threads[x];
            || Notified(|s.q.turn|, s.threads, SideOf(th.op), Slot(s.q, th.pc.t))
            || Woken(|s.q.turn|, s.threads, SideOf(th.op), Slot(s.q, th.pc.t))
  {
    RunWake(states, events, k);
    assert ThreadWake(states[k].q, states[k].words, states[k].threads, states[k].threads[x]);
  }

  /**
    In every run, the waiter half of every event word is exactly the number of
    threads counted in, and a thread about to count itself out is one of them,
    so the subtraction never borrows from the epoch.
   */
  lemma WaiterHalfExact(states: seq<State>, events: seq<Event>, k: nat, side: Side, i: nat)
    requires Run(states, events) && k < |states| && Shaped(states[k]) && i < |states[k].q.turn|
    ensures var s := states[k];
            && WaitersOf(Word(s.words, side, i)) == |Waiters(|s.q.turn|, s.threads, side, i)|
            && |Waiters(|s.q.turn|, s.threads, side, i)| <= |s.threads| < ADD_EPOCH
  {
    RunWake(states, events, k);
    WaitersFit(|states[k].q.turn|, states[k].threads, side, i);
  }

  /** In every run, an epoch changes only when a notifier of that very event raises it, by one. */
  lemma EpochsMoveByNotifyOnly(states: seq<State>, events: seq<Event>, k: nat, side: Side, i: nat)
    requires Run(states, events) && k < |events| && Shaped(states[k]) && Shaped(states[k + 1])
    requires i < |states[k].q.turn| && i < |states[k + 1].q.turn|
    ensures var s, s', e := states[k], states[k + 1], events[k];
            EpochOf(Word(s'.words, side, i)) == EpochOf(Word(s.words, side, i)) +
              (if e.Step? && Notifies(|s.q.turn|, s.threads[e.x], side, i) then 1 else 0)
  {
    RunWake(states, events, k);
    var s, e := states[k], events[k];
    if e.Step? {
      var pc := s.threads[e.x].pc;
      if pc.Wait? && Counting(pc.w) {
        CountStep(s, e.x, side, i);
      } else if pc.Notify? {
        AddingEpoch(Word(s.words, side, i));
      } else {
        assert Apply(s, e).words == s.words;
      }
    }
  }
}
