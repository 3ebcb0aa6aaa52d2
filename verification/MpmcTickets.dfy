/**
  Tickets: no two threads ever hold the same ticket or own the same slot, and
  the turn of a slot only moves forward.
 */
module MpmcTickets {
  import opened Mpmc

  lemma {:induction false} TicketArithmetic(cap: nat, t: nat)
    requires cap > 0
    ensures t == Round(cap, t) * cap + Idx(cap, t)
    ensures Idx(cap, t) == t % cap && Round(cap, t) == t / cap
  {
    if t >= cap {
      TicketArithmetic(cap, t - cap);
      assert t == (Round(cap, t - cap) + 1) * cap + Idx(cap, t - cap);
    }
    QuotientUnique(cap, t, Round(cap, t), Idx(cap, t));
  }

  lemma Larger(cap: nat, a: nat, b: nat)
    requires a < b
    ensures a * cap + cap <= b * cap
  {
    assert b * cap == a * cap + (b - a) * cap;
    assert 0 <= (b - a - 1) * cap;
  }

  lemma QuotientUnique(cap: nat, t: nat, k: nat, i: nat)
    requires cap > 0 && i < cap && t == k * cap + i
    ensures t % cap == i && t / cap == k
  {
    var q := t / cap;
    assert t == q * cap + t % cap;
    if q < k {
      Larger(cap, q, k);
    } else if k < q {
      Larger(cap, k, q);
    }
  }

  /** A slot and a turn determine the side and the ticket they are due for. */
  lemma DueInjective(cap: nat, side: Side, t: nat, side': Side, t': nat)
    requires cap > 0 && Idx(cap, t) == Idx(cap, t') && Due(cap, side, t) == Due(cap, side', t')
    ensures side == side' && t == t'
  {
    assert side == side' && Round(cap, t) == Round(cap, t');
    TicketArithmetic(cap, t);
    TicketArithmetic(cap, t');
  }

  /** After a publication, a slot is due for the same ticket's other side, or for its next round. */
  lemma DueAfter(cap: nat, t: nat, side': Side, t': nat)
    requires cap > 0 && Idx(cap, t) == Idx(cap, t')
    ensures Due(cap, Producer, t) + 1 == Due(cap, side', t') ==> side' == Consumer && t == t'
    ensures Due(cap, Consumer, t) + 1 == Due(cap, side', t') ==> side' == Producer
  {
    if Due(cap, Producer, t) + 1 == Due(cap, side', t') {
      DueInjective(cap, Consumer, t, side', t');
    }
  }

  predicate Claimed(pc: Pc) {
    pc.Wait? || pc.Own? || pc.Publish?
  }

  predicate Owning(pc: Pc) {
    pc.Own? || pc.Publish?
  }

  /** What holds of one thread's ticket, the counters and its slot's turn. */
  predicate ThreadTicket(q: Turns, th: Thread)
    requires |q.turn| > 0
  {
    th.Busy? ==>
      var side := SideOf(th.op);
      && (Claimed(th.pc) ==> th.pc.t < Counter(q, side) && q.turn[Slot(q, th.pc.t)] <= Due(|q.turn|, side, th.pc.t))
      && (Owning(th.pc) ==> TurnCame(q, side, th.pc.t))
      && (th.pc.Try? ==> th.pc.t <= Counter(q, side))
      && (th.pc.Try? && th.pc.a.TryCas? && th.pc.t == Counter(q, side) ==> TurnCame(q, side, th.pc.t))
  }

  predicate OtherTicket(th: Thread, th': Thread) {
    th.Busy? && th'.Busy? && Claimed(th.pc) && Claimed(th'.pc) && SideOf(th.op) == SideOf(th'.op)
    ==> th.pc.t != th'.pc.t
  }

  /** Tickets nobody has drawn yet are still ahead of their slots. */
  ghost predicate Undrawn(q: Turns)
    requires |q.turn| > 0
  {
    forall side: Side, t: nat :: t >= Counter(q, side) ==> q.turn[Slot(q, t)] <= Due(|q.turn|, side, t)
  }

  ghost predicate TicketInv(s: State) {
    && Shaped(s)
    && (forall x | x in s.threads :: ThreadTicket(s.q, s.threads[x]))
    && (forall x, y | x in s.threads && y in s.threads && x != y :: OtherTicket(s.threads[x], s.threads[y]))
    && Undrawn(s.q)
  }

  lemma InitTickets(s: State)
    requires Init(s)
    ensures TicketInv(s)
  {
  }

  /** Any ticket th' claims, th claimed before. */
  predicate SameClaim(th: Thread, th': Thread) {
    th'.Busy? && Claimed(th'.pc) ==>
      th.Busy? && SideOf(th.op) == SideOf(th'.op) && Claimed(th.pc) && th.pc.t == th'.pc.t
  }

  /** A step that leaves the turns and counters alone and hands no thread a new ticket. */
  lemma KeepTickets(s: State, s': State)
    requires TicketInv(s) && Shaped(s')
    requires s'.q == s.q
    requires forall y | y in s'.threads ::
               if y in s.threads then SameClaim(s.threads[y], s'.threads[y]) && ThreadTicket(s.q, s'.threads[y])
               else s'.threads[y].Idle?
    ensures TicketInv(s')
  {
    forall y, z | y in s'.threads && z in s'.threads && y != z
      ensures OtherTicket(s'.threads[y], s'.threads[z])
    {
      assert y in s.threads && z in s.threads ==> OtherTicket(s.threads[y], s.threads[z]);
    }
  }

  /** The same for a step that changes only thread x. */
  lemma KeepTicketsOf(s: State, s': State, x: Tid, th': Thread)
    requires TicketInv(s) && Shaped(s')
    requires s'.q == s.q && s'.threads == s.threads[x := th']
    requires ThreadTicket(s.q, th')
    requires if x in s.threads then SameClaim(s.threads[x], th') else th'.Idle?
    ensures TicketInv(s')
  {
    KeepTickets(s, s');
  }

  lemma WaitTickets(s: State, x: Tid)
    requires TicketInv(s) && Enabled(s, Step(x)) && s.threads[x].pc.Wait?
    ensures TicketInv(Apply(s, Step(x)))
  {
    assert ThreadTicket(s.q, s.threads[x]);
    KeepTicketsOf(s, Apply(s, Step(x)), x, Apply(s, Step(x)).threads[x]);
  }

  /** Drawing the next ticket, by fetch-add or by a successful compare-and-swap. */
  lemma DrawTickets(s: State, x: Tid, op: Op, pc: Pc)
    requires TicketInv(s) && x in s.threads && s.threads[x].Busy? && !Claimed(s.threads[x].pc)
    requires Claimed(pc) && pc.t == Counter(s.q, SideOf(op)) && (Owning(pc) ==> TurnCame(s.q, SideOf(op), pc.t))
    ensures TicketInv(SetPc(s.(q := SetCounter(s.q, SideOf(op), Counter(s.q, SideOf(op)) + 1)), x, op, pc))
  {
    var s' := SetPc(s.(q := SetCounter(s.q, SideOf(op), Counter(s.q, SideOf(op)) + 1)), x, op, pc);
    assert s'.q.turn == s.q.turn;
    assert s.q.turn[Slot(s.q, pc.t)] <= Due(|s.q.turn|, SideOf(op), pc.t);
    forall y | y in s'.threads ensures ThreadTicket(s'.q, s'.threads[y]) {
      assert y != x ==> ThreadTicket(s.q, s.threads[y]);
    }
    forall y, z | y in s'.threads && z in s'.threads && y != z
      ensures OtherTicket(s'.threads[y], s'.threads[z])
    {
      assert ThreadTicket(s.q, s.threads[y]) && ThreadTicket(s.q, s.threads[z]);
      assert OtherTicket(s.threads[y], s.threads[z]);
    }
    forall side: Side, t: nat | t >= Counter(s'.q, side)
      ensures s'.q.turn[Slot(s'.q, t)] <= Due(|s'.q.turn|, side, t)
    {
      assert s.q.turn[Slot(s.q, t)] <= Due(|s.q.turn|, side, t);
    }
  }

  lemma TryTickets(s: State, x: Tid)
    requires TicketInv(s) && Enabled(s, Step(x)) && s.threads[x].pc.Try?
    ensures TicketInv(Apply(s, Step(x)))
  {
    var th := s.threads[x];
    assert ThreadTicket(s.q, th);
    if th.pc.a.TryCas? && Counter(s.q, SideOf(th.op)) == th.pc.t {
      DrawTickets(s, x, th.op, Own(th.pc.t));
    } else {
      KeepTicketsOf(s, Apply(s, Step(x)), x, Apply(s, Step(x)).threads[x]);
    }
  }

  /** Another pending ticket of the same slot is due strictly later than the one being published. */
  lemma OthersDueLater(q: Turns, mine: Side, u: nat, side: Side, t: nat)
    requires |q.turn| > 0 && TurnCame(q, mine, u)
    requires Slot(q, t) == Slot(q, u) && (side != mine || t != u)
    requires q.turn[Slot(q, t)] <= Due(|q.turn|, side, t)
    ensures Due(|q.turn|, mine, u) + 1 <= Due(|q.turn|, side, t)
  {
    if Due(|q.turn|, side, t) == Due(|q.turn|, mine, u) {
      DueInjective(|q.turn|, side, t, mine, u);
    }
  }

  lemma PublishOther(q: Turns, th: Thread, o: Thread)
    requires |q.turn| > 0 && th.Busy? && th.pc.Publish?
    requires ThreadTicket(q, th) && ThreadTicket(q, o) && OtherTicket(th, o) && Undrawn(q)
    ensures ThreadTicket(Advance(q, SideOf(th.op), th.pc.t), o)
  {
    if o.Busy? && (Claimed(o.pc) || o.pc.Try?) && Slot(q, o.pc.t) == Slot(q, th.pc.t) {
      if Claimed(o.pc) || o.pc.t == Counter(q, SideOf(o.op)) {
        assert q.turn[Slot(q, o.pc.t)] <= Due(|q.turn|, SideOf(o.op), o.pc.t);
        OthersDueLater(q, SideOf(th.op), th.pc.t, SideOf(o.op), o.pc.t);
      }
    }
  }

  lemma PublishTickets(s: State, x: Tid)
    requires TicketInv(s) && Enabled(s, Step(x)) && s.threads[x].pc.Publish?
    ensures TicketInv(Apply(s, Step(x)))
  {
    var s' := Apply(s, Step(x));
    var th := s.threads[x];
    assert ThreadTicket(s.q, th);
    forall y | y in s'.threads ensures ThreadTicket(s'.q, s'.threads[y]) {
      if y != x {
        assert ThreadTicket(s.q, s.threads[y]) && OtherTicket(th, s.threads[y]);
        PublishOther(s.q, th, s.threads[y]);
      }
    }
    forall y, z | y in s'.threads && z in s'.threads && y != z
      ensures OtherTicket(s'.threads[y], s'.threads[z])
    {
      assert OtherTicket(s.threads[y], s.threads[z]);
    }
    forall side: Side, t: nat | t >= Counter(s'.q, side)
      ensures s'.q.turn[Slot(s'.q, t)] <= Due(|s'.q.turn|, side, t)
    {
      assert s.q.turn[Slot(s.q, t)] <= Due(|s.q.turn|, side, t);
      if Slot(s.q, t) == Slot(s.q, th.pc.t) {
        OthersDueLater(s.q, SideOf(th.op), th.pc.t, side, t);
      }
    }
  }

  lemma WakeTickets(s: State, x: Tid)
    requires TicketInv(s) && Enabled(s, Step(x)) && s.threads[x].pc.Wake?
    ensures TicketInv(Apply(s, Step(x)))
  {
    forall y | y in s.threads ensures ThreadTicket(s.q, s.threads[y]) {
    }
    KeepTickets(s, Apply(s, Step(x)));
  }

  lemma RestTickets(s: State, x: Tid)
    requires TicketInv(s) && Enabled(s, Step(x))
    requires s.threads[x].pc.Own? || s.threads[x].pc.Notify? || s.threads[x].pc.TryLoad?
    ensures TicketInv(Apply(s, Step(x)))
  {
    assert ThreadTicket(s.q, s.threads[x]);
    KeepTicketsOf(s, Apply(s, Step(x)), x, Apply(s, Step(x)).threads[x]);
  }

  lemma StepTickets(s: State, x: Tid)
    requires TicketInv(s) && Enabled(s, Step(x))
    ensures TicketInv(Apply(s, Step(x)))
  {
    match s.threads[x].pc
    case Wait(_, _) => WaitTickets(s, x);
    case Try(_, _) => TryTickets(s, x);
    case Publish(_) => PublishTickets(s, x);
    case Wake(_) => WakeTickets(s, x);
    case Claim => DrawTickets(s, x, s.threads[x].op, Wait(Counter(s.q, SideOf(s.threads[x].op)), Guard));
    case _ => RestTickets(s, x);
  }

  lemma EventTickets(s: State, e: Event)
    requires TicketInv(s) && Enabled(s, e)
    ensures TicketInv(Apply(s, e))
  {
    match e
    case Step(x) => StepTickets(s, x);
    case Spawn(x) => KeepTicketsOf(s, Apply(s, e), x, Idle);
    case Start(x, op, blocking) => KeepTicketsOf(s, Apply(s, e), x, Busy(op, if blocking then Claim else TryLoad));
    case Rouse(x) =>
      assert ThreadTicket(s.q, s.threads[x]);
      KeepTicketsOf(s, Apply(s, e), x, Roused(s.threads[x]));
  }

  lemma {:induction false} RunTickets(states: seq<State>, events: seq<Event>, k: nat)
    requires Run(states, events) && k < |states|
    ensures TicketInv(states[k])
  {
    if k == 0 {
      InitTickets(states[0]);
    } else {
      RunTickets(states, events, k - 1);
      EventTickets(states[k - 1], events[k - 1]);
    }
  }

  /** In every run, no two threads own the storage of one slot at the same time. */
  lemma ExclusiveStorage(states: seq<State>, events: seq<Event>, k: nat, x: Tid, y: Tid)
    requires Run(states, events) && k < |states| && Shaped(states[k])
    requires x in states[k].threads && y in states[k].threads
    requires var th, th' := states[k].threads[x], states[k].threads[y];
             && th.Busy? && th'.Busy? && Owning(th.pc) && Owning(th'.pc)
             && Slot(states[k].q, th.pc.t) == Slot(states[k].q, th'.pc.t)
    ensures x == y
  {
    RunTickets(states, events, k);
    var s := states[k];
    var th, th' := s.threads[x], s.threads[y];
    assert ThreadTicket(s.q, th) && ThreadTicket(s.q, th');
    DueInjective(|s.q.turn|, SideOf(th.op), th.pc.t, SideOf(th'.op), th'.pc.t);
    assert x == y || OtherTicket(th, th');
  }

  /** In every run, each step moves a slot's turn forward by one or not at all. */
  lemma TurnsOnlyGrow(states: seq<State>, events: seq<Event>, k: nat, i: nat)
    requires Run(states, events) && k < |events| && i < |states[k].q.turn|
    ensures |states[k + 1].q.turn| == |states[k].q.turn|
    ensures states[k].q.turn[i] <= states[k + 1].q.turn[i] <= states[k].q.turn[i] + 1
  {
    RunTickets(states, events, k);
    var s, e := states[k], events[k];
    if e.Step? && s.threads[e.x].pc.Publish? {
      assert ThreadTicket(s.q, s.threads[e.x]);
    } else {
      assert Apply(s, e).q.turn == s.q.turn;
    }
  }

  /**
    A try operation gives up only on a slot that is still busy with an earlier
    round: when its turn load fails while no ticket has been drawn since it read
    the counter, the turn is strictly behind the ticket's.
   */
  lemma TryRefusesBusySlot(states: seq<State>, events: seq<Event>, k: nat, x: Tid)
    requires Run(states, events) && k < |states| && Shaped(states[k])
    requires x in states[k].threads && states[k].threads[x].Busy? && states[k].threads[x].pc.Try?
    requires var th := states[k].threads[x];
             th.pc.t == Counter(states[k].q, SideOf(th.op)) && !TurnCame(states[k].q, SideOf(th.op), th.pc.t)
    ensures var th := states[k].threads[x];
            states[k].q.turn[Slot(states[k].q, th.pc.t)] < Due(|states[k].q.turn|, SideOf(th.op), th.pc.t)
  {
    RunTickets(states, events, k);
    var q := states[k].q;
    var th := states[k].threads[x];
    assert q.turn[Slot(q, th.pc.t)] <= Due(|q.turn|, SideOf(th.op), th.pc.t);
  }
}
