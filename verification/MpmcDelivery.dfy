/**
  Delivery: the pop holding ticket t gets exactly the value emplaced under
  ticket t, and no ticket's value is emplaced or delivered twice.
 */
module MpmcDelivery {
  import opened Common
  import opened Mpmc
  import opened MpmcTickets

  /** What holds of one thread's ticket and the values sent and received so far. */
  predicate ThreadValue(q: Turns, st: Store, th: Thread)
    requires 0 < |q.turn| == |st.cell|
  {
    th.Busy? && Claimed(th.pc) ==>
      var t := th.pc.t;
      match th.op
      case Push(v) =>
        if th.pc.Publish? then t in st.sent && st.sent[t] == v && st.cell[Slot(q, t)] == Some(v)
        else t !in st.sent
      case Pop => t in st.received <==> th.pc.Publish?
  }

  /** The values of tickets nobody has drawn do not exist yet. */
  ghost predicate Fresh(q: Turns, st: Store) {
    (forall t | t in st.sent :: t < q.head) && (forall t | t in st.received :: t < q.tail)
  }

  /** A slot due for consumer ticket t holds that ticket's value until it is received. */
  ghost predicate Filled(q: Turns, st: Store)
    requires 0 < |q.turn| == |st.cell|
  {
    forall t: nat | TurnCame(q, Consumer, t) ::
      t in st.sent && (t !in st.received ==> st.cell[Slot(q, t)] == Some(st.sent[t]))
  }

  ghost predicate Delivered(st: Store) {
    forall t | t in st.received :: t in st.sent && st.sent[t] == st.received[t]
  }

  ghost predicate ValueInv(s: State) {
    && TicketInv(s)
    && (forall x | x in s.threads :: ThreadValue(s.q, s.store, s.threads[x]))
    && Fresh(s.q, s.store)
    && Filled(s.q, s.store)
    && Delivered(s.store)
  }

  /** A step that touches neither turns nor storage and hands out no ticket keeps the values in order. */
  lemma KeepValues(s: State, s': State)
    requires ValueInv(s) && TicketInv(s')
    requires s'.q == s.q && s'.store == s.store
    requires forall y | y in s'.threads && s'.threads[y].Busy? && Claimed(s'.threads[y].pc) ::
               y in s.threads && SameValue(s.threads[y], s'.threads[y])
    ensures ValueInv(s')
  {
    forall y | y in s'.threads ensures ThreadValue(s'.q, s'.store, s'.threads[y]) {
      assert y in s.threads ==> ThreadValue(s.q, s.store, s.threads[y]);
    }
  }

  predicate SameValue(th: Thread, th': Thread)
    requires th'.Busy? && Claimed(th'.pc)
  {
    th.Busy? && th.op == th'.op && Claimed(th.pc) && th.pc.t == th'.pc.t && (th.pc.Publish? <==> th'.pc.Publish?)
  }

  /** The same for a step that changes only thread x. */
  lemma KeepValuesOf(s: State, s': State, x: Tid, th': Thread)
    requires ValueInv(s) && TicketInv(s')
    requires s'.q == s.q && s'.store == s.store && s'.threads == s.threads[x := th']
    requires th'.Busy? && Claimed(th'.pc) ==> x in s.threads && SameValue(s.threads[x], th')
    ensures ValueInv(s')
  {
    KeepValues(s, s');
  }

  lemma WaitValues(s: State, x: Tid)
    requires ValueInv(s) && Enabled(s, Step(x)) && s.threads[x].pc.Wait?
    ensures ValueInv(Apply(s, Step(x)))
  {
    StepTickets(s, x);
    var s' := Apply(s, Step(x));
    KeepValuesOf(s, s', x, s'.threads[x]);
  }

  lemma DrawValues(s: State, x: Tid, op: Op, pc: Pc)
    requires ValueInv(s) && x in s.threads && s.threads[x].Busy? && !Claimed(s.threads[x].pc)
    requires Claimed(pc) && !pc.Publish? && pc.t == Counter(s.q, SideOf(op))
    requires Owning(pc) ==> TurnCame(s.q, SideOf(op), pc.t)
    ensures ValueInv(SetPc(s.(q := SetCounter(s.q, SideOf(op), Counter(s.q, SideOf(op)) + 1)), x, op, pc))
  {
    var s' := SetPc(s.(q := SetCounter(s.q, SideOf(op), Counter(s.q, SideOf(op)) + 1)), x, op, pc);
    DrawTickets(s, x, op, pc);
    assert s'.q.turn == s.q.turn;
    forall y | y in s'.threads ensures ThreadValue(s'.q, s'.store, s'.threads[y]) {
      assert ThreadValue(s.q, s.store, s.threads[y]);
    }
    forall t: nat | TurnCame(s'.q, Consumer, t)
      ensures t in s.store.sent && (t !in s.store.received ==> s.store.cell[Slot(s'.q, t)] == Some(s.store.sent[t]))
    {
      assert TurnCame(s.q, Consumer, t);
    }
  }

  lemma TicketHeld(s: State, x: Tid)
    requires ValueInv(s) && x in s.threads
    ensures TicketInv(s) && ThreadTicket(s.q, s.threads[x])
  {
  }

  lemma TryValues(s: State, x: Tid)
    requires ValueInv(s) && Enabled(s, Step(x)) && s.threads[x].pc.Try?
    ensures ValueInv(Apply(s, Step(x)))
  {
    hide ValueInv, TicketInv;
    var th := s.threads[x];
    TicketHeld(s, x);
    if th.pc.a.TryCas? && Counter(s.q, SideOf(th.op)) == th.pc.t {
      DrawValues(s, x, th.op, Own(th.pc.t));
    } else {
      StepTickets(s, x);
      var s' := Apply(s, Step(x));
      KeepValuesOf(s, s', x, s'.threads[x]);
    }
  }

  /** Two threads that claim tickets never claim the same one of the same side. */
  lemma ClaimsDiffer(s: State, x: Tid, y: Tid)
    requires TicketInv(s) && x in s.threads && y in s.threads && x != y
    ensures OtherTicket(s.threads[x], s.threads[y])
  {
  }

  lemma PushValue(s: State, x: Tid)
    requires ValueInv(s) && Enabled(s, Step(x)) && s.threads[x].pc.Own? && s.threads[x].op.Push?
    ensures ValueInv(Apply(s, Step(x)))
  {
    var s' := Apply(s, Step(x));
    StepTickets(s, x);
    var th := s.threads[x];
    var u := th.pc.t;
    assert ThreadTicket(s.q, th) && ThreadValue(s.q, s.store, th);
    forall y | y in s'.threads ensures ThreadValue(s'.q, s'.store, s'.threads[y]) {
      if y != x {
        var o := s.threads[y];
        ClaimsDiffer(s, x, y);
        assert ThreadTicket(s.q, o) && ThreadValue(s.q, s.store, o);
        if o.Busy? && o.pc.Publish? && Slot(s.q, o.pc.t) == Slot(s.q, u) {
          DueInjective(|s.q.turn|, SideOf(o.op), o.pc.t, Producer, u);
        }
      }
    }
    forall t: nat | TurnCame(s'.q, Consumer, t)
      ensures t in s'.store.sent && (t !in s'.store.received ==> s'.store.cell[Slot(s'.q, t)] == Some(s'.store.sent[t]))
    {
      if Slot(s.q, t) == Slot(s.q, u) {
        DueInjective(|s.q.turn|, Consumer, t, Producer, u);
      }
      assert TurnCame(s.q, Consumer, t);
    }
  }

  lemma PopValue(s: State, x: Tid)
    requires ValueInv(s) && Enabled(s, Step(x)) && s.threads[x].pc.Own? && s.threads[x].op.Pop?
    ensures ValueInv(Apply(s, Step(x)))
    ensures var t := s.threads[x].pc.t;
            && t in s.store.sent && t !in s.store.received
            && Apply(s, Step(x)).store.received == s.store.received[t := s.store.sent[t]]
  {
    var s' := Apply(s, Step(x));
    StepTickets(s, x);
    var th := s.threads[x];
    var u := th.pc.t;
    assert ThreadTicket(s.q, th) && ThreadValue(s.q, s.store, th);
    assert TurnCame(s.q, Consumer, u);
    forall y | y in s'.threads ensures ThreadValue(s'.q, s'.store, s'.threads[y]) {
      if y != x {
        var o := s.threads[y];
        ClaimsDiffer(s, x, y);
        assert ThreadTicket(s.q, o) && ThreadValue(s.q, s.store, o);
        if o.Busy? && o.pc.Publish? && Slot(s.q, o.pc.t) == Slot(s.q, u) {
          DueInjective(|s.q.turn|, SideOf(o.op), o.pc.t, Consumer, u);
        }
      }
    }
    forall t: nat | TurnCame(s'.q, Consumer, t)
      ensures t in s'.store.sent && (t !in s'.store.received ==> s'.store.cell[Slot(s'.q, t)] == Some(s'.store.sent[t]))
    {
      assert TurnCame(s.q, Consumer, t);
      if Slot(s.q, t) == Slot(s.q, u) {
        DueInjective(|s.q.turn|, Consumer, t, Consumer, u);
      }
    }
  }

  lemma PublishValues(s: State, x: Tid)
    requires ValueInv(s) && Enabled(s, Step(x)) && s.threads[x].pc.Publish?
    ensures ValueInv(Apply(s, Step(x)))
  {
    var s' := Apply(s, Step(x));
    StepTickets(s, x);
    var th := s.threads[x];
    var u := th.pc.t;
    assert ThreadTicket(s.q, th) && ThreadValue(s.q, s.store, th);
    forall y | y in s'.threads ensures ThreadValue(s'.q, s'.store, s'.threads[y]) {
      assert ThreadValue(s.q, s.store, s.threads[y]);
    }
    forall t: nat | TurnCame(s'.q, Consumer, t)
      ensures t in s'.store.sent && (t !in s'.store.received ==> s'.store.cell[Slot(s'.q, t)] == Some(s'.store.sent[t]))
    {
      if Slot(s.q, t) == Slot(s.q, u) {
        DueAfter(|s.q.turn|, u, Consumer, t);
      } else {
        assert TurnCame(s.q, Consumer, t);
      }
    }
  }

  lemma ClaimValues(s: State, x: Tid)
    requires ValueInv(s) && Enabled(s, Step(x)) && s.threads[x].pc.Claim?
    ensures ValueInv(Apply(s, Step(x)))
  {
    var op := s.threads[x].op;
    var n := Counter(s.q, SideOf(op));
    DrawValues(s, x, op, Wait(n, Guard));
    assert Apply(s, Step(x)) == SetPc(s.(q := SetCounter(s.q, SideOf(op), n + 1)), x, op, Wait(n, Guard));
  }

  lemma OwnValues(s: State, x: Tid)
    requires ValueInv(s) && Enabled(s, Step(x)) && s.threads[x].pc.Own?
    ensures ValueInv(Apply(s, Step(x)))
  {
    if s.threads[x].op.Push? {
      PushValue(s, x);
    } else {
      PopValue(s, x);
    }
  }

  lemma WakeValues(s: State, x: Tid)
    requires ValueInv(s) && Enabled(s, Step(x)) && s.threads[x].pc.Wake?
    ensures ValueInv(Apply(s, Step(x)))
  {
    StepTickets(s, x);
    var s' := Apply(s, Step(x));
    forall y | y in s'.threads && s'.threads[y].Busy? && Claimed(s'.threads[y].pc)
      ensures y in s.threads && SameValue(s.threads[y], s'.threads[y])
    {
    }
    KeepValues(s, s');
  }

  lemma RestValues(s: State, x: Tid)
    requires ValueInv(s) && Enabled(s, Step(x)) && (s.threads[x].pc.TryLoad? || s.threads[x].pc.Notify?)
    ensures ValueInv(Apply(s, Step(x)))
  {
    StepTickets(s, x);
    var s' := Apply(s, Step(x));
    KeepValuesOf(s, s', x, s'.threads[x]);
  }

  lemma StepValues(s: State, x: Tid)
    requires ValueInv(s) && Enabled(s, Step(x))
    ensures ValueInv(Apply(s, Step(x)))
  {
    match s.threads[x].pc
    case Wait(_, _) => WaitValues(s, x);
    case Try(_, _) => TryValues(s, x);
    case Own(_) => OwnValues(s, x);
    case Publish(_) => PublishValues(s, x);
    case Claim => ClaimValues(s, x);
    case Wake(_) => WakeValues(s, x);
    case _ => RestValues(s, x);
  }

  lemma EventValues(s: State, e: Event)
    requires ValueInv(s) && Enabled(s, e)
    ensures ValueInv(Apply(s, e))
  {
    if e.Step? {
      StepValues(s, e.x);
    } else {
      EventTickets(s, e);
      KeepValues(s, Apply(s, e));
    }
  }

  lemma {:induction false} RunValues(states: seq<State>, events: seq<Event>, k: nat)
    requires Run(states, events) && k < |states|
    ensures ValueInv(states[k])
  {
    if k == 0 {
      InitTickets(states[0]);
      InitUnfilled(states[0]);
    } else {
      RunValues(states, events, k - 1);
      EventValues(states[k - 1], events[k - 1]);
    }
  }

  lemma InitUnfilled(s: State)
    requires Init(s)
    ensures Filled(s.q, s.store)
  {
  }

  /** In every run, whatever was received under a ticket is what was sent under it. */
  lemma PopGetsItsTicket(states: seq<State>, events: seq<Event>, k: nat, t: nat)
    requires Run(states, events) && k < |states| && t in states[k].store.received
    ensures t in states[k].store.sent && states[k].store.received[t] == states[k].store.sent[t]
  {
    RunValues(states, events, k);
  }

  /** m' is m, or m with one more ticket. */
  ghost predicate Extends(m: map<nat, Value>, m': map<nat, Value>) {
    m' == m || exists t | t in m' :: t !in m && m' == m[t := m'[t]]
  }

  /** In every run, sent and received only ever gain tickets: no value is replaced or delivered again. */
  lemma DeliveredOnce(states: seq<State>, events: seq<Event>, k: nat)
    requires Run(states, events) && k < |events|
    ensures Extends(states[k].store.sent, states[k + 1].store.sent)
    ensures Extends(states[k].store.received, states[k + 1].store.received)
  {
    RunValues(states, events, k);
    var s, e := states[k], events[k];
    var st' := states[k + 1].store;
    if e.Step? && s.threads[e.x].pc.Own? {
      var th := s.threads[e.x];
      assert ThreadValue(s.q, s.store, th);
      if th.op.Pop? {
        PopValue(s, e.x);
        assert th.pc.t in st'.received;
      } else {
        assert th.pc.t in st'.sent;
      }
    } else {
      assert st' == s.store;
    }
  }

  // Nothing gets lost either.

  /** th has drawn ticket t of the given side but not yet sent, or received, its value. */
  predicate Owes(th: Thread, side: Side, t: nat) {
    th.Busy? && SideOf(th.op) == side && (th.pc.Wait? || th.pc.Own?) && th.pc.t == t
  }

  function Log(st: Store, side: Side): (m: map<nat, Value>) {
    if side.Producer? then st.sent else st.received
  }

  /** Every ticket drawn has been served, or some thread still owes it. */
  ghost predicate Accounted(s: State) {
    forall side: Side, t: nat | t < Counter(s.q, side) ::
      t in Log(s.store, side) || exists x | x in s.threads :: Owes(s.threads[x], side, t)
  }

  /** An event leaves other threads alone, except that it may rouse sleepers. */
  lemma BystandersKept(s: State, e: Event, y: Tid)
    requires Enabled(s, e) && y in s.threads && e.x != y
    ensures var s' := Apply(s, e);
            y in s'.threads &&
            (s'.threads[y] == s.threads[y] || (IsAsleep(s.threads[y]) && s'.threads[y] == Roused(s.threads[y])))
  {
  }

  lemma OwesOwn(s: State, x: Tid, side: Side, t: nat)
    requires ValueInv(s) && Enabled(s, Step(x)) && Owes(s.threads[x], side, t)
    ensures var s' := Apply(s, Step(x)); t in Log(s'.store, side) || Owes(s'.threads[x], side, t)
  {
    if s.threads[x].pc.Own? && s.threads[x].op.Pop? {
      PopValue(s, x);
    }
  }

  lemma OwesKept(s: State, e: Event, y: Tid, side: Side, t: nat)
    requires ValueInv(s) && Enabled(s, e) && y in s.threads && Owes(s.threads[y], side, t)
    ensures var s' := Apply(s, e); t in Log(s'.store, side) || (y in s'.threads && Owes(s'.threads[y], side, t))
  {
    if e.x != y {
      BystandersKept(s, e, y);
    } else if e.Step? {
      OwesOwn(s, y, side, t);
    }
  }

  lemma LogGrows(s: State, e: Event, side: Side, t: nat)
    requires Enabled(s, e) && t in Log(s.store, side)
    ensures t in Log(Apply(s, e).store, side)
  {
  }

  lemma DrawsOwe(s: State, e: Event, side: Side)
    requires ValueInv(s) && Enabled(s, e) && Counter(Apply(s, e).q, side) > Counter(s.q, side)
    ensures Counter(Apply(s, e).q, side) == Counter(s.q, side) + 1
    ensures e.Step? && Owes(Apply(s, e).threads[e.x], side, Counter(s.q, side))
  {
    if e.Step? {
      assert s.threads[e.x].pc.Claim? || (s.threads[e.x].pc.Try? && s.threads[e.x].pc.a.TryCas?);
    }
  }

  lemma EventAccounts(s: State, e: Event)
    requires ValueInv(s) && Enabled(s, e) && Accounted(s)
    ensures Accounted(Apply(s, e))
  {
    var s' := Apply(s, e);
    forall side: Side, t: nat | t < Counter(s'.q, side)
      ensures t in Log(s'.store, side) || exists x | x in s'.threads :: Owes(s'.threads[x], side, t)
    {
      if t >= Counter(s.q, side) {
        DrawsOwe(s, e, side);
      } else if t in Log(s.store, side) {
        LogGrows(s, e, side, t);
      } else {
        var y :| y in s.threads && Owes(s.threads[y], side, t);
        OwesKept(s, e, y, side, t);
      }
    }
  }

  lemma {:induction false} RunAccounts(states: seq<State>, events: seq<Event>, k: nat)
    requires Run(states, events) && k < |states|
    ensures Accounted(states[k])
  {
    if k > 0 {
      RunAccounts(states, events, k - 1);
      RunValues(states, events, k - 1);
      EventAccounts(states[k - 1], events[k - 1]);
    }
  }

  /**
    Whenever all threads are at rest, the values sent are those of tickets
    0..head, the values received are those of tickets 0..tail, and what is left
    in the queue is exactly the tickets in between.
   */
  lemma QuiescentQueue(states: seq<State>, events: seq<Event>, k: nat)
    requires Run(states, events) && k < |states|
    requires forall x | x in states[k].threads :: states[k].threads[x].Idle?
    ensures var s := states[k];
            && s.q.tail <= s.q.head
            && (forall t: nat :: t in s.store.sent <==> t < s.q.head)
            && (forall t: nat :: t in s.store.received <==> t < s.q.tail)
            && (forall t | t in s.store.received :: s.store.received[t] == s.store.sent[t])
  {
    RunValues(states, events, k);
    RunAccounts(states, events, k);
    var s := states[k];
    assert Fresh(s.q, s.store) && Delivered(s.store);
    forall side: Side, t: nat | t < Counter(s.q, side) ensures t in Log(s.store, side) {
    }
    forall t: nat | t < s.q.head ensures t in s.store.sent {
      assert t < Counter(s.q, Producer) && t in Log(s.store, Producer);
    }
    forall t: nat | t < s.q.tail ensures t in s.store.received {
      assert t < Counter(s.q, Consumer) && t in Log(s.store, Consumer);
    }
    assert s.q.head < s.q.tail ==> s.q.head in s.store.received;
  }
}
