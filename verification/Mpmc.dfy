/**
  The bounded multi-producer multi-consumer queue in shared memory, with the
  event counts its blocking operations sleep on.  Every atomic load, store,
  compare-and-swap and fetch-add, and every futex call, is one step of a thread;
  any number of threads interleave.
 */
module Mpmc {
  import opened Common

  /** Elements; nothing depends on what they are. */
  type Value = int

  datatype Side = Producer | Consumer

  function Opposite(side: Side): (o: Side) {
    if side.Producer? then Consumer else Producer
  }

  datatype Op = Push(v: Value) | Pop

  function SideOf(op: Op): (side: Side) {
    if op.Push? then Producer else Consumer
  }

  /** Where a blocking operation is while its turn has not come; key is the epoch it prepared with. */
  datatype WaitPc =
    | Guard
    | FastTest
    | Prepare
    | Recheck(key: int)
    | Cancel
    | EpochTest(key: int)
    | Enter(key: int)
    | Asleep(key: int)
    | Leave

  datatype TryPc = TryTest | TryCas | TryReload

  datatype Pc =
    | Claim
    | TryLoad
    | Try(t: nat, a: TryPc)
    | Wait(t: nat, w: WaitPc)
    | Own(t: nat)
    | Publish(t: nat)
    | Notify(t: nat)
    | Wake(t: nat)

  datatype Thread = Idle | Busy(op: Op, pc: Pc)

  type Tid = nat

  /** The two ticket counters and each slot's turn. */
  datatype Turns = Turns(head: nat, tail: nat, turn: seq<nat>)

  /** Each slot's two event words: full for sleeping producers, empty for sleeping consumers. */
  datatype Words = Words(full: seq<int>, empty: seq<int>)

  /** Each slot's storage and, for the proofs only, which value went through under which ticket. */
  datatype Store = Store(cell: seq<Option<Value>>, sent: map<nat, Value>, received: map<nat, Value>)

  datatype State = State(q: Turns, words: Words, store: Store, threads: map<Tid, Thread>)

  datatype Event =
    | Spawn(x: Tid)
    | Start(x: Tid, op: Op, blocking: bool)
    | Step(x: Tid)
    | Rouse(x: Tid)            // a spurious or interrupted futex wait

  // The packed event word: epoch above, waiter count below.

  const ADD_EPOCH := 0x1_0000_0000
  const ADD_WAITER := 1
  const SUB_WAITER := -1

  function EpochOf(word: int): (e: int) {
    word / ADD_EPOCH
  }

  function WaitersOf(word: int): (n: int) {
    word % ADD_EPOCH
  }

  // Tickets.

  /** The slot of ticket t: its remainder by the capacity (TicketArithmetic). */
  function Idx(cap: nat, t: nat): (i: nat)
    requires cap > 0
    ensures i < cap
  {
    if t < cap then t else Idx(cap, t - cap)
  }

  /** The round of ticket t: its quotient by the capacity (TicketArithmetic). */
  function Round(cap: nat, t: nat): (k: nat)
    requires cap > 0
  {
    if t < cap then 0 else Round(cap, t - cap) + 1
  }

  /** The slot turn that lets the given side's ticket t proceed. */
  function Due(cap: nat, side: Side, t: nat): (turn: nat)
    requires cap > 0
  {
    if side.Producer? then Round(cap, t) * 2 else Round(cap, t) * 2 + 1
  }

  predicate Shaped(s: State) {
    && |s.q.turn| > 0
    && |s.words.full| == |s.words.empty| == |s.store.cell| == |s.q.turn|
  }

  function Counter(q: Turns, side: Side): (n: nat) {
    if side.Producer? then q.head else q.tail
  }

  function SetCounter(q: Turns, side: Side, n: nat): (q': Turns) {
    if side.Producer? then q.(head := n) else q.(tail := n)
  }

  function Slot(q: Turns, t: nat): (i: nat)
    requires |q.turn| > 0
    ensures i < |q.turn|
  {
    Idx(|q.turn|, t)
  }

  predicate TurnCame(q: Turns, side: Side, t: nat)
    requires |q.turn| > 0
  {
    q.turn[Slot(q, t)] == Due(|q.turn|, side, t)
  }

  function Advance(q: Turns, side: Side, t: nat): (q': Turns)
    requires |q.turn| > 0
  {
    q.(turn := q.turn[Slot(q, t) := Due(|q.turn|, side, t) + 1])
  }

  function Word(w: Words, side: Side, i: nat): (n: int)
    requires i < |w.full| == |w.empty|
  {
    if side.Producer? then w.full[i] else w.empty[i]
  }

  function FetchAdd(w: Words, side: Side, i: nat, d: int): (w': Words)
    requires i < |w.full| == |w.empty|
  {
    if side.Producer? then w.(full := w.full[i := w.full[i] + d]) else w.(empty := w.empty[i := w.empty[i] + d])
  }

  // Steps.

  ghost predicate Init(s: State) {
    && Shaped(s)
    && s.q.head == 0 && s.q.tail == 0
    && (forall i | 0 <= i < |s.q.turn| ::
          s.q.turn[i] == 0 && s.words.full[i] == 0 && s.words.empty[i] == 0 && s.store.cell[i] == None)
    && s.threads == map[] && s.store.sent == map[] && s.store.received == map[]
  }

  predicate IsAsleep(th: Thread) {
    th.Busy? && th.pc.Wait? && th.pc.w.Asleep?
  }

  /** The waiter half of an event word has room for every thread. */
  predicate Enabled(s: State, e: Event) {
    && Shaped(s)
    && match e
       case Spawn(x) => x !in s.threads && |s.threads| + 1 < ADD_EPOCH
       case Start(x, _, _) => x in s.threads && s.threads[x].Idle?
       case Step(x) => x in s.threads && s.threads[x].Busy? && !IsAsleep(s.threads[x])
       case Rouse(x) => x in s.threads && IsAsleep(s.threads[x])
  }

  function Roused(th: Thread): (th': Thread)
    requires IsAsleep(th)
  {
    Busy(th.op, Wait(th.pc.t, EpochTest(th.pc.w.key)))
  }

  predicate SleepsOn(cap: nat, th: Thread, side: Side, i: nat)
    requires cap > 0
  {
    IsAsleep(th) && SideOf(th.op) == side && Idx(cap, th.pc.t) == i
  }

  /** A futex wake on one event: every thread asleep on it runs again. */
  function WakeAll(cap: nat, threads: map<Tid, Thread>, side: Side, i: nat): (m: map<Tid, Thread>)
    requires cap > 0
  {
    map x | x in threads :: if SleepsOn(cap, threads[x], side, i) then Roused(threads[x]) else threads[x]
  }

  function SetPc(s: State, x: Tid, op: Op, pc: Pc): (s': State) {
    s.(threads := s.threads[x := Busy(op, pc)])
  }

  /** The next wait state, decided by the slot's turn and the event word. */
  function NextWait(came: bool, word: int, w: WaitPc): (w': WaitPc)
    requires !w.Asleep?
  {
    match w
    case Guard => FastTest
    case FastTest => if came then Guard else Prepare
    case Prepare => Recheck(EpochOf(word))
    case Recheck(key) => if came then Cancel else EpochTest(key)
    case Cancel => Guard
    case EpochTest(key) => if EpochOf(word) == key then Enter(key) else Leave
    case Enter(key) => if EpochOf(word) == key then Asleep(key) else EpochTest(key)
    case Leave => Prepare
  }

  /** What a wait step adds to the event word: preparing counts a waiter in, cancelling and leaving out. */
  function WaitDelta(w: WaitPc): (d: int) {
    match w
    case Prepare => ADD_WAITER
    case Cancel => SUB_WAITER
    case Leave => SUB_WAITER
    case _ => 0
  }

  function WaitStep(s: State, x: Tid, op: Op, t: nat, w: WaitPc): (s': State)
    requires Shaped(s) && !w.Asleep?
  {
    var side, i := SideOf(op), Slot(s.q, t);
    var came := TurnCame(s.q, side, t);
    if w.Guard? && came then SetPc(s, x, op, Own(t))
    else SetPc(s.(words := FetchAdd(s.words, side, i, WaitDelta(w))), x, op,
               Wait(t, NextWait(came, Word(s.words, side, i), w)))
  }

  function TryStep(s: State, x: Tid, op: Op, t: nat, a: TryPc): (s': State)
    requires Shaped(s)
  {
    var side := SideOf(op);
    var n := Counter(s.q, side);
    match a
    case TryTest => SetPc(s, x, op, Try(t, if TurnCame(s.q, side, t) then TryCas else TryReload))
    case TryCas =>
      if n == t then SetPc(s.(q := SetCounter(s.q, side, t + 1)), x, op, Own(t)) else SetPc(s, x, op, Try(n, TryTest))
    case TryReload =>
      if n == t then s.(threads := s.threads[x := Idle]) else SetPc(s, x, op, Try(n, TryTest))
  }

  /** Construct or move out the element; the storage is this thread's alone. */
  function OwnStep(st: Store, i: nat, op: Op, t: nat): (st': Store)
    requires i < |st.cell|
  {
    match op
    case Push(v) => Store(st.cell[i := Some(v)], st.sent[t := v], st.received)
    case Pop =>
      Store(st.cell[i := None], st.sent,
            if st.cell[i].Some? then st.received[t := st.cell[i].value] else st.received)
  }

  function NotifyStep(s: State, x: Tid, op: Op, t: nat): (s': State)
    requires Shaped(s)
  {
    var ev, i := Opposite(SideOf(op)), Slot(s.q, t);
    var s1 := s.(words := FetchAdd(s.words, ev, i, ADD_EPOCH));
    if WaitersOf(Word(s.words, ev, i)) != 0 then SetPc(s1, x, op, Wake(t))
    else s1.(threads := s.threads[x := Idle])
  }

  function BusyStep(s: State, x: Tid, op: Op, pc: Pc): (s': State)
    requires Shaped(s) && !(pc.Wait? && pc.w.Asleep?)
  {
    var side := SideOf(op);
    var n := Counter(s.q, side);
    match pc
    case Claim => SetPc(s.(q := SetCounter(s.q, side, n + 1)), x, op, Wait(n, Guard))
    case TryLoad => SetPc(s, x, op, Try(n, TryTest))
    case Try(t, a) => TryStep(s, x, op, t, a)
    case Wait(t, w) => WaitStep(s, x, op, t, w)
    case Own(t) => SetPc(s.(store := OwnStep(s.store, Slot(s.q, t), op, t)), x, op, Publish(t))
    case Publish(t) => SetPc(s.(q := Advance(s.q, side, t)), x, op, Notify(t))
    case Notify(t) => NotifyStep(s, x, op, t)
    case Wake(t) => s.(threads := WakeAll(|s.q.turn|, s.threads, Opposite(side), Slot(s.q, t))[x := Idle])
  }

  function Apply(s: State, e: Event): (s': State)
    requires Enabled(s, e)
  {
    match e
    case Spawn(x) => s.(threads := s.threads[x := Idle])
    case Start(x, op, blocking) => SetPc(s, x, op, if blocking then Claim else TryLoad)
    case Step(x) => BusyStep(s, x, s.threads[x].op, s.threads[x].pc)
    case Rouse(x) => s.(threads := s.threads[x := Roused(s.threads[x])])
  }

  ghost predicate Run(states: seq<State>, events: seq<Event>) {
    && |states| == |events| + 1
    && Init(states[0])
    && forall k | 0 <= k < |events| ::
         Enabled(states[k], events[k]) && states[k + 1] == Apply(states[k], events[k])
  }
}
